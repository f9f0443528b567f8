/**
 * Which chord is playing at time t. Every view finds it the same way: the first event with
 * `start_time <= t < end_time` (`Array.prototype.find`), shown as its name or `--`.
 * The views look it up in the condensed list; the lemmas here relate that to the raw list.
 */
module Timeline {
  import opened Wrappers
  import opened Analysis
  import opened Chords

  predicate IsActive<L>(c: Span<L>, t: real) {
    c.startTime <= t < c.endTime
  }

  /** Index of the first event active at t, if any. */
  function FindActive<L>(cs: seq<Span<L>>, t: real): (r: Option<nat>)
    ensures r.Some? ==> r.value < |cs| && IsActive(cs[r.value], t)
    ensures r.Some? ==> forall j :: 0 <= j < r.value ==> !IsActive(cs[j], t)
    ensures r.None? <==> forall j :: 0 <= j < |cs| ==> !IsActive(cs[j], t)
  {
    if cs == [] then None
    else if IsActive(cs[0], t) then Some(0)
    else match FindActive(cs[1..], t)
      case None => None
      case Some(i) => Some(i + 1)
  }

  /** The label the "Now" box shows: the active chord's name, or `--`. */
  function ActiveName(cs: seq<ChordEvent>, t: real): (r: string)
    ensures FindActive(cs, t).Some? ==> r == cs[FindActive(cs, t).value].chordName
    ensures FindActive(cs, t).None? ==> r == "--"
  {
    match FindActive(cs, t)
    case Some(i) => cs[i].chordName
    case None => "--"
  }

  /** Events in time order without overlap, as the analyser emits them. */
  predicate Sorted<L>(cs: seq<Span<L>>) {
    && (forall j :: 0 <= j < |cs| ==> cs[j].startTime <= cs[j].endTime)
    && (forall j :: 0 <= j < |cs| - 1 ==> cs[j].endTime <= cs[j + 1].startTime)
  }

  lemma {:induction false} SortedOrder<L>(cs: seq<Span<L>>, a: nat, b: nat)
    requires Sorted(cs) && a < b < |cs|
    ensures cs[a].endTime <= cs[b].startTime
    decreases b - a
  {
    if a + 1 < b {
      SortedOrder(cs, a + 1, b);
    }
  }

  /** The start of the run event i belongs to. */
  function RunFirst<L(==)>(cs: seq<Span<L>>, i: nat): (r: nat)
    requires i < |cs|
    ensures r <= i && RunStart(cs, r)
    ensures forall j :: r < j <= i ==> !RunStart(cs, j)
  {
    if RunStart(cs, i) then i else RunFirst(cs, i - 1)
  }

  /** The end of the run event i belongs to. */
  function RunLast<L(==)>(cs: seq<Span<L>>, i: nat): (r: nat)
    requires i < |cs|
    ensures i <= r < |cs| && RunEnd(cs, r)
    ensures forall j :: i <= j < r ==> !RunEnd(cs, j)
    decreases |cs| - i
  {
    if RunEnd(cs, i) then i else RunLast(cs, i + 1)
  }

  /** Events with no run start between them share a condensed entry. */
  lemma {:induction false} SameRunSameOwner<L>(cs: seq<Span<L>>, a: nat, b: nat)
    requires a <= b < |cs|
    requires forall j :: a < j <= b ==> !RunStart(cs, j)
    ensures Owners(cs)[a] == Owners(cs)[b]
    decreases b - a
  {
    if a < b {
      SameRunSameOwner(cs, a, b - 1);
      OwnersStep(cs, b);
    }
  }

  /** Every condensed entry up to Owners(cs)[j] is owned by some event at or before j. */
  lemma {:induction false} OwnerReached<L>(cs: seq<Span<L>>, j: nat, k: nat) returns (i: nat)
    requires j < |cs| && k <= Owners(cs)[j]
    ensures i <= j && Owners(cs)[i] == k
  {
    if Owners(cs)[j] == k {
      i := j;
    } else {
      OwnersStep(cs, j);
      i := OwnerReached(cs, j - 1, k);
    }
  }

  /** The condensed entry of event i spans at least the event's own interval. */
  lemma CondensedCovers<L>(cs: seq<Span<L>>, i: nat)
    requires Sorted(cs) && i < |cs|
    ensures Owners(cs)[i] < |Condense(cs)|
    ensures Condense(cs)[Owners(cs)[i]].startTime <= cs[i].startTime
    ensures cs[i].endTime <= Condense(cs)[Owners(cs)[i]].endTime
  {
    var s, e := RunFirst(cs, i), RunLast(cs, i);
    SameRunSameOwner(cs, s, i);
    forall j | i < j <= e
      ensures !RunStart(cs, j)
    {
      assert !RunEnd(cs, j - 1);
    }
    SameRunSameOwner(cs, i, e);
    CondenseAt(cs, s);
    CondenseAt(cs, e);
    if s < i {
      SortedOrder(cs, s, i);
    }
    if i < e {
      SortedOrder(cs, i, e);
    }
  }

  /** Condensed entries before event i's entry end no later than event i starts. */
  lemma EarlierEntriesEnd<L>(cs: seq<Span<L>>, i: nat, k: nat)
    requires Sorted(cs) && i < |cs| && k < Owners(cs)[i]
    ensures k < |Condense(cs)|
    ensures Condense(cs)[k].endTime <= cs[i].startTime
  {
    CondenseLength(cs);
    OwnersMonotone(cs, i, |cs| - 1);
    var j := OwnerReached(cs, i, k);
    var e := RunLast(cs, j);
    SameRunSameOwner(cs, j, e) by {
      forall m | j < m <= e
        ensures !RunStart(cs, m)
      {
        assert !RunEnd(cs, m - 1);
      }
    }
    CondenseAt(cs, e);
    if i <= e {
      OwnersMonotone(cs, i, e);
    }
    SortedOrder(cs, e, i);
  }

  /**
   * For events in time order, the condensed list finds the entry of the raw list's
   * active event: condensing never changes which chord is shown while some event is active.
   */
  lemma ActiveAfterCondense<L>(cs: seq<Span<L>>, t: real)
    requires Sorted(cs) && FindActive(cs, t).Some?
    ensures FindActive(Condense(cs), t) == Some(Owners(cs)[FindActive(cs, t).value])
    ensures Condense(cs)[Owners(cs)[FindActive(cs, t).value]].chordName == cs[FindActive(cs, t).value].chordName
  {
    var i := FindActive(cs, t).value;
    var out := Condense(cs);
    var k := Owners(cs)[i];
    CondensedCovers(cs, i);
    CondenseAt(cs, i);
    forall m | 0 <= m < k
      ensures !IsActive(out[m], t)
    {
      EarlierEntriesEnd(cs, i, m);
    }
    assert IsActive(out[k], t);
    FindActiveFirst(out, t, k);
  }

  /** An active entry with no active entry before it is what `find` returns. */
  lemma FindActiveFirst<L>(cs: seq<Span<L>>, t: real, k: nat)
    requires k < |cs| && IsActive(cs[k], t)
    requires forall m :: 0 <= m < k ==> !IsActive(cs[m], t)
    ensures FindActive(cs, t) == Some(k)
  {
  }

  lemma ActiveNameAfterCondense(cs: seq<ChordEvent>, t: real)
    requires Sorted(cs) && FindActive(cs, t).Some?
    ensures ActiveName(Condense(cs), t) == ActiveName(cs, t)
  {
    ActiveAfterCondense(cs, t);
  }

  /**
   * The converse fails in a gap inside a run: C over [0,1) and C over [2,3) condense to one
   * C over [0,3), so at t = 1.5 the raw list shows `--` and the condensed list shows C.
   */
  lemma GapInsideRunIsFilled()
    ensures var cs := [Span(0.0, 1.0, "C", None), Span(2.0, 3.0, "C", None)];
      Sorted(cs) && ActiveName(cs, 1.5) == "--" && ActiveName(Condense(cs), 1.5) == "C"
  {
    var cs := [Span(0.0, 1.0, "C", None), Span(2.0, 3.0, "C", None)];
    assert cs[..1] == [cs[0]];
    assert Condense(cs) == [Span(0.0, 3.0, "C", None)];
  }
}
