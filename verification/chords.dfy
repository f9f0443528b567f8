/**
 * Chord timeline helpers (music-frontend/src/utils/chords.ts): condensing adjacent
 * events with the same chord name, and the distinct names in first-seen order.
 * Everything here depends only on equality of labels, so it is stated for spans
 * with any label type; chord events are the `string`-labelled spans.
 */
module Chords {
  import opened Analysis

  function Names<L>(cs: seq<Span<L>>): (r: seq<L>)
    ensures |r| == |cs|
    ensures forall i :: 0 <= i < |cs| ==> r[i] == cs[i].chordName
  {
    seq(|cs|, i requires 0 <= i < |cs| => cs[i].chordName)
  }

  /**
   * `condenseChords`: walk the events in order; an event whose name equals the last
   * output entry's name extends that entry's end, any other event is appended as a copy.
   */
  function Condense<L(==)>(cs: seq<Span<L>>): (out: seq<Span<L>>)
    ensures |out| <= |cs|
    ensures |out| == 0 <==> |cs| == 0
  {
    if cs == [] then [] else Push(Condense(cs[..|cs| - 1]), cs[|cs| - 1])
  }

  /** One step of the loop: extend the last entry or append a copy of `c`. */
  function Push<L(==)>(out: seq<Span<L>>, c: Span<L>): seq<Span<L>> {
    if |out| > 0 && out[|out| - 1].chordName == c.chordName then
      out[..|out| - 1] + [out[|out| - 1].(endTime := c.endTime)]
    else
      out + [c]
  }

  /** The last condensed entry carries the last event's name and end. */
  lemma CondenseLast<L>(cs: seq<Span<L>>)
    requires |cs| > 0
    ensures var out := Condense(cs);
      out[|out| - 1].chordName == cs[|cs| - 1].chordName && out[|out| - 1].endTime == cs[|cs| - 1].endTime
  {
  }

  /** No two neighbouring condensed entries share a name. */
  lemma {:induction false} CondenseNoAdjacentRepeats<L>(cs: seq<Span<L>>)
    ensures var out := Condense(cs);
      forall k :: 0 <= k < |out| - 1 ==> out[k].chordName != out[k + 1].chordName
  {
    if cs != [] {
      var p := cs[..|cs| - 1];
      CondenseNoAdjacentRepeats(p);
      if p != [] {
        CondenseLast(p);
      }
    }
  }

  /** Event i opens a run of equal names. */
  predicate RunStart<L(==)>(cs: seq<Span<L>>, i: nat)
    requires i < |cs|
  {
    i == 0 || cs[i].chordName != cs[i - 1].chordName
  }

  /** Event i closes a run of equal names. */
  predicate RunEnd<L(==)>(cs: seq<Span<L>>, i: nat)
    requires i < |cs|
  {
    i == |cs| - 1 || cs[i + 1].chordName != cs[i].chordName
  }

  /** For each event, the run it belongs to: the number of name changes among events 0..i. */
  function Owners<L(==)>(cs: seq<Span<L>>): (o: seq<nat>)
    ensures |o| == |cs|
    ensures |cs| > 0 ==> o[0] == 0
  {
    if cs == [] then []
    else
      var n := |cs| - 1;
      var o := Owners(cs[..n]);
      o + [if n == 0 then 0 else o[n - 1] + (if RunStart(cs, n) then 1 else 0)]
  }

  /** The run index grows by one exactly where a new name starts. */
  lemma {:induction false} OwnersStep<L>(cs: seq<Span<L>>, i: nat)
    requires 0 < i < |cs|
    ensures Owners(cs)[i] == Owners(cs)[i - 1] + (if RunStart(cs, i) then 1 else 0)
  {
    var n := |cs| - 1;
    if i < n {
      OwnersStep(cs[..n], i);
    }
  }

  lemma {:induction false} OwnersMonotone<L>(cs: seq<Span<L>>, i: nat, j: nat)
    requires i <= j < |cs|
    ensures Owners(cs)[i] <= Owners(cs)[j]
    ensures Owners(cs)[i] == Owners(cs)[j] ==> cs[i].chordName == cs[j].chordName
    decreases j - i
  {
    if i < j {
      OwnersMonotone(cs, i, j - 1);
      OwnersStep(cs, j);
    }
  }

  /** One condensed entry per run: the length is the last event's run index plus one. */
  lemma {:induction false} CondenseLength<L>(cs: seq<Span<L>>)
    requires |cs| > 0
    ensures |Condense(cs)| == Owners(cs)[|cs| - 1] + 1
  {
    var n := |cs| - 1;
    if n > 0 {
      var p := cs[..n];
      CondenseLength(p);
      CondenseLast(p);
      OwnersStep(cs, n);
      assert Owners(p) == Owners(cs)[..n];
    }
  }

  /**
   * What the condensed entry `out[k]` owes input event i: the same name, the event's start
   * (and copied `error` field) when i opens its run, the event's end when i closes it.
   */
  predicate EntryFor<L(==)>(cs: seq<Span<L>>, out: seq<Span<L>>, k: nat, i: nat)
    requires i < |cs|
  {
    && k < |out|
    && out[k].chordName == cs[i].chordName
    && (RunStart(cs, i) ==> out[k].startTime == cs[i].startTime && out[k].error == cs[i].error)
    && (RunEnd(cs, i) ==> out[k].endTime == cs[i].endTime)
  }

  /** Condensing and run numbering unfold one event from the right. */
  lemma CondenseSnoc<L>(p: seq<Span<L>>, c: Span<L>)
    ensures Condense(p + [c]) == Push(Condense(p), c)
    ensures Owners(p + [c])[..|p|] == Owners(p)
  {
    assert (p + [c])[..|p|] == p;
  }

  /** Event i lands in condensed entry Owners(cs)[i]. */
  lemma {:induction false} CondenseAt<L>(cs: seq<Span<L>>, i: nat)
    requires i < |cs|
    ensures EntryFor(cs, Condense(cs), Owners(cs)[i], i)
  {
    var n := |cs| - 1;
    CondenseLength(cs);
    CondenseLast(cs);
    if i < n {
      var p, c := cs[..n], cs[n];
      assert cs == p + [c];
      CondenseAt(p, i);
      CondenseStep(p, c, i);
    } else if n > 0 && RunStart(cs, n) {
      var p, c := cs[..n], cs[n];
      assert cs == p + [c];
      CondenseSnoc(p, c);
      CondenseLast(p);
    }
  }

  /** The inductive step of CondenseAt for an event before the new one. */
  lemma CondenseStep<L>(p: seq<Span<L>>, c: Span<L>, i: nat)
    requires i < |p| && EntryFor(p, Condense(p), Owners(p)[i], i)
    ensures EntryFor(p + [c], Condense(p + [c]), Owners(p + [c])[i], i)
  {
    if c.chordName != p[|p| - 1].chordName {
      CondenseStepAppended(p, c, i);
    } else {
      CondenseStepMerged(p, c, i);
    }
  }

  lemma CondenseStepAppended<L>(p: seq<Span<L>>, c: Span<L>, i: nat)
    requires i < |p| && EntryFor(p, Condense(p), Owners(p)[i], i)
    requires c.chordName != p[|p| - 1].chordName
    ensures EntryFor(p + [c], Condense(p + [c]), Owners(p + [c])[i], i)
  {
    var outP := Condense(p);
    CondenseSnoc(p, c);
    CondenseLast(p);
    assert Condense(p + [c]) == outP + [c];
    assert Owners(p + [c])[i] == Owners(p)[i];
    AppendedEntry(p, c, outP, Owners(p)[i], i);
  }

  lemma CondenseStepMerged<L>(p: seq<Span<L>>, c: Span<L>, i: nat)
    requires i < |p| && EntryFor(p, Condense(p), Owners(p)[i], i)
    requires c.chordName == p[|p| - 1].chordName
    ensures EntryFor(p + [c], Condense(p + [c]), Owners(p + [c])[i], i)
  {
    var outP := Condense(p);
    CondenseSnoc(p, c);
    CondenseLast(p);
    assert Condense(p + [c]) == outP[..|outP| - 1] + [outP[|outP| - 1].(endTime := c.endTime)];
    assert Owners(p + [c])[i] == Owners(p)[i];
    if i < |p| - 1 && RunEnd(p, i) {
      ClosedRunNotLast(p, i);
    }
    MergedEntry(p, c, outP, Owners(p)[i], i);
  }

  /** An event that closes its run before the end sits in an entry before the last. */
  lemma ClosedRunNotLast<L>(p: seq<Span<L>>, i: nat)
    requires i < |p| - 1 && RunEnd(p, i)
    ensures Owners(p)[i] < |Condense(p)| - 1
  {
    OwnersStep(p, i + 1);
    OwnersMonotone(p, i + 1, |p| - 1);
    CondenseLength(p);
  }

  /** Appending a new run keeps what earlier entries owe earlier events. */
  lemma AppendedEntry<L>(p: seq<Span<L>>, c: Span<L>, outP: seq<Span<L>>, k: nat, i: nat)
    requires i < |p| && EntryFor(p, outP, k, i)
    requires c.chordName != p[|p| - 1].chordName
    ensures EntryFor(p + [c], outP + [c], k, i)
  {
    var cs := p + [c];
    assert cs[i] == p[i];
    assert RunStart(cs, i) == RunStart(p, i);
    assert RunEnd(cs, i) == RunEnd(p, i);
  }

  /** Extending the last run keeps what entries owe earlier events, provided an event that
      closed its run before the end sits in an entry before the last. */
  lemma MergedEntry<L>(p: seq<Span<L>>, c: Span<L>, outP: seq<Span<L>>, k: nat, i: nat)
    requires i < |p| && EntryFor(p, outP, k, i)
    requires c.chordName == p[|p| - 1].chordName
    requires i < |p| - 1 && RunEnd(p, i) ==> k < |outP| - 1
    ensures EntryFor(p + [c], outP[..|outP| - 1] + [outP[|outP| - 1].(endTime := c.endTime)], k, i)
  {
    var cs := p + [c];
    var out := outP[..|outP| - 1] + [outP[|outP| - 1].(endTime := c.endTime)];
    assert cs[i] == p[i];
    assert RunStart(cs, i) == RunStart(p, i);
    if i < |p| - 1 {
      assert RunEnd(cs, i) == RunEnd(p, i);
    } else {
      assert !RunEnd(cs, i);
    }
    assert out[k].chordName == outP[k].chordName && out[k].startTime == outP[k].startTime;
  }

  /** CondenseAt for every event at once. */
  lemma CondenseRuns<L>(cs: seq<Span<L>>)
    requires |cs| > 0
    ensures |Condense(cs)| == Owners(cs)[|cs| - 1] + 1
    ensures forall i :: 0 <= i < |cs| ==>
      Owners(cs)[i] < |Condense(cs)| && Condense(cs)[Owners(cs)[i]].chordName == cs[i].chordName
    ensures forall i :: 0 <= i < |cs| && RunStart(cs, i) ==>
      Condense(cs)[Owners(cs)[i]].startTime == cs[i].startTime
      && Condense(cs)[Owners(cs)[i]].error == cs[i].error
    ensures forall i :: 0 <= i < |cs| && RunEnd(cs, i) ==>
      Condense(cs)[Owners(cs)[i]].endTime == cs[i].endTime
  {
    CondenseLength(cs);
    forall i | 0 <= i < |cs|
      ensures EntryFor(cs, Condense(cs), Owners(cs)[i], i)
    {
      CondenseAt(cs, i);
    }
  }

  /** Two events with the same name but a different name between them stay in separate entries. */
  lemma NonAdjacentRepeatsSeparate<L>(cs: seq<Span<L>>, i: nat, k: nat, j: nat)
    requires i < k < j < |cs|
    requires cs[k].chordName != cs[i].chordName
    ensures Owners(cs)[i] < Owners(cs)[j]
  {
    OwnersMonotone(cs, i, k);
    OwnersMonotone(cs, k, j);
  }

  /** `getDistinctChordNames` over a list of names: each name once, in first-seen order. */
  function Distinct<L(==)>(names: seq<L>): (r: seq<L>)
    ensures |r| <= |names|
    ensures forall a :: 0 <= a < |r| ==> r[a] in names
    ensures forall i :: 0 <= i < |names| ==> names[i] in r
    ensures forall a, b :: 0 <= a < b < |r| ==> r[a] != r[b]
  {
    if names == [] then []
    else
      var d := Distinct(names[..|names| - 1]);
      var x := names[|names| - 1];
      if x in d then d else d + [x]
  }

  function DistinctChordNames<L(==)>(cs: seq<Span<L>>): seq<L> {
    Distinct(Names(cs))
  }

  /** Index of the first occurrence of `x`. */
  function FirstIndex<L(==)>(names: seq<L>, x: L): (i: nat)
    requires x in names
    ensures i < |names| && names[i] == x
    ensures forall j :: 0 <= j < i ==> names[j] != x
  {
    if names[0] == x then 0 else 1 + FirstIndex(names[1..], x)
  }

  lemma {:induction false} FirstIndexPrefix<L>(names: seq<L>, n: nat, x: L)
    requires n <= |names| && x in names[..n]
    ensures FirstIndex(names, x) == FirstIndex(names[..n], x)
  {
    var i := FirstIndex(names[..n], x);
    var k := FirstIndex(names, x);
    assert names[i] == x;
    assert k <= i;
    assert names[..n][k] == x;
  }

  /** The distinct names appear in the order of their first occurrence in the input. */
  lemma {:induction false} DistinctFirstSeenOrder<L>(names: seq<L>)
    ensures forall a, b :: 0 <= a < b < |Distinct(names)| ==>
      FirstIndex(names, Distinct(names)[a]) < FirstIndex(names, Distinct(names)[b])
  {
    if names != [] {
      var n := |names| - 1;
      var p := names[..n];
      DistinctFirstSeenOrder(p);
      var d := Distinct(p);
      forall y | y in d
        ensures FirstIndex(names, y) == FirstIndex(p, y) < n
      {
        FirstIndexPrefix(names, n, y);
      }
      if names[n] !in d {
        assert names[n] !in p;
        assert FirstIndex(names, names[n]) == n;
      }
    }
  }

  lemma NamesSnoc<L>(p: seq<Span<L>>, c: Span<L>)
    ensures Names(p + [c]) == Names(p) + [c.chordName]
  {
  }

  /** Distinct unfolds one name from the right. */
  lemma DistinctSnoc<L>(names: seq<L>, x: L)
    ensures Distinct(names + [x]) == if x in names then Distinct(names) else Distinct(names) + [x]
  {
    assert (names + [x])[..|names|] == names;
    if x in names {
      var j :| 0 <= j < |names| && names[j] == x;
      assert x in Distinct(names);
    }
  }

  /** The names of a condensed list after one more event. */
  lemma NamesPush<L>(p: seq<Span<L>>, c: Span<L>)
    requires p != []
    ensures c.chordName == p[|p| - 1].chordName ==> Names(Condense(p + [c])) == Names(Condense(p))
    ensures c.chordName != p[|p| - 1].chordName ==>
      Names(Condense(p + [c])) == Names(Condense(p)) + [c.chordName]
  {
    var outP := Condense(p);
    CondenseSnoc(p, c);
    CondenseLast(p);
    if c.chordName == p[|p| - 1].chordName {
      var out := outP[..|outP| - 1] + [outP[|outP| - 1].(endTime := c.endTime)];
      assert Condense(p + [c]) == out;
      assert |out| == |outP|;
      forall k | 0 <= k < |out|
        ensures Names(out)[k] == Names(outP)[k]
      {
        if k < |out| - 1 {
          assert out[k] == outP[k];
        }
      }
      assert Names(out) == Names(outP);
    } else {
      assert Condense(p + [c]) == outP + [c];
      NamesSnoc(outP, c);
    }
  }

  /** Condensing does not change the distinct names (the player lists them from the condensed list). */
  lemma {:induction false} DistinctOfCondensed<L>(cs: seq<Span<L>>)
    ensures DistinctChordNames(Condense(cs)) == DistinctChordNames(cs)
  {
    if |cs| > 1 {
      var n := |cs| - 1;
      var p, c := cs[..n], cs[n];
      var x := c.chordName;
      assert cs == p + [c];
      DistinctOfCondensed(p);
      DistinctOfCondensedStep(p, c);
    }
  }

  /** One more event keeps the distinct names of the condensed and the raw list equal. */
  lemma DistinctOfCondensedStep<L>(p: seq<Span<L>>, c: Span<L>)
    requires p != [] && Distinct(Names(Condense(p))) == Distinct(Names(p))
    ensures Distinct(Names(Condense(p + [c]))) == Distinct(Names(p + [c]))
  {
    var x := c.chordName;
    var np, nc := Names(p), Names(Condense(p));
    NamesSnoc(p, c);
    DistinctSnoc(np, x);
    NamesPush(p, c);
    if x == p[|p| - 1].chordName {
      assert x == np[|p| - 1];
    } else {
      DistinctSnoc(nc, x);
      DistinctMembers(nc, x);
      DistinctMembers(np, x);
    }
  }

  lemma DistinctMembers<L>(names: seq<L>, x: L)
    ensures x in Distinct(names) <==> x in names
  {
    var d := Distinct(names);
    if x in names {
      var i :| 0 <= i < |names| && names[i] == x;
    }
    if x in d {
      var a :| 0 <= a < |d| && d[a] == x;
    }
  }
}
