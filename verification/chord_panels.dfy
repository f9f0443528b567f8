/**
 * The two chord pickers. The DAW's big chord panel
 * (music-frontend/src/components/daw/BigChordsPanel.tsx) lists the first event of each
 * chord name, highlights the playing one and seeks on click; the player's "ChordNow" box
 * (music-frontend/src/components/analysis/ChordNow.tsx) shows the current chord among the
 * distinct names.
 */
module ChordPanels {
  import opened Wrappers
  import opened Analysis
  import opened Chords
  import Timeline

  /**
   * `uniqueChords`: the events whose name has not been seen before, in order. The set of
   * names seen so far is the set of names already kept.
   */
  function UniqueChords<L(==)>(cs: seq<Span<L>>): (u: seq<Span<L>>)
    ensures |u| <= |cs|
  {
    if cs == [] then []
    else
      var kept := UniqueChords(cs[..|cs| - 1]);
      var c := cs[|cs| - 1];
      if c.chordName in Names(kept) then kept else kept + [c]
  }

  lemma UniqueChordsSnoc<L>(p: seq<Span<L>>, c: Span<L>)
    ensures UniqueChords(p + [c]) ==
      if c.chordName in Names(UniqueChords(p)) then UniqueChords(p) else UniqueChords(p) + [c]
  {
    assert (p + [c])[..|p|] == p;
  }

  /** The buttons carry exactly the distinct chord names, in first-seen order. */
  lemma {:induction false} UniqueChordsNames<L>(cs: seq<Span<L>>)
    ensures Names(UniqueChords(cs)) == DistinctChordNames(cs)
  {
    if cs != [] {
      var p, c := cs[..|cs| - 1], cs[|cs| - 1];
      assert cs == p + [c];
      UniqueChordsNames(p);
      UniqueChordsSnoc(p, c);
      NamesSnoc(p, c);
      DistinctSnoc(Names(p), c.chordName);
      NamesSnoc(UniqueChords(p), c);
      assert c.chordName in Names(UniqueChords(p)) <==> c.chordName in Names(p);
    }
  }

  /** Each button is the first event carrying its name. */
  lemma {:induction false} UniqueChordsFirst<L>(cs: seq<Span<L>>, k: nat)
    requires k < |UniqueChords(cs)|
    ensures UniqueChords(cs)[k].chordName in Names(cs)
    ensures UniqueChords(cs)[k] == cs[FirstIndex(Names(cs), UniqueChords(cs)[k].chordName)]
  {
    var p, c := cs[..|cs| - 1], cs[|cs| - 1];
    assert cs == p + [c];
    UniqueChordsSnoc(p, c);
    NamesSnoc(p, c);
    var u := UniqueChords(p);
    if k < |u| {
      UniqueChordsFirst(p, k);
      var x := u[k].chordName;
      FirstIndexPrefix(Names(cs), |p|, x);
      assert Names(cs)[..|p|] == Names(p);
    } else {
      UniqueChordsNames(p);
      assert c.chordName !in Names(u);
      assert c.chordName !in Names(p);
      assert Names(cs)[|p|] == c.chordName;
      assert FirstIndex(Names(cs), c.chordName) == |p|;
    }
  }

  /** Which buttons are highlighted: those whose name equals the "Now" label. */
  function Highlights(buttons: seq<ChordEvent>, activeName: string): (h: seq<bool>)
    ensures |h| == |buttons|
    ensures forall k :: 0 <= k < |h| ==> (h[k] <==> buttons[k].chordName == activeName)
  {
    seq(|buttons|, k requires 0 <= k < |buttons| => buttons[k].chordName == activeName)
  }

  /**
   * At time t the panel highlights at most one button, and exactly the one of the
   * playing chord's name when some chord is playing.
   */
  lemma BigPanelHighlight(cs: seq<ChordEvent>, t: real)
    ensures var u := UniqueChords(cs);
      var h := Highlights(u, Timeline.ActiveName(cs, t));
      && (forall a, b :: 0 <= a < b < |h| ==> !(h[a] && h[b]))
      && (Timeline.FindActive(cs, t).Some? ==> exists k :: 0 <= k < |h| && h[k])
  {
    var u := UniqueChords(cs);
    UniqueChordsNames(cs);
    var names := Names(u);
    assert forall a :: 0 <= a < |u| ==> names[a] == u[a].chordName;
    var r := Timeline.FindActive(cs, t);
    if r.Some? {
      var x := cs[r.value].chordName;
      assert Names(cs)[r.value] == x;
      assert x in names;
      var k :| 0 <= k < |names| && names[k] == x;
      assert u[k].chordName == x;
    }
  }

  /** Clicking a button seeks to the start of the first event with that chord name. */
  function ClickSeek(buttons: seq<ChordEvent>, k: nat): real
    requires k < |buttons|
  {
    buttons[k].startTime
  }

  lemma ClickSeeksToFirstOccurrence(cs: seq<ChordEvent>, k: nat)
    requires k < |UniqueChords(cs)|
    ensures var x := UniqueChords(cs)[k].chordName;
      x in Names(cs) && ClickSeek(UniqueChords(cs), k) == cs[FirstIndex(Names(cs), x)].startTime
      && forall j :: 0 <= j < |cs| && cs[j].chordName == x ==> FirstIndex(Names(cs), x) <= j
  {
    UniqueChordsFirst(cs, k);
  }

  /**
   * ChordNow's centre label: `None` draws the "unavailable" message for an empty list;
   * otherwise the active chord when it is a non-empty member of the list, else the first name.
   */
  function Current(activeChord: Option<string>, distinct: seq<string>): (r: Option<string>)
    ensures r.None? <==> distinct == []
    ensures r.Some? ==> r.value in distinct
    ensures r.Some? && activeChord.Some? && activeChord.value != "" && activeChord.value in distinct ==>
      r == activeChord
    ensures r.Some? && r.value != distinct[0] ==> r == activeChord
    ensures r.Some? && !(activeChord.Some? && activeChord.value != "" && activeChord.value in distinct) ==>
      r == Some(distinct[0])
  {
    if distinct == [] then None
    else if activeChord.Some? && activeChord.value != "" && activeChord.value in distinct then activeChord
    else Some(distinct[0])
  }

  /** The pills: one per distinct name, active when it equals the centre label. */
  function Pills(distinct: seq<string>, current: string): (p: seq<bool>)
    ensures |p| == |distinct|
    ensures forall k :: 0 <= k < |p| ==> (p[k] <==> distinct[k] == current)
  {
    seq(|distinct|, k requires 0 <= k < |distinct| => distinct[k] == current)
  }

  /** Over a list of distinct names the box lights exactly one pill. */
  lemma ExactlyOnePill(activeChord: Option<string>, distinct: seq<string>)
    requires distinct != []
    requires forall a, b :: 0 <= a < b < |distinct| ==> distinct[a] != distinct[b]
    ensures var p := Pills(distinct, Current(activeChord, distinct).value);
      (exists k :: 0 <= k < |p| && p[k]) && forall a, b :: 0 <= a < b < |p| ==> !(p[a] && p[b])
  {
    var c := Current(activeChord, distinct).value;
    var k :| 0 <= k < |distinct| && distinct[k] == c;
    assert Pills(distinct, c)[k];
  }
}
