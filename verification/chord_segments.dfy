/**
 * Chord segmentation in the back end (music-backend/analyzer.py, `analyze_chords` and
 * `_enforce_min_duration`): per-frame labels from the best template score, runs of equal
 * labels grouped into segments with the no-chord label dropped, and short segments merged into
 * their predecessor. The chromagram, the similarity matrix and its argmax are numpy work and
 * arrive as inputs: one best score and template index per frame, and the frame times.
 */
module ChordSegments {
  import opened Wrappers
  import opened Analysis
  import Timeline
  import ChordTemplates

  /** The label of a frame whose best score is below the threshold. */
  const NoChord: string := "N"

  /** The argmax of one frame: the best similarity and the template that reached it. */
  datatype Best = Best(score: real, index: nat)

  /** A frame is `N` below the threshold and otherwise the best template's name. */
  function FrameLabel(b: Best, names: seq<string>, threshold: real): string
    requires b.index < |names|
  {
    if b.score < threshold then NoChord else names[b.index]
  }

  /** The labelling loop: one label per frame, in frame order. */
  function FrameLabels(frames: seq<Best>, names: seq<string>, threshold: real): (labels: seq<string>)
    requires forall f :: 0 <= f < |frames| ==> frames[f].index < |names|
    ensures |labels| == |frames|
    ensures forall f :: 0 <= f < |frames| && frames[f].score < threshold ==> labels[f] == NoChord
    ensures forall f :: 0 <= f < |frames| && frames[f].score >= threshold ==> labels[f] == names[frames[f].index]
  {
    seq(|frames|, f requires 0 <= f < |frames| => FrameLabel(frames[f], names, threshold))
  }

  /** No template is called `N`: `N` is not a note letter. */
  lemma NoChordIsNoTemplate(includeSevenths: bool, norm: seq<real> -> real, k: nat)
    requires k < |ChordTemplates.Templates(includeSevenths, norm)|
    ensures ChordTemplates.Templates(includeSevenths, norm)[k].name != NoChord
  {
    var r, j := ChordTemplates.TemplateName(includeSevenths, norm, k);
    ChordTemplates.NameRoundTrip(r, ChordTemplates.Qualities(includeSevenths)[j]);
    assert ChordTemplates.ParseName(NoChord) == None;
  }

  /**
   * With the template table's names, a frame is labelled `N` exactly when its best score is
   * below the threshold, and otherwise carries the name of the template that scored best.
   */
  lemma LabelIsNoChordIff(includeSevenths: bool, norm: seq<real> -> real, b: Best, threshold: real)
    requires b.index < |ChordTemplates.Templates(includeSevenths, norm)|
    ensures var names := seq(|ChordTemplates.Templates(includeSevenths, norm)|,
                             k requires 0 <= k < |ChordTemplates.Templates(includeSevenths, norm)| =>
                               ChordTemplates.Templates(includeSevenths, norm)[k].name);
      && (FrameLabel(b, names, threshold) == NoChord <==> b.score < threshold)
      && (b.score >= threshold ==> FrameLabel(b, names, threshold) == ChordTemplates.Templates(includeSevenths, norm)[b.index].name)
  {
    NoChordIsNoTemplate(includeSevenths, norm, b.index);
  }

  /** One past the last frame of the run of equal labels starting at a. */
  function RunEnd<L(==)>(labels: seq<L>, a: nat): (j: nat)
    requires a < |labels|
    ensures a < j <= |labels|
    decreases |labels| - a
  {
    if a + 1 == |labels| || labels[a + 1] != labels[a] then a + 1 else RunEnd(labels, a + 1)
  }

  /** The run from a is exactly a..j when the labels agree up to j and change (or stop) there. */
  lemma {:induction false} RunEndAt<L>(labels: seq<L>, a: nat, j: nat)
    requires a < j <= |labels|
    requires forall k :: a <= k < j ==> labels[k] == labels[a]
    requires j == |labels| || labels[j] != labels[a]
    ensures RunEnd(labels, a) == j
    decreases j - a
  {
    if a + 1 < j {
      RunEndAt(labels, a + 1, j);
    }
  }

  /** Every label inside a run equals its first, and the label right after it differs. */
  lemma {:induction false} RunEndIsMaximal<L>(labels: seq<L>, a: nat)
    requires a < |labels|
    ensures forall k :: a <= k < RunEnd(labels, a) ==> labels[k] == labels[a]
    ensures RunEnd(labels, a) < |labels| ==> labels[RunEnd(labels, a)] != labels[a]
    decreases |labels| - a
  {
    if !(a + 1 == |labels| || labels[a + 1] != labels[a]) {
      RunEndIsMaximal(labels, a + 1);
    }
  }

  /** Where the run starting at a ends in time: the next change's time, or the last frame's. */
  function RunEndTime<L(==)>(labels: seq<L>, times: seq<real>, a: nat): real
    requires |labels| == |times| && a < |labels|
  {
    var j := RunEnd(labels, a);
    if j < |labels| then times[j] else times[|times| - 1]
  }

  /** The segment the run starting at a contributes: none for a run of `none`. */
  function RunSegment<L(==)>(labels: seq<L>, times: seq<real>, none: L, a: nat): seq<Span<L>>
    requires |labels| == |times| && a < |labels|
  {
    if labels[a] != none then [Span(times[a], RunEndTime(labels, times, a), labels[a], None)] else []
  }

  /** The segments of the runs from frame a on: one per run whose label is not `none`. */
  function Segments<L(==)>(labels: seq<L>, times: seq<real>, none: L, a: nat): seq<Span<L>>
    requires |labels| == |times| && a <= |labels|
    decreases |labels| - a
  {
    if a == |labels| then []
    else RunSegment(labels, times, none, a) + Segments(labels, times, none, RunEnd(labels, a))
  }

  lemma SegmentsUnfold<L>(labels: seq<L>, times: seq<real>, none: L, a: nat)
    requires |labels| == |times| && a < |labels|
    ensures Segments(labels, times, none, a)
      == RunSegment(labels, times, none, a) + Segments(labels, times, none, RunEnd(labels, a))
  {
  }

  /** Closing the run that starts at s when the label changes at i (or the frames end there). */
  lemma CloseRun<L>(labels: seq<L>, times: seq<real>, none: L, s: nat, i: nat,
                    chords: seq<Span<L>>, goal: seq<Span<L>>)
    requires |labels| == |times| && s < i <= |labels| && RunEnd(labels, s) == i
    requires chords + Segments(labels, times, none, s) == goal
    ensures (chords + RunSegment(labels, times, none, s)) + Segments(labels, times, none, i) == goal
  {
    SegmentsUnfold(labels, times, none, s);
    var seg := RunSegment(labels, times, none, s);
    var rest := Segments(labels, times, none, i);
    assert Segments(labels, times, none, s) == seg + rest;
    assert chords + (seg + rest) == (chords + seg) + rest;
  }

  /** The segment of a closed run spans from its first frame to the change (or the last frame). */
  lemma ClosedSegment<L>(labels: seq<L>, times: seq<real>, none: L, s: nat, i: nat)
    requires |labels| == |times| && s < i <= |labels| && RunEnd(labels, s) == i
    ensures labels[s] != none ==>
      RunSegment(labels, times, none, s)
      == [Span(times[s], if i < |labels| then times[i] else times[|times| - 1], labels[s], None)]
    ensures labels[s] == none ==> RunSegment(labels, times, none, s) == []
  {
  }

  /** The grouping loop of `analyze_chords`. */
  method Group<L(==)>(labels: seq<L>, times: seq<real>, none: L) returns (chords: seq<Span<L>>)
    requires |labels| == |times|
    ensures chords == Segments(labels, times, none, 0)
  {
    chords := [];
    ghost var all := Segments(labels, times, none, 0);
    if |labels| > 0 {
      var last := labels[0];
      var s := 0;
      var startT := times[0];
      var i := 1;
      while i < |labels|
        invariant 1 <= i <= |labels| && s < i
        invariant last == labels[s] && startT == times[s]
        invariant forall k :: s <= k < i ==> labels[k] == last
        invariant chords + Segments(labels, times, none, s) == all
      {
        if labels[i] != last {
          CloseRunAt(labels, times, none, s, i, chords, all);
          if last != none {
            chords := chords + [Span(startT, times[i], last, None)];
          }
          last := labels[i];
          s := i;
          startT := times[i];
        }
        i := i + 1;
      }
      CloseRunAt(labels, times, none, s, |labels|, chords, all);
      assert Segments(labels, times, none, |labels|) == [];
      if last != none {
        chords := chords + [Span(startT, times[|times| - 1], last, None)];
      }
      assert chords + [] == chords;
    }
  }

  /** The loop's step at a label change (or the end): the finished run's segment is appended. */
  lemma CloseRunAt<L>(labels: seq<L>, times: seq<real>, none: L, s: nat, i: nat,
                      chords: seq<Span<L>>, goal: seq<Span<L>>)
    requires |labels| == |times| && s < i <= |labels|
    requires forall k :: s <= k < i ==> labels[k] == labels[s]
    requires i == |labels| || labels[i] != labels[s]
    requires chords + Segments(labels, times, none, s) == goal
    ensures labels[s] != none ==>
      (chords + [Span(times[s], if i < |labels| then times[i] else times[|times| - 1], labels[s], None)])
        + Segments(labels, times, none, i) == goal
    ensures labels[s] == none ==> chords + Segments(labels, times, none, i) == goal
  {
    RunEndAt(labels, s, i);
    CloseRun(labels, times, none, s, i, chords, goal);
    ClosedSegment(labels, times, none, s, i);
    assert chords + [] == chords;
  }

  /** No segment carries the `none` label, and every segment starts at or after frame a. */
  lemma {:induction false} SegmentsLabelled<L>(labels: seq<L>, times: seq<real>, none: L, a: nat)
    requires |labels| == |times| && a <= |labels|
    ensures forall k :: 0 <= k < |Segments(labels, times, none, a)| ==>
      && Segments(labels, times, none, a)[k].chordName != none
      && Segments(labels, times, none, a)[k].chordName in labels[a..]
      && Segments(labels, times, none, a)[k].error.None?
    decreases |labels| - a
  {
    if a < |labels| {
      var j := RunEnd(labels, a);
      SegmentsLabelled(labels, times, none, j);
      var rest := Segments(labels, times, none, j);
      var all := Segments(labels, times, none, a);
      assert labels[a] in labels[a..];
      forall k | 0 <= k < |rest| ensures rest[k].chordName in labels[a..] {
        var x := rest[k].chordName;
        var m :| 0 <= m < |labels[j..]| && labels[j..][m] == x;
        assert labels[a..][m + j - a] == x;
      }
    }
  }

  predicate Nondecreasing(times: seq<real>) {
    forall a, b :: 0 <= a <= b < |times| ==> times[a] <= times[b]
  }

  lemma SortedCons<L>(x: Span<L>, ys: seq<Span<L>>)
    requires x.startTime <= x.endTime && Timeline.Sorted(ys)
    requires ys != [] ==> x.endTime <= ys[0].startTime
    ensures Timeline.Sorted([x] + ys)
  {
    var zs := [x] + ys;
    forall j | 0 <= j < |zs| - 1 ensures zs[j].endTime <= zs[j + 1].startTime {
      if j > 0 {
        assert zs[j] == ys[j - 1] && zs[j + 1] == ys[j];
      }
    }
  }

  /**
   * With frame times in order the segments are in order without overlap, each inside
   * [times[a], times[-1]].
   */
  lemma {:induction false} SegmentsSorted<L>(labels: seq<L>, times: seq<real>, none: L, a: nat)
    requires |labels| == |times| && a <= |labels| && Nondecreasing(times)
    ensures Timeline.Sorted(Segments(labels, times, none, a))
    ensures forall k :: 0 <= k < |Segments(labels, times, none, a)| ==>
      times[a] <= Segments(labels, times, none, a)[k].startTime
      && Segments(labels, times, none, a)[k].endTime <= times[|times| - 1]
    decreases |labels| - a
  {
    if a < |labels| {
      var j := RunEnd(labels, a);
      SegmentsSorted(labels, times, none, j);
      var rest := Segments(labels, times, none, j);
      if labels[a] != none {
        var x := Span(times[a], RunEndTime(labels, times, a), labels[a], None);
        SortedCons(x, rest);
        assert Segments(labels, times, none, a) == [x] + rest;
      }
    }
  }

  /**
   * When no frame is `none`, the segments tile the frames: the first starts at the first frame,
   * each ends where the next begins, the last ends at the last frame, and neighbours differ.
   */
  lemma {:induction false} SegmentsTile<L>(labels: seq<L>, times: seq<real>, none: L, a: nat)
    requires |labels| == |times| && a < |labels| && none !in labels
    ensures var segs := Segments(labels, times, none, a);
      && segs != []
      && segs[0].startTime == times[a]
      && segs[|segs| - 1].endTime == times[|times| - 1]
      && (forall k :: 0 <= k < |segs| - 1 ==>
            segs[k].endTime == segs[k + 1].startTime && segs[k].chordName != segs[k + 1].chordName)
    decreases |labels| - a
  {
    var j := RunEnd(labels, a);
    RunEndIsMaximal(labels, a);
    var x := Span(times[a], RunEndTime(labels, times, a), labels[a], None);
    assert labels[a] != none by {
      assert labels[a] in labels;
    }
    if j < |labels| {
      SegmentsTile(labels, times, none, j);
      var rest := Segments(labels, times, none, j);
      var segs := [x] + rest;
      assert Segments(labels, times, none, a) == segs;
      forall k | 0 <= k < |segs| - 1
        ensures segs[k].endTime == segs[k + 1].startTime && segs[k].chordName != segs[k + 1].chordName
      {
        if k > 0 {
          assert segs[k] == rest[k - 1] && segs[k + 1] == rest[k];
        }
      }
    } else {
      assert Segments(labels, times, none, a) == [x];
    }
  }

  function Duration<L>(c: Span<L>): real {
    c.endTime - c.startTime
  }

  function MaxReal(a: real, b: real): real {
    if a >= b then a else b
  }

  /** `merged[-1]["end_time"] = max(merged[-1]["end_time"], end)`. */
  function ExtendLast<L>(merged: seq<Span<L>>, end: real): (r: seq<Span<L>>)
    requires merged != []
    ensures |r| == |merged| && r[..|r| - 1] == merged[..|merged| - 1]
    ensures var last := merged[|merged| - 1];
      r[|r| - 1] == last.(endTime := MaxReal(last.endTime, end))
  {
    var last := merged[|merged| - 1];
    merged[|merged| - 1 := last.(endTime := MaxReal(last.endTime, end))]
  }

  /** The loop of `_enforce_min_duration` over the segments still to visit. */
  function MergeInto<L>(merged: seq<Span<L>>, rest: seq<Span<L>>, minDuration: real): (r: seq<Span<L>>)
    requires merged != []
    ensures r != []
    decreases |rest|
  {
    if rest == [] then merged
    else if Duration(rest[0]) < minDuration then
      MergeInto(ExtendLast(merged, rest[0].endTime), rest[1..], minDuration)
    else MergeInto(merged + [rest[0]], rest[1..], minDuration)
  }

  /** `_enforce_min_duration`: a segment shorter than the minimum is folded into the one before. */
  function EnforceMinDuration<L>(chords: seq<Span<L>>, minDuration: real): (r: seq<Span<L>>)
    ensures r == [] <==> chords == []
  {
    if chords == [] then [] else MergeInto([chords[0]], chords[1..], minDuration)
  }

  /** The segments after the first that are long enough to stay on their own. */
  function Survivors<L>(rest: seq<Span<L>>, minDuration: real): (ks: seq<Span<L>>)
    ensures |ks| <= |rest|
  {
    if rest == [] then []
    else (if Duration(rest[0]) < minDuration then [] else [rest[0]]) + Survivors(rest[1..], minDuration)
  }

  /**
   * r keeps the segments ks in order, with the same start, name and error, and an end that
   * can only have moved later.
   */
  ghost predicate Matches<L>(r: seq<Span<L>>, ks: seq<Span<L>>) {
    && |r| == |ks|
    && forall k :: 0 <= k < |r| ==>
      && r[k].startTime == ks[k].startTime && r[k].chordName == ks[k].chordName
      && r[k].error == ks[k].error && r[k].endTime >= ks[k].endTime
  }

  /** Every segment after the first lasts at least the minimum. */
  ghost predicate LongAfterFirst<L>(r: seq<Span<L>>, minDuration: real) {
    forall k :: 1 <= k < |r| ==> Duration(r[k]) >= minDuration
  }

  lemma {:induction false} MergeIntoKeeps<L>(merged: seq<Span<L>>, ks: seq<Span<L>>, rest: seq<Span<L>>, minDuration: real)
    requires merged != [] && Matches(merged, ks) && LongAfterFirst(merged, minDuration)
    ensures Matches(MergeInto(merged, rest, minDuration), ks + Survivors(rest, minDuration))
    ensures LongAfterFirst(MergeInto(merged, rest, minDuration), minDuration)
    decreases |rest|
  {
    if rest != [] {
      var seg := rest[0];
      if Duration(seg) < minDuration {
        ExtendKeeps(merged, ks, seg.endTime, minDuration);
        MergeIntoKeeps(ExtendLast(merged, seg.endTime), ks, rest[1..], minDuration);
        ShortStep(merged, ks, rest, minDuration);
      } else {
        AppendKeeps(merged, ks, seg, minDuration);
        MergeIntoKeeps(merged + [seg], ks + [seg], rest[1..], minDuration);
        LongStep(merged, ks, rest, minDuration);
      }
    }
  }

  /** A short segment adds no survivor: the merge goes on from the extended list. */
  lemma ShortStep<L>(merged: seq<Span<L>>, ks: seq<Span<L>>, rest: seq<Span<L>>, minDuration: real)
    requires merged != [] && rest != [] && Duration(rest[0]) < minDuration
    requires var r := MergeInto(ExtendLast(merged, rest[0].endTime), rest[1..], minDuration);
      Matches(r, ks + Survivors(rest[1..], minDuration)) && LongAfterFirst(r, minDuration)
    ensures var r := MergeInto(merged, rest, minDuration);
      Matches(r, ks + Survivors(rest, minDuration)) && LongAfterFirst(r, minDuration)
  {
    UnfoldShort(merged, ks, rest, minDuration);
  }

  /** A long segment is the next survivor: the merge goes on from the appended list. */
  lemma LongStep<L>(merged: seq<Span<L>>, ks: seq<Span<L>>, rest: seq<Span<L>>, minDuration: real)
    requires merged != [] && rest != [] && Duration(rest[0]) >= minDuration
    requires var r := MergeInto(merged + [rest[0]], rest[1..], minDuration);
      Matches(r, (ks + [rest[0]]) + Survivors(rest[1..], minDuration)) && LongAfterFirst(r, minDuration)
    ensures var r := MergeInto(merged, rest, minDuration);
      Matches(r, ks + Survivors(rest, minDuration)) && LongAfterFirst(r, minDuration)
  {
    UnfoldLong(merged, ks, rest, minDuration);
  }

  lemma UnfoldShort<L>(merged: seq<Span<L>>, ks: seq<Span<L>>, rest: seq<Span<L>>, minDuration: real)
    requires merged != [] && rest != [] && Duration(rest[0]) < minDuration
    ensures MergeInto(merged, rest, minDuration) == MergeInto(ExtendLast(merged, rest[0].endTime), rest[1..], minDuration)
    ensures ks + Survivors(rest, minDuration) == ks + Survivors(rest[1..], minDuration)
  {
    assert Survivors(rest, minDuration) == [] + Survivors(rest[1..], minDuration);
  }

  lemma UnfoldLong<L>(merged: seq<Span<L>>, ks: seq<Span<L>>, rest: seq<Span<L>>, minDuration: real)
    requires merged != [] && rest != [] && Duration(rest[0]) >= minDuration
    ensures MergeInto(merged, rest, minDuration) == MergeInto(merged + [rest[0]], rest[1..], minDuration)
    ensures (ks + [rest[0]]) + Survivors(rest[1..], minDuration) == ks + Survivors(rest, minDuration)
  {
    assert Survivors(rest, minDuration) == [rest[0]] + Survivors(rest[1..], minDuration);
  }

  /** Moving the last end later keeps the match and the minimum. */
  lemma ExtendKeeps<L>(merged: seq<Span<L>>, ks: seq<Span<L>>, end: real, minDuration: real)
    requires merged != [] && Matches(merged, ks) && LongAfterFirst(merged, minDuration)
    ensures Matches(ExtendLast(merged, end), ks) && LongAfterFirst(ExtendLast(merged, end), minDuration)
  {
    var m1 := ExtendLast(merged, end);
    forall k | 0 <= k < |m1| - 1
      ensures m1[k] == merged[k]
    {
      assert m1[..|m1| - 1][k] == merged[..|merged| - 1][k];
    }
  }

  /** A long enough segment appended on both sides keeps the match and the minimum. */
  lemma AppendKeeps<L>(merged: seq<Span<L>>, ks: seq<Span<L>>, seg: Span<L>, minDuration: real)
    requires Matches(merged, ks) && LongAfterFirst(merged, minDuration) && Duration(seg) >= minDuration
    ensures Matches(merged + [seg], ks + [seg]) && LongAfterFirst(merged + [seg], minDuration)
  {
    var m1, k1 := merged + [seg], ks + [seg];
    forall k | 0 <= k < |m1|
      ensures m1[k] == (if k < |merged| then merged[k] else seg)
      ensures k1[k] == (if k < |ks| then ks[k] else seg)
    {
    }
  }

  /**
   * The first segment always stays; after it exactly the segments of at least the minimum
   * duration stay, in order, each ending no earlier than before; so every kept segment after
   * the first is at least the minimum long, and the output is never longer than the input.
   */
  lemma MinDurationKeeps<L>(chords: seq<Span<L>>, minDuration: real)
    requires chords != []
    ensures var r := EnforceMinDuration(chords, minDuration);
      && Matches(r, [chords[0]] + Survivors(chords[1..], minDuration))
      && LongAfterFirst(r, minDuration)
      && |r| <= |chords|
      && r[0].startTime == chords[0].startTime && r[0].chordName == chords[0].chordName
  {
    MergeIntoKeeps([chords[0]], [chords[0]], chords[1..], minDuration);
  }

  lemma SortedSnoc<L>(xs: seq<Span<L>>, y: Span<L>)
    requires Timeline.Sorted(xs) && y.startTime <= y.endTime
    requires xs != [] ==> xs[|xs| - 1].endTime <= y.startTime
    ensures Timeline.Sorted(xs + [y])
  {
    var zs := xs + [y];
    forall j | 0 <= j < |zs| - 1 ensures zs[j].endTime <= zs[j + 1].startTime {
      if j < |xs| - 1 {
        assert zs[j] == xs[j] && zs[j + 1] == xs[j + 1];
      }
    }
  }

  lemma SortedTail<L>(xs: seq<Span<L>>)
    requires Timeline.Sorted(xs) && xs != []
    ensures Timeline.Sorted(xs[1..])
    ensures |xs| > 1 ==> xs[0].endTime <= xs[1].startTime
  {
    var t := xs[1..];
    forall j | 0 <= j < |t| - 1 ensures t[j].endTime <= t[j + 1].startTime {
      assert t[j] == xs[j + 1] && t[j + 1] == xs[j + 2];
    }
  }

  /** Moving the last end of a sorted list later keeps it sorted. */
  lemma SortedExtend<L>(xs: seq<Span<L>>, end: real)
    requires Timeline.Sorted(xs) && xs != [] && end >= xs[|xs| - 1].endTime
    ensures Timeline.Sorted(ExtendLast(xs, end))
    ensures ExtendLast(xs, end)[|xs| - 1].endTime == end
  {
    var r := ExtendLast(xs, end);
    forall j | 0 <= j < |r| - 1 ensures r[j].endTime <= r[j + 1].startTime {
      assert r[j] == r[..|r| - 1][j] == xs[j];
      if j + 1 < |r| - 1 {
        assert r[j + 1] == r[..|r| - 1][j + 1] == xs[j + 1];
      }
    }
  }

  lemma {:induction false} MergeIntoSorted<L>(merged: seq<Span<L>>, rest: seq<Span<L>>, minDuration: real)
    requires merged != [] && Timeline.Sorted(merged) && Timeline.Sorted(rest)
    requires rest != [] ==> merged[|merged| - 1].endTime <= rest[0].startTime
    ensures var r := MergeInto(merged, rest, minDuration);
      && Timeline.Sorted(r)
      && r[|r| - 1].endTime == if rest == [] then merged[|merged| - 1].endTime else rest[|rest| - 1].endTime
    decreases |rest|
  {
    if rest != [] {
      var seg := rest[0];
      SortedTail(rest);
      assert seg.startTime <= seg.endTime;
      if Duration(seg) < minDuration {
        SortedExtend(merged, seg.endTime);
        MergeIntoSorted(ExtendLast(merged, seg.endTime), rest[1..], minDuration);
      } else {
        SortedSnoc(merged, seg);
        MergeIntoSorted(merged + [seg], rest[1..], minDuration);
      }
    }
  }

  /**
   * On segments in time order without overlap, merging keeps that order and the last segment
   * still ends where the input's last one did.
   */
  lemma MinDurationSorted<L>(chords: seq<Span<L>>, minDuration: real)
    requires Timeline.Sorted(chords) && chords != []
    ensures var r := EnforceMinDuration(chords, minDuration);
      Timeline.Sorted(r) && r[|r| - 1].endTime == chords[|chords| - 1].endTime
  {
    SortedTail(chords);
    assert chords[0].startTime <= chords[0].endTime;
    MergeIntoSorted([chords[0]], chords[1..], minDuration);
  }

  lemma {:induction false} SurvivorsFrom<L>(rest: seq<Span<L>>, minDuration: real)
    ensures forall x :: x in Survivors(rest, minDuration) ==> x in rest
  {
    if rest != [] {
      SurvivorsFrom(rest[1..], minDuration);
    }
  }

  const DefaultThreshold: real := 0.2
  const DefaultMinDuration: real := 0.5

  /**
   * What `analyze_chords` gets from librosa and numpy: whether the file exists, how many
   * samples it decoded to, the argmax of every chroma frame, and the frame times.
   */
  datatype Audio = Audio(path: string, present: bool, sampleCount: nat, frames: seq<Best>, times: seq<real>)

  /**
   * The one-element error list `[{"error": message}]`. Its other fields are absent in the
   * JSON; here they are 0 and the empty name.
   */
  function ErrorEntry(message: string): ChordEvent {
    Span(0.0, 0.0, "", Some(message))
  }

  predicate WellFormed(a: Audio, names: seq<string>) {
    && |a.times| == |a.frames|
    && forall f :: 0 <= f < |a.frames| ==> a.frames[f].index < |names|
  }

  /** `analyze_chords`: the error checks in order, then labels, grouping and merging. */
  function AnalyzeChords(a: Audio, names: seq<string>, threshold: real, minDuration: real): (r: seq<ChordEvent>)
    requires WellFormed(a, names)
    ensures !a.present ==> r == [ErrorEntry("File not found: " + a.path)]
    ensures a.present && a.sampleCount == 0 ==> r == [ErrorEntry("Audio file appears to be empty.")]
    ensures a.present && a.sampleCount > 0 && a.frames == [] ==>
      r == [ErrorEntry("Could not compute chroma (audio too short or silent).")]
  {
    if !a.present then [ErrorEntry("File not found: " + a.path)]
    else if a.sampleCount == 0 then [ErrorEntry("Audio file appears to be empty.")]
    else if a.frames == [] then [ErrorEntry("Could not compute chroma (audio too short or silent).")]
    else
      var labels := FrameLabels(a.frames, names, threshold);
      EnforceMinDuration(Segments(labels, a.times, NoChord, 0), minDuration)
  }

  /** Merging keeps the grouped segments' labels: none is `none`, each is some frame's label. */
  lemma MergedSegmentsLabelled<L>(labels: seq<L>, times: seq<real>, none: L, minDuration: real)
    requires |labels| == |times|
    ensures var r := EnforceMinDuration(Segments(labels, times, none, 0), minDuration);
      forall k :: 0 <= k < |r| ==> r[k].error.None? && r[k].chordName != none && r[k].chordName in labels
  {
    var segs := Segments(labels, times, none, 0);
    var r := EnforceMinDuration(segs, minDuration);
    SegmentsLabelled(labels, times, none, 0);
    assert labels[0..] == labels;
    if segs != [] {
      MinDurationKeeps(segs, minDuration);
      SurvivorsFrom(segs[1..], minDuration);
      var ks := [segs[0]] + Survivors(segs[1..], minDuration);
      forall k | 0 <= k < |r|
        ensures r[k].error.None? && r[k].chordName != none && r[k].chordName in labels
      {
        assert ks[k] in segs by {
          if k > 0 {
            assert ks[k] in Survivors(segs[1..], minDuration);
            var m :| 0 <= m < |segs[1..]| && segs[1..][m] == ks[k];
            assert segs[m + 1] == ks[k];
          }
        }
      }
    }
  }

  /** With frame times in order, the merged segments are in order without overlap. */
  lemma MergedSegmentsSorted<L>(labels: seq<L>, times: seq<real>, none: L, minDuration: real)
    requires |labels| == |times| && Nondecreasing(times)
    ensures Timeline.Sorted(EnforceMinDuration(Segments(labels, times, none, 0), minDuration))
  {
    var segs := Segments(labels, times, none, 0);
    SegmentsSorted(labels, times, none, 0);
    if segs != [] {
      MinDurationSorted(segs, minDuration);
    }
  }

  /**
   * A successful analysis holds no error entry and no `N` segment, names only chords some
   * frame was labelled with, and, with frame times in order, is in time order without overlap.
   */
  lemma DetectedChords(a: Audio, names: seq<string>, threshold: real, minDuration: real)
    requires WellFormed(a, names) && a.present && a.sampleCount > 0 && a.frames != []
    ensures var r := AnalyzeChords(a, names, threshold, minDuration);
      && (forall k :: 0 <= k < |r| ==>
            && r[k].error.None? && r[k].chordName != NoChord
            && r[k].chordName in FrameLabels(a.frames, names, threshold))
      && (Nondecreasing(a.times) ==> Timeline.Sorted(r))
  {
    var labels := FrameLabels(a.frames, names, threshold);
    assert AnalyzeChords(a, names, threshold, minDuration)
      == EnforceMinDuration(Segments(labels, a.times, NoChord, 0), minDuration);
    MergedSegmentsLabelled(labels, a.times, NoChord, minDuration);
    if Nondecreasing(a.times) {
      MergedSegmentsSorted(labels, a.times, NoChord, minDuration);
    }
  }
}
