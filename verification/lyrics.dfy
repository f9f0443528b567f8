/**
 * The lyrics panel (music-frontend/src/components/daw/LyricsPanel.tsx): which line is
 * highlighted at the current time, how each line is drawn, and when the panel scrolls.
 */
module Lyrics {
  import opened Wrappers
  import Text

  datatype LyricLine = LyricLine(start: real, end: real, text: string, chord: Option<string>)

  const InstrumentalMarker: string := "[Instrumental]"

  /** `isLineActive`: the line's half-open interval contains t. */
  predicate IsLineActive(line: LyricLine, t: real) {
    t >= line.start && t < line.end
  }

  /** A line whose trimmed text is the instrumental marker. */
  predicate IsInstrumental(line: LyricLine) {
    Text.Trim(line.text) == InstrumentalMarker
  }

  /** A line the panel may highlight at t. */
  predicate Highlightable(line: LyricLine, t: real) {
    IsLineActive(line, t) && !IsInstrumental(line)
  }

  /** The panel's loop: the first active, non-instrumental line, or -1. */
  method ActiveLineIndex(lines: seq<LyricLine>, t: real) returns (idx: int)
    ensures -1 <= idx < |lines|
    ensures idx == -1 <==> forall j :: 0 <= j < |lines| ==> !Highlightable(lines[j], t)
    ensures idx >= 0 ==> Highlightable(lines[idx], t)
    ensures idx >= 0 ==> forall j :: 0 <= j < idx ==> !Highlightable(lines[j], t)
  {
    idx := -1;
    var i := 0;
    while i < |lines|
      invariant 0 <= i <= |lines|
      invariant forall j :: 0 <= j < i ==> !Highlightable(lines[j], t)
    {
      if Highlightable(lines[i], t) {
        idx := i;
        return;
      }
      i := i + 1;
    }
  }

  /** The chord label above a line: shown when present, non-empty and not the no-chord mark `N`. */
  function ChordLabel(line: LyricLine): (r: Option<string>)
    ensures r.Some? <==> line.chord.Some? && line.chord.value != "" && line.chord.value != "N"
    ensures r.Some? ==> r == line.chord
  {
    match line.chord
    case Some(c) => if c != "" && c != "N" then Some(c) else None
    case None => None
  }

  /** How one line is drawn: instrumental lines are muted and never highlighted or scroll targets. */
  datatype LineView =
    | InstrumentalLine(text: string)
    | TextLine(text: string, chordLabel: Option<string>, highlighted: bool)

  datatype PanelView =
    | Loading
    | NoLyrics
    | Lines(followEnabled: bool, views: seq<LineView>)

  /** Line j is the first line the panel may highlight at t. */
  predicate FirstHighlightable(lines: seq<LyricLine>, t: real, j: int) {
    && 0 <= j < |lines| && Highlightable(lines[j], t)
    && forall m :: 0 <= m < j ==> !Highlightable(lines[m], t)
  }

  /** The index `ActiveLineIndex` returns is the only first highlightable line. */
  lemma ActiveIsFirst(lines: seq<LyricLine>, t: real, idx: int)
    requires -1 <= idx < |lines|
    requires idx == -1 <==> forall j :: 0 <= j < |lines| ==> !Highlightable(lines[j], t)
    requires idx >= 0 ==> FirstHighlightable(lines, t, idx)
    ensures forall j :: 0 <= j < |lines| ==> (FirstHighlightable(lines, t, j) <==> j == idx)
  {
    forall j | 0 <= j < |lines| && FirstHighlightable(lines, t, j)
      ensures j == idx
    {
      if idx >= 0 && idx != j {
        assert false;
      }
    }
  }

  /** The line views, with the line at `idx` highlighted unless it is instrumental. */
  function LineViews(lines: seq<LyricLine>, idx: int): (views: seq<LineView>)
    ensures |views| == |lines|
    ensures forall j :: 0 <= j < |lines| ==>
      && views[j].text == lines[j].text
      && (views[j].InstrumentalLine? <==> IsInstrumental(lines[j]))
      && (views[j].TextLine? ==> views[j].chordLabel == ChordLabel(lines[j]))
      && (views[j].TextLine? && views[j].highlighted <==> j == idx && !IsInstrumental(lines[j]))
  {
    seq(|lines|, j requires 0 <= j < |lines| =>
      if IsInstrumental(lines[j]) then InstrumentalLine(lines[j].text)
      else TextLine(lines[j].text, ChordLabel(lines[j]), j == idx))
  }

  /**
   * The rendered panel and the line the auto-scroll effect brings into view. A line can be
   * scrolled to only while it is drawn as a text line, since only those register an element.
   * Highlighting does not depend on auto-scroll.
   */
  method Render(lines: seq<LyricLine>, t: real, isLoading: bool, autoScroll: bool)
    returns (view: PanelView, scrollTo: Option<nat>)
    ensures view.Loading? <==> isLoading
    ensures view.NoLyrics? <==> !isLoading && lines == []
    ensures view.Lines? ==> view.followEnabled == autoScroll && |view.views| == |lines|
    ensures view.Lines? ==> forall j :: 0 <= j < |lines| ==>
      && view.views[j].text == lines[j].text
      && (view.views[j].InstrumentalLine? <==> IsInstrumental(lines[j]))
      && (view.views[j].TextLine? ==> view.views[j].chordLabel == ChordLabel(lines[j]))
      && (view.views[j].TextLine? && view.views[j].highlighted <==> FirstHighlightable(lines, t, j))
    ensures view.Lines? ==> forall a, b :: 0 <= a < b < |lines| ==>
      !(view.views[a].TextLine? && view.views[a].highlighted && view.views[b].TextLine? && view.views[b].highlighted)
    ensures scrollTo.Some? ==>
      && autoScroll && view.Lines? && scrollTo.value < |lines|
      && view.views[scrollTo.value].TextLine? && view.views[scrollTo.value].highlighted
    ensures view.Lines? && autoScroll && (exists j :: 0 <= j < |lines| && Highlightable(lines[j], t)) ==> scrollTo.Some?
  {
    var idx := ActiveLineIndex(lines, t);
    if isLoading {
      return Loading, None;
    }
    if lines == [] {
      return NoLyrics, None;
    }
    ActiveIsFirst(lines, t, idx);
    var views := LineViews(lines, idx);
    assert idx >= 0 ==> !IsInstrumental(lines[idx]);
    view := Lines(autoScroll, views);
    scrollTo := if autoScroll && idx != -1 then Some(idx as nat) else None;
  }
}
