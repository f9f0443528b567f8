/**
 * The two players: the DAW view (music-frontend/src/components/daw/DawAnalysisView.tsx) and
 * the master player card (music-frontend/src/components/analysis/MasterPlater.tsx). Both
 * derive a duration, seek by clamping, and show the chord playing now; the DAW view also
 * picks the source, the volume and the notes per track, and the card throttles its note badge.
 * The audio element is a value here: whether it exists, its pause flag and playback rate.
 */
module Players {
  import opened Wrappers
  import opened Analysis
  import opened Chords
  import Js
  import Text
  import Timeline
  import ChordPanels
  import AudioAnalyser
  import Notes

  function Max(a: real, b: real): real {
    if a >= b then a else b
  }

  function Min(a: real, b: real): real {
    if a <= b then a else b
  }

  /** `analysis.duration || (condensed.length ? last.end_time : 0)`. */
  function Duration(elementDuration: Js.Number, condensed: seq<ChordEvent>): (d: Js.Number)
    ensures elementDuration.Truthy() ==> d == elementDuration
    ensures !elementDuration.Truthy() && condensed != [] ==> d == Js.Finite(condensed[|condensed| - 1].endTime)
    ensures !elementDuration.Truthy() && condensed == [] ==> d == Js.Finite(0.0)
  {
    Js.Or(elementDuration, Js.Finite(if condensed != [] then condensed[|condensed| - 1].endTime else 0.0))
  }

  /**
   * `seekTo`: nothing without an element or with a falsy duration; otherwise
   * `Math.max(0, Math.min(time, duration))`.
   */
  function SeekTo(hasElement: bool, duration: Js.Number, time: real): (r: Option<real>)
    ensures r.None? <==> !hasElement || !duration.Truthy()
    ensures r.Some? ==> r.value >= 0.0
    ensures r.Some? && duration.Finite? ==> r.value <= Max(0.0, duration.v)
    ensures r.Some? && duration.Finite? && 0.0 <= time <= duration.v ==> r.value == time
    ensures r.Some? && duration.Finite? ==> r.value == Max(0.0, Min(time, duration.v))
    ensures r.Some? && duration.PosInf? ==> r.value == Max(0.0, time)
  {
    if !hasElement || !duration.Truthy() then None
    else
      match duration
      case Finite(d) => Some(Max(0.0, Min(time, d)))
      case PosInf => Some(Max(0.0, time))
      case NegInf => Some(0.0)
      case NaN => None
  }

  /** Seeking to where a seek landed lands there again. */
  lemma SeekIdempotent(hasElement: bool, duration: Js.Number, time: real)
    requires SeekTo(hasElement, duration, time).Some?
    ensures SeekTo(hasElement, duration, SeekTo(hasElement, duration, time).value) == SeekTo(hasElement, duration, time)
  {
  }

  /**
   * The card's `activeChordIndex`: -1 for an empty list or a falsy duration, else the first
   * condensed event active at t (or -1).
   */
  function ActiveChordIndex(condensed: seq<ChordEvent>, t: real, duration: Js.Number): (i: int)
    ensures -1 <= i < |condensed|
    ensures condensed == [] || !duration.Truthy() ==> i == -1
    ensures i >= 0 ==>
      Timeline.IsActive(condensed[i], t) && forall j :: 0 <= j < i ==> !Timeline.IsActive(condensed[j], t)
    ensures i == -1 && condensed != [] && duration.Truthy() ==>
      forall j :: 0 <= j < |condensed| ==> !Timeline.IsActive(condensed[j], t)
  {
    if condensed == [] || !duration.Truthy() then -1
    else
      match Timeline.FindActive(condensed, t)
      case Some(k) => k
      case None => -1
  }

  /** The name handed to ChordNow: the active event's, or null. */
  function ActiveChordName(condensed: seq<ChordEvent>, t: real, duration: Js.Number): (r: Option<string>)
    ensures r.Some? <==> ActiveChordIndex(condensed, t, duration) >= 0
    ensures r.Some? ==> r.value == condensed[ActiveChordIndex(condensed, t, duration)].chordName
  {
    var i := ActiveChordIndex(condensed, t, duration);
    if i >= 0 then Some(condensed[i].chordName) else None
  }

  /**
   * While the card has a duration, ChordNow's centre label is the chord playing now
   * (when it has a non-empty name), and otherwise some distinct name of the song.
   */
  lemma ChordNowFollowsPlayback(condensed: seq<ChordEvent>, t: real, duration: Js.Number)
    requires duration.Truthy() && condensed != []
    ensures var current := ChordPanels.Current(ActiveChordName(condensed, t, duration), DistinctChordNames(condensed));
      && current.Some?
      && (Timeline.FindActive(condensed, t).Some? && condensed[Timeline.FindActive(condensed, t).value].chordName != "" ==>
            current == Some(condensed[Timeline.FindActive(condensed, t).value].chordName))
  {
    var names := Names(condensed);
    assert names[0] in DistinctChordNames(condensed);
    var r := Timeline.FindActive(condensed, t);
    if r.Some? {
      assert names[r.value] == condensed[r.value].chordName;
      assert names[r.value] in DistinctChordNames(condensed);
    }
  }

  /** ChordNow's `onSelectChord`: seek to the first condensed event with that name, if any. */
  function SelectChord(condensed: seq<ChordEvent>, name: string, hasElement: bool, duration: Js.Number): (r: Option<real>)
    ensures name !in Names(condensed) ==> r.None?
    ensures name in Names(condensed) ==>
      r == SeekTo(hasElement, duration, condensed[FirstIndex(Names(condensed), name)].startTime)
  {
    if name in Names(condensed) then SeekTo(hasElement, duration, condensed[FirstIndex(Names(condensed), name)].startTime)
    else None
  }

  /**
   * On a time-ordered list, selecting a name whose first event is non-empty and inside the
   * duration makes that event the active one.
   */
  lemma SelectedChordBecomesActive(condensed: seq<ChordEvent>, name: string, duration: real)
    requires Timeline.Sorted(condensed) && name in Names(condensed)
    requires var k := FirstIndex(Names(condensed), name);
      0.0 <= condensed[k].startTime < condensed[k].endTime && condensed[k].startTime <= duration && duration != 0.0
    ensures var k := FirstIndex(Names(condensed), name);
      var r := SelectChord(condensed, name, true, Js.Finite(duration));
      r == Some(condensed[k].startTime) && ActiveChordIndex(condensed, r.value, Js.Finite(duration)) == k
  {
    var k := FirstIndex(Names(condensed), name);
    var t := condensed[k].startTime;
    forall j | 0 <= j < k
      ensures !Timeline.IsActive(condensed[j], t)
    {
      Timeline.SortedOrder(condensed, j, k);
    }
    assert Timeline.IsActive(condensed[k], t);
  }

  /** Which badge the card's note detector belongs to: the lower-cased stem label, or master. */
  function NoteSourceKey(isStemSource: bool, stemLabel: Option<string>): (key: string)
    ensures !isStemSource ==> key == "master"
    ensures isStemSource ==> key == Text.LowerAscii(stemLabel.GetOr(""))
  {
    if isStemSource then Text.LowerAscii(stemLabel.GetOr("")) else "master"
  }

  const NoteSources: seq<string> := ["master", "vocals", "bass", "piano", "other"]

  predicate ShouldShowNote(key: string) {
    key in NoteSources
  }

  /**
   * The master card always shows a badge; a stem card shows one for vocals, bass, piano and
   * other in any letter case, never for guitar or drums, and not without a label.
   */
  lemma BadgeSources(name: string)
    ensures ShouldShowNote(NoteSourceKey(false, None))
    ensures Text.LowerAscii(name) == "guitar" || Text.LowerAscii(name) == "drums" ==>
      !ShouldShowNote(NoteSourceKey(true, Some(name)))
    ensures !ShouldShowNote(NoteSourceKey(true, None))
  {
    assert NoteSources[0] == "master";
    assert Text.LowerAscii("") == "";
  }

  /** The badge's note and the second it last ran the detector in. */
  datatype NoteBadge = NoteBadge(note: Option<string>, lastSec: int)

  const InitialBadge := NoteBadge(None, -1)

  /**
   * The note effect on one render: off unless shown and playing; once per whole second it
   * runs the detector and keeps the previous note when the detector finds nothing.
   */
  function NoteTick(b: NoteBadge, show: bool, isPlaying: bool, currentTime: real, detected: Option<string>): (r: NoteBadge)
    ensures !show || !isPlaying || currentTime.Floor == b.lastSec ==> r == b
    ensures show && isPlaying && currentTime.Floor != b.lastSec ==>
      r.lastSec == currentTime.Floor && (if Js.TruthyString(detected) then r.note == detected else r.note == b.note)
  {
    if !show || !isPlaying then b
    else
      var sec := currentTime.Floor;
      if sec == b.lastSec then b
      else if Js.TruthyString(detected) then NoteBadge(detected, sec)
      else NoteBadge(b.note, sec)
  }

  /** A second render within the same second changes nothing: one detection per second. */
  lemma OneDetectionPerSecond(b: NoteBadge, show: bool, isPlaying: bool, t1: real, d1: Option<string>,
                              t2: real, d2: Option<string>)
    requires t1.Floor == t2.Floor
    ensures var b1 := NoteTick(b, show, isPlaying, t1, d1);
      NoteTick(b1, show, isPlaying, t2, d2) == b1 || (!(show && isPlaying) && b1 == b)
  {
  }

  /** One render of the card's note effect: whether it plays, the time, what the detector says. */
  datatype Frame = Frame(isPlaying: bool, currentTime: real, detected: Option<string>)

  function RunBadge(b: NoteBadge, show: bool, frames: seq<Frame>): (r: NoteBadge)
    decreases |frames|
  {
    if frames == [] then b
    else RunBadge(NoteTick(b, show, frames[0].isPlaying, frames[0].currentTime, frames[0].detected), show, frames[1..])
  }

  /** When the detector never finds a note, the badge keeps whatever note it had. */
  lemma {:induction false} SilentDetectorKeepsNote(b: NoteBadge, show: bool, frames: seq<Frame>)
    requires forall k :: 0 <= k < |frames| ==> !Js.TruthyString(frames[k].detected)
    ensures RunBadge(b, show, frames).note == b.note
    decreases |frames|
  {
    if frames != [] {
      var f := frames[0];
      SilentDetectorKeepsNote(NoteTick(b, show, f.isPlaying, f.currentTime, f.detected), show, frames[1..]);
    }
  }

  /**
   * As written the card hands the analyser hook's state to the detector, which then never
   * finds a note: from the start the badge shows no note, whatever is played.
   */
  lemma BadgeStaysEmpty(show: bool, states: seq<AudioAnalyser.AnalyzerState>, times: seq<real>,
                        semitonesFromA4: real -> int)
    requires |states| == |times|
    ensures var frames := seq(|states|, k requires 0 <= k < |states| =>
        Frame(states[k].isPlaying, times[k], Notes.DetectFromAnalyzerState(states[k], semitonesFromA4)));
      RunBadge(InitialBadge, show, frames).note.None?
  {
    var frames := seq(|states|, k requires 0 <= k < |states| =>
        Frame(states[k].isPlaying, times[k], Notes.DetectFromAnalyzerState(states[k], semitonesFromA4)));
    SilentDetectorKeepsNote(InitialBadge, show, frames);
  }

  /** With the spectrum and sample rate handed over, an A4 peak reaches the badge. */
  lemma BadgeShowsFrameNote(st: AudioAnalyser.AnalyzerState, t: real, semitonesFromA4: real -> int)
    requires semitonesFromA4(440.0) == 0 && t >= 0.0
    ensures var d := Notes.DetectFromFrame(Notes.SpectrumFrame(st, [0.0, 0.0, 5.0, 1.0], Js.Finite(1760.0)), semitonesFromA4);
      NoteTick(InitialBadge, true, true, t, d).note == Some("A4")
  {
    Notes.FrameDetectsA4(st, semitonesFromA4);
  }

  /** The DAW's main source: `stems.master || stems.vocals || stems.other || null`. */
  function MasterPath(stems: StemsMap): (r: Option<string>)
    ensures r.Some? ==> r.value != ""
    ensures Truthy(stems, Master) ==> r == Some(stems[Master])
    ensures !Truthy(stems, Master) && Truthy(stems, Stem(Vocals)) ==> r == Some(stems[Stem(Vocals)])
    ensures !Truthy(stems, Master) && !Truthy(stems, Stem(Vocals)) && Truthy(stems, Stem(Other)) ==>
      r == Some(stems[Stem(Other)])
    ensures r.None? <==> !Truthy(stems, Master) && !Truthy(stems, Stem(Vocals)) && !Truthy(stems, Stem(Other))
  {
    if Truthy(stems, Master) then Some(stems[Master])
    else if Truthy(stems, Stem(Vocals)) then Some(stems[Stem(Vocals)])
    else if Truthy(stems, Stem(Other)) then Some(stems[Stem(Other)])
    else None
  }

  /** `stems[k]` is a non-empty string. */
  predicate Truthy(stems: StemsMap, k: Track) {
    k in stems && stems[k] != ""
  }

  /** `pathForStem`: the master fallback chain, or the stem's own path. */
  function PathForStem(stems: StemsMap, track: Track): (r: Option<string>)
    ensures track.Master? ==> r == MasterPath(stems)
    ensures track.Stem? ==> (r.Some? <==> Truthy(stems, track)) && (r.Some? ==> r.value == stems[track])
  {
    if track.Master? then MasterPath(stems)
    else if Truthy(stems, track) then Some(stems[track])
    else None
  }

  /** Every source the DAW can play is a non-empty path from the stems map. */
  lemma PathFromStems(stems: StemsMap, track: Track)
    ensures var r := PathForStem(stems, track);
      r.Some? ==> r.value != "" && exists k :: k in stems && stems[k] == r.value
  {
  }

  const AllTracks: seq<Track> := [Master, Stem(Guitar), Stem(Bass), Stem(Vocals), Stem(Piano), Stem(Other), Stem(Drums)]

  type VolumeMap = map<Track, real>

  /** Every track starts at full volume. */
  const InitialVolumes: VolumeMap := map k | k in AllTracks :: 1.0

  /** `handleTrackVolumeChange`: set one entry. */
  function SetTrackVolume(vols: VolumeMap, track: Track, value: real): (r: VolumeMap)
    ensures track in r && r[track] == value
    ensures r.Keys == vols.Keys + {track}
    ensures forall k :: k in vols && k != track ==> r[k] == vols[k]
  {
    vols[track := value]
  }

  /** The element's volume: the master slider times the active track's (1 if unset). */
  function ElementVolume(masterVolume: real, vols: VolumeMap, active: Track): (v: real)
    ensures active in vols ==> v == masterVolume * vols[active]
    ensures active !in vols ==> v == masterVolume
  {
    masterVolume * (if active in vols then vols[active] else 1.0)
  }

  /** Every track is present from the start, so the `?? 1` default is never used. */
  lemma AllTracksHaveVolume(track: Track)
    ensures track in InitialVolumes && InitialVolumes[track] == 1.0
    ensures ElementVolume(1.0, InitialVolumes, track) == 1.0
  {
    match track
    case Master => assert AllTracks[0] == track;
    case Stem(s) =>
      match s
      case Guitar => assert AllTracks[1] == track;
      case Bass => assert AllTracks[2] == track;
      case Vocals => assert AllTracks[3] == track;
      case Piano => assert AllTracks[4] == track;
      case Other => assert AllTracks[5] == track;
      case Drums => assert AllTracks[6] == track;
  }

  /** Changing another track's slider leaves the element's volume unchanged. */
  lemma OtherSliderNoEffect(masterVolume: real, vols: VolumeMap, active: Track, track: Track, value: real)
    requires track != active
    ensures ElementVolume(masterVolume, SetTrackVolume(vols, track, value), active) == ElementVolume(masterVolume, vols, active)
  {
  }

  /** `notesForSource`: the active track's notes (even an empty list), else the master's, else none. */
  function NotesForSource(notes: Option<NotesByTrack>, active: Track): (r: Option<seq<NoteEvent>>)
    ensures notes.None? ==> r.None?
    ensures notes.Some? && active in notes.value ==> r == Some(notes.value[active])
    ensures notes.Some? && active !in notes.value ==>
      r == (if Master in notes.value then Some(notes.value[Master]) else None)
  {
    if notes.None? then None
    else if active in notes.value then Some(notes.value[active])
    else if Master in notes.value then Some(notes.value[Master])
    else None
  }

  /** The element as the players drive it. */
  datatype Element = Element(paused: bool, playbackRate: real)

  /** The DAW's `togglePlay`: re-apply the chosen rate, then play or pause. */
  function DawTogglePlay(el: Option<Element>, rate: real): (r: Option<Element>)
    ensures el.None? ==> r.None?
    ensures el.Some? ==> r == Some(Element(!el.value.paused, rate))
  {
    match el
    case None => None
    case Some(e) => Some(Element(!e.paused, rate))
  }

  /** The card's `togglePlay` leaves the rate alone. */
  function CardTogglePlay(el: Option<Element>): (r: Option<Element>)
    ensures r.Some? <==> el.Some?
    ensures r.Some? ==> r.value.paused != el.value.paused
    ensures r.Some? ==> r.value.playbackRate == el.value.playbackRate
  {
    match el
    case None => None
    case Some(e) => Some(e.(paused := !e.paused))
  }

  /** Two card toggles restore the element exactly, rate included. */
  lemma CardToggleTwice(el: Option<Element>)
    ensures CardTogglePlay(CardTogglePlay(el)) == el
  {
  }

  /** The card toggle is the DAW toggle applied with the element's own rate. */
  lemma CardIsDawAtOwnRate(el: Option<Element>)
    ensures el.Some? ==> CardTogglePlay(el) == DawTogglePlay(el, el.value.playbackRate)
    ensures el.None? ==> CardTogglePlay(el) == DawTogglePlay(el, 1.0) == None
  {
  }

  /** Toggling the card `n` times. */
  function CardToggles(el: Option<Element>, n: nat): Option<Element> {
    if n == 0 then el else CardTogglePlay(CardToggles(el, n - 1))
  }

  /** However often the card is toggled, the rate never changes and the pause flag alternates. */
  lemma {:induction false} CardTogglesKeepRate(el: Element, n: nat)
    ensures CardToggles(Some(el), n).Some?
    ensures CardToggles(Some(el), n).value.playbackRate == el.playbackRate
    ensures CardToggles(Some(el), n).value.paused == (if n % 2 == 0 then el.paused else !el.paused)
  {
    if n > 0 {
      CardTogglesKeepRate(el, n - 1);
    }
  }

  /** Two DAW toggles restore the pause state, and either leaves the chosen rate applied. */
  lemma DawToggleTwice(el: Element, rate: real)
    ensures DawTogglePlay(DawTogglePlay(Some(el), rate), rate) == Some(Element(el.paused, rate))
    ensures DawTogglePlay(Some(el), rate).value.playbackRate == rate
  {
  }
}
