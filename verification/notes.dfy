/**
 * Note detection from a magnitude spectrum (music-frontend/src/utils/notes.ts): the
 * strongest bin above bin 0, its centre frequency, the nearest equal-tempered MIDI note
 * relative to A4 = 440 Hz, and that note's scientific-pitch name.
 */
module Notes {
  import opened Wrappers
  import Js
  import Text
  import AudioAnalyser

  const NoteNames: seq<string> := ["C", "C#", "D", "D#", "E", "F", "F#", "G", "G#", "A", "A#", "B"]

  /**
   * Bin k is the scan's answer: positive, no bin from 1 on is larger, and every bin from 1
   * before it is strictly smaller (ties keep the earliest bin).
   */
  predicate IsPeak(f: seq<real>, k: int) {
    && 1 <= k < |f|
    && f[k] > 0.0
    && (forall j :: 1 <= j < |f| ==> f[j] <= f[k])
    && (forall j :: 1 <= j < k ==> f[j] < f[k])
  }

  /** There is at most one such bin. */
  lemma PeakUnique(f: seq<real>, a: int, b: int)
    requires IsPeak(f, a) && IsPeak(f, b)
    ensures a == b
  {
  }

  /** The peak bin of the spectrum, or -1 when no bin from 1 on is positive. */
  function PeakBin(f: seq<real>): (k: int)
    ensures k == -1 || IsPeak(f, k)
    ensures k == -1 <==> forall j :: 1 <= j < |f| ==> f[j] <= 0.0
  {
    if |f| <= 1 then -1
    else
      var p := f[..|f| - 1];
      var k := PeakBin(p);
      assert forall j :: 1 <= j < |p| ==> p[j] == f[j];
      if f[|f| - 1] > (if k == -1 then 0.0 else f[k]) then |f| - 1 else k
  }

  /** The scan as written: from bin 1, a running maximum starting at 0, strict comparison. */
  method BestBin(frequency: seq<real>) returns (maxIdx: int)
    ensures maxIdx == PeakBin(frequency)
    ensures maxIdx == -1 || IsPeak(frequency, maxIdx)
  {
    var maxVal := 0.0;
    maxIdx := -1;
    var i := 1;
    if |frequency| <= 1 {
      return;
    }
    assert frequency[..1] == [frequency[0]];
    while i < |frequency|
      invariant 1 <= i <= |frequency|
      invariant maxIdx == PeakBin(frequency[..i])
      invariant maxVal == if maxIdx == -1 then 0.0 else frequency[maxIdx]
    {
      assert frequency[..i + 1][..i] == frequency[..i];
      var v := frequency[i];
      if v > maxVal {
        maxVal := v;
        maxIdx := i;
      }
      i := i + 1;
    }
    assert frequency[..i] == frequency;
  }

  /** The centre frequency of bin `k` of a `len`-bin spectrum at sample rate `sr`. */
  function BinHz(k: nat, len: nat, sr: real): real
    requires len > 0
  {
    k as real * sr / (2 * len) as real
  }

  /** `maxIdx * sampleRate / (2 * length)` in JavaScript numbers (exact arithmetic on finite ones). */
  function BinFrequency(k: nat, len: nat, sampleRate: Js.Number): (r: Js.Number)
    requires 1 <= k < len
    ensures r.Finite? <==> sampleRate.Finite?
  {
    match sampleRate
    case Finite(sr) => Js.Finite(BinHz(k, len, sr))
    case NaN => Js.NaN
    case PosInf => Js.PosInf
    case NegInf => Js.NegInf
  }

  /**
   * A MIDI number's name: pitch class and octave, octave -1 starting at MIDI 0, so
   * MIDI 60 is C4 and MIDI 69 is A4.
   */
  function NoteName(midi: int): (r: string)
    requires 0 <= midi <= 127
    ensures 2 <= |r| <= 4
  {
    NoteNames[midi % 12] + Text.IntToString(midi / 12 - 1)
  }

  /** Index of a pitch-class name in the table. */
  function PitchClass(name: string): (r: Option<nat>)
    ensures r.Some? ==> r.value < 12 && NoteNames[r.value] == name
    ensures r.None? ==> name !in NoteNames
  {
    if name == "C" then Some(0) else if name == "C#" then Some(1)
    else if name == "D" then Some(2) else if name == "D#" then Some(3)
    else if name == "E" then Some(4) else if name == "F" then Some(5)
    else if name == "F#" then Some(6) else if name == "G" then Some(7)
    else if name == "G#" then Some(8) else if name == "A" then Some(9)
    else if name == "A#" then Some(10) else if name == "B" then Some(11)
    else None
  }

  /** An octave in the range names can carry: `-1` or one digit. */
  function ParseOctave(t: string): (r: Option<int>)
    ensures r.Some? ==> -1 <= r.value <= 9
  {
    if t == "-1" then Option<int>.Some(-1)
    else if |t| == 1 && Text.IsDigit(t[0]) then Some(Text.DigitValue(t[0]))
    else None
  }

  /** Reads a note name back to its MIDI number. */
  function ParseNoteName(s: string): (r: Option<int>)
  {
    var nameLen := if |s| >= 2 && s[1] == '#' then 2 else 1;
    if |s| <= nameLen then None
    else match (PitchClass(s[..nameLen]), ParseOctave(s[nameLen..]))
      case (Some(pc), Some(oct)) => Some(12 * (oct + 1) + pc)
      case _ => None
  }

  lemma DigitRoundTrip(d: nat)
    requires d < 10
    ensures Text.NatToString(d) == [Text.DigitChar(d)]
    ensures Text.IsDigit(Text.DigitChar(d)) && Text.DigitValue(Text.DigitChar(d)) == d
  {
    assert "0123456789"[d] as int == '0' as int + d by {
      if d == 0 {} else if d == 1 {} else if d == 2 {} else if d == 3 {} else if d == 4 {}
      else if d == 5 {} else if d == 6 {} else if d == 7 {} else if d == 8 {} else {}
    }
  }

  /** The octaves of MIDI 0 to 127 print as `-1` or one digit, and read back. */
  lemma OctaveParses(oct: int)
    requires -1 <= oct <= 9
    ensures var t := Text.IntToString(oct); ParseOctave(t) == Some(oct) && t[0] != '#'
  {
    if oct == -1 {
      DigitRoundTrip(1);
      assert Text.IntToString(oct) == "-1";
    } else {
      DigitRoundTrip(oct);
    }
  }

  /** A pitch-class name followed by an octave text reads back to both. */
  lemma ParseJoin(pc: nat, t: string, oct: int)
    requires pc < 12 && t != [] && t[0] != '#' && ParseOctave(t) == Some(oct)
    ensures ParseNoteName(NoteNames[pc] + t) == Some(12 * (oct + 1) + pc)
  {
    var name, s := NoteNames[pc], NoteNames[pc] + t;
    if |name| == 2 {
      assert s[1] == '#';
      assert s[..2] == name && s[2..] == t;
    } else {
      assert s[1] == t[0];
      assert s[..1] == name && s[1..] == t;
    }
    assert PitchClass(name) == Some(pc);
  }

  /** Every name the detector can produce reads back to its MIDI number: names are distinct. */
  lemma NoteNameRoundTrip(midi: int)
    requires 0 <= midi <= 127
    ensures ParseNoteName(NoteName(midi)) == Some(midi)
  {
    var pc, oct := midi % 12, midi / 12 - 1;
    OctaveParses(oct);
    ParseJoin(pc, Text.IntToString(oct), oct);
  }

  lemma NoteNameInjective(a: int, b: int)
    requires 0 <= a <= 127 && 0 <= b <= 127 && NoteName(a) == NoteName(b)
    ensures a == b
  {
    NoteNameRoundTrip(a);
    NoteNameRoundTrip(b);
  }

  lemma NoteNameExamples()
    ensures NoteName(69) == "A4" && NoteName(60) == "C4" && NoteName(0) == "C-1" && NoteName(127) == "G9"
  {
    DigitRoundTrip(4);
    DigitRoundTrip(9);
    DigitRoundTrip(1);
  }

  /**
   * `r` is the note a frequency of `hz` Hz names: present exactly when `hz` is above 20 Hz and
   * its MIDI number `semitonesFromA4(hz) + 69` lies in 0..127, and then that number's name.
   */
  ghost predicate NamedNote(hz: real, semitonesFromA4: real -> int, r: Option<string>) {
    var midi := semitonesFromA4(hz) + 69;
    && (r.Some? <==> hz > 20.0 && 0 <= midi <= 127)
    && (r.Some? ==> 0 <= midi <= 127 && r.value == NoteName(midi))
  }

  /**
   * The steps after the scan. `semitonesFromA4` stands for `Math.round(12 * Math.log2(hz / 440))`,
   * which has no exact counterpart over the reals here.
   */
  function NoteForHz(hz: Js.Number, semitonesFromA4: real -> int): (r: Option<string>)
    ensures r.Some? ==> hz.Finite? && hz.v > 20.0
    ensures r.Some? ==> 0 <= semitonesFromA4(hz.v) + 69 <= 127
    ensures r.Some? ==> r.value == NoteName(semitonesFromA4(hz.v) + 69)
    ensures !hz.Finite? ==> r.None?
    ensures hz.Finite? ==> NamedNote(hz.v, semitonesFromA4, r)
  {
    if !hz.Finite? || hz.v <= 20.0 then None
    else
      var midi := semitonesFromA4(hz.v) + 69;
      if 0 <= midi <= 127 then Some(NoteName(midi)) else None
  }

  function NoteForBin(k: int, len: nat, sampleRate: Js.Number, semitonesFromA4: real -> int): (r: Option<string>)
    requires k < len
    ensures r.Some? ==> 1 <= k && sampleRate.Finite?
  {
    if k <= 0 then None else NoteForHz(BinFrequency(k, len, sampleRate), semitonesFromA4)
  }

  /** `detectNoteFromAnalysis` on a spectrum and a sample rate (an absent one reads as NaN). */
  function Detect(frequency: Option<seq<real>>, sampleRate: Js.Number, semitonesFromA4: real -> int): (r: Option<string>)
    ensures frequency.None? || !sampleRate.Truthy() ==> r.None?
    ensures frequency.Some? && (forall j :: 1 <= j < |frequency.value| ==> frequency.value[j] <= 0.0) ==> r.None?
    ensures r.Some? ==> frequency.Some? && sampleRate.Truthy() && IsPeak(frequency.value, PeakBin(frequency.value))
  {
    if frequency.None? || !sampleRate.Truthy() then None
    else NoteForBin(PeakBin(frequency.value), |frequency.value|, sampleRate, semitonesFromA4)
  }

  /** A name produced from a frequency is a note name that reads back to its MIDI number. */
  lemma HzNameParses(r: Option<string>, hz: Js.Number, semitonesFromA4: real -> int)
    requires r == NoteForHz(hz, semitonesFromA4) && r.Some?
    ensures exists midi :: 0 <= midi <= 127 && r.value == NoteName(midi) && ParseNoteName(r.value) == Some(midi)
  {
    var m := semitonesFromA4(hz.v) + 69;
    NoteNameRoundTrip(m);
    assert 0 <= m <= 127 && r.value == NoteName(m);
  }

  /** A detected note is the name of a MIDI number in range, so it reads back to that number. */
  lemma DetectedNameParses(frequency: Option<seq<real>>, sampleRate: Js.Number, semitonesFromA4: real -> int)
    requires Detect(frequency, sampleRate, semitonesFromA4).Some?
    ensures var name := Detect(frequency, sampleRate, semitonesFromA4).value;
      exists midi :: 0 <= midi <= 127 && name == NoteName(midi) && ParseNoteName(name) == Some(midi)
  {
    DetectUnfold(frequency, sampleRate, semitonesFromA4);
    var hz := BinFrequency(PeakBin(frequency.value), |frequency.value|, sampleRate);
    HzNameParses(Detect(frequency, sampleRate, semitonesFromA4), hz, semitonesFromA4);
  }

  lemma DetectUnfold(frequency: Option<seq<real>>, sampleRate: Js.Number, semitonesFromA4: real -> int)
    requires Detect(frequency, sampleRate, semitonesFromA4).Some?
    ensures Detect(frequency, sampleRate, semitonesFromA4) ==
      NoteForHz(BinFrequency(PeakBin(frequency.value), |frequency.value|, sampleRate), semitonesFromA4)
  {
  }

  /** The detector as a method: the loop's bin is the peak bin, so the note is `Detect`'s. */
  method DetectNote(frequency: Option<seq<real>>, sampleRate: Js.Number, semitonesFromA4: real -> int)
    returns (r: Option<string>)
    ensures r == Detect(frequency, sampleRate, semitonesFromA4)
    ensures forall k :: frequency.Some? && sampleRate.Truthy() && IsPeak(frequency.value, k) ==>
      r == NoteForBin(k, |frequency.value|, sampleRate, semitonesFromA4)
  {
    if frequency.None? || !sampleRate.Truthy() {
      return None;
    }
    var f := frequency.value;
    var maxIdx := BestBin(f);
    forall k | IsPeak(f, k)
      ensures k == maxIdx
    {
      PeakUnique(f, k, maxIdx);
    }
    r := NoteForBin(maxIdx, |f|, sampleRate, semitonesFromA4);
  }

  /**
   * The player passes the analyser hook's state, which carries neither a spectrum nor a
   * sample rate: destructuring them yields `undefined`, so no note is ever detected.
   */
  function DetectFromAnalyzerState(s: AudioAnalyser.AnalyzerState, semitonesFromA4: real -> int): (r: Option<string>)
    ensures r.None?
  {
    Detect(None, Js.NaN, semitonesFromA4)
  }

  /** The state the detector evidently expects: the hook's fields plus spectrum and rate. */
  datatype SpectrumFrame = SpectrumFrame(state: AudioAnalyser.AnalyzerState, frequency: seq<real>, sampleRate: Js.Number)

  /**
   * The detector on a frame: nothing unless the rate is a finite non-zero number and a bin
   * from 1 on is positive; then the note the peak bin's frequency `BinHz(k, ...)` names.
   */
  function DetectFromFrame(fr: SpectrumFrame, semitonesFromA4: real -> int): (r: Option<string>)
    ensures var k := PeakBin(fr.frequency);
      !(fr.sampleRate.Finite? && fr.sampleRate.v != 0.0 && k >= 1) ==> r.None?
    ensures var k := PeakBin(fr.frequency);
      fr.sampleRate.Finite? && fr.sampleRate.v != 0.0 && k >= 1 ==>
        NamedNote(BinHz(k, |fr.frequency|, fr.sampleRate.v), semitonesFromA4, r)
  {
    var k := PeakBin(fr.frequency);
    var r := Detect(Some(fr.frequency), fr.sampleRate, semitonesFromA4);
    assert r == if fr.sampleRate.Truthy() then NoteForBin(k, |fr.frequency|, fr.sampleRate, semitonesFromA4) else None;
    DetectAtPeak(fr.frequency, fr.sampleRate, semitonesFromA4, k, r);
    r
  }

  /** `r` is the note of bin `k` of a `len`-bin spectrum at the given rate. */
  ghost predicate BinNote(k: int, len: nat, sampleRate: Js.Number, semitonesFromA4: real -> int, r: Option<string>)
    requires k < len
  {
    && (!(sampleRate.Finite? && sampleRate.v != 0.0 && k >= 1) ==> r.None?)
    && (sampleRate.Finite? && sampleRate.v != 0.0 && k >= 1 ==>
          NamedNote(BinHz(k, len, sampleRate.v), semitonesFromA4, r))
  }

  /** The detector's result in terms of the peak bin `k` and its frequency. */
  lemma DetectAtPeak(f: seq<real>, sampleRate: Js.Number, semitonesFromA4: real -> int, k: int, r: Option<string>)
    requires k < |f|
    requires r == if sampleRate.Truthy() then NoteForBin(k, |f|, sampleRate, semitonesFromA4) else None
    ensures BinNote(k, |f|, sampleRate, semitonesFromA4, r)
  {
    if sampleRate.Truthy() && k >= 1 {
      var b := BinFrequency(k, |f|, sampleRate);
      assert r == NoteForHz(b, semitonesFromA4);
    }
  }

  /**
   * With the spectrum supplied, a peak in bin 2 of 4 at 1760 Hz sampling sits at 440 Hz and
   * is named A4, where the state the player passes yields nothing.
   */
  lemma FrameDetectsA4(st: AudioAnalyser.AnalyzerState, semitonesFromA4: real -> int)
    requires semitonesFromA4(440.0) == 0
    ensures DetectFromFrame(SpectrumFrame(st, [0.0, 0.0, 5.0, 1.0], Js.Finite(1760.0)), semitonesFromA4) == Some("A4")
    ensures DetectFromAnalyzerState(st, semitonesFromA4) == None
  {
    var f := [0.0, 0.0, 5.0, 1.0];
    assert IsPeak(f, 2);
    PeakUnique(f, 2, PeakBin(f));
    assert BinFrequency(2, 4, Js.Finite(1760.0)) == Js.Finite(440.0);
    NoteNameExamples();
  }
}
