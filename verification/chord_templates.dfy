/**
 * The chord templates of the back end (music-backend/analyzer.py, `_build_chord_templates`):
 * for each of the twelve roots one 12-bin pitch-class vector per chord quality, named
 * `<root><suffix>` and scaled to unit length. The Euclidean norm comes from numpy and is a
 * parameter here.
 */
module ChordTemplates {
  import opened Wrappers

  const NoteNames: seq<string> := ["C", "C#", "D", "D#", "E", "F", "F#", "G", "G#", "A", "A#", "B"]

  datatype Quality = Major | Minor | Diminished | Augmented | Dominant7 | Major7 | Minor7

  function Suffix(q: Quality): string {
    match q
    case Major => ""
    case Minor => "m"
    case Diminished => "dim"
    case Augmented => "aug"
    case Dominant7 => "7"
    case Major7 => "maj7"
    case Minor7 => "m7"
  }

  /** Semitones above the root. */
  function Intervals(q: Quality): seq<nat> {
    match q
    case Major => [0, 4, 7]
    case Minor => [0, 3, 7]
    case Diminished => [0, 3, 6]
    case Augmented => [0, 4, 8]
    case Dominant7 => [0, 4, 7, 10]
    case Major7 => [0, 4, 7, 11]
    case Minor7 => [0, 3, 7, 10]
  }

  /** The qualities built per root, in insertion order. */
  function Qualities(includeSevenths: bool): (qs: seq<Quality>)
    ensures |qs| == if includeSevenths then 7 else 4
    ensures forall a, b :: 0 <= a < b < |qs| ==> qs[a] != qs[b]
    ensures includeSevenths <==> Dominant7 in qs
  {
    [Major, Minor, Diminished, Augmented] + if includeSevenths then [Dominant7, Major7, Minor7] else []
  }

  /** Pitch class p is one of `(root + i) % 12` for an interval i. */
  predicate Hits(root: nat, intervals: seq<nat>, p: nat) {
    exists k :: 0 <= k < |intervals| && (root + intervals[k]) % 12 == p
  }

  /** The `tpl` loop: set bin `(root + i) % 12` to 1 for each interval in turn. */
  function SetBins(v: seq<real>, root: nat, intervals: seq<nat>): (r: seq<real>)
    requires |v| == 12
    ensures |r| == 12
    decreases |intervals|
  {
    if intervals == [] then v
    else SetBins(v[(root + intervals[0]) % 12 := 1.0], root, intervals[1..])
  }

  /** Each bin the loop touched is 1 and every other bin keeps its value. */
  lemma {:induction false} SetBinsAt(v: seq<real>, root: nat, intervals: seq<nat>, p: nat)
    requires |v| == 12 && p < 12
    ensures SetBins(v, root, intervals)[p] == if Hits(root, intervals, p) then 1.0 else v[p]
    decreases |intervals|
  {
    if intervals != [] {
      var v1 := v[(root + intervals[0]) % 12 := 1.0];
      SetBinsAt(v1, root, intervals[1..], p);
      if Hits(root, intervals[1..], p) {
        var k :| 0 <= k < |intervals[1..]| && (root + intervals[1..][k]) % 12 == p;
        assert (root + intervals[k + 1]) % 12 == p;
      }
      if !Hits(root, intervals, p) {
        assert (root + intervals[0]) % 12 != p;
      }
    }
  }

  function Zeros(): (z: seq<real>)
    ensures |z| == 12
  {
    seq(12, _ => 0.0)
  }

  /** `tpl(root, intervals)`. */
  function Tpl(root: nat, intervals: seq<nat>): (v: seq<real>)
    ensures |v| == 12
  {
    SetBins(Zeros(), root, intervals)
  }

  /** `v / norm(v)` when the norm is positive; `norm` is numpy's Euclidean norm. */
  function Normalise(v: seq<real>, norm: seq<real> -> real): (r: seq<real>)
    ensures |r| == |v|
    ensures forall i :: 0 <= i < |v| && v[i] == 0.0 ==> r[i] == 0.0
    ensures forall i, j :: 0 <= i < |v| && 0 <= j < |v| && v[i] == v[j] ==> r[i] == r[j]
  {
    var n := norm(v);
    if n > 0.0 then seq(|v|, i requires 0 <= i < |v| => v[i] / n) else v
  }

  datatype Template = Template(name: string, vector: seq<real>)

  function Name(root: nat, q: Quality): string
    requires root < 12
  {
    NoteNames[root] + Suffix(q)
  }

  /** The normalised template of one chord. */
  function Vector(root: nat, q: Quality, norm: seq<real> -> real): (v: seq<real>)
    ensures |v| == 12
  {
    Normalise(Tpl(root, Intervals(q)), norm)
  }

  /** Entry k of the table: root k / n and quality k % n, n the number of qualities. */
  function Entry(qs: seq<Quality>, norm: seq<real> -> real, k: nat): Template
    requires 0 <= k < 12 * |qs|
  {
    var root := k / |qs|;
    Template(Name(root, qs[k % |qs|]), Vector(root, qs[k % |qs|], norm))
  }

  /** The templates in dictionary order: roots outer, qualities inner. */
  function Templates(includeSevenths: bool, norm: seq<real> -> real): (ts: seq<Template>)
    ensures |ts| == 12 * |Qualities(includeSevenths)|
  {
    var qs := Qualities(includeSevenths);
    seq(12 * |qs|, k requires 0 <= k < 12 * |qs| => Entry(qs, norm, k))
  }

  lemma DivBound(k: nat, n: nat)
    requires 0 < n && k < 12 * n
    ensures k / n < 12 && k % n < n
  {
    var q := k / n;
    assert n * q <= k;
    if q >= 12 {
      MulLe(12, q, n);
      assert false;
    }
  }

  lemma MulLe(a: nat, b: nat, n: nat)
    requires a <= b
    ensures n * a <= n * b
  {
  }

  lemma DivModUnique(a: nat, b: nat, n: nat)
    requires 0 < n && a / n == b / n && a % n == b % n
    ensures a == b
  {
    assert a == n * (a / n) + a % n;
    assert b == n * (b / n) + b % n;
  }

  /** 84 templates with sevenths, 48 without. */
  lemma TemplateCount(norm: seq<real> -> real)
    ensures |Templates(true, norm)| == 84
    ensures |Templates(false, norm)| == 48
  {
  }

  /** The pitch class a note letter names. */
  function LetterClass(c: char): Option<nat> {
    match c
    case 'C' => Some(0)
    case 'D' => Some(2)
    case 'E' => Some(4)
    case 'F' => Some(5)
    case 'G' => Some(7)
    case 'A' => Some(9)
    case 'B' => Some(11)
    case _ => None
  }

  function QualityOf(s: string): Option<Quality> {
    if s == Suffix(Major) then Some(Major)
    else if s == Suffix(Minor) then Some(Minor)
    else if s == Suffix(Diminished) then Some(Diminished)
    else if s == Suffix(Augmented) then Some(Augmented)
    else if s == Suffix(Dominant7) then Some(Dominant7)
    else if s == Suffix(Major7) then Some(Major7)
    else if s == Suffix(Minor7) then Some(Minor7)
    else None
  }

  /** Reads a template name back as its root and quality. */
  function ParseName(name: string): Option<(nat, Quality)> {
    if name == [] || LetterClass(name[0]).None? then None
    else
      var sharp := |name| >= 2 && name[1] == '#';
      var root := LetterClass(name[0]).value + if sharp then 1 else 0;
      var rest := if sharp then name[2..] else name[1..];
      match QualityOf(rest)
      case None => None
      case Some(q) => Some((root, q))
  }

  lemma SuffixRoundTrip(q: Quality)
    ensures QualityOf(Suffix(q)) == Some(q)
    ensures Suffix(q) == [] || Suffix(q)[0] != '#'
  {
  }

  lemma RootRoundTrip(root: nat, s: string)
    requires root < 12 && (s == [] || s[0] != '#')
    ensures |NoteNames[root]| >= 1 && LetterClass(NoteNames[root][0]).Some?
    ensures var n := NoteNames[root] + s;
      var sharp := |n| >= 2 && n[1] == '#';
      && LetterClass(n[0]).value + (if sharp then 1 else 0) == root
      && (if sharp then n[2..] else n[1..]) == s
  {
    var n := NoteNames[root] + s;
    if |NoteNames[root]| == 1 {
      assert n[1..] == s;
    } else {
      assert n[2..] == s;
    }
  }

  /** Names read back to the root and quality they were built from. */
  lemma NameRoundTrip(root: nat, q: Quality)
    requires root < 12
    ensures ParseName(Name(root, q)) == Some((root, q))
  {
    SuffixRoundTrip(q);
    RootRoundTrip(root, Suffix(q));
  }

  /** Entry k is named after root k / n and quality k % n, n the number of qualities. */
  lemma TemplateName(includeSevenths: bool, norm: seq<real> -> real, k: nat) returns (r: nat, j: nat)
    requires k < |Templates(includeSevenths, norm)|
    ensures var qs := Qualities(includeSevenths);
      && r == k / |qs| && j == k % |qs| && r < 12 && j < |qs|
      && Templates(includeSevenths, norm)[k].name == Name(r, qs[j])
  {
    var qs := Qualities(includeSevenths);
    DivBound(k, |qs|);
    r, j := k / |qs|, k % |qs|;
    assert Templates(includeSevenths, norm)[k] == Entry(qs, norm, k);
  }

  /** No two templates share a name, so the dictionary holds every one of them. */
  lemma DistinctNames(includeSevenths: bool, norm: seq<real> -> real, a: nat, b: nat)
    requires a < b < |Templates(includeSevenths, norm)|
    ensures Templates(includeSevenths, norm)[a].name != Templates(includeSevenths, norm)[b].name
  {
    var qs := Qualities(includeSevenths);
    var n := |qs|;
    var ra, ja := TemplateName(includeSevenths, norm, a);
    var rb, jb := TemplateName(includeSevenths, norm, b);
    NameRoundTrip(ra, qs[ja]);
    NameRoundTrip(rb, qs[jb]);
    if Name(ra, qs[ja]) == Name(rb, qs[jb]) {
      assert ja == jb;
      DivModUnique(a, b, n);
    }
  }

  /** Every name is a note name followed by one of the quality suffixes built. */
  lemma NameShape(includeSevenths: bool, norm: seq<real> -> real, k: nat)
    requires k < |Templates(includeSevenths, norm)|
    ensures exists r: nat, q :: (r < 12 && q in Qualities(includeSevenths)
      && Templates(includeSevenths, norm)[k].name == Name(r, q))
  {
    var qs := Qualities(includeSevenths);
    DivBound(k, |qs|);
    assert Templates(includeSevenths, norm)[k] == Entry(qs, norm, k);
    assert qs[k % |qs|] in qs;
  }

  /** The raw template is 1 on the hit bins and 0 elsewhere. */
  lemma TplAt(root: nat, iv: seq<nat>, p: nat)
    requires p < 12
    ensures Tpl(root, iv)[p] == if Hits(root, iv, p) then 1.0 else 0.0
  {
    SetBinsAt(Zeros(), root, iv, p);
  }

  /** With a positive norm each bin is divided by it; otherwise the vector is unchanged. */
  lemma NormaliseAt(v: seq<real>, norm: seq<real> -> real, i: nat)
    requires i < |v|
    ensures var n := norm(v);
      Normalise(v, norm)[i] == if n > 0.0 then v[i] / n else v[i]
  {
  }

  /** A norm in the sense needed here: positive on every vector with a nonzero entry. */
  ghost predicate PositiveNorm(norm: seq<real> -> real) {
    forall v: seq<real>, i :: 0 <= i < |v| && v[i] != 0.0 ==> norm(v) > 0.0
  }

  /**
   * A template is zero away from `(root + i) % 12` and takes one common value on those
   * bins; with a norm that is positive on nonzero vectors, that value is positive, so the
   * template is nonzero exactly there.
   */
  lemma VectorSupport(root: nat, q: Quality, norm: seq<real> -> real, p: nat, p2: nat)
    requires p < 12 && p2 < 12
    ensures var v := Vector(root, q, norm);
      && (!Hits(root, Intervals(q), p) ==> v[p] == 0.0)
      && (Hits(root, Intervals(q), p) && Hits(root, Intervals(q), p2) ==> v[p] == v[p2])
      && (PositiveNorm(norm) && Hits(root, Intervals(q), p) ==> v[p] > 0.0)
  {
    var iv := Intervals(q);
    var raw := Tpl(root, iv);
    var n := norm(raw);
    TplAt(root, iv, p);
    TplAt(root, iv, p2);
    NormaliseAt(raw, norm, p);
    NormaliseAt(raw, norm, p2);
    if Hits(root, iv, p) {
      if n > 0.0 {
        assert 1.0 / n > 0.0;
      }
    }
  }

  /** Table entry k has the support of its root and quality. */
  lemma TemplateSupport(includeSevenths: bool, norm: seq<real> -> real, k: nat, p: nat, p2: nat)
    requires k < |Templates(includeSevenths, norm)| && p < 12 && p2 < 12
    ensures var qs := Qualities(includeSevenths);
      var root, iv := k / |qs|, Intervals(qs[k % |qs|]);
      var v := Templates(includeSevenths, norm)[k].vector;
      && (!Hits(root, iv, p) ==> v[p] == 0.0)
      && (Hits(root, iv, p) && Hits(root, iv, p2) ==> v[p] == v[p2])
      && (PositiveNorm(norm) && Hits(root, iv, p) ==> v[p] > 0.0)
  {
    var qs := Qualities(includeSevenths);
    DivBound(k, |qs|);
    assert Templates(includeSevenths, norm)[k] == Entry(qs, norm, k);
    VectorSupport(k / |qs|, qs[k % |qs|], norm, p, p2);
  }

  /** The root's own bin is always set: every quality starts at interval 0. */
  lemma RootIsHit(root: nat, q: Quality)
    requires root < 12
    ensures Hits(root, Intervals(q), root)
  {
    assert (root + Intervals(q)[0]) % 12 == root;
  }
}
