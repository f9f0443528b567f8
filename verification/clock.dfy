/**
 * Time and number labels: the transport bar's `MM:SS.t` clock
 * (music-frontend/src/components/daw/Transporter.tsx, copied verbatim as `formatted` in
 * music-frontend/src/components/analysis/MasterPlater.tsx), its speed buttons, and the
 * metadata header's `M:SS` duration (music-frontend/src/components/analysis/MetaHeader.tsx).
 * Times are exact non-negative reals; for non-negative operands JavaScript's truncating `%`
 * agrees with the floor-based remainder used here.
 */
module Clock {
  import opened Wrappers
  import Js
  import Text

  /** `x % 60` for x >= 0. */
  function Rem60(x: real): (r: real)
    requires x >= 0.0
    ensures 0.0 <= r < 60.0
    ensures x == 60.0 * (x / 60.0).Floor as real + r
  {
    x - 60.0 * (x / 60.0).Floor as real
  }

  /** `x % 10` for x >= 0. */
  function Rem10(x: real): (r: real)
    requires x >= 0.0
    ensures 0.0 <= r < 10.0
  {
    x - 10.0 * (x / 10.0).Floor as real
  }

  /** The three fields of the clock for a finite time t >= 0. */
  datatype Fields = Fields(mins: int, secs: int, tenths: int)

  function ClockFields(t: real): (f: Fields)
    requires t >= 0.0
    ensures f.mins >= 0 && 0 <= f.secs <= 59 && 0 <= f.tenths <= 9
  {
    Fields((t / 60.0).Floor, Rem60(t).Floor, Rem10(t * 10.0).Floor)
  }

  /** The clock's value in seconds: whole seconds plus tenths. */
  function FieldsValue(f: Fields): real {
    (60 * f.mins + f.secs) as real + f.tenths as real / 10.0
  }

  /** The clock shows t cut down to the tenth of a second. */
  lemma ClockFieldsValue(t: real)
    requires t >= 0.0
    ensures FieldsValue(ClockFields(t)) <= t < FieldsValue(ClockFields(t)) + 0.1
  {
    var m := (t / 60.0).Floor;
    var q := (t * 10.0 / 10.0).Floor;
    assert t * 10.0 / 10.0 == t;
    assert 60 * m + Rem60(t).Floor == q by {
      var r := Rem60(t);
    }
  }

  /** `format`: non-finite times show `00:00.0`. */
  function Format(t: Js.Number): (r: string)
    requires t.Finite? ==> t.v >= 0.0
    ensures !t.Finite? ==> r == "00:00.0"
  {
    if !t.Finite? then "00:00.0"
    else
      var f := ClockFields(t.v);
      Text.PadStart(Text.NatToString(f.mins), 2, '0') + ":" + Text.PadStart(Text.NatToString(f.secs), 2, '0')
        + "." + Text.NatToString(f.tenths)
  }

  /** Reads a clock label back: minutes of any width, two seconds digits, one tenths digit. */
  function ParseClock(s: string): (r: Option<Fields>)
  {
    if |s| < 6 || s[|s| - 5] != ':' || s[|s| - 2] != '.' then None
    else
      var m, ss, d := s[..|s| - 5], s[|s| - 4..|s| - 2], s[|s| - 1];
      if m != [] && Text.AllDigits(m) && Text.AllDigits(ss) && Text.IsDigit(d)
      then Some(Fields(Text.DigitsValue(m), Text.DigitsValue(ss), Text.DigitValue(d)))
      else None
  }

  lemma SplitClock(a: string, b: string, c: char)
    requires |b| == 2
    ensures var r := a + ":" + b + "." + [c];
      && r[..|r| - 5] == a && r[|r| - 5] == ':' && r[|r| - 4..|r| - 2] == b
      && r[|r| - 2] == '.' && r[|r| - 1] == c
  {
  }

  lemma TwoDigitsAtMost(n: nat)
    requires n < 100
    ensures |Text.NatToString(n)| <= 2
  {
    if n >= 10 {
      assert Text.NatToString(n) == Text.NatToString(n / 10) + [Text.DigitChar(n % 10)];
    }
  }

  lemma SingleDigit(d: nat)
    requires d < 10
    ensures Text.NatToString(d) == [Text.DigitChar(d)]
    ensures Text.IsDigit(Text.DigitChar(d)) && Text.DigitValue(Text.DigitChar(d)) == d
  {
    assert "0123456789"[d] as int == '0' as int + d by {
      if d == 0 {} else if d == 1 {} else if d == 2 {} else if d == 3 {} else if d == 4 {}
      else if d == 5 {} else if d == 6 {} else if d == 7 {} else if d == 8 {} else {}
    }
  }

  /** A label assembled from digit strings reads back to their values. */
  lemma ParseClockParts(a: string, b: string, c: char)
    requires a != [] && Text.AllDigits(a) && |b| == 2 && Text.AllDigits(b) && Text.IsDigit(c)
    ensures ParseClock(a + ":" + b + "." + [c]) ==
      Some(Fields(Text.DigitsValue(a), Text.DigitsValue(b), Text.DigitValue(c)))
  {
    SplitClock(a, b, c);
  }

  /** Every finite label reads back to the fields it was printed from. */
  lemma FormatRoundTrip(t: real)
    requires t >= 0.0
    ensures ParseClock(Format(Js.Finite(t))) == Some(ClockFields(t))
  {
    var f := ClockFields(t);
    var a := Text.PadStart(Text.NatToString(f.mins), 2, '0');
    var b := Text.PadStart(Text.NatToString(f.secs), 2, '0');
    SingleDigit(f.tenths);
    TwoDigitsAtMost(f.secs);
    PaddedValue(f.mins);
    PaddedValue(f.secs);
    ParseClockParts(a, b, Text.DigitChar(f.tenths));
  }

  /** A number padded with zeros still denotes itself. */
  lemma PaddedValue(n: nat)
    ensures var p := Text.PadStart(Text.NatToString(n), 2, '0');
      p != [] && Text.AllDigits(p) && Text.DigitsValue(p) == n
  {
    Text.ZeroPadValue(Text.NatToString(n), 2);
    Text.NatToStringValue(n);
  }

  /** The minutes field is padded to two digits but never cut: 100 minutes show as `100`. */
  lemma MinutesNotTruncated(t: real)
    requires t >= 0.0
    ensures var f := ClockFields(t); |Format(Js.Finite(t))| == |Text.PadStart(Text.NatToString(f.mins), 2, '0')| + 5
  {
    var f := ClockFields(t);
    TwoDigitsAtMost(f.secs);
    SingleDigit(f.tenths);
  }

  const SpeedOptions: seq<real> := [0.5, 0.75, 1.0, 1.25, 1.5, 2.0]

  /** The speed buttons highlighted for a playback rate: those equal to it. */
  function SpeedHighlights(rate: real): (h: seq<bool>)
    ensures |h| == |SpeedOptions|
    ensures forall k :: 0 <= k < |h| ==> (h[k] <==> SpeedOptions[k] == rate)
  {
    seq(|SpeedOptions|, k requires 0 <= k < |SpeedOptions| => SpeedOptions[k] == rate)
  }

  /** At most one button is lit, and one is lit exactly when the rate is an option. */
  lemma OneSpeedHighlighted(rate: real)
    ensures var h := SpeedHighlights(rate);
      && (forall a, b :: 0 <= a < b < |h| ==> !(h[a] && h[b]))
      && ((exists k :: 0 <= k < |h| && h[k]) <==> rate in SpeedOptions)
  {
    var h := SpeedHighlights(rate);
    if rate in SpeedOptions {
      var k :| 0 <= k < |SpeedOptions| && SpeedOptions[k] == rate;
      assert h[k];
    }
  }

  /** The integer `toFixed` rounds to (x, or x * 100 for two decimals): nearest, halves up. */
  function FixedUnits(x: real, twoDecimals: bool): (n: nat)
    requires x >= 0.0
    ensures var scaled := if twoDecimals then 100.0 * x else x;
      scaled - 0.5 < n as real <= scaled + 0.5
  {
    ((if twoDecimals then 100.0 * x else x) + 0.5).Floor
  }

  /** `x.toFixed(0)` or `x.toFixed(2)` for x >= 0. */
  function ToFixed(x: real, twoDecimals: bool): (r: string)
    requires x >= 0.0
  {
    var n := FixedUnits(x, twoDecimals);
    if !twoDecimals then Text.NatToString(n)
    else Text.NatToString(n / 100) + "." + Text.PadStart(Text.NatToString(n % 100), 2, '0')
  }

  /** Reads a `toFixed` string back to its units. */
  function ParseFixed(s: string, twoDecimals: bool): (r: Option<nat>)
  {
    if !twoDecimals then (if s != [] && Text.AllDigits(s) then Some(Text.DigitsValue(s)) else None)
    else if |s| < 4 || s[|s| - 3] != '.' then None
    else
      var ip, fp := s[..|s| - 3], s[|s| - 2..];
      if Text.AllDigits(ip) && Text.AllDigits(fp) then Some(Text.DigitsValue(ip) * 100 + Text.DigitsValue(fp))
      else None
  }

  lemma SplitFixed(a: string, b: string)
    requires |b| == 2
    ensures var r := a + "." + b;
      && r[..|r| - 3] == a && r[|r| - 3] == '.' && r[|r| - 2..] == b
  {
  }

  lemma ParseFixedParts(a: string, b: string)
    requires a != [] && Text.AllDigits(a) && |b| == 2 && Text.AllDigits(b)
    ensures ParseFixed(a + "." + b, true) == Some(Text.DigitsValue(a) * 100 + Text.DigitsValue(b))
  {
    SplitFixed(a, b);
  }

  /** A `toFixed` string reads back to the rounded units, which are within half a unit of x. */
  lemma ToFixedRoundTrip(x: real, twoDecimals: bool)
    requires x >= 0.0
    ensures ParseFixed(ToFixed(x, twoDecimals), twoDecimals) == Some(FixedUnits(x, twoDecimals))
  {
    var n := FixedUnits(x, twoDecimals);
    if !twoDecimals {
      Text.NatToStringValue(n);
    } else {
      TwoDigitsAtMost(n % 100);
      PaddedValue(n % 100);
      Text.NatToStringValue(n / 100);
      ParseFixedParts(Text.NatToString(n / 100), Text.PadStart(Text.NatToString(n % 100), 2, '0'));
    }
  }

  /** The button label: `1x` for normal speed, two decimals otherwise. */
  function SpeedLabel(s: real): (r: string)
    requires s >= 0.0
    ensures s == 1.0 ==> r == ToFixed(s, false) + "x"
    ensures s != 1.0 ==> r == ToFixed(s, true) + "x"
  {
    ToFixed(s, s != 1.0) + "x"
  }

  /** Every label reads back to its speed: two decimals suffice for all options. */
  lemma SpeedLabelsExact(k: nat)
    requires k < |SpeedOptions|
    ensures var s := SpeedOptions[k];
      var units := ParseFixed(SpeedLabel(s)[..|SpeedLabel(s)| - 1], s != 1.0);
      && units.Some?
      && (if s == 1.0 then units.value as real == s else units.value as real == 100.0 * s)
  {
    var s := SpeedOptions[k];
    var two := s != 1.0;
    var n: nat := [50, 75, 1, 125, 150, 200][k];
    assert (if two then 100.0 * s else s) == n as real;
    WholeUnits(s, two, n);
    var l := SpeedLabel(s);
    assert l[..|l| - 1] == ToFixed(s, two);
    ToFixedRoundTrip(s, two);
  }

  /** A value with a whole number of units is shown exactly. */
  lemma WholeUnits(x: real, twoDecimals: bool, n: nat)
    requires x >= 0.0 && (if twoDecimals then 100.0 * x else x) == n as real
    ensures FixedUnits(x, twoDecimals) == n
  {
  }

  lemma NormalSpeedLabel()
    ensures SpeedLabel(1.0) == "1x"
  {
    assert FixedUnits(1.0, false) == 1;
    SingleDigit(1);
  }

  lemma HalfUnits()
    ensures FixedUnits(0.5, true) == 50
  {
  }

  lemma FiftyDigits()
    ensures Text.NatToString(50) == ['5', '0']
  {
    SingleDigit(0);
    SingleDigit(5);
    assert Text.NatToString(50) == Text.NatToString(5) + [Text.DigitChar(0)];
  }

  lemma HalfSpeedLabel()
    ensures SpeedLabel(0.5) == "0.50x"
  {
    HalfUnits();
    TwoDecimals(0.5, 50);
    assert 50 / 100 == 0 && 50 % 100 == 50;
    FiftyDigits();
    SingleDigit(0);
    var ip := Text.NatToString(0);
    var fp := Text.PadStart(Text.NatToString(50), 2, '0');
    assert ip == ['0'];
    assert fp == ['5', '0'];
    assert ip + "." + fp + "x" == "0.50x";
  }

  lemma TwoDecimals(x: real, n: nat)
    requires x >= 0.0 && FixedUnits(x, true) == n
    ensures ToFixed(x, true) == Text.NatToString(n / 100) + "." + Text.PadStart(Text.NatToString(n % 100), 2, '0')
  {
  }

  /** The header's duration fields as written: floor of minutes, rounded remaining seconds. */
  function DurationFields(d: real): (r: (int, int))
    requires d >= 0.0
    ensures r.0 >= 0 && 0 <= r.1 <= 60
  {
    ((d / 60.0).Floor, (Rem60(d) + 0.5).Floor)
  }

  /** `M:SS` as written. */
  function DurationLabel(d: real): (r: string)
    requires d >= 0.0
  {
    var (m, s) := DurationFields(d);
    Text.NatToString(m) + ":" + Text.PadStart(Text.NatToString(s), 2, '0')
  }

  /** The label's total is the duration rounded to a second, but its seconds field can read 60. */
  lemma DurationFieldsTotal(d: real)
    requires d >= 0.0
    ensures var (m, s) := DurationFields(d); 60 * m + s == (d + 0.5).Floor
  {
    assert d == 60.0 * (d / 60.0).Floor as real + Rem60(d);
  }

  lemma DurationLabelSixty()
    ensures DurationFields(119.6) == (1, 60)
    ensures DurationLabel(119.6) == "1:60"
  {
    assert (119.6 / 60.0).Floor == 1;
    assert Rem60(119.6) == 59.6;
    SingleDigit(1);
    SingleDigit(6);
    SingleDigit(0);
    assert Text.NatToString(60) == Text.NatToString(6) + [Text.DigitChar(0)];
  }

  /** The evidently intended fields: round the whole duration first, then carry into minutes. */
  function DurationFieldsCarried(d: real): (r: (int, int))
    requires d >= 0.0
    ensures r.0 >= 0 && 0 <= r.1 <= 59
    ensures 60 * r.0 + r.1 == (d + 0.5).Floor
  {
    var total := (d + 0.5).Floor;
    (total / 60, total % 60)
  }

  function DurationLabelCarried(d: real): (r: string)
    requires d >= 0.0
  {
    var (m, s) := DurationFieldsCarried(d);
    Text.NatToString(m) + ":" + Text.PadStart(Text.NatToString(s), 2, '0')
  }

  /** The carried label agrees with the one as written whenever the latter's field is below 60. */
  lemma CarriedAgrees(d: real)
    requires d >= 0.0 && DurationFields(d).1 < 60
    ensures DurationFieldsCarried(d) == DurationFields(d)
  {
    DurationFieldsTotal(d);
  }

  lemma DurationLabelCarriedExample()
    ensures DurationFieldsCarried(119.6) == (2, 0)
  {
  }
}
