/**
 * The static waveform hook (music-frontend/src/hooks/useStaticWaveform.ts). The decoded first
 * channel is cut into `barCount` buckets of `step` samples; each bar is the bucket's largest
 * absolute sample, and the bars are divided by their maximum (at least 0.0001) so that they lie
 * in [0, 1]. Fetching and decoding are an outcome passed in.
 */
module Waveform {
  import opened Wrappers
  import Js

  const DefaultBarCount: int := 500

  /** The seed of the maximum's reduce, so that silence never divides by zero. */
  const MinPeak: real := 0.0001

  function Abs(x: real): (r: real)
    ensures r >= 0.0 && (r == x || r == -x)
  {
    if x < 0.0 then -x else x
  }

  function Min(a: int, b: int): int {
    if a <= b then a else b
  }

  /** The inner loop: the largest absolute sample of a bucket, 0 for an empty bucket. */
  function BucketPeak(s: seq<real>): (p: real)
    ensures p >= 0.0
  {
    if s == [] then 0.0
    else
      var q := BucketPeak(s[..|s| - 1]);
      var v := Abs(s[|s| - 1]);
      if v > q then v else q
  }

  /** The scan finds the bucket's largest absolute sample, or 0 for an empty bucket. */
  lemma {:induction false} BucketPeakIsMax(s: seq<real>)
    ensures forall j :: 0 <= j < |s| ==> Abs(s[j]) <= BucketPeak(s)
    ensures (s == [] && BucketPeak(s) == 0.0) || exists j :: 0 <= j < |s| && Abs(s[j]) == BucketPeak(s)
  {
    if s != [] {
      var p := s[..|s| - 1];
      BucketPeakIsMax(p);
      assert forall j :: 0 <= j < |p| ==> s[j] == p[j];
      if p != [] && Abs(s[|s| - 1]) <= BucketPeak(p) {
        var j :| 0 <= j < |p| && Abs(p[j]) == BucketPeak(p);
        assert s[j] == p[j];
      }
    }
  }

  /** `Math.floor(len / barCount) || 1`: the samples per bucket. */
  function Step(len: nat, barCount: int): (step: nat)
    requires barCount > 0
    ensures step >= 1
    ensures len < barCount ==> step == 1
  {
    if len / barCount == 0 then 1 else len / barCount
  }

  /** With at least as many samples as bars, `step` is the floor of their ratio. */
  lemma StepBounds(len: nat, barCount: int)
    requires 0 < barCount <= len
    ensures var step := Step(len, barCount);
      step * barCount <= len < (step + 1) * barCount
  {
    var q, r := len / barCount, len % barCount;
    assert len == q * barCount + r && 0 <= r < barCount;
  }

  /** The samples `[start, start + step)` that exist. */
  function Bucket(channel: seq<real>, start: nat, step: nat): (b: seq<real>)
    ensures |b| <= step
  {
    channel[Min(start, |channel|)..Min(start + step, |channel|)]
  }

  /** How many bars are drawn: `barCount`, or fewer when the buckets run past the channel. */
  function BarTotal(len: nat, barCount: int): (n: nat)
    ensures barCount <= 0 ==> n == 0
    ensures barCount > 0 ==> n <= barCount
  {
    if barCount <= 0 then 0
    else
      var step := Step(len, barCount);
      Min(barCount, (len + step - 1) / step)
  }

  /** The bars as a whole: bar i is the peak of bucket i. */
  function Bars(channel: seq<real>, barCount: int): (values: seq<real>)
    ensures |values| == BarTotal(|channel|, barCount)
  {
    if barCount <= 0 then []
    else
      var step := Step(|channel|, barCount);
      var n := BarTotal(|channel|, barCount);
      seq(n, i requires 0 <= i < n => BucketPeak(Bucket(channel, i * step, step)))
  }

  lemma MulMono(a: nat, b: nat, k: nat)
    requires a <= b
    ensures a * k <= b * k
  {
  }

  /** `c = ceil(len / step)` is the first bucket index that starts at or past the end. */
  lemma CeilDiv(len: nat, step: nat)
    requires step >= 1
    ensures var c := (len + step - 1) / step;
      c * step >= len && (c == 0 || (c - 1) * step < len)
  {
  }

  /** Bar i starts inside the channel exactly when i is below the ceiling. */
  lemma StartInside(len: nat, step: nat, i: nat)
    requires step >= 1
    ensures i * step < len <==> i < (len + step - 1) / step
  {
    var c := (len + step - 1) / step;
    CeilDiv(len, step);
    if i < c {
      MulMono(i, c - 1, step);
    } else {
      MulMono(c, i, step);
    }
  }

  /** The inner loop: scan the bucket from `start`, stopping at `step` samples or the end. */
  method BucketMax(channel: seq<real>, start: nat, step: nat) returns (peak: real)
    requires start < |channel|
    ensures peak == BucketPeak(Bucket(channel, start, step))
  {
    var len := |channel|;
    peak := 0.0;
    var j := 0;
    while j < step && start + j < len
      invariant 0 <= j <= step && start + j <= len
      invariant peak == BucketPeak(channel[start..start + j])
    {
      var v := Abs(channel[start + j]);
      assert channel[start..start + j + 1][..j] == channel[start..start + j];
      if v > peak {
        peak := v;
      }
      j := j + 1;
    }
    assert channel[start..start + j] == Bucket(channel, start, step);
  }

  /** One more bucket's peak extends the drawn prefix by the next bar. */
  lemma BarsSnoc(channel: seq<real>, barCount: int, i: nat, peak: real)
    requires barCount > 0 && i < BarTotal(|channel|, barCount)
    requires peak == BucketPeak(Bucket(channel, i * Step(|channel|, barCount), Step(|channel|, barCount)))
    ensures Bars(channel, barCount)[..i + 1] == Bars(channel, barCount)[..i] + [peak]
  {
    var b := Bars(channel, barCount);
    assert b[i] == peak;
    assert b[..i + 1] == b[..i] + [b[i]];
  }

  /** The loop stops after exactly `BarTotal` bars, by the `break` or by the bound. */
  lemma BarsExit(len: nat, barCount: int, i: nat)
    requires barCount > 0 && i <= BarTotal(len, barCount)
    requires i == barCount || i * Step(len, barCount) >= len
    ensures i == BarTotal(len, barCount)
  {
    StartInside(len, Step(len, barCount), i);
  }

  /** The outer loop, with the early `break` once a bucket starts past the end. */
  method BuildBars(channel: seq<real>, barCount: int) returns (values: seq<real>)
    ensures values == Bars(channel, barCount)
  {
    values := [];
    if barCount <= 0 {
      return;
    }
    var len := |channel|;
    var step := Step(len, barCount);
    ghost var bars := Bars(channel, barCount);
    ghost var total := BarTotal(len, barCount);
    var i := 0;
    while i < barCount
      invariant 0 <= i <= total
      invariant values == bars[..i]
    {
      var start := i * step;
      if start >= len {
        break;
      }
      StartInside(len, step, i);
      var peak := BucketMax(channel, start, step);
      BarsSnoc(channel, barCount, i, peak);
      values := values + [peak];
      i := i + 1;
    }
    BarsExit(len, barCount, i);
    assert bars[..i] == bars;
  }

  /** The peak of a slice, read back on the channel's own indices. */
  lemma SliceMax(channel: seq<real>, lo: nat, hi: nat)
    requires lo < hi <= |channel|
    ensures forall j :: lo <= j < hi ==> Abs(channel[j]) <= BucketPeak(channel[lo..hi])
    ensures exists j :: lo <= j < hi && Abs(channel[j]) == BucketPeak(channel[lo..hi])
  {
    var b := channel[lo..hi];
    BucketPeakIsMax(b);
    assert forall j :: lo <= j < hi ==> channel[j] == b[j - lo];
    var k :| 0 <= k < |b| && Abs(b[k]) == BucketPeak(b);
    assert channel[lo + k] == b[k];
  }

  /**
   * Bar i is the largest absolute value among the samples of bucket i, `[lo, hi)` with
   * `lo = i * step`, which is never empty.
   */
  lemma BarIsBucketMax(channel: seq<real>, barCount: int, i: nat, lo: nat)
    requires barCount > 0 && i < |Bars(channel, barCount)|
    requires lo == i * Step(|channel|, barCount)
    ensures var hi := Min(lo + Step(|channel|, barCount), |channel|);
      var bar := Bars(channel, barCount)[i];
      && lo < hi
      && (forall j :: lo <= j < hi ==> Abs(channel[j]) <= bar)
      && (exists j :: lo <= j < hi && Abs(channel[j]) == bar)
  {
    var step := Step(|channel|, barCount);
    StartInside(|channel|, step, i);
    var hi := Min(lo + step, |channel|);
    assert Bucket(channel, lo, step) == channel[lo..hi];
    SliceMax(channel, lo, hi);
  }

  /** With at least as many samples as bars, exactly `barCount` bars are drawn. */
  lemma FullBarCount(len: nat, barCount: int)
    requires 0 < barCount <= len
    ensures BarTotal(len, barCount) == barCount
  {
    var step := Step(len, barCount);
    StepBounds(len, barCount);
    StartInside(len, step, barCount - 1);
    MulMono(barCount - 1, barCount, step);
  }

  /** With fewer samples than bars, each sample becomes its own bar. */
  lemma ShortChannel(channel: seq<real>, barCount: int)
    requires |channel| < barCount
    ensures var values := Bars(channel, barCount);
      |values| == |channel| && forall i :: 0 <= i < |values| ==> values[i] == Abs(channel[i])
  {
    var values := Bars(channel, barCount);
    forall i | 0 <= i < |values|
      ensures values[i] == Abs(channel[i])
    {
      assert Bucket(channel, i, 1) == [channel[i]];
      assert BucketPeak([channel[i]][..0]) == 0.0;
    }
  }

  /**
   * With at least as many samples as bars, the bars cover the first `barCount * step` samples
   * and the fewer than `barCount` samples after them are not drawn.
   */
  lemma DroppedTail(len: nat, barCount: int)
    requires 0 < barCount <= len
    ensures var step := Step(len, barCount);
      var covered := barCount * step;
      covered <= len && len - covered < barCount
  {
    StepBounds(len, barCount);
  }

  /** `values.reduce((m, v) => v > m ? v : m, 0.0001)`. */
  function PeakOf(values: seq<real>): (m: real)
    ensures m >= MinPeak
    ensures forall i :: 0 <= i < |values| ==> values[i] <= m
    ensures m == MinPeak || exists i :: 0 <= i < |values| && values[i] == m
  {
    if values == [] then MinPeak
    else
      var m := PeakOf(values[..|values| - 1]);
      var v := values[|values| - 1];
      if v > m then v else m
  }

  /** Every bar divided by the maximum. */
  function Normalise(values: seq<real>): (r: seq<real>)
    ensures |r| == |values|
    ensures forall i :: 0 <= i < |r| ==> r[i] == Scale(values[i], PeakOf(values))
  {
    var m := PeakOf(values);
    seq(|values|, i requires 0 <= i < |values| => Scale(values[i], m))
  }

  function Scale(v: real, m: real): (r: real)
    requires m > 0.0
    ensures r * m == v
  {
    v / m
  }

  lemma ScaleRange(v: real, m: real)
    requires 0.0 <= v <= m
    requires m > 0.0
    ensures 0.0 <= Scale(v, m) <= 1.0
    ensures v == m ==> Scale(v, m) == 1.0
  {
  }

  lemma ScaleMono(v: real, w: real, m: real)
    requires m > 0.0
    ensures Scale(v, m) <= Scale(w, m) <==> v <= w
  {
    var a, b := Scale(v, m), Scale(w, m);
    if a <= b {
      assert a * m <= b * m;
    }
  }

  /**
   * Normalised bars lie in [0, 1], keep their order, and the tallest reads 1 unless every
   * bar is below the 0.0001 floor.
   */
  lemma NormaliseRange(values: seq<real>)
    requires forall i :: 0 <= i < |values| ==> values[i] >= 0.0
    ensures var r := Normalise(values);
      && (forall i :: 0 <= i < |r| ==> 0.0 <= r[i] <= 1.0)
      && (forall i, j :: 0 <= i < |r| && 0 <= j < |r| ==> (r[i] <= r[j] <==> values[i] <= values[j]))
      && ((exists i :: 0 <= i < |values| && values[i] >= MinPeak) ==> exists i :: 0 <= i < |r| && r[i] == 1.0)
  {
    var r := Normalise(values);
    var m := PeakOf(values);
    forall i | 0 <= i < |r|
      ensures 0.0 <= r[i] <= 1.0
    {
      ScaleRange(values[i], m);
    }
    forall i, j | 0 <= i < |r| && 0 <= j < |r|
      ensures r[i] <= r[j] <==> values[i] <= values[j]
    {
      ScaleMono(values[i], values[j], m);
    }
    if exists i :: 0 <= i < |values| && values[i] >= MinPeak {
      var i :| 0 <= i < |values| && values[i] >= MinPeak;
      var k: int;
      if m == MinPeak {
        k := i;
      } else {
        k :| 0 <= k < |values| && values[k] == m;
      }
      ScaleRange(values[k], m);
      assert r[k] == 1.0;
    }
  }

  /** Bars are peaks of absolute values, so the samples the hook produces lie in [0, 1]. */
  lemma SamplesInRange(channel: seq<real>, barCount: int)
    ensures var r := Normalise(Bars(channel, barCount));
      |r| == BarTotal(|channel|, barCount) && forall i :: 0 <= i < |r| ==> 0.0 <= r[i] <= 1.0
  {
    NormaliseRange(Bars(channel, barCount));
  }

  /** What the fetch-and-decode chain ends in. */
  datatype Outcome = Decoded(channel: seq<real>) | Failed

  /** Running the effect: a missing or empty URL clears the samples; otherwise a fetch starts. */
  function Start(audioUrl: Option<string>, samples: Option<seq<real>>): (r: Option<seq<real>>)
    ensures !Js.TruthyString(audioUrl) ==> r.None?
    ensures Js.TruthyString(audioUrl) ==> r == samples
  {
    if !Js.TruthyString(audioUrl) then None else samples
  }

  /**
   * The run settling as written: a decoded channel is drawn unless the effect was cleaned up
   * meanwhile, but a failure clears the samples whether or not it was.
   */
  function Settle(barCount: int, outcome: Outcome, cancelled: bool, samples: Option<seq<real>>): (r: Option<seq<real>>)
    ensures outcome.Failed? ==> r.None?
    ensures outcome.Decoded? && cancelled ==> r == samples
    ensures outcome.Decoded? && !cancelled ==> r.Some? && |r.value| == BarTotal(|outcome.channel|, barCount)
  {
    match outcome
    case Failed => None
    case Decoded(channel) => if cancelled then samples else Some(Normalise(Bars(channel, barCount)))
  }

  /** The same with the cleanup flag honoured on the failure path too. */
  function SettleGuarded(barCount: int, outcome: Outcome, cancelled: bool, samples: Option<seq<real>>): (r: Option<seq<real>>)
    ensures cancelled ==> r == samples
    ensures !cancelled ==> r == Settle(barCount, outcome, false, samples)
  {
    if cancelled then samples else Settle(barCount, outcome, false, samples)
  }

  /**
   * A stale run (its URL replaced and its context closed) that fails after the new URL's
   * waveform is shown erases it as written, and leaves it with the guard.
   */
  lemma StaleFailureErases(barCount: int, shown: seq<real>)
    ensures Settle(barCount, Failed, true, Some(shown)) == None
    ensures SettleGuarded(barCount, Failed, true, Some(shown)) == Some(shown)
  {
  }

  /** Live runs settle alike with or without the guard. */
  lemma GuardedAgreesWhenLive(barCount: int, outcome: Outcome, samples: Option<seq<real>>)
    ensures SettleGuarded(barCount, outcome, false, samples) == Settle(barCount, outcome, false, samples)
  {
  }
}
