/**
 The heart-rate formula `hr = 60 / mean(diff(peaks) / sr)`.

 The mean inter-beat interval telescopes: the intervals sum to the time from
 the first to the last beat, so the rate is `60 * sr * (n - 1)` divided by the
 sample distance between the first and last peak.
 */
module HeartRate {
  import opened Peaks

  /** `diff(p) / sr`: the inter-beat intervals in seconds, in order. */
  function Intervals(p: seq<int>, sr: nat): (iv: seq<real>)
    requires sr > 0
    ensures |iv| == if |p| == 0 then 0 else |p| - 1
    ensures forall i :: 0 <= i < |iv| ==> iv[i] == (p[i + 1] - p[i]) as real / sr as real
    decreases |p|
  {
    if |p| < 2 then []
    else [(p[1] - p[0]) as real / sr as real] + Intervals(p[1..], sr)
  }

  function Sum(xs: seq<real>): real
  {
    if |xs| == 0 then 0.0 else xs[0] + Sum(xs[1..])
  }

  function Mean(xs: seq<real>): real
    requires |xs| > 0
  {
    Sum(xs) / |xs| as real
  }

  /** Sample distance from the first to the last beat. */
  function Span(p: seq<int>): int
    requires |p| > 0
  {
    p[|p| - 1] - p[0]
  }

  lemma DivAdd(a: real, b: real, s: real)
    requires s > 0.0
    ensures a / s + b / s == (a + b) / s
  {
  }

  /** The intervals telescope to the first-to-last span in seconds. */
  lemma {:induction false} IntervalsTelescope(p: seq<int>, sr: nat)
    requires |p| > 0 && sr > 0
    ensures Sum(Intervals(p, sr)) == Span(p) as real / sr as real
    decreases |p|
  {
    if |p| == 1 {
      assert Intervals(p, sr) == [];
    } else {
      var iv := Intervals(p, sr);
      IntervalsTelescope(p[1..], sr);
      assert iv[1..] == Intervals(p[1..], sr);
      assert Span(p[1..]) == p[|p| - 1] - p[1];
      DivAdd((p[1] - p[0]) as real, Span(p[1..]) as real, sr as real);
    }
  }

  /** Strictly increasing beats are at least `n - 1` samples apart end to end. */
  lemma {:induction false} SpanPositive(p: seq<int>)
    requires |p| >= 2 && StrictlyIncreasing(p)
    ensures Span(p) > 0
  {
    assert p[0] < p[|p| - 1];
  }

  /** `60 / mean(diff(peaks) / sr)` for at least two strictly increasing beats. */
  function BeatsPerMinute(p: seq<int>, sr: nat): (hr: real)
    requires |p| >= 2 && StrictlyIncreasing(p) && sr > 0
    ensures hr > 0.0
    ensures hr == 60.0 * sr as real * (|p| - 1) as real / Span(p) as real
  {
    IntervalsTelescope(p, sr);
    SpanPositive(p);
    var n := (|p| - 1) as real;
    var mean := Mean(Intervals(p, sr));
    assert mean == (Span(p) as real / sr as real) / n;
    MeanClosedForm(Span(p) as real, sr as real, n);
    60.0 / mean
  }

  lemma MeanClosedForm(span: real, sr: real, n: real)
    requires span > 0.0 && sr > 0.0 && n > 0.0
    ensures (span / sr) / n > 0.0
    ensures 60.0 / ((span / sr) / n) == 60.0 * sr * n / span
  {
    assert (span / sr) / n == span / (sr * n);
  }

  /** Beats at least `gap` samples apart span at least `gap * (n - 1)` samples. */
  lemma {:induction false} SpanAtLeast(p: seq<int>, sr: nat)
    requires |p| >= 1 && MinSpacing(p, sr)
    ensures Span(p) as real >= MinGapSeconds * sr as real * (|p| - 1) as real
    decreases |p|
  {
    if |p| > 1 {
      var q := p[1..];
      assert MinSpacing(q, sr) by {
        forall i: nat | i + 1 < |q|
          ensures Gap(q, i) as real >= MinGapSeconds * sr as real
        {
          assert Gap(q, i) == Gap(p, i + 1);
        }
      }
      SpanAtLeast(q, sr);
      assert Gap(p, 0) as real >= MinGapSeconds * sr as real;
      assert Span(p) == Gap(p, 0) + Span(q);
    }
  }

  /**
   With the detector's 0.4 s minimum spacing, the rate never exceeds 150 BPM.
   */
  lemma HeartRateAtMost150(p: seq<int>, sr: nat)
    requires |p| >= 2 && StrictlyIncreasing(p) && MinSpacing(p, sr) && sr > 0
    ensures BeatsPerMinute(p, sr) <= 150.0
  {
    SpanAtLeast(p, sr);
    SpanPositive(p);
    RateBound(sr as real * (|p| - 1) as real, Span(p) as real);
  }

  lemma RateBound(k: real, d: real)
    requires k > 0.0 && d > 0.0 && d >= 0.4 * k
    ensures 60.0 * k / d <= 150.0
  {
    var hr := 60.0 * k / d;
    assert hr * d == 60.0 * k;
    assert 60.0 * k <= 150.0 * d;
  }

  /** Five beats exactly one second apart at 1000 Hz give 60 BPM. */
  lemma OneSecondBeatsGive60()
    ensures StrictlyIncreasing([500, 1500, 2500, 3500, 4500])
    ensures BeatsPerMinute([500, 1500, 2500, 3500, 4500], 1000) == 60.0
  {
    var peaks := [500, 1500, 2500, 3500, 4500];
    assert Span(peaks) == 4000;
    assert BeatsPerMinute(peaks, 1000) == 60.0 * 1000.0 * 4.0 / 4000.0;
  }
}
