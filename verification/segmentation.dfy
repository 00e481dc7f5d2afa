/**
 The cycle segmenter: a sliding window of width two over the peaks. Cycle `i`
 runs from beat `i` to beat `i + 2` (first heart sound, second heart sound,
 next first heart sound), so neighbouring cycles share one inter-beat interval.
 */
module Segmentation {
  import opened Peaks

  /** `len(range(n - 2))`: the number of cycles built from `n` peaks. */
  function CycleCount(n: nat): nat {
    if n >= 2 then n - 2 else 0
  }

  /** Peaks the segmenter can slice with: increasing indices into the filtered signal. */
  predicate Sliceable(p: seq<int>, len: nat) {
    StrictlyIncreasing(p) && WithinSignal(p, len)
  }

  /** Cycle `i` as a slice of the filtered signal. */
  function Cycle(filtered: seq<real>, p: seq<int>, i: nat): (c: seq<real>)
    requires Sliceable(p, |filtered|) && i + 2 < |p|
    ensures |c| == p[i + 2] - p[i]
    ensures forall k :: 0 <= k < |c| ==> c[k] == filtered[p[i] + k]
  {
    filtered[p[i]..p[i + 2]]
  }

  /** Span `t` is cycle `i`'s: its start and end, times the sample rate, give back peaks `i` and `i + 2`. */
  predicate SpanOfCycle(t: (real, real), p: seq<int>, sr: nat, i: nat)
    requires i + 2 < |p|
  {
    t.0 * sr as real == p[i] as real && t.1 * sr as real == p[i + 2] as real
  }

  /** Start and end of cycle `i`, in seconds. */
  function CycleTime(p: seq<int>, sr: nat, i: nat): (t: (real, real))
    requires StrictlyIncreasing(p) && sr > 0 && i + 2 < |p|
    ensures t.0 < t.1
    ensures SpanOfCycle(t, p, sr, i)
  {
    (p[i] as real / sr as real, p[i + 2] as real / sr as real)
  }

  function Cycles(filtered: seq<real>, p: seq<int>): (cs: seq<seq<real>>)
    requires Sliceable(p, |filtered|)
    ensures |cs| == CycleCount(|p|)
    ensures forall i :: 0 <= i < |cs| ==> |cs[i]| == p[i + 2] - p[i]
    ensures forall i, k :: 0 <= i < |cs| && 0 <= k < p[i + 2] - p[i] ==>
      p[i + 2] < |filtered| && cs[i][k] == filtered[p[i] + k]
  {
    seq(CycleCount(|p|), i requires 0 <= i < CycleCount(|p|) => Cycle(filtered, p, i))
  }

  function CycleTimes(p: seq<int>, sr: nat): (ts: seq<(real, real)>)
    requires StrictlyIncreasing(p) && sr > 0
    ensures |ts| == CycleCount(|p|)
    ensures forall i :: 0 <= i < |ts| ==> ts[i].0 < ts[i].1
    ensures forall i :: 0 <= i < |ts| ==> SpanOfCycle(ts[i], p, sr, i)
  {
    seq(CycleCount(|p|), i requires 0 <= i < CycleCount(|p|) => CycleTime(p, sr, i))
  }

  /**
   The segmentation loop: appends one slice and one time span per window, in
   order, producing two parallel lists of `len(peaks) - 2` entries.
   */
  method Segment(filtered: seq<real>, p: seq<int>, sr: nat)
    returns (cycles: seq<seq<real>>, cycleTimes: seq<(real, real)>)
    requires Sliceable(p, |filtered|) && sr > 0
    ensures |cycles| == |cycleTimes| == CycleCount(|p|)
    ensures forall i :: 0 <= i < |cycles| ==> cycles[i] == filtered[p[i]..p[i + 2]]
    ensures forall i :: 0 <= i < |cycleTimes| ==>
      cycleTimes[i] == (p[i] as real / sr as real, p[i + 2] as real / sr as real)
    ensures forall i :: 0 <= i < |cycleTimes| ==> cycleTimes[i].0 < cycleTimes[i].1
    ensures cycles == Cycles(filtered, p) && cycleTimes == CycleTimes(p, sr)
  {
    cycles, cycleTimes := [], [];
    var i := 0;
    while i < CycleCount(|p|)
      invariant 0 <= i <= CycleCount(|p|)
      invariant |cycles| == |cycleTimes| == i
      invariant forall k :: 0 <= k < i ==> cycles[k] == Cycle(filtered, p, k)
      invariant forall k :: 0 <= k < i ==> cycleTimes[k] == CycleTime(p, sr, k)
    {
      cycles := cycles + [filtered[p[i]..p[i + 2]]];
      cycleTimes := cycleTimes + [(p[i] as real / sr as real, p[i + 2] as real / sr as real)];
      i := i + 1;
    }
  }

  /** A cycle is its systole (beat `i` to `i + 1`) followed by its diastole (beat `i + 1` to `i + 2`). */
  lemma CycleIsSystoleThenDiastole(filtered: seq<real>, p: seq<int>, i: nat)
    requires Sliceable(p, |filtered|) && i + 2 < |p|
    ensures Cycle(filtered, p, i) == filtered[p[i]..p[i + 1]] + filtered[p[i + 1]..p[i + 2]]
  {
    assert p[i] < p[i + 1] < p[i + 2];
    var c := Cycle(filtered, p, i);
    var sys, dia := filtered[p[i]..p[i + 1]], filtered[p[i + 1]..p[i + 2]];
    assert |c| == |sys| + |dia|;
    forall k | 0 <= k < |c|
      ensures c[k] == (sys + dia)[k]
    {
      if k < |sys| {
        assert (sys + dia)[k] == sys[k];
      } else {
        assert (sys + dia)[k] == dia[k - |sys|];
      }
    }
  }

  /** The diastole of cycle `i` is the systole of cycle `i + 1`: neighbours overlap by one interval. */
  lemma NeighbouringCyclesOverlap(filtered: seq<real>, p: seq<int>, i: nat)
    requires Sliceable(p, |filtered|) && i + 3 < |p|
    ensures Cycle(filtered, p, i)[p[i + 1] - p[i]..] == Cycle(filtered, p, i + 1)[..p[i + 2] - p[i + 1]]
  {
    CycleIsSystoleThenDiastole(filtered, p, i);
    CycleIsSystoleThenDiastole(filtered, p, i + 1);
    assert p[i] < p[i + 1] < p[i + 2] < p[i + 3];
    var sys0 := filtered[p[i]..p[i + 1]];
    var mid := filtered[p[i + 1]..p[i + 2]];
    var dia1 := filtered[p[i + 2]..p[i + 3]];
    assert Cycle(filtered, p, i) == sys0 + mid;
    assert (sys0 + mid)[|sys0|..] == mid;
    assert Cycle(filtered, p, i + 1) == mid + dia1;
    assert (mid + dia1)[..|mid|] == mid;
  }
}
