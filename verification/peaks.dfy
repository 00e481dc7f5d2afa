/**
 Beat positions as the peak detector reports them.

 The envelope peak detector (`find_peaks` on the Hilbert envelope) is not
 modelled; what the rest of the pipeline relies on about its output is
 stated here as predicates on the sequence of sample indices it returns.
 */
module Peaks {

  /** Minimum spacing between neighbouring beats, in seconds (`distance=0.4*sr`). */
  const MinGapSeconds: real := 0.4

  /** Sample distance from beat `i` to beat `i + 1`. */
  function Gap(p: seq<int>, i: nat): int
    requires i + 1 < |p|
  {
    p[i + 1] - p[i]
  }

  /** Peak indices are reported in strictly increasing order. */
  predicate StrictlyIncreasing(p: seq<int>) {
    forall i, j :: 0 <= i < j < |p| ==> p[i] < p[j]
  }

  /** Every peak is a valid index into a signal of `len` samples. */
  predicate WithinSignal(p: seq<int>, len: nat) {
    forall i :: 0 <= i < |p| ==> 0 <= p[i] < len
  }

  /** Neighbouring peaks are at least 0.4 seconds apart at sample rate `sr`. */
  predicate MinSpacing(p: seq<int>, sr: nat) {
    forall i: nat :: i + 1 < |p| ==> Gap(p, i) as real >= MinGapSeconds * sr as real
  }

  /**
   Everything the detector guarantees about its output on a signal of `len`
   samples; in particular it never reports more peaks than there are samples.
   */
  predicate Valid(p: seq<int>, len: nat, sr: nat): (b: bool)
    ensures b ==> |p| <= len
  {
    if StrictlyIncreasing(p) && WithinSignal(p, len) && MinSpacing(p, sr) then
      if |p| > 0 then IndexGrowth(p, |p| - 1); true else true
    else false
  }

  /** Strictly increasing integers grow by at least one per position. */
  lemma {:induction false} IndexGrowth(p: seq<int>, i: nat)
    requires StrictlyIncreasing(p) && i < |p|
    ensures p[i] >= p[0] + i
  {
    if i > 0 {
      IndexGrowth(p, i - 1);
      assert p[i - 1] < p[i];
    }
  }
}
