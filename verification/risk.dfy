/**
 The risk aggregator: the per-cycle abnormality probabilities are reduced to
 their maximum (not their mean, so a single abnormal cycle dominates), and
 the maximum is placed in one of four tiers.
 */
module Risk {

  const BorderlineFrom: real := 0.30
  const MildFrom: real := 0.45
  const SevereFrom: real := 0.60

  /** The overall verdict: a prediction label paired with a risk level. */
  datatype Tier = Low | Medium | High | Critical {

    function Prediction(): string {
      match this
      case Low => "Normal Heart Sound"
      case Medium => "Murmur / Borderline"
      case High => "Mild Abnormality"
      case Critical => "Severe Abnormality"
    }

    function Level(): string {
      match this
      case Low => "low"
      case Medium => "medium"
      case High => "high"
      case Critical => "critical"
    }

    /** Position in order of increasing severity. */
    function Rank(): nat {
      match this
      case Low => 0
      case Medium => 1
      case High => 2
      case Critical => 3
    }

    /** The probability range of the tier: each lower bound inclusive, each upper bound exclusive. */
    predicate Admits(p: real) {
      match this
      case Low => p < BorderlineFrom
      case Medium => BorderlineFrom <= p < MildFrom
      case High => MildFrom <= p < SevereFrom
      case Critical => SevereFrom <= p
    }
  }

  /** The tier of one probability, tested top-down against 0.30, 0.45 and 0.60. */
  function ClassifyRisk(p: real): (t: Tier)
    ensures t.Admits(p)
  {
    if p < BorderlineFrom then Low
    else if p < MildFrom then Medium
    else if p < SevereFrom then High
    else Critical
  }

  /** The four ranges do not overlap, so the tier of a probability is unique. */
  lemma TiersDisjoint(s: Tier, t: Tier, p: real)
    requires s.Admits(p) && t.Admits(p)
    ensures s == t
  {
  }

  lemma ClassifyRiskExact(t: Tier, p: real)
    ensures ClassifyRisk(p) == t <==> t.Admits(p)
  {
    if t.Admits(p) {
      TiersDisjoint(t, ClassifyRisk(p), p);
    }
  }

  lemma ClassifyRiskBoundaries()
    ensures ClassifyRisk(0.2999) == Low
    ensures ClassifyRisk(0.30) == Medium
    ensures ClassifyRisk(0.45) == High
    ensures ClassifyRisk(0.60) == Critical
  {
  }

  lemma ClassifyRiskMonotone(p: real, q: real)
    requires p <= q
    ensures ClassifyRisk(p).Rank() <= ClassifyRisk(q).Rank()
  {
  }

  /** `max(probs)` over a non-empty sequence of probabilities. */
  function MaxProb(probs: seq<real>): (m: real)
    requires |probs| > 0
    ensures forall i :: 0 <= i < |probs| ==> probs[i] <= m
    ensures exists i :: 0 <= i < |probs| && probs[i] == m
  {
    if |probs| == 1 then probs[0]
    else
      var rest := MaxProb(probs[1..]);
      assert forall i :: 1 <= i < |probs| ==> probs[i] == probs[1..][i - 1];
      if probs[0] >= rest then probs[0] else rest
  }

  /** The overall tier of a recording: the tier of its most abnormal cycle. */
  function AssessRisk(probs: seq<real>): (t: Tier)
    requires |probs| > 0
    ensures t == Low <==> forall i :: 0 <= i < |probs| ==> probs[i] < BorderlineFrom
    ensures t == Medium <==>
      (forall i :: 0 <= i < |probs| ==> probs[i] < MildFrom)
      && (exists i :: 0 <= i < |probs| && BorderlineFrom <= probs[i])
    ensures t == High <==>
      (forall i :: 0 <= i < |probs| ==> probs[i] < SevereFrom)
      && (exists i :: 0 <= i < |probs| && MildFrom <= probs[i])
    ensures t == Critical <==> exists i :: 0 <= i < |probs| && SevereFrom <= probs[i]
  {
    ClassifyRisk(MaxProb(probs))
  }

  /** Raising the probability of any one cycle never lowers the overall tier. */
  lemma RaisingOneCycleNeverLowersTier(probs: seq<real>, i: nat, v: real)
    requires i < |probs| && probs[i] <= v
    ensures AssessRisk(probs).Rank() <= AssessRisk(probs[i := v]).Rank()
  {
    var raised := probs[i := v];
    var k :| 0 <= k < |probs| && probs[k] == MaxProb(probs);
    assert probs[k] <= raised[k];
    ClassifyRiskMonotone(MaxProb(probs), MaxProb(raised));
  }
}
