/**
 The decision part of `analyze_heart_sound`: the beat-count gate, then heart
 rate and its status, cycle segmentation, per-cycle features and scores, and
 the risk tier of the most abnormal cycle, gathered into the result record.

 The filtered signal and the detected peaks are inputs. The MFCC routine and
 the pretrained scaler and classifier are opaque: `mfcc` maps a cycle to its
 coefficient matrix, and `score` maps one fixed-width feature vector to the
 classifier's probability of the abnormal class.
 */
module Analysis {
  import opened Peaks
  import opened HeartRate
  import opened HrStatus
  import opened Segmentation
  import opened Features
  import opened Risk

  /** Fewest beats that still form one cycle. */
  const MinBeats: nat := 3

  const NotEnoughBeats: string := "Not enough heart beats detected"

  /** The result record, without the rendered images. */
  datatype Report = Report(
    prediction: string,
    probability: real,
    heartRate: real,
    hrStatus: string,
    riskLevel: string,
    numCycles: nat)

  datatype Outcome =
    | Analysed(report: Report)
      /** The `{"error": ...}` record returned when too few beats are found. */
    | ErrorRecord(error: string)
      /** An exception raised by reading the named local variable before any assignment. */
    | Raised(unbound: string)

  /** The MFCC routine always returns a 13-row matrix, whatever the cycle. */
  ghost predicate WellShapedMfcc(mfcc: seq<real> -> seq<seq<real>>) {
    forall c :: IsCoefficientMatrix(mfcc(c))
  }

  /** The classifier input: one fixed-width feature row per cycle. */
  function CycleFeatures(cycles: seq<seq<real>>, mfcc: seq<real> -> seq<seq<real>>): (x: seq<seq<real>>)
    requires WellShapedMfcc(mfcc)
    ensures |x| == |cycles| && Uniform(x, NMfcc * MaxLen)
  {
    seq(|cycles|, i requires 0 <= i < |cycles| => ShapeFeatures(mfcc(cycles[i]), MaxLen))
  }

  /** `predict_proba(X)[:, 1]`, one probability per feature row. */
  function CycleProbabilities(x: seq<seq<real>>, score: seq<real> -> real): (probs: seq<real>)
    ensures |probs| == |x|
    ensures forall i :: 0 <= i < |x| ==> probs[i] == score(x[i])
  {
    seq(|x|, i requires 0 <= i < |x| => score(x[i]))
  }

  /** The per-cycle probabilities of a recording. */
  function Probabilities(
    filtered: seq<real>, peaks: seq<int>,
    mfcc: seq<real> -> seq<seq<real>>, score: seq<real> -> real): (probs: seq<real>)
    requires Sliceable(peaks, |filtered|) && WellShapedMfcc(mfcc)
    ensures |probs| == CycleCount(|peaks|)
    ensures forall i :: 0 <= i < |probs| ==>
      probs[i] == score(ShapeFeatures(mfcc(Cycle(filtered, peaks, i)), MaxLen))
  {
    CycleProbabilities(CycleFeatures(Cycles(filtered, peaks), mfcc), score)
  }

  /** What the inputs the detector guarantees look like at sample rate `sr`. */
  ghost predicate Admissible(filtered: seq<real>, peaks: seq<int>, sr: nat, mfcc: seq<real> -> seq<seq<real>>) {
    sr > 0 && Peaks.Valid(peaks, |filtered|, sr) && WellShapedMfcc(mfcc)
  }

  /**
   The record built once at least three beats are found: one cycle per window
   of three beats, the telescoped heart rate (never above 150 BPM at 0.4 s
   minimum beat spacing, so never "Severe Tachycardia"), and the verdict of the
   most abnormal cycle.
   */
  function BuildReport(
    filtered: seq<real>, peaks: seq<int>, sr: nat,
    mfcc: seq<real> -> seq<seq<real>>, score: seq<real> -> real): (rep: Report)
    requires Admissible(filtered, peaks, sr, mfcc) && |peaks| >= MinBeats
    ensures rep.numCycles == |peaks| - 2
    ensures rep.heartRate == 60.0 * sr as real * (|peaks| - 1) as real / Span(peaks) as real
    ensures 0.0 < rep.heartRate <= 150.0
    ensures ClassifyHr(rep.heartRate).Label() == rep.hrStatus != SevereTachycardia.Label()
    ensures var probs := Probabilities(filtered, peaks, mfcc, score);
      && (forall i :: 0 <= i < |probs| ==> probs[i] <= rep.probability)
      && (exists i :: 0 <= i < |probs| && probs[i] == rep.probability)
    ensures rep.prediction == ClassifyRisk(rep.probability).Prediction()
    ensures rep.riskLevel == ClassifyRisk(rep.probability).Level()
  {
    var hr := BeatsPerMinute(peaks, sr);
    HeartRateAtMost150(peaks, sr);
    var status := ClassifyHr(hr);
    LabelsDistinct(status, SevereTachycardia);
    var probs := Probabilities(filtered, peaks, mfcc, score);
    var maxProb := MaxProb(probs);
    var tier := ClassifyRisk(maxProb);
    Report(tier.Prediction(), maxProb, hr, status.Label(), tier.Level(), |peaks| - 2)
  }

  /**
   The pipeline with the waveform plot's time axis always defined: fewer than
   three beats give the error record and nothing else is computed; otherwise
   the full record is returned, and no exception is raised.
   */
  function Analyze(
    filtered: seq<real>, peaks: seq<int>, sr: nat,
    mfcc: seq<real> -> seq<seq<real>>, score: seq<real> -> real): (r: Outcome)
    requires Admissible(filtered, peaks, sr, mfcc)
    ensures r.ErrorRecord? <==> |peaks| < MinBeats
    ensures r.ErrorRecord? ==> r.error == NotEnoughBeats
    ensures !r.Raised?
    ensures r.Analysed? ==> r.report.numCycles == CycleCount(|peaks|) > 0
  {
    if |peaks| < MinBeats then ErrorRecord(NotEnoughBeats)
    else Analysed(BuildReport(filtered, peaks, sr, mfcc, score))
  }

  /**
   The pipeline as written: the time axis `t` is assigned only in the
   "critical" branch of the tiering, and the plot reads it right after, so
   every recording with three or more beats whose cycles all score below
   0.60 raises instead of returning its record.
   */
  function AnalyzeAsWritten(
    filtered: seq<real>, peaks: seq<int>, sr: nat,
    mfcc: seq<real> -> seq<seq<real>>, score: seq<real> -> real): (r: Outcome)
    requires Admissible(filtered, peaks, sr, mfcc)
    ensures |peaks| < MinBeats ==> r == ErrorRecord(NotEnoughBeats)
    ensures r.Raised? <==>
      |peaks| >= MinBeats &&
      forall i :: 0 <= i < CycleCount(|peaks|) ==> Probabilities(filtered, peaks, mfcc, score)[i] < SevereFrom
    ensures r.Raised? ==> r.unbound == "t"
    ensures !r.Raised? ==> r == Analyze(filtered, peaks, sr, mfcc, score)
  {
    if |peaks| < MinBeats then ErrorRecord(NotEnoughBeats)
    else
      var rep := BuildReport(filtered, peaks, sr, mfcc, score);
      var probs := Probabilities(filtered, peaks, mfcc, score);
      assert AssessRisk(probs) == ClassifyRisk(rep.probability);
      if rep.probability < SevereFrom then Raised("t") else Analysed(rep)
  }

  /** Below three beats the outcome does not depend on the feature or scoring stages at all. */
  lemma GateSkipsScoring(
    filtered: seq<real>, peaks: seq<int>, sr: nat,
    mfcc1: seq<real> -> seq<seq<real>>, score1: seq<real> -> real,
    mfcc2: seq<real> -> seq<seq<real>>, score2: seq<real> -> real)
    requires Admissible(filtered, peaks, sr, mfcc1) && Admissible(filtered, peaks, sr, mfcc2)
    requires |peaks| < MinBeats
    ensures Analyze(filtered, peaks, sr, mfcc1, score1) == Analyze(filtered, peaks, sr, mfcc2, score2)
    ensures AnalyzeAsWritten(filtered, peaks, sr, mfcc1, score1) == AnalyzeAsWritten(filtered, peaks, sr, mfcc2, score2)
  {
  }

  /**
   Five beats one second apart at 1000 Hz, every cycle scored 0.1: three
   cycles, 60 BPM, a normal verdict. The pipeline as written raises on this
   recording instead.
   */
  lemma FiveRegularBeatsScenario()
    ensures
      var filtered := seq(5000, _ => 0.0);
      var peaks := [500, 1500, 2500, 3500, 4500];
      var mfcc: seq<real> -> seq<seq<real>> := _ => seq(NMfcc, _ => []);
      var score: seq<real> -> real := _ => 0.1;
      && Admissible(filtered, peaks, 1000, mfcc)
      && Analyze(filtered, peaks, 1000, mfcc, score)
        == Analysed(Report("Normal Heart Sound", 0.1, 60.0, "Normal Heart Rate", "low", 3))
      && AnalyzeAsWritten(filtered, peaks, 1000, mfcc, score) == Raised("t")
  {
    var filtered := seq(5000, _ => 0.0);
    var peaks := [500, 1500, 2500, 3500, 4500];
    var mfcc: seq<real> -> seq<seq<real>> := _ => seq(NMfcc, _ => []);
    var score: seq<real> -> real := _ => 0.1;
    assert MinSpacing(peaks, 1000) by {
      forall i: nat | i + 1 < |peaks|
        ensures Gap(peaks, i) as real >= MinGapSeconds * 1000 as real
      {
      }
    }
    assert Admissible(filtered, peaks, 1000, mfcc);
    var probs := Probabilities(filtered, peaks, mfcc, score);
    ConstantScore(filtered, peaks, mfcc, score, 0.1);
    assert probs == [0.1, 0.1, 0.1];
    assert MaxProb(probs) == 0.1;
    OneSecondBeatsGive60();
  }

  /** A classifier that scores every row the same gives every cycle that probability. */
  lemma ConstantScore(
    filtered: seq<real>, peaks: seq<int>,
    mfcc: seq<real> -> seq<seq<real>>, score: seq<real> -> real, k: real)
    requires Sliceable(peaks, |filtered|) && WellShapedMfcc(mfcc)
    requires forall v :: score(v) == k
    ensures forall i :: 0 <= i < CycleCount(|peaks|) ==> Probabilities(filtered, peaks, mfcc, score)[i] == k
  {
  }
}
