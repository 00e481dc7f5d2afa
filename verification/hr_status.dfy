/**
 Heart-rate status: the six BPM bands and their display colours.
 */
module HrStatus {
  import opened Palette

  datatype Status =
    | SevereBradycardia
    | MildBradycardia
    | NormalRate
    | MildTachycardia
    | ModerateTachycardia
    | SevereTachycardia
  {
    function Label(): string {
      match this
      case SevereBradycardia => "Severe Bradycardia"
      case MildBradycardia => "Mild Bradycardia"
      case NormalRate => "Normal Heart Rate"
      case MildTachycardia => "Mild Tachycardia"
      case ModerateTachycardia => "Moderate Tachycardia"
      case SevereTachycardia => "Severe Tachycardia"
    }

    function Colour(): Colour {
      match this
      case SevereBradycardia => Red
      case MildBradycardia => Orange
      case NormalRate => Green
      case MildTachycardia => Orange
      case ModerateTachycardia => Red
      case SevereTachycardia => DarkRed
    }

    /** Position from slowest to fastest band. */
    function Rank(): nat {
      match this
      case SevereBradycardia => 0
      case MildBradycardia => 1
      case NormalRate => 2
      case MildTachycardia => 3
      case ModerateTachycardia => 4
      case SevereTachycardia => 5
    }

    /**
     The BPM range of the band: below 50, [50, 60), [60, 100], (100, 120],
     (120, 150], above 150.
     */
    predicate Admits(hr: real) {
      match this
      case SevereBradycardia => hr < 50.0
      case MildBradycardia => 50.0 <= hr < 60.0
      case NormalRate => 60.0 <= hr <= 100.0
      case MildTachycardia => 100.0 < hr <= 120.0
      case ModerateTachycardia => 120.0 < hr <= 150.0
      case SevereTachycardia => 150.0 < hr
    }
  }

  /** The status of a heart rate, tested band by band from the slowest. */
  function ClassifyHr(hr: real): (s: Status)
    ensures s.Admits(hr)
  {
    if hr < 50.0 then SevereBradycardia
    else if 50.0 <= hr < 60.0 then MildBradycardia
    else if 60.0 <= hr <= 100.0 then NormalRate
    else if 100.0 < hr <= 120.0 then MildTachycardia
    else if 120.0 < hr <= 150.0 then ModerateTachycardia
    else SevereTachycardia
  }

  /** No heart rate lies in two bands. */
  lemma BandsDisjoint(s: Status, t: Status, hr: real)
    requires s.Admits(hr) && t.Admits(hr)
    ensures s == t
  {
  }

  /** The classifier picks a band exactly when the rate lies in it. */
  lemma ClassifyHrExact(s: Status, hr: real)
    ensures ClassifyHr(hr) == s <==> s.Admits(hr)
  {
    if s.Admits(hr) {
      BandsDisjoint(s, ClassifyHr(hr), hr);
    }
  }

  /** Distinct bands carry distinct labels. */
  lemma LabelsDistinct(s: Status, t: Status)
    requires s != t
    ensures s.Label() != t.Label()
  {
    if |s.Label()| == |t.Label()| {
      assert s.Label()[5] != t.Label()[5] || s.Label()[7] != t.Label()[7];
    }
  }

  lemma ClassifyHrBoundaries()
    ensures ClassifyHr(49.9) == SevereBradycardia
    ensures ClassifyHr(50.0) == MildBradycardia
    ensures ClassifyHr(60.0) == NormalRate
    ensures ClassifyHr(100.0) == NormalRate
    ensures ClassifyHr(100.1) == MildTachycardia
    ensures ClassifyHr(120.0) == MildTachycardia
    ensures ClassifyHr(150.0) == ModerateTachycardia
    ensures forall hr :: hr > 150.0 ==> ClassifyHr(hr) == SevereTachycardia
  {
  }

  /** A faster heart rate never gets a slower band. */
  lemma ClassifyHrMonotone(h1: real, h2: real)
    requires h1 <= h2
    ensures ClassifyHr(h1).Rank() <= ClassifyHr(h2).Rank()
  {
  }
}
