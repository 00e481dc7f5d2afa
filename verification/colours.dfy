/**
 Per-cycle colours: the timeline bar of each cycle and the systole/diastole
 bands drawn over the waveform.
 */
module Colours {
  import opened Risk
  import opened Palette

  /** The colours of the systole band (first beat to second) and diastole band (second to third). */
  datatype Bands = Bands(systole: Colour, diastole: Colour)

  const NormalBands := Bands(LightBlue, Plum)
  const MurmurBands := Bands(Red, DarkRed)

  /**
   Timeline colour of a cycle: green for the low tier, orange for medium, and
   red for both high and critical.
   */
  function TimelineColour(p: real): (c: Colour)
    ensures c == Green <==> ClassifyRisk(p) == Low
    ensures c == Orange <==> ClassifyRisk(p) == Medium
    ensures c == Red <==> ClassifyRisk(p) == High || ClassifyRisk(p) == Critical
  {
    if p < 0.30 then Green
    else if p < 0.45 then Orange
    else Red
  }

  /**
   Band colours as the waveform plot computes them, with the strict test
   `prob > 0.45`: murmur colours for every cycle of tier high or critical
   except one whose probability is exactly 0.45.
   */
  function BandColours(p: real): (b: Bands)
    ensures b == NormalBands || b == MurmurBands
    ensures b == MurmurBands <==> ClassifyRisk(p).Rank() >= High.Rank() && p != MildFrom
  {
    Bands(if p > 0.45 then Red else LightBlue, if p > 0.45 then DarkRed else Plum)
  }

  /** At exactly 0.45 the timeline bar is red while the bands show a normal cycle. */
  lemma BandsDisagreeWithTimelineAtBoundary()
    ensures TimelineColour(0.45) == Red
    ensures BandColours(0.45) == NormalBands
  {
  }

  /** Everywhere else the two plots agree on whether a cycle is abnormal. */
  lemma BandsAgreeAwayFromBoundary(p: real)
    requires p != MildFrom
    ensures BandColours(p) == MurmurBands <==> TimelineColour(p) == Red
  {
  }

  /** Band colours with the inclusive test `prob >= 0.45` used by the timeline and the tiers. */
  function BandColoursCorrected(p: real): (b: Bands)
    ensures b == NormalBands || b == MurmurBands
    ensures b == MurmurBands <==> TimelineColour(p) == Red
    ensures b == MurmurBands <==> ClassifyRisk(p).Rank() >= High.Rank()
  {
    if p >= MildFrom then MurmurBands else NormalBands
  }
}
