# Heart-sound verdict logic, modelled in Dafny

This project models the discrete decision logic of `heart_api.py`. That
logic turns already computed signal quantities into the heart-sound
analysis result:

- **Beat-count gate.** Fewer than three detected beats give the error
  record `{"error": "Not enough heart beats detected"}`.
- **Heart rate.** The rate is `60 / mean(diff(peaks) / sr)`. `classify_hr_only`
  places it in one of six status bands, from "Severe Bradycardia" to
  "Severe Tachycardia".
- **Cycle segmenter.** A sliding window of width two over the peaks cuts the
  filtered signal into overlapping cardiac cycles and their time spans.
- **Fixed-length features.** Each cycle's 13-row cepstral matrix is cut or
  zero-padded to 260 frames, then flattened row by row.
- **Risk aggregator.** It takes the maximum per-cycle abnormality
  probability and maps it to four prediction / risk-level tiers.
- **Per-cycle colours.** These colour the sound timeline and the
  systole/diastole bands of the waveform plot.

Modules, one per component:

| file | module | models |
|---|---|---|
| `peaks.dfy` | `Peaks` | what the peak detector guarantees about its output |
| `heart_rate.dfy` | `HeartRate` | inter-beat intervals, the rate formula, its closed form and bounds |
| `hr_status.dfy` | `HrStatus` | `classify_hr_only` |
| `segmentation.dfy` | `Segmentation` | the cycle-building loop |
| `features.dfy` | `Features` | the truncate / pad / flatten tail of `extract_mfcc` |
| `risk.dfy` | `Risk` | maximum probability and risk tiers |
| `palette.dfy` | `Palette` | the named plot colours |
| `colours.dfy` | `Colours` | timeline and systole/diastole colours |
| `analysis.dfy` | `Analysis` | the decision path of `analyze_heart_sound` |

Numbers are exact `real`s, so the tier and band boundaries (0.30, 0.45,
0.60; 50, 60, 100, 120, 150 BPM) are stated and proved exactly. The sample
rate is a positive natural number. After resampling the code always uses
1000 Hz, but the formulas hold for any rate.

The numeric stages are opaque, so they appear only as inputs:

- **Peak detection.** The band-pass filter, the Hilbert envelope and
  `find_peaks` enter as the filtered signal and the peak indices. The
  predicate `Peaks.Valid` states what the detector guarantees: indices
  strictly increasing, inside the signal, and neighbours at least
  0.4 · sr samples apart (`distance=0.4*sr`).
- **MFCC routine.** It is the parameter `mfcc`, assumed to return 13 rows of
  equal length.
- **Scaler and classifier.** Together they are the parameter `score`, which
  maps one feature row to the probability of the abnormal class. The scaler
  is affine per feature and the classifier scores each row independently,
  so applying them to the whole batch equals applying them row by row.

One consequence of the spacing guarantee: the heart rate never exceeds
150 BPM (`HeartRate.HeartRateAtMost150`). So "Severe Tachycardia" never
reaches a result record, although `classify_hr_only` can return it.

Three facts about the code shape the model:

- Line 95 divides by the peak amplitude with no guard, so silent input is
  not rejected there.
- Lines 100-101 return an error record when fewer than three beats are
  found; they do not raise.
- Line 134 raises for every verdict that is not "critical" (see
  "## Findings").

## Model

| member | source | states |
|---|---|---|
| `HrStatus.ClassifyHr` | heart_api.py:43-55 | the returned status is the band whose range contains the rate: below 50, [50, 60), [60, 100], (100, 120], (120, 150], above 150 |
| `HrStatus.ClassifyHrExact` | heart_api.py:43-55 | a status is returned exactly when the rate lies in its band, so every rate gets one and only one status |
| `HrStatus.BandsDisjoint` | heart_api.py:44-55 | no rate lies in two bands |
| `HrStatus.LabelsDistinct` | heart_api.py:45-55 | the six status labels are pairwise different strings |
| `HrStatus.ClassifyHrBoundaries` | heart_api.py:44-55 | 50 is Mild Bradycardia; 60 and 100 are Normal; 100.1 and 120 are Mild Tachycardia; 150 is Moderate Tachycardia; every rate above 150 is Severe Tachycardia |
| `HrStatus.ClassifyHrMonotone` | heart_api.py:44-55 | a faster rate never gets a slower band |
| `HeartRate.Intervals` | heart_api.py:103 | `diff(peaks) / sr`: n − 1 intervals for n ≥ 1 peaks (none for none), interval i being (p[i+1] − p[i]) / sr seconds |
| `HeartRate.IntervalsTelescope` | heart_api.py:103 | the inter-beat intervals in seconds sum to the first-to-last beat distance divided by the sample rate |
| `HeartRate.BeatsPerMinute` | heart_api.py:103 | for two or more increasing beats the rate is positive and equals 60 · sr · (n − 1) / (last peak − first peak) |
| `HeartRate.SpanAtLeast` | heart_api.py:99 | beats at least 0.4 s apart span at least 0.4 · sr · (n − 1) samples |
| `HeartRate.HeartRateAtMost150` | heart_api.py:99-103 | with the detector's 0.4 s minimum spacing the rate is at most 150 BPM |
| `HeartRate.OneSecondBeatsGive60` | heart_api.py:103 | five beats one second apart at 1000 Hz give exactly 60 BPM |
| `Peaks.Valid` | heart_api.py:99 | the detector's output: strictly increasing indices inside the signal, neighbours at least 0.4 · sr samples apart; such a sequence never has more peaks than the signal has samples |
| `Segmentation.Segment` | heart_api.py:106-109 | the loop yields max(0, n − 2) cycles and as many time spans; cycle i is the slice from peak i to peak i + 2, of length p[i+2] − p[i], with span (p[i]/sr, p[i+2]/sr) and start < end |
| `Segmentation.Cycle` | heart_api.py:108 | cycle i has length p[i+2] − p[i] and its entry k is sample p[i] + k of the filtered signal |
| `Segmentation.Cycles` | heart_api.py:106-108 | max(0, n − 2) cycles; cycle i has length p[i+2] − p[i] and entry k equal to sample p[i] + k of the filtered signal |
| `Segmentation.CycleTimes` | heart_api.py:106-109 | max(0, n − 2) spans; span i has start < end, and its start and end times sr give back peaks i and i + 2 |
| `Segmentation.CycleTime` | heart_api.py:109 | a cycle's start time is before its end time, and each converts back to its peak index at the sample rate |
| `Segmentation.CycleIsSystoleThenDiastole` | heart_api.py:108 | a cycle is its systole (peak i to i + 1) followed by its diastole (peak i + 1 to i + 2) |
| `Segmentation.NeighbouringCyclesOverlap` | heart_api.py:107-108 | the diastole of cycle i is the systole of cycle i + 1 |
| `Features.FitRow` | heart_api.py:39-40 | a row becomes exactly max_len long; frame c keeps its value when it existed and reads 0 past the last frame |
| `Features.FitFrames` | heart_api.py:39-40 | every row is cut to its first max_len frames when there are more, else zero-padded on the right; entry (r, c) is the original entry or 0 |
| `Features.FlattenIndex` | heart_api.py:41 | row-major layout: entry (r, c) of a matrix with rows of width w lands at index r · w + c |
| `Features.UnflattenFlatten` | heart_api.py:41 | cutting the flattened vector back into rows of width w recovers the matrix, so flattening loses nothing |
| `Features.ShapeFeatures` | heart_api.py:39-41 | the vector has length rows · max_len for any frame count, and its consecutive max_len-blocks are the fitted rows |
| `Features.FeatureIndex` | heart_api.py:39-41 | coefficient (r, c) of the matrix is at index r · max_len + c of the vector, or that index holds 0 when frame c does not exist |
| `Features.FeatureWidthFixed` | heart_api.py:31-41 | every 13-row coefficient matrix yields a vector of width 13 · 260 = 3380, whatever the cycle's duration |
| `Risk.ClassifyRisk` | heart_api.py:117-128 | the tier returned is the one whose probability range contains p: below 0.30, [0.30, 0.45), [0.45, 0.60), 0.60 and above |
| `Risk.ClassifyRiskExact` | heart_api.py:117-128 | a tier is returned exactly when p lies in its range |
| `Risk.TiersDisjoint` | heart_api.py:117-128 | no probability lies in two tier ranges |
| `Risk.ClassifyRiskBoundaries` | heart_api.py:117-128 | 0.30 is medium, 0.45 is high, 0.60 is critical, and just below 0.30 is low |
| `Risk.ClassifyRiskMonotone` | heart_api.py:117-128 | a higher probability never gets a lower tier |
| `Risk.MaxProb` | heart_api.py:115 | the maximum is at least every cycle's probability and equals one of them |
| `Risk.AssessRisk` | heart_api.py:115-128 | the overall tier is low iff every cycle is below 0.30; medium iff all are below 0.45 and one reaches 0.30; high iff all are below 0.60 and one reaches 0.45; critical iff one reaches 0.60 |
| `Risk.RaisingOneCycleNeverLowersTier` | heart_api.py:115-128 | raising any one cycle's probability never lowers the overall tier |
| `Colours.TimelineColour` | heart_api.py:63-68 | green iff the probability's tier is low, orange iff medium, red iff high or critical |
| `Colours.BandColours` | heart_api.py:155-156 | the bands are either lightblue/plum or red/darkred; murmur colours exactly for tier high or critical, except at probability exactly 0.45 |
| `Colours.BandsDisagreeWithTimelineAtBoundary` | heart_api.py:63-68 | at probability 0.45 the timeline bar is red while the bands show lightblue/plum |
| `Colours.BandsAgreeAwayFromBoundary` | heart_api.py:155-156 | at every other probability the bands show murmur colours iff the timeline bar is red |
| `Colours.BandColoursCorrected` | heart_api.py:155-156 | with the inclusive test, the bands show murmur colours iff the timeline bar is red, iff the tier is high or critical |
| `Analysis.CycleFeatures` | heart_api.py:111 | the classifier input has one row per cycle, every row of width 13 · 260 |
| `Analysis.CycleProbabilities` | heart_api.py:112 | `predict_proba(X)[:, 1]`: one probability per feature row, the classifier's score of that row |
| `Analysis.Probabilities` | heart_api.py:106-112 | one probability per cycle; probability i is the score of the fixed-width features of cycle i (peak i to peak i + 2) |
| `Analysis.BuildReport` | heart_api.py:103-128 | with three or more beats, the record has n − 2 cycles, a rate 60 · sr · (n − 1) / span in (0, 150] whose status is never Severe Tachycardia, and as probability the largest per-cycle score, with the prediction and risk level of that score's tier |
| `Analysis.Analyze` | heart_api.py:100-128 | the error record "Not enough heart beats detected" iff fewer than 3 beats; otherwise a record with at least one cycle; never an exception |
| `Analysis.AnalyzeAsWritten` | heart_api.py:100-134 | fewer than 3 beats give the error record; otherwise reading `t` raises exactly when every cycle scores below 0.60; when nothing is raised the outcome equals the corrected pipeline's |
| `Analysis.GateSkipsScoring` | heart_api.py:100-101 | below three beats the outcome is the same whatever the MFCC and scoring stages compute |
| `Analysis.ConstantScore` | heart_api.py:111-112 | a classifier giving every row the same probability gives every cycle that probability |
| `Analysis.FiveRegularBeatsScenario` | heart_api.py:100-134 | five beats 1 s apart at 1000 Hz with every cycle scored 0.1 give 3 cycles, 60 BPM, Normal Heart Rate, Normal Heart Sound / low; the code as written raises on the same input |

## Left out

- **Audio input.** Loading, resampling to 1000 Hz and peak normalisation
  (lines 90-95) are library I/O. The model starts after normalisation, so
  silent input is outside it. Line 95 has no guard against an all-zero
  signal, which yields NaN rather than an error.
- **Signal processing.** The Butterworth band-pass with `filtfilt`
  (lines 26-29), the Hilbert envelope (line 97) and `find_peaks` (line 99)
  are floating-point numerics in library code. Their output appears only
  through the `Peaks.Valid` predicate. The peak-height threshold of
  1.2 · mean(envelope) is not modelled.
- **MFCC, scaler and classifier.** The MFCC computation (lines 32-38) and
  the pretrained scaler and XGBoost model (lines 87-88, 111-112) are opaque
  artifacts. They appear as the function parameters `mfcc` and `score`.
  Failure to load them is not modelled. The single-precision cast of the
  cycle is not modelled either.
- **Floating point.** All threshold comparisons are modelled on exact
  reals, not on the float64 rate or the float32 probabilities that
  `predict_proba` returns (line 112). Whether a float32 probability meets a
  threshold such as 0.45 exactly depends on NumPy's type-promotion rules,
  and that is not modelled. NaN and infinity are not modelled either. In
  particular, a NaN rate falls to "Severe Tachycardia" in
  `classify_hr_only`, and `np.max` propagates NaN.
- Analysis.BuildReport: the probability and heart rate are the unrounded
  values. `round(max_prob, 3)` and `round(hr, 1)` (lines 201-202) are float
  formatting.
- Analysis.BuildReport: the `images` field is omitted. Matplotlib drawing,
  PNG and base64 encoding, and figure handling (lines 57-85, 130-197) are
  presentation. Only the colour decisions are modelled.
- **Web layer.** The Flask routes, file upload, hard-coded artifact paths,
  embedded HTML/CSS and browser script (lines 213-1274) are transport and
  UI.
- **HR colour.** The colour returned by `classify_hr_only` is modelled as
  `HrStatus.Status.Colour` but carries no contract of its own. It is a
  plain lookup table.

## Findings

| source | as written | input that shows it | evidently intended | confidence | as-written member | corrected member |
|---|---|---|---|---|---|---|
| heart_api.py:126-134 | `t` and `max_amp` are assigned only inside the `else` (critical) branch of the tiering, and line 134 reads `t` | five beats 1 s apart at 1000 Hz, every cycle scored 0.1: reading `t` raises, and the route answers with status 500 instead of the record | the time axis and peak amplitude are computed for every tier, and the record is returned | high; not executed | `Analysis.AnalyzeAsWritten` | `Analysis.Analyze` |
| heart_api.py:155-156 | the systole/diastole bands use murmur colours only when `prob > 0.45` | a cycle whose probability compares equal to 0.45 (exact-real comparison; see "## Left out"): its timeline bar is red (lines 63-68) and its tier is "high", but its bands are lightblue/plum | `prob >= 0.45`, matching the timeline and the inclusive lower bound of the "high" tier | medium; not executed | `Colours.BandColours` | `Colours.BandColoursCorrected` |
