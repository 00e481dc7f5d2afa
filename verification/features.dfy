/**
 Fixed-length shaping of a cycle's cepstral coefficient matrix.

 The coefficient matrix itself (13 rows, one column per analysis frame) comes
 from an MFCC routine that is not modelled. Whatever its frame count, the
 matrix is cut to its first 260 frames or padded on the right with zero
 frames up to 260, then flattened row by row, so every cycle yields a vector
 of the same width.
 */
module Features {

  const NMfcc: nat := 13
  const MaxLen: nat := 260

  /** `mfcc.shape[1]`: the frame count, read off the first row. */
  function Frames(m: seq<seq<real>>): nat {
    if |m| == 0 then 0 else |m[0]|
  }

  /** All rows have the same number of frames. */
  predicate Rectangular(m: seq<seq<real>>) {
    Uniform(m, Frames(m))
  }

  /** What the MFCC routine returns: `NMfcc` rows of equal length. */
  predicate IsCoefficientMatrix(m: seq<seq<real>>) {
    |m| == NMfcc && Rectangular(m)
  }

  /** Entry `(r, c)` of the matrix extended to the right with zeros. */
  function Cell(m: seq<seq<real>>, r: nat, c: nat): real
    requires r < |m|
  {
    if c < |m[r]| then m[r][c] else 0.0
  }

  function Zeros(n: nat): (z: seq<real>)
    ensures |z| == n
    ensures forall k :: 0 <= k < n ==> z[k] == 0.0
  {
    seq(n, _ => 0.0)
  }

  /** One row cut to its first `maxLen` frames, or padded with zeros up to `maxLen`. */
  function FitRow(row: seq<real>, frames: nat, maxLen: nat): (out: seq<real>)
    requires |row| == frames
    ensures |out| == maxLen
    ensures forall c :: 0 <= c < maxLen ==> out[c] == if c < frames then row[c] else 0.0
  {
    if frames > maxLen then row[..maxLen] else row + Zeros(maxLen - frames)
  }

  /**
   `mfcc[:, :maxLen]` when there are more than `maxLen` frames, otherwise
   `np.pad` with zero frames on the right: every row ends up `maxLen` long,
   frames inside the cap are kept and the rest read as zero.
   */
  function FitFrames(m: seq<seq<real>>, maxLen: nat): (fm: seq<seq<real>>)
    requires Rectangular(m)
    ensures |fm| == |m| && Uniform(fm, maxLen)
    ensures forall r, c :: 0 <= r < |fm| && 0 <= c < maxLen ==> fm[r][c] == Cell(m, r, c)
  {
    seq(|m|, r requires 0 <= r < |m| => FitRow(m[r], Frames(m), maxLen))
  }

  /** Concatenation of the rows in order (`flatten` of a C-ordered array). */
  function Flatten(rows: seq<seq<real>>): seq<real>
  {
    if |rows| == 0 then [] else rows[0] + Flatten(rows[1..])
  }

  predicate Uniform(rows: seq<seq<real>>, w: nat) {
    forall r :: 0 <= r < |rows| ==> |rows[r]| == w
  }

  lemma {:induction false} FlattenLength(rows: seq<seq<real>>, w: nat)
    requires Uniform(rows, w)
    ensures |Flatten(rows)| == |rows| * w
  {
    if |rows| > 0 {
      FlattenLength(rows[1..], w);
    }
  }

  /** Row-major layout: entry `(r, c)` lands at index `r * w + c`. */
  lemma {:induction false} FlattenIndex(rows: seq<seq<real>>, w: nat, r: nat, c: nat)
    requires Uniform(rows, w) && r < |rows| && c < w
    ensures |Flatten(rows)| == |rows| * w
    ensures r * w + c < |Flatten(rows)|
    ensures Flatten(rows)[r * w + c] == rows[r][c]
  {
    FlattenLength(rows, w);
    assert r * w + c < |rows| * w by {
      assert r + 1 <= |rows|;
      assert (r + 1) * w <= |rows| * w;
    }
    if r > 0 {
      var tail := rows[1..];
      FlattenIndex(tail, w, r - 1, c);
      assert (r - 1) * w + c + w == r * w + c;
      assert Flatten(rows)[r * w + c] == Flatten(tail)[(r - 1) * w + c];
    }
  }

  lemma MulStep(r: nat, n: nat, w: nat)
    requires r < n
    ensures 0 <= r * w && r * w + w <= n * w
  {
    assert r * w + w == (r + 1) * w;
  }

  /** Row `r` of a vector cut into rows of width `w`. */
  function Row(v: seq<real>, w: nat, n: nat, r: nat): (row: seq<real>)
    requires |v| == n * w && r < n
    ensures |row| == w
  {
    MulStep(r, n, w);
    v[r * w..r * w + w]
  }

  /** Cuts a vector of `n * w` entries into `n` consecutive rows of width `w`. */
  function Unflatten(v: seq<real>, w: nat, n: nat): (rows: seq<seq<real>>)
    requires |v| == n * w
    ensures |rows| == n && Uniform(rows, w)
  {
    seq(n, r requires 0 <= r < n => Row(v, w, n, r))
  }

  /** Flattening loses nothing: cutting the vector back into rows recovers the matrix. */
  lemma UnflattenFlatten(rows: seq<seq<real>>, w: nat)
    requires Uniform(rows, w)
    ensures |Flatten(rows)| == |rows| * w
    ensures Unflatten(Flatten(rows), w, |rows|) == rows
  {
    FlattenLength(rows, w);
    var back := Unflatten(Flatten(rows), w, |rows|);
    forall r | 0 <= r < |rows|
      ensures back[r] == rows[r]
    {
      forall c | 0 <= c < w
        ensures back[r][c] == rows[r][c]
      {
        FlattenIndex(rows, w, r, c);
        MulStep(r, |rows|, w);
        assert back[r] == Row(Flatten(rows), w, |rows|, r);
        assert back[r][c] == Flatten(rows)[r * w + c];
      }
    }
  }

  /**
   The tail of `extract_mfcc`: fit the matrix to `maxLen` frames and flatten
   it row by row. The width depends only on the number of coefficient rows,
   never on the frame count, and row `r` of the vector is the fitted row `r`.
   */
  function ShapeFeatures(m: seq<seq<real>>, maxLen: nat): (v: seq<real>)
    requires Rectangular(m)
    ensures |v| == |m| * maxLen
    ensures Unflatten(v, maxLen, |m|) == FitFrames(m, maxLen)
  {
    UnflattenFlatten(FitFrames(m, maxLen), maxLen);
    Flatten(FitFrames(m, maxLen))
  }

  /** Coefficient `c` of row `r` lands at index `r * maxLen + c`, or reads zero past the last frame. */
  lemma FeatureIndex(m: seq<seq<real>>, maxLen: nat, r: nat, c: nat)
    requires Rectangular(m) && r < |m| && c < maxLen
    ensures r * maxLen + c < |ShapeFeatures(m, maxLen)|
    ensures ShapeFeatures(m, maxLen)[r * maxLen + c] == Cell(m, r, c)
  {
    FlattenIndex(FitFrames(m, maxLen), maxLen, r, c);
  }

  /** Every cycle's feature vector has width 13 * 260, whatever the cycle's duration. */
  lemma FeatureWidthFixed(m: seq<seq<real>>)
    requires IsCoefficientMatrix(m)
    ensures |ShapeFeatures(m, MaxLen)| == NMfcc * MaxLen == 3380
  {
  }
}
