/**
 * The spectral whitener of the driver (lines 124-153): the source spectrum
 * matrix is flattened, each bin is divided by its smoothed amplitude
 * (squared for `deconv`, unsquared for `coherence`) after conjugation, or
 * left alone for `raw`, and the result is reshaped to `Nseg x Nfft//2`.
 */
module Whitening {
  import opened CcTypes
  import Ranges

  /** Every row holds exactly `w` entries (a numpy 2-D array of width `w`). */
  predicate Rectangular<T>(m: seq<seq<T>>, w: nat)
  {
    forall i :: 0 <= i < |m| ==> |m[i]| == w
  }

  /** `x.reshape(x.size,)`: the rows one after another. */
  function Flatten<T>(m: seq<seq<T>>): seq<T>
  {
    if |m| == 0 then [] else m[0] + Flatten(m[1..])
  }

  lemma {:induction false} FlattenLength<T>(m: seq<seq<T>>, w: nat)
    requires Rectangular(m, w)
    ensures |Flatten(m)| == |m| * w
  {
    if |m| > 0 {
      FlattenLength(m[1..], w);
      Ranges.Distribute(|m|, 1, w);
    }
  }

  /** `v.reshape(n, w)`: `n` rows of `w` consecutive entries. */
  function Reshape<T>(v: seq<T>, n: nat, w: nat): (r: seq<seq<T>>)
    requires |v| == n * w
    ensures |r| == n && Rectangular(r, w)
    ensures forall i, j :: 0 <= i < n && 0 <= j < w ==> r[i][j] in v
    decreases n
  {
    if n == 0 then []
    else
      Ranges.Distribute(n, 1, w);
      Ranges.ProductNonNegative(n - 1, w);
      var rest := Reshape(v[w..], n - 1, w);
      assert forall x :: x in v[w..] ==> x in v;
      [v[..w]] + rest
  }

  /** Reshaping a flattened matrix to its own width gives it back. */
  lemma {:induction false} ReshapeFlatten<T>(m: seq<seq<T>>, w: nat)
    requires Rectangular(m, w)
    ensures |Flatten(m)| == |m| * w && Reshape(Flatten(m), |m|, w) == m
  {
    FlattenLength(m, w);
    if |m| > 0 {
      ReshapeFlatten(m[1..], w);
      var f := Flatten(m);
      assert f[..w] == m[0] && f[w..] == Flatten(m[1..]);
    }
  }

  /** Flattening a reshaped vector gives it back. */
  lemma {:induction false} FlattenReshape<T>(v: seq<T>, n: nat, w: nat)
    requires |v| == n * w
    ensures Flatten(Reshape(v, n, w)) == v
    decreases n
  {
    if n > 0 {
      Ranges.Distribute(n, 1, w);
      Ranges.ProductNonNegative(n - 1, w);
      FlattenReshape(v[w..], n - 1, w);
      assert Reshape(v, n, w)[1..] == Reshape(v[w..], n - 1, w);
      assert v[..w] + v[w..] == v;
    }
  }

  /** `data[:, :h]`: every row cut to its first `h` bins (shorter rows kept whole). */
  function TruncateRows(m: seq<Row>, h: nat): (r: seq<Row>)
    ensures |r| == |m|
    ensures forall i :: 0 <= i < |m| && |m[i]| >= h ==> r[i] == m[i][..h]
    ensures forall i :: 0 <= i < |m| && |m[i]| < h ==> r[i] == m[i]
  {
    seq(|m|, i requires 0 <= i < |m| => if |m[i]| >= h then m[i][..h] else m[i])
  }

  predicate NonZero(norm: seq<real>)
  {
    forall k :: 0 <= k < |norm| ==> norm[k] != 0.0
  }

  /** The squared modulus `|z|**2` of a bin. */
  function Norm2(z: Complex): real
  {
    z.re * z.re + z.im * z.im
  }

  /**
   * `np.conj(z)/temp**2` for one bin, as two divisions by `temp` (equal
   * over the reals): the conjugate scaled by `1/temp**2`.
   */
  function DeconvBin(z: Complex, t: real): (r: Complex)
    requires t != 0.0
    ensures r.re * (t * t) == z.re && r.im * (t * t) == -z.im
  {
    QuotientTwice(z.re, t);
    QuotientTwice(-z.im, t);
    DivReal(DivReal(Conj(z), t), t)
  }

  /** `np.conj(z)/temp` for one bin: its squared modulus is `|z|**2/temp**2`. */
  function CoherenceBin(z: Complex, t: real): (r: Complex)
    requires t != 0.0
    ensures r.re * t == z.re && r.im * t == -z.im
    ensures Norm2(r) * (t * t) == Norm2(z)
  {
    SquareOfQuotient(z.re, t);
    SquareOfQuotient(-z.im, t);
    DivReal(Conj(z), t)
  }

  lemma QuotientTwice(x: real, t: real)
    requires t != 0.0
    ensures ((x / t) / t) * (t * t) == x
  {
    var a := (x / t) / t;
    assert a * t == x / t;
    assert (a * t) * t == x;
  }

  lemma SquareOfQuotient(x: real, t: real)
    requires t != 0.0
    ensures (x / t) * (x / t) * (t * t) == x * x
  {
    var a := x / t;
    assert a * t == x;
    assert (a * a) * (t * t) == (a * t) * (a * t);
  }

  /** `deconv` divides a bin's squared modulus by `temp**4`. */
  lemma DeconvNorm(z: Complex, t: real)
    requires t != 0.0
    ensures Norm2(DeconvBin(z, t)) * (t * t) * (t * t) == Norm2(z)
  {
    var c := CoherenceBin(z, t);
    assert DeconvBin(z, t) == CoherenceBin(Conj(c), t);
    assert Norm2(Conj(c)) == Norm2(c);
  }

  /** Dividing a bin by its own amplitude leaves a bin of amplitude one. */
  /**
   * What each method does to one bin `z` whose smoothed amplitude is `t`:
   * `raw` keeps it; the others conjugate it and divide its squared modulus
   * by `t**2` (`coherence`) or `t**4` (`deconv`).
   */
  function WhitenBin(m: Method, z: Complex, t: real): (r: Complex)
    requires m != Raw ==> t != 0.0
    ensures m == Raw ==> r == z
    ensures m == Coherence ==> Norm2(r) * (t * t) == Norm2(z)
    ensures m == Deconv ==> Norm2(r) * (t * t) * (t * t) == Norm2(z)
  {
    match m
    case Deconv => DeconvNorm(z, t); DeconvBin(z, t)
    case Coherence => CoherenceBin(z, t)
    case Raw => z
  }

  /** The method's operator applied position by position to a flat spectrum. */
  function WhitenFlat(m: Method, flat: seq<Complex>, norm: seq<real>): (r: seq<Complex>)
    requires m != Raw && |norm| == |flat| && NonZero(norm)
    ensures |r| == |flat|
  {
    seq(|flat|, k requires 0 <= k < |flat| => WhitenBin(m, flat[k], norm[k]))
  }

  /** Row `i` of a reshape: the first `w` entries, or a row of the reshaped remainder. */
  lemma ReshapeRow<T>(v: seq<T>, n: nat, w: nat, i: nat)
    requires |v| == n * w && i < n
    ensures |v| >= w
    ensures i == 0 ==> Reshape(v, n, w)[i] == v[..w]
    ensures i > 0 ==> |v[w..]| == (n - 1) * w && Reshape(v, n, w)[i] == Reshape(v[w..], n - 1, w)[i - 1]
  {
    Ranges.Distribute(n, 1, w);
    Ranges.ProductNonNegative(n - 1, w);
  }

  /** `v.reshape(n, w)[i][j]` is `v[i*w + j]`. */
  lemma {:induction false} ReshapeIndex<T>(v: seq<T>, n: nat, w: nat, i: nat, j: nat)
    requires |v| == n * w && i < n && j < w
    ensures i * w + j < |v| && Reshape(v, n, w)[i][j] == v[i * w + j]
    decreases n
  {
    ReshapeRow(v, n, w, i);
    if i > 0 {
      ReshapeIndex(v[w..], n - 1, w, i - 1, j);
      Ranges.Distribute(i, 1, w);
      Ranges.ProductNonNegative(i - 1, w);
      var k := (i - 1) * w + j;
      assert w + k == i * w + j;
      assert v[w..][k] == v[w + k];
    }
  }

  /** Reshaping commutes with the position-by-position operator. */
  lemma ReshapeWhitenFlat(m: Method, flat: seq<Complex>, norm: seq<real>, n: nat, w: nat, i: nat, j: nat)
    requires m != Raw && |norm| == |flat| && NonZero(norm) && |flat| == n * w
    requires i < n && j < w
    ensures Reshape(WhitenFlat(m, flat, norm), n, w)[i][j] ==
            WhitenBin(m, Reshape(flat, n, w)[i][j], Reshape(norm, n, w)[i][j])
  {
    var whitened := WhitenFlat(m, flat, norm);
    ReshapeIndex(whitened, n, w, i, j);
    ReshapeIndex(flat, n, w, i, j);
    ReshapeIndex(norm, n, w, i, j);
    Ranges.ProductNonNegative(i, w);
    var k := i * w + j;
    WhitenFlatAt(m, flat, norm, k);
    assert Reshape(whitened, n, w)[i][j] == whitened[k];
    assert Reshape(flat, n, w)[i][j] == flat[k] && Reshape(norm, n, w)[i][j] == norm[k];
  }

  /** Entry `k` of the whitened flat spectrum is the operator on entry `k`. */
  lemma WhitenFlatAt(m: Method, flat: seq<Complex>, norm: seq<real>, k: nat)
    requires m != Raw && |norm| == |flat| && NonZero(norm) && k < |flat|
    ensures norm[k] != 0.0 && WhitenFlat(m, flat, norm)[k] == WhitenBin(m, flat[k], norm[k])
  {
  }

  /**
   * Lines 129-153: `norm` is the smoothed amplitude of the flattened
   * spectrum (unused by `raw`). The result has `nseg` rows of `half` bins;
   * `raw` returns the spectrum unchanged, and otherwise every bin is the
   * method's operator applied to the same bin of `fft1` and to the smoothed
   * amplitude at the same segment and bin.
   */
  function Whiten(m: Method, fft1: seq<Row>, nseg: nat, half: nat, norm: seq<real>): (r: seq<Row>)
    requires |fft1| == nseg && Rectangular(fft1, half)
    requires m != Raw ==> |norm| == nseg * half && NonZero(norm)
    ensures |r| == nseg && Rectangular(r, half)
    ensures m == Raw ==> r == fft1
    ensures m != Raw ==> forall i, j :: 0 <= i < nseg && 0 <= j < half ==>
      r[i][j] == WhitenBin(m, fft1[i][j], Reshape(norm, nseg, half)[i][j])
  {
    var flat := Flatten(fft1);
    ReshapeFlatten(fft1, half);
    if m == Raw then Reshape(flat, nseg, half)
    else
      var r := Reshape(WhitenFlat(m, flat, norm), nseg, half);
      assert forall i, j :: 0 <= i < nseg && 0 <= j < half ==>
        r[i][j] == WhitenBin(m, fft1[i][j], Reshape(norm, nseg, half)[i][j]) by {
        forall i, j | 0 <= i < nseg && 0 <= j < half
          ensures r[i][j] == WhitenBin(m, fft1[i][j], Reshape(norm, nseg, half)[i][j])
        {
          ReshapeWhitenFlat(m, flat, norm, nseg, half, i, j);
        }
      }
      r
  }
}
