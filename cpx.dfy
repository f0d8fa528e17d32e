/**
 * The complex compressor of `cpx.py`: keeps the leading `cpxsize` bins of a
 * complex spectrum (time by bin) on a copy and divides every bin by the
 * square root of a running mean taken along time. Magnitude, square root
 * and complex division are parameters of the model.
 */
module Cpx {
  import opened Wrappers
  import opened Complex
  import opened Arith
  import opened Grid

  datatype CpxError = NoFrames  // `y[..., 0, :]` on an input without time steps

  /** `CPX.__init__`: the truncation size and the smoothing factor, stored as given. */
  datatype Compressor = Compressor(cpxsize: int, alpha: real)

  /** The length of an axis of length n after Python's slice `[:stop]`. */
  function SliceStop(n: nat, stop: int): (k: nat)
    ensures k <= n
    ensures 0 <= stop <= n ==> k == stop
    ensures -(n as int) <= stop < 0 ==> k as int == n as int + stop
  {
    if stop >= 0 then (if stop < n then stop else n)
    else if n + stop > 0 then n + stop else 0
  }

  /**
   * The running mean of one bin after step t: `|y_t| * (1 - alpha) + mean * alpha`,
   * where the mean before step 0 is the complex value of the bin at step 0.
   */
  function Mean(col: seq<Complex>, alpha: real, abs: Complex -> real, t: nat): Complex
    requires t < |col|
    decreases t, 1
  {
    Add(FromReal(abs(col[t]) * (1.0 - alpha)), Scale(Before(col, alpha, abs, t), alpha))
  }

  /**
   * The running mean of one bin when step t begins. Without smoothing it is
   * the previous magnitude; with alpha = 1 it never leaves the seed.
   */
  function Before(col: seq<Complex>, alpha: real, abs: Complex -> real, t: nat): Complex
    requires 0 < |col| && t <= |col|
    decreases t, 0
  {
    if t == 0 then col[0] else Mean(col, alpha, abs, t - 1)
  }

  /**
   * The two limits of the smoothing factor: without smoothing the mean is the
   * current magnitude (and the mean before a step the previous one); with
   * alpha = 1 the mean never leaves the seed, the complex value at step 0.
   */
  lemma {:induction false} MeanLimits(col: seq<Complex>, alpha: real, abs: Complex -> real, t: nat)
    requires t < |col|
    ensures alpha == 0.0 ==> Mean(col, alpha, abs, t) == FromReal(abs(col[t]))
    ensures alpha == 0.0 && t > 0 ==> Before(col, alpha, abs, t) == FromReal(abs(col[t - 1]))
    ensures alpha == 1.0 ==> Mean(col, alpha, abs, t) == col[0] && Before(col, alpha, abs, t) == col[0]
  {
    if t > 0 {
      MeanLimits(col, alpha, abs, t - 1);
    }
  }

  /**
   * One step of the time loop of `CPX.__call__`: every bin's mean is updated
   * with the bin's value at step t, then the value is divided by the square
   * root of the updated mean.
   */
  method CompressFrame(y: array2<Complex>, t: nat, mean: seq<Complex>, alpha: real, ghost L: seq<seq<Complex>>,
                       abs: Complex -> real, sqrt: Complex -> Complex, div: (Complex, Complex) -> Complex)
    returns (next: seq<Complex>)
    requires t < y.Length0 && |mean| == |L| == y.Length1
    requires forall b :: 0 <= b < |L| ==> |L[b]| == y.Length0
    requires forall b :: 0 <= b < |L| ==> mean[b] == Before(L[b], alpha, abs, t) && y[t, b] == L[b][t]
    modifies y
    ensures |next| == |L|
    ensures forall b :: 0 <= b < |L| ==>
      next[b] == Mean(L[b], alpha, abs, t) && y[t, b] == div(L[b][t], sqrt(next[b]))
    ensures forall tt, b :: 0 <= tt < y.Length0 && tt != t && 0 <= b < |L| ==> y[tt, b] == old(y[tt, b])
  {
    next := mean;
    for b := 0 to y.Length1
      invariant |next| == |L|
      invariant forall c :: 0 <= c < b ==> next[c] == Mean(L[c], alpha, abs, t) && y[t, c] == div(L[c][t], sqrt(next[c]))
      invariant forall c :: b <= c < |L| ==> next[c] == Before(L[c], alpha, abs, t) && y[t, c] == L[c][t]
      invariant forall tt, c :: 0 <= tt < y.Length0 && tt != t && 0 <= c < |L| ==> y[tt, c] == old(y[tt, c])
    {
      next := next[b := Add(FromReal(abs(y[t, b]) * (1.0 - alpha)), Scale(next[b], alpha))];
      y[t, b] := div(y[t, b], sqrt(next[b]));
    }
  }

  /** Rows [0, hi) of y are compressed: each value divided by the square root of its bin's mean. */
  ghost predicate Compressed(y: array2<Complex>, L: seq<seq<Complex>>, alpha: real, hi: nat,
                             abs: Complex -> real, sqrt: Complex -> Complex, div: (Complex, Complex) -> Complex)
    requires |L| == y.Length1 && hi <= y.Length0
    requires forall b :: 0 <= b < |L| ==> |L[b]| == y.Length0
    reads y
  {
    forall tt, b :: 0 <= tt < hi && 0 <= b < |L| ==> y[tt, b] == div(L[b][tt], sqrt(Mean(L[b], alpha, abs, tt)))
  }

  /** Rows [lo, y.Length0) of y still hold the input values in L. */
  ghost predicate Pending(y: array2<Complex>, L: seq<seq<Complex>>, lo: nat)
    requires |L| == y.Length1
    requires forall b :: 0 <= b < |L| ==> |L[b]| == y.Length0
    reads y
  {
    forall tt, b :: lo <= tt < y.Length0 && 0 <= b < |L| ==> y[tt, b] == L[b][tt]
  }

  /** `x[..., :cpxsize].copy()`: a fresh array with every frame and the first `bins` bins. */
  method Truncate(dfts: array2<Complex>, bins: nat) returns (y: array2<Complex>)
    requires bins <= dfts.Length1
    ensures fresh(y) && y.Length0 == dfts.Length0 && y.Length1 == bins
    ensures forall t, b :: 0 <= t < y.Length0 && 0 <= b < bins ==> y[t, b] == dfts[t, b]
  {
    y := new Complex[dfts.Length0, bins]((t, b) requires 0 <= t < dfts.Length0 && 0 <= b < bins reads dfts => dfts[t, b]);
  }

  /**
   * The time loop of `CPX.__call__`: the means start from the first frame's
   * values, and frame after frame is compressed in time order.
   */
  method CompressAll(y: array2<Complex>, alpha: real, ghost L: seq<seq<Complex>>,
                     abs: Complex -> real, sqrt: Complex -> Complex, div: (Complex, Complex) -> Complex)
    requires y.Length0 > 0 && |L| == y.Length1
    requires forall b :: 0 <= b < |L| ==> |L[b]| == y.Length0
    requires Pending(y, L, 0)
    modifies y
    ensures Compressed(y, L, alpha, y.Length0, abs, sqrt, div)
  {
    var mean := seq(y.Length1, b requires 0 <= b < y.Length1 reads y => y[0, b]);
    for t := 0 to y.Length0
      invariant |mean| == |L|
      invariant forall b :: 0 <= b < |L| ==> mean[b] == Before(L[b], alpha, abs, t)
      invariant Compressed(y, L, alpha, t, abs, sqrt, div)
      invariant Pending(y, L, t)
    {
      mean := CompressFrame(y, t, mean, alpha, L, abs, sqrt, div);
    }
  }

  /**
   * `CPX.__call__` on a complex spectrum (time by bin): a fresh copy of the
   * leading `cpxsize` bins, compressed frame by frame in time order. The
   * input array is only read.
   */
  method Call(cpx: Compressor, dfts: array2<Complex>,
              abs: Complex -> real, sqrt: Complex -> Complex, div: (Complex, Complex) -> Complex)
    returns (r: Result<array2<Complex>, CpxError>)
    ensures r.Err? <==> dfts.Length0 == 0
    ensures r.Ok? ==> && fresh(r.value)
                      && r.value.Length0 == dfts.Length0
                      && r.value.Length1 == SliceStop(dfts.Length1, cpx.cpxsize)
    ensures r.Ok? ==> forall t, b :: 0 <= t < r.value.Length0 && 0 <= b < r.value.Length1 ==>
      r.value[t, b] == div(dfts[t, b], sqrt(Mean(Column(dfts, b), cpx.alpha, abs, t)))
  {
    var y := Truncate(dfts, SliceStop(dfts.Length1, cpx.cpxsize));
    if dfts.Length0 == 0 {
      return Err(NoFrames);
    }
    ghost var L := seq(y.Length1, b requires 0 <= b < y.Length1 reads dfts => Column(dfts, b));
    CompressAll(y, cpx.alpha, L, abs, sqrt, div);
    return Ok(y);
  }

  function Pow(x: real, n: nat): real
  {
    if n == 0 then 1.0 else Pow(x, n - 1) * x
  }

  /**
   * The magnitudes only ever add real parts, so the imaginary part of the
   * mean is the seed's, scaled by alpha once per step: a seed that is not
   * real makes every mean complex, and the division changes the phase.
   */
  lemma {:induction false} MeanImaginaryPart(col: seq<Complex>, alpha: real, abs: Complex -> real, t: nat)
    requires t < |col|
    ensures Mean(col, alpha, abs, t).im == col[0].im * Pow(alpha, t + 1)
  {
    if t > 0 {
      MeanImaginaryPart(col, alpha, abs, t - 1);
    }
  }

  /** The mean after step t depends only on the bin's values up to step t. */
  lemma {:induction false} MeanCausal(a: seq<Complex>, b: seq<Complex>, alpha: real, abs: Complex -> real, t: nat)
    requires t < |a| && t < |b| && a[..t + 1] == b[..t + 1]
    ensures Mean(a, alpha, abs, t) == Mean(b, alpha, abs, t)
  {
    assert a[t] == a[..t + 1][t] && b[t] == b[..t + 1][t];
    assert a[0] == a[..t + 1][0] && b[0] == b[..t + 1][0];
    if t > 0 {
      assert a[..t] == a[..t + 1][..t] && b[..t] == b[..t + 1][..t];
      MeanCausal(a, b, alpha, abs, t - 1);
    }
  }

  /**
   * With a real seed and 0 <= alpha <= 1, the mean stays real and within
   * any bounds [lo, hi] that hold the seed and the magnitudes seen so far.
   */
  lemma {:induction false} MeanBounded(col: seq<Complex>, alpha: real, abs: Complex -> real, t: nat, lo: real, hi: real)
    requires t < |col| && 0.0 <= alpha <= 1.0 && col[0].im == 0.0 && lo <= col[0].re <= hi
    requires forall k :: 0 <= k <= t ==> lo <= abs(col[k]) <= hi
    ensures Mean(col, alpha, abs, t).im == 0.0
    ensures lo <= Mean(col, alpha, abs, t).re <= hi
  {
    var before := Before(col, alpha, abs, t);
    if t > 0 {
      MeanBounded(col, alpha, abs, t - 1, lo, hi);
    }
    ConvexBetween(abs(col[t]), before.re, alpha, lo, hi);
  }
}
