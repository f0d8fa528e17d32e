/**
 * The ERB filterbank: per-band widths from the rounded cumulative band
 * boundaries, the bin-by-band weight matrix, and the running-mean
 * normalised log-magnitude feature.
 *
 * The Glasberg-Moore warp and the rounding of the boundaries are floating
 * point work; the rounded boundaries are this model's input. Magnitudes and
 * the dB conversion are supplied by the caller.
 */
module Erb {
  import opened Wrappers
  import opened Arith
  import opened Grid

  datatype ErbError =
    | EmptyBands        // `widths[erbsize - 1]` when there is no band
    | WidthSumMismatch  // the widths do not sum to fftsize / 2 + 1
    | ShapeMismatch     // `np.matmul` with a bin count other than the filterbank's
    | NoFrames          // `y[..., 0, :]` on an input without time steps

  /** The sum of the values; a sum of n values that are each at least 1 is at least n. */
  function Sum(s: seq<int>): (r: int)
    ensures (forall k :: 0 <= k < |s| ==> s[k] >= 1) ==> r >= |s|
  {
    if s == [] then 0 else Sum(s[..|s| - 1]) + s[|s| - 1]
  }

  lemma SumStep(s: seq<int>, k: nat)
    requires k < |s|
    ensures Sum(s[..k + 1]) == Sum(s[..k]) + s[k]
  {
    assert s[..k + 1][..k] == s[..k];
  }

  // ---------------------------------------------------------------------
  // Band widths

  /** The rounded boundary that closes the band before band i (0 before the first). */
  function Prev(bounds: seq<int>, i: nat): int
    requires i <= |bounds|
  {
    if i == 0 then 0 else bounds[i - 1]
  }

  /** The step of the rounded boundaries at band i. */
  function Step(bounds: seq<int>, i: nat): int
    requires i < |bounds|
  {
    bounds[i] - Prev(bounds, i)
  }

  /** `over` on entry to band i: how far band i - 1 fell short of `minwidth`. */
  function Deficit(bounds: seq<int>, minwidth: int, i: nat): int
    requires i <= |bounds|
    decreases i, 0
  {
    if i == 0 then 0 else Max(minwidth - Raw(bounds, minwidth, i - 1), 0)
  }

  /** The width of band i before clamping: its boundary step less the carried deficit. */
  function Raw(bounds: seq<int>, minwidth: int, i: nat): int
    requires i < |bounds|
    decreases i, 1
  {
    bounds[i] - Prev(bounds, i) - Deficit(bounds, minwidth, i)
  }

  /** The width of band i after clamping to `minwidth`. */
  function Clamped(bounds: seq<int>, minwidth: int, i: nat): int
    requires i < |bounds|
  {
    Max(minwidth, Raw(bounds, minwidth, i))
  }

  /** The clamped widths of the first k bands. */
  function Clamps(bounds: seq<int>, minwidth: int, k: nat): seq<int>
    requires k <= |bounds|
  {
    seq(k, i requires 0 <= i < k => Clamped(bounds, minwidth, i))
  }

  /** The widths `get_band_widths` returns: every band clamped, the last one plus one bin. */
  function BandWidths(bounds: seq<int>, minwidth: int): (w: seq<int>)
    requires |bounds| > 0
    ensures |w| == |bounds|
    ensures forall i :: 0 <= i < |w| ==> w[i] >= minwidth
    ensures w[|w| - 1] >= minwidth + 1
  {
    var n := |bounds|;
    seq(n, i requires 0 <= i < n => Clamped(bounds, minwidth, i) + (if i == n - 1 then 1 else 0))
  }

  /** Each clamped width is the raw width plus the deficit carried into the next band. */
  lemma ClampCarries(bounds: seq<int>, minwidth: int, i: nat)
    requires i < |bounds|
    ensures Deficit(bounds, minwidth, i + 1) >= 0
    ensures Clamped(bounds, minwidth, i) == Raw(bounds, minwidth, i) + Deficit(bounds, minwidth, i + 1)
  {
  }

  /**
   * The loop telescopes: the first k clamped widths sum to the k-th rounded
   * boundary plus the deficit still carried.
   */
  lemma {:induction false} Telescoping(bounds: seq<int>, minwidth: int, k: nat)
    requires k <= |bounds|
    ensures Sum(Clamps(bounds, minwidth, k)) == Prev(bounds, k) + Deficit(bounds, minwidth, k)
  {
    if k > 0 {
      Telescoping(bounds, minwidth, k - 1);
      assert Clamps(bounds, minwidth, k)[..k - 1] == Clamps(bounds, minwidth, k - 1);
      ClampCarries(bounds, minwidth, k - 1);
    }
  }

  /** The returned widths sum to the last boundary, the final deficit and the extra bin. */
  lemma WidthSum(bounds: seq<int>, minwidth: int)
    requires |bounds| > 0
    ensures Sum(BandWidths(bounds, minwidth)) == bounds[|bounds| - 1] + Deficit(bounds, minwidth, |bounds|) + 1
  {
    var n := |bounds|;
    var w := BandWidths(bounds, minwidth);
    Telescoping(bounds, minwidth, n);
    assert w[..n - 1] == Clamps(bounds, minwidth, n)[..n - 1];
    assert Clamps(bounds, minwidth, n)[..n - 1] + [Clamped(bounds, minwidth, n - 1)] == Clamps(bounds, minwidth, n);
    assert Sum(Clamps(bounds, minwidth, n)) == Sum(w[..n - 1]) + Clamped(bounds, minwidth, n - 1);
  }

  /**
   * When no boundary step is below `minwidth`, nothing is carried and the
   * widths are the successive differences of the boundaries.
   */
  lemma {:induction false} NoClampMeansDifferences(bounds: seq<int>, minwidth: int, k: nat)
    requires k <= |bounds|
    requires forall i :: 0 <= i < |bounds| ==> Step(bounds, i) >= minwidth
    ensures Deficit(bounds, minwidth, k) == 0
    ensures forall i :: 0 <= i < k ==> Clamped(bounds, minwidth, i) == Step(bounds, i)
  {
    if k > 0 {
      NoClampMeansDifferences(bounds, minwidth, k - 1);
      assert Raw(bounds, minwidth, k - 1) == Step(bounds, k - 1) >= minwidth;
    }
  }

  /** Without clamping, the assertion of `get_band_widths` holds exactly when the last boundary is fftsize / 2. */
  lemma NoClampSum(bounds: seq<int>, minwidth: int, fftsize: int)
    requires |bounds| > 0
    requires forall i :: 0 <= i < |bounds| ==> Step(bounds, i) >= minwidth
    ensures (Sum(BandWidths(bounds, minwidth)) as real == fftsize as real / 2.0 + 1.0)
        <==> 2 * bounds[|bounds| - 1] == fftsize
  {
    NoClampMeansDifferences(bounds, minwidth, |bounds|);
    WidthSum(bounds, minwidth);
  }

  /**
   * The loop of `get_band_widths`: overwrites each rounded boundary with its
   * band's clamped width, carrying the deficit from band to band.
   */
  method ClampInPlace(widths: array<int>, minwidth: int)
    modifies widths
    ensures widths[..] == Clamps(old(widths[..]), minwidth, widths.Length)
  {
    ghost var bounds := widths[..];
    var prev, over := 0, 0;
    for i := 0 to widths.Length
      invariant prev == Prev(bounds, i) && over == Deficit(bounds, minwidth, i)
      invariant forall k :: 0 <= k < i ==> widths[k] == Clamped(bounds, minwidth, k)
      invariant forall k :: i <= k < widths.Length ==> widths[k] == bounds[k]
    {
      var next := widths[i];
      var width := next - prev - over;
      prev := next;
      over := Max(minwidth - width, 0);
      width := Max(minwidth, width);
      widths[i] := width;
    }
  }

  /**
   * `get_band_widths` from the rounded boundaries: overwrites each boundary
   * with its clamped width, carrying the deficit, adds one bin to the last
   * band and checks that the widths sum to the number of DFT bins.
   */
  method GetBandWidths(bounds: seq<int>, fftsize: int, minwidth: int) returns (r: Result<seq<int>, ErbError>)
    ensures |bounds| == 0 ==> r == Err(EmptyBands)
    ensures |bounds| > 0 ==> r.Ok? == ((bounds[|bounds| - 1] + Deficit(bounds, minwidth, |bounds|) + 1) as real == fftsize as real / 2.0 + 1.0)
    ensures |bounds| > 0 && r.Err? ==> r.error == WidthSumMismatch
    ensures r.Ok? ==> r.value == BandWidths(bounds, minwidth)
  {
    var erbsize := |bounds|;
    var widths := new int[erbsize](i requires 0 <= i < erbsize => bounds[i]);
    assert widths[..] == bounds;
    ClampInPlace(widths, minwidth);
    if erbsize == 0 {
      return Err(EmptyBands);
    }
    widths[erbsize - 1] := widths[erbsize - 1] + 1;
    var result := widths[..];
    assert result == BandWidths(bounds, minwidth);
    WidthSum(bounds, minwidth);
    if Sum(result) as real != fftsize as real / 2.0 + 1.0 {
      return Err(WidthSumMismatch);
    }
    return Ok(result);
  }

  // ---------------------------------------------------------------------
  // Band weights

  predicate Positive(widths: seq<int>)
  {
    forall i :: 0 <= i < |widths| ==> widths[i] >= 1
  }

  /**
   * The first bin of band i: the sum of the widths before it. Past the last
   * band it is the sum of all widths, the number of bins the bands cover.
   */
  function Offset(widths: seq<int>, i: nat): (o: int)
    requires i <= |widths|
    ensures i == |widths| ==> o == Sum(widths)
  {
    assert widths[..|widths|] == widths;
    Sum(widths[..i])
  }

  lemma OffsetStep(widths: seq<int>, i: nat)
    requires i < |widths|
    ensures Offset(widths, i + 1) == Offset(widths, i) + widths[i]
  {
    SumStep(widths, i);
  }

  lemma {:induction false} OffsetMonotone(widths: seq<int>, i: nat, k: nat)
    requires Positive(widths) && i <= k <= |widths|
    ensures Offset(widths, i) + (k - i) <= Offset(widths, k)
  {
    if i < k {
      OffsetMonotone(widths, i, k - 1);
      OffsetStep(widths, k - 1);
    }
  }

  /** Every row of m has `cols` entries. */
  predicate Shaped(m: seq<seq<real>>, cols: nat)
  {
    forall k :: 0 <= k < |m| ==> |m[k]| == cols
  }

  /** Bin j belongs to band i. */
  predicate InBand(widths: seq<int>, j: int, i: nat)
    requires i < |widths|
  {
    Offset(widths, i) <= j < Offset(widths, i) + widths[i]
  }

  /** Entry (j, i) of the normalised weight matrix. */
  function Weight(widths: seq<int>, j: int, i: nat): real
    requires i < |widths| && Positive(widths)
  {
    if InBand(widths, j, i) then 1.0 / widths[i] as real else 0.0
  }

  /** The weight matrix: one row per bin, one column per band. */
  function WeightMatrix(widths: seq<int>): (m: seq<seq<real>>)
    requires Positive(widths)
    ensures |m| == Max(Sum(widths), 0) && Shaped(m, |widths|)
  {
    var n, b := Sum(widths), |widths|;
    seq(Max(n, 0), j requires 0 <= j < Max(n, 0) => seq(b, i requires 0 <= i < b => Weight(widths, j, i)))
  }

  /** The number of bins below j that lie in [lo, hi). */
  function Covered(lo: int, hi: int, j: int): int
  {
    if j <= lo then 0 else if j >= hi then Max(hi - lo, 0) else j - lo
  }

  /** The filling loop of `get_band_weights`: band i's rows are set to 1 in column i. */
  method FillBands(m: array2<real>, widths: seq<int>)
    requires Positive(widths) && m.Length0 == Sum(widths) && m.Length1 == |widths|
    requires forall j, k :: 0 <= j < m.Length0 && 0 <= k < m.Length1 ==> m[j, k] == 0.0
    modifies m
    ensures forall j, k :: 0 <= j < m.Length0 && 0 <= k < m.Length1 ==>
      m[j, k] == if InBand(widths, j, k) then 1.0 else 0.0
  {
    var bands := |widths|;
    assert widths[..bands] == widths;
    var offset := 0;
    for i := 0 to bands
      invariant offset == Offset(widths, i)
      invariant forall j, k :: 0 <= j < m.Length0 && 0 <= k < bands ==>
        m[j, k] == if k < i && InBand(widths, j, k) then 1.0 else 0.0
    {
      OffsetMonotone(widths, 0, i);
      OffsetMonotone(widths, i + 1, bands);
      OffsetStep(widths, i);
      var w := widths[i];
      for j := offset to offset + w
        invariant forall jj, k :: 0 <= jj < m.Length0 && 0 <= k < bands ==>
          m[jj, k] == if (k < i && InBand(widths, jj, k)) || (k == i && offset <= jj < j) then 1.0 else 0.0
      {
        m[j, i] := 1.0;
      }
      offset := offset + w;
    }
  }

  /** `np.sum(fb, axis=0)` on the filled matrix: each column sums to its band's width. */
  method SumColumns(m: array2<real>, widths: seq<int>) returns (sums: array<real>)
    requires Positive(widths) && m.Length0 == Sum(widths) && m.Length1 == |widths|
    requires forall j, k :: 0 <= j < m.Length0 && 0 <= k < m.Length1 ==>
      m[j, k] == if InBand(widths, j, k) then 1.0 else 0.0
    ensures fresh(sums) && sums.Length == |widths|
    ensures forall k :: 0 <= k < |widths| ==> sums[k] == widths[k] as real
  {
    var bands := |widths|;
    assert widths[..bands] == widths;
    sums := new real[bands](i => 0.0);
    for i := 0 to bands
      invariant forall k :: 0 <= k < i ==> sums[k] == widths[k] as real
    {
      OffsetMonotone(widths, 0, i);
      OffsetMonotone(widths, i + 1, bands);
      OffsetStep(widths, i);
      var s := 0.0;
      for j := 0 to m.Length0
        invariant s == Covered(Offset(widths, i), Offset(widths, i) + widths[i], j) as real
      {
        s := s + m[j, i];
      }
      sums[i] := s;
    }
  }

  /**
   * `get_band_weights` with `normalized=True`, `inverse=False`: sets each
   * band's rows to 1 in its column, then divides every column by its sum.
   */
  method GetBandWeights(widths: seq<int>) returns (fb: seq<seq<real>>)
    requires Positive(widths)
    ensures fb == WeightMatrix(widths)
  {
    var bands := |widths|;
    assert widths[..bands] == widths;
    OffsetMonotone(widths, 0, bands);
    var freqs := Sum(widths);
    var m := new real[freqs, bands]((j, i) => 0.0);
    FillBands(m, widths);
    var sums := SumColumns(m, widths);
    // fb /= np.sum(fb, axis=0)
    forall j, i | 0 <= j < freqs && 0 <= i < bands {
      m[j, i] := m[j, i] / sums[i];
    }
    assert forall j, i :: 0 <= j < freqs && 0 <= i < bands ==> m[j, i] == Weight(widths, j, i);
    fb := seq(freqs, j requires 0 <= j < freqs reads m =>
      seq(bands, i requires 0 <= i < bands reads m => m[j, i]));
    assert |fb| == |WeightMatrix(widths)|;
    forall j | 0 <= j < freqs
      ensures fb[j] == WeightMatrix(widths)[j]
    {
    }
  }

  /** Every bin lies in exactly one band: the bands partition the bins. */
  lemma BinInOneBand(widths: seq<int>, j: int)
    requires Positive(widths) && 0 <= j < Sum(widths)
    ensures exists i :: 0 <= i < |widths| && InBand(widths, j, i)
    ensures forall i, k :: 0 <= i < |widths| && 0 <= k < |widths| && InBand(widths, j, i) && InBand(widths, j, k) ==> i == k
  {
    assert widths[..|widths|] == widths;
    BinBelow(widths, j, |widths|);
    forall i, k | 0 <= i < |widths| && 0 <= k < |widths| && InBand(widths, j, i) && InBand(widths, j, k)
      ensures i == k
    {
      if i < k {
        OffsetStep(widths, i);
        OffsetMonotone(widths, i + 1, k);
      } else if k < i {
        OffsetStep(widths, k);
        OffsetMonotone(widths, k + 1, i);
      }
    }
  }

  lemma {:induction false} BinBelow(widths: seq<int>, j: int, k: nat)
    requires Positive(widths) && k <= |widths| && 0 <= j < Offset(widths, k)
    ensures exists i :: 0 <= i < k && InBand(widths, j, i)
  {
    if k > 0 {
      OffsetStep(widths, k - 1);
      if j < Offset(widths, k - 1) {
        BinBelow(widths, j, k - 1);
      } else {
        assert InBand(widths, j, k - 1);
      }
    }
  }

  /** Each row of the weight matrix has exactly one nonzero entry, in the column of its band. */
  lemma RowHasOneNonzero(widths: seq<int>, j: int)
    requires Positive(widths) && 0 <= j < Sum(widths)
    ensures exists i :: 0 <= i < |widths| && Weight(widths, j, i) != 0.0
    ensures forall i, k :: 0 <= i < |widths| && 0 <= k < |widths| && Weight(widths, j, i) != 0.0 && Weight(widths, j, k) != 0.0 ==> i == k
  {
    BinInOneBand(widths, j);
    var i :| 0 <= i < |widths| && InBand(widths, j, i);
    assert Weight(widths, j, i) != 0.0;
  }

  /** The first k entries of column i of the weight matrix, summed. */
  function ColumnSum(widths: seq<int>, i: nat, k: int): real
    requires i < |widths| && Positive(widths)
  {
    if k <= 0 then 0.0 else ColumnSum(widths, i, k - 1) + Weight(widths, k - 1, i)
  }

  lemma {:induction false} ColumnSumCovered(widths: seq<int>, i: nat, k: int)
    requires i < |widths| && Positive(widths) && Offset(widths, i) >= 0
    ensures ColumnSum(widths, i, k) == Covered(Offset(widths, i), Offset(widths, i) + widths[i], k) as real / widths[i] as real
  {
    if k > 0 {
      ColumnSumCovered(widths, i, k - 1);
      var lo, w := Offset(widths, i), widths[i];
      var c := Covered(lo, lo + w, k - 1);
      if InBand(widths, k - 1, i) {
        assert Covered(lo, lo + w, k) == c + 1;
        DivAdd(c as real, 1.0, w as real);
      }
    }
  }

  lemma DivAdd(a: real, b: real, w: real)
    requires w != 0.0
    ensures (a + b) / w == a / w + b / w
  {
  }

  /** Adding one value to an average of n: `s / n + x * (1 / n) == (s + x) / n`. */
  lemma AddToAverage(s: real, x: real, n: real)
    requires n != 0.0
    ensures s / n + x * (1.0 / n) == (s + x) / n
  {
    assert x * (1.0 / n) == x / n;
    DivAdd(s, x, n);
  }

  /** Normalisation: each column of the weight matrix sums to one. */
  lemma ColumnSumsToOne(widths: seq<int>, i: nat)
    requires i < |widths| && Positive(widths)
    ensures ColumnSum(widths, i, Sum(widths)) == 1.0
  {
    assert widths[..|widths|] == widths;
    OffsetStep(widths, i);
    OffsetMonotone(widths, 0, i);
    OffsetMonotone(widths, i + 1, |widths|);
    ColumnSumCovered(widths, i, Sum(widths));
  }

  // ---------------------------------------------------------------------
  // The filterbank object and its feature

  /** A constructed filterbank: the configuration, the widths and the weights. */
  datatype Filterbank = Filterbank(samplerate: int, fftsize: int, erbsize: nat, minwidth: int,
                                   widths: seq<int>, weights: seq<seq<real>>)
  {
    predicate Valid()
    {
      && erbsize == |widths| > 0
      && Positive(widths)
      && weights == WeightMatrix(widths)
    }
  }

  /**
   * `ERB.__init__` from the rounded band boundaries (their count is
   * `erbsize`): the widths, then the weights built from them.
   */
  method NewFilterbank(samplerate: int, fftsize: int, bounds: seq<int>, minwidth: int) returns (r: Result<Filterbank, ErbError>)
    requires |bounds| > 0 && Sum(BandWidths(bounds, minwidth)) as real == fftsize as real / 2.0 + 1.0 ==>
      Positive(BandWidths(bounds, minwidth))
    ensures |bounds| == 0 ==> r == Err(EmptyBands)
    ensures |bounds| > 0 ==> r.Ok? == (Sum(BandWidths(bounds, minwidth)) as real == fftsize as real / 2.0 + 1.0)
    ensures r.Ok? ==> && r.value.samplerate == samplerate && r.value.fftsize == fftsize
                      && r.value.erbsize == |bounds| && r.value.minwidth == minwidth
    ensures r.Ok? ==> && r.value.Valid()
                      && r.value.widths == BandWidths(bounds, minwidth)
                      && |r.value.weights| == Sum(r.value.widths)
                      && 2 * |r.value.weights| == fftsize + 2
  {
    var built := GetBandWidths(bounds, fftsize, minwidth);
    if |bounds| > 0 {
      WidthSum(bounds, minwidth);
    }
    if built.Err? {
      return Err(built.error);
    }
    var widths := built.value;
    var weights := GetBandWeights(widths);
    assert widths[..|widths|] == widths;
    OffsetMonotone(widths, 0, |widths|);
    r := Ok(Filterbank(samplerate, fftsize, |bounds|, minwidth, widths, weights));
  }

  /** The rows of a two-dimensional array. */
  function Rows(a: array2<real>): (m: seq<seq<real>>)
    reads a
    ensures |m| == a.Length0 && Shaped(m, a.Length1)
  {
    seq(a.Length0, t requires 0 <= t < a.Length0 reads a =>
      seq(a.Length1, i requires 0 <= i < a.Length1 reads a => a[t, i]))
  }

  /** The first n terms of the product of a row with column i of w. */
  function Dot(row: seq<real>, w: seq<seq<real>>, i: nat, n: nat): real
    requires n <= |row| && n <= |w| && forall j :: 0 <= j < n ==> i < |w[j]|
  {
    if n == 0 then 0.0 else Dot(row, w, i, n - 1) + row[n - 1] * w[n - 1][i]
  }

  /** Non-negative terms have a non-negative dot product. */
  lemma {:induction false} DotNonNegative(row: seq<real>, w: seq<seq<real>>, i: nat, n: nat)
    requires n <= |row| && n <= |w| && forall j :: 0 <= j < n ==> i < |w[j]|
    ensures (forall j :: 0 <= j < n ==> row[j] >= 0.0 && w[j][i] >= 0.0) ==> Dot(row, w, i, n) >= 0.0
  {
    if n > 0 {
      DotNonNegative(row, w, i, n - 1);
    }
  }

  /**
   * Entry (t, i) of `np.matmul(x, weights)`: the energy of band i at time t,
   * never negative for a power spectrum and non-negative weights.
   */
  function Energy(x: seq<seq<real>>, w: seq<seq<real>>, t: nat, i: nat): (e: real)
    requires t < |x| && |x[t]| == |w| && forall j :: 0 <= j < |w| ==> i < |w[j]|
    ensures (forall j :: 0 <= j < |w| ==> x[t][j] >= 0.0 && w[j][i] >= 0.0) ==> e >= 0.0
  {
    DotNonNegative(x[t], w, i, |w|);
    Dot(x[t], w, i, |w|)
  }

  /** The dB level of band i over time: the column the running mean runs along. */
  function Levels(x: seq<seq<real>>, w: seq<seq<real>>, bands: nat, decibels: real -> real, i: nat): (col: seq<real>)
    requires Shaped(x, |w|) && Shaped(w, bands) && i < bands
    ensures |col| == |x|
  {
    seq(|x|, t requires 0 <= t < |x| => decibels(Energy(x, w, t, i)))
  }

  /**
   * The running mean after time step t: seeded with the first value and
   * updated with the value of step t before that value is normalised.
   */
  function Mean(col: seq<real>, alpha: real, t: nat): real
    requires t < |col|
    decreases t, 1
  {
    col[t] * (1.0 - alpha) + Before(col, alpha, t) * alpha
  }

  /**
   * The running mean as it stands when step t begins (the seed for t = 0).
   * Without smoothing it is the previous level; with alpha = 1 it never
   * leaves the seed.
   */
  function Before(col: seq<real>, alpha: real, t: nat): real
    requires 0 < |col| && t <= |col|
    decreases t, 0
  {
    if t == 0 then col[0] else Mean(col, alpha, t - 1)
  }

  /**
   * The two limits of the smoothing factor: without smoothing the mean is the
   * current level (and the mean before a step the previous one); with
   * alpha = 1 the mean never leaves the seed, the first level.
   */
  lemma {:induction false} MeanLimits(col: seq<real>, alpha: real, t: nat)
    requires t < |col|
    ensures alpha == 0.0 ==> Mean(col, alpha, t) == col[t]
    ensures alpha == 0.0 && t > 0 ==> Before(col, alpha, t) == col[t - 1]
    ensures alpha == 1.0 ==> Mean(col, alpha, t) == col[0] && Before(col, alpha, t) == col[0]
  {
    if t > 0 {
      MeanLimits(col, alpha, t - 1);
    }
  }

  /** Rows [lo, hi) of y hold their levels in L minus the running mean. */
  ghost predicate Normalised(y: array2<real>, L: seq<seq<real>>, alpha: real, lo: nat, hi: nat)
    requires |L| == y.Length1 && hi <= y.Length0
    requires forall i :: 0 <= i < |L| ==> |L[i]| == y.Length0
    reads y
  {
    forall tt, i :: lo <= tt < hi && 0 <= i < |L| ==> y[tt, i] == L[i][tt] - Mean(L[i], alpha, tt)
  }

  /** Rows [lo, y.Length0) of y still hold their levels in L. */
  ghost predicate Untouched(y: array2<real>, L: seq<seq<real>>, lo: nat)
    requires |L| == y.Length1
    requires forall i :: 0 <= i < |L| ==> |L[i]| == y.Length0
    reads y
  {
    forall tt, i :: lo <= tt < y.Length0 && 0 <= i < |L| ==> y[tt, i] == L[i][tt]
  }

  /**
   * One step of the time loop of `ERB.__call__`: updates the mean of every
   * band with frame t and subtracts it from that frame in place.
   */
  method NormaliseFrame(y: array2<real>, t: nat, mean: seq<real>, alpha: real, ghost L: seq<seq<real>>)
    returns (next: seq<real>)
    requires t < y.Length0 && |mean| == |L| == y.Length1
    requires forall i :: 0 <= i < |L| ==> |L[i]| == y.Length0
    requires forall i :: 0 <= i < |L| ==> mean[i] == Before(L[i], alpha, t) && y[t, i] == L[i][t]
    modifies y
    ensures |next| == |L|
    ensures forall i :: 0 <= i < |L| ==> next[i] == Mean(L[i], alpha, t) && y[t, i] == L[i][t] - next[i]
    ensures forall tt, i :: 0 <= tt < y.Length0 && tt != t && 0 <= i < |L| ==> y[tt, i] == old(y[tt, i])
  {
    next := mean;
    for i := 0 to y.Length1
      invariant |next| == |L|
      invariant forall j :: 0 <= j < i ==> next[j] == Mean(L[j], alpha, t) && y[t, j] == L[j][t] - next[j]
      invariant forall j :: i <= j < |L| ==> next[j] == Before(L[j], alpha, t) && y[t, j] == L[j][t]
      invariant forall tt, j :: 0 <= tt < y.Length0 && tt != t && 0 <= j < |L| ==> y[tt, j] == old(y[tt, j])
    {
      next := next[i := y[t, i] * (1.0 - alpha) + next[i] * alpha];
      y[t, i] := y[t, i] - next[i];
    }
  }

  /**
   * The time loop of `ERB.__call__`: seeds the mean with the first frame,
   * then for each frame updates the mean and subtracts it in place.
   */
  method SubtractRunningMean(y: array2<real>, alpha: real)
    requires y.Length0 > 0
    modifies y
    ensures forall t, i :: 0 <= t < y.Length0 && 0 <= i < y.Length1 ==>
      y[t, i] == old(Column(y, i))[t] - Mean(old(Column(y, i)), alpha, t)
  {
    var frames, bands := y.Length0, y.Length1;
    ghost var L := seq(bands, i requires 0 <= i < bands reads y => Column(y, i));
    var mean := seq(bands, i requires 0 <= i < bands reads y => y[0, i]);
    for t := 0 to frames
      invariant |mean| == bands
      invariant forall i :: 0 <= i < bands ==> mean[i] == Before(L[i], alpha, t)
      invariant Normalised(y, L, alpha, 0, t)
      invariant Untouched(y, L, t)
    {
      mean := NormaliseFrame(y, t, mean, alpha, L);
    }
    assert forall i :: 0 <= i < bands ==> old(Column(y, i)) == L[i];
  }

  /**
   * `ERB.__call__` on the magnitudes `x = |dfts|` (time by bin): the band
   * energies `x @ weights`; with `db`, their dB levels minus the running mean
   * of each band, divided by 40.
   */
  method Call(erb: Filterbank, x: array2<real>, db: bool, alpha: real, decibels: real -> real)
    returns (r: Result<array2<real>, ErbError>)
    requires erb.Valid()
    ensures x.Length1 != |erb.weights| ==> r == Err(ShapeMismatch)
    ensures x.Length1 == |erb.weights| ==> (r.Err? <==> db && x.Length0 == 0)
    ensures x.Length1 == |erb.weights| && r.Err? ==> r.error == NoFrames
    ensures r.Ok? ==> && fresh(r.value)
                      && r.value.Length0 == x.Length0
                      && r.value.Length1 == erb.erbsize
    ensures r.Ok? && !db ==> forall t, i :: 0 <= t < x.Length0 && 0 <= i < erb.erbsize ==>
      r.value[t, i] == Energy(Rows(x), erb.weights, t, i)
    ensures r.Ok? && db ==> forall t, i :: 0 <= t < x.Length0 && 0 <= i < erb.erbsize ==>
      r.value[t, i] == (Levels(Rows(x), erb.weights, erb.erbsize, decibels, i)[t]
                        - Mean(Levels(Rows(x), erb.weights, erb.erbsize, decibels, i), alpha, t)) / 40.0
  {
    var frames, bins, bands := x.Length0, x.Length1, erb.erbsize;
    var w := erb.weights;
    if bins != |w| {
      return Err(ShapeMismatch);
    }
    var y := new real[frames, bands]((t, i) requires 0 <= t < frames && 0 <= i < bands reads x =>
      Energy(Rows(x), w, t, i));
    if db {
      forall t, i | 0 <= t < frames && 0 <= i < bands {
        y[t, i] := decibels(y[t, i]);
      }
      ghost var X := Rows(x);
      ghost var L := seq(bands, i requires 0 <= i < bands => Levels(X, w, bands, decibels, i));
      assert forall i :: 0 <= i < bands ==> Column(y, i) == L[i];
      if frames == 0 {
        return Err(NoFrames);
      }
      SubtractRunningMean(y, alpha);
      forall t, i | 0 <= t < frames && 0 <= i < bands {
        y[t, i] := y[t, i] / 40.0;
      }
    }
    return Ok(y);
  }

  /** Seeding with the first value makes the first output frame exactly zero. */
  lemma FirstFrameZero(col: seq<real>, alpha: real)
    requires |col| > 0
    ensures (col[0] - Mean(col, alpha, 0)) / 40.0 == 0.0
  {
  }

  /** A band whose level never changes has that level as its mean, so its feature is zero throughout. */
  lemma {:induction false} ConstantLevelZero(col: seq<real>, alpha: real, t: nat)
    requires t < |col| && forall k :: 0 <= k < |col| ==> col[k] == col[0]
    ensures Mean(col, alpha, t) == col[0]
    ensures col[t] - Mean(col, alpha, t) == 0.0
  {
    if t > 0 {
      ConstantLevelZero(col, alpha, t - 1);
    }
  }

  /** The mean after step t depends only on the values up to step t: the recursion is causal. */
  lemma {:induction false} MeanCausal(a: seq<real>, b: seq<real>, alpha: real, t: nat)
    requires t < |a| && t < |b| && a[..t + 1] == b[..t + 1]
    ensures Mean(a, alpha, t) == Mean(b, alpha, t)
  {
    assert a[t] == a[..t + 1][t] && b[t] == b[..t + 1][t];
    assert a[0] == a[..t + 1][0] && b[0] == b[..t + 1][0];
    if t > 0 {
      assert a[..t] == a[..t + 1][..t] && b[..t] == b[..t + 1][..t];
      MeanCausal(a, b, alpha, t - 1);
    }
  }

  /** With 0 <= alpha <= 1 the mean stays within the range of the levels seen so far. */
  lemma {:induction false} MeanBounded(col: seq<real>, alpha: real, t: nat, lo: real, hi: real)
    requires t < |col| && 0.0 <= alpha <= 1.0
    requires forall k :: 0 <= k <= t ==> lo <= col[k] <= hi
    ensures lo <= Mean(col, alpha, t) <= hi
  {
    var before := Before(col, alpha, t);
    if t > 0 {
      MeanBounded(col, alpha, t - 1, lo, hi);
    }
    assert lo <= before <= hi;
    ConvexBetween(col[t], before, alpha, lo, hi);
  }

  /** The sum of row[lo..hi). */
  function RangeSum(row: seq<real>, lo: nat, hi: int): real
    requires hi <= |row|
    decreases hi - lo
  {
    if hi <= lo then 0.0 else RangeSum(row, lo, hi - 1) + row[hi - 1]
  }

  /** Band i's column of any matrix holding the normalised weights. */
  ghost predicate HoldsWeights(w: seq<seq<real>>, widths: seq<int>, i: nat)
    requires Positive(widths) && i < |widths|
  {
    forall j :: 0 <= j < |w| ==> i < |w[j]| && w[j][i] == Weight(widths, j, i)
  }

  lemma {:induction false} DotIsPartialAverage(row: seq<real>, w: seq<seq<real>>, widths: seq<int>, i: nat, k: nat)
    requires Positive(widths) && i < |widths| && Offset(widths, i) >= 0
    requires HoldsWeights(w, widths, i) && k <= |row| && k <= |w|
    ensures Dot(row, w, i, k) == RangeSum(row, Offset(widths, i), Min(k, Offset(widths, i) + widths[i])) / widths[i] as real
  {
    var lo, n := Offset(widths, i), widths[i] as real;
    if k > 0 {
      DotIsPartialAverage(row, w, widths, i, k - 1);
      var prev := RangeSum(row, lo, Min(k - 1, lo + widths[i]));
      var cur := RangeSum(row, lo, Min(k, lo + widths[i]));
      var x, weight := row[k - 1], w[k - 1][i];
      assert weight == Weight(widths, k - 1, i);
      if InBand(widths, k - 1, i) {
        assert cur == prev + x;
      } else if k - 1 < lo {
        assert cur == 0.0 == prev;
      } else {
        assert cur == prev;
      }
      assert Dot(row, w, i, k) == Dot(row, w, i, k - 1) + x * weight;
      AverageStep(prev, cur, x, weight, n);
    }
  }

  /** One more bin of a running band average: weighted by 1/n inside the band, by 0 outside it. */
  lemma AverageStep(prev: real, cur: real, x: real, weight: real, n: real)
    requires n != 0.0
    requires (weight == 1.0 / n && cur == prev + x) || (weight == 0.0 && cur == prev)
    ensures prev / n + x * weight == cur / n
  {
    if weight == 0.0 {
      assert x * weight == 0.0;
    } else {
      AddToAverage(prev, x, n);
    }
  }

  /**
   * With the normalised weights, `x @ weights` averages each band: the
   * energy of band i is the mean of x over the band's bins.
   */
  lemma EnergyIsBandAverage(x: seq<seq<real>>, widths: seq<int>, t: nat, i: nat)
    requires Positive(widths) && i < |widths| && t < |x| && |x[t]| == Sum(widths)
    ensures Offset(widths, i) >= 0 && Offset(widths, i) + widths[i] <= |x[t]|
    ensures Energy(x, WeightMatrix(widths), t, i)
         == RangeSum(x[t], Offset(widths, i), Offset(widths, i) + widths[i]) / widths[i] as real
  {
    BandWithinBins(widths, i);
    var w := WeightMatrix(widths);
    assert Energy(x, w, t, i) == Dot(x[t], w, i, Sum(widths));
    DotIsPartialAverage(x[t], w, widths, i, Sum(widths));
    assert Min(Sum(widths), Offset(widths, i) + widths[i]) == Offset(widths, i) + widths[i];
  }

  /** Every band lies within the bins the bands cover. */
  lemma BandWithinBins(widths: seq<int>, i: nat)
    requires Positive(widths) && i < |widths|
    ensures 0 <= Offset(widths, i) && Offset(widths, i) + widths[i] <= Sum(widths)
  {
    OffsetMonotone(widths, 0, i);
    OffsetStep(widths, i);
    OffsetMonotone(widths, i + 1, |widths|);
  }
}
