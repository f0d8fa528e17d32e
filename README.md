# RealTimeDeepFilterNet signal path in Dafny

This project models the sequential, index-level logic around the DeepFilterNet
speech-enhancement model. Four parts are covered:

- **ERB filterbank** (`erb.py`, module `Erb`). Band widths are built from the
  rounded cumulative band boundaries. The loop carries a width deficit from
  band to band, clamps each band to `minwidth`, adds one bin to the last band
  and checks the sum against `fftsize/2 + 1`. The bin-by-band weight matrix is
  normalised so that each column sums to one. The feature call computes band
  energies and, with `db`, subtracts a per-band exponential running mean in
  place, then divides by 40.
- **STFT plan** (`stft.py`, module `Stft`). This covers the constructor's
  checks and window registry, the bin frequencies, and frame extraction. It
  also covers the window/pad/roll steps before the forward FFT and the
  roll/truncate/window steps after the inverse FFT. Finally, the weighted
  overlap-add of `istft` is a method over a zero-filled buffer.
- **Complex compressor** (`cpx.py`, module `Cpx`). It keeps the leading
  `cpxsize` bins on a fresh copy. Along time, each bin is divided by the square
  root of its running mean, and the mean is updated before each division.
- **Tensor-shape helpers** (`cpp/src/DeepFilterInference.cpp`, module
  `DeepFilterInference`). This covers the element count of a shape with
  `size_t` wrap-around and the rejection of negative dimensions. It also
  covers the fixed tensor table and the `shape2infer` and `shape2str` helpers
  of `warmup`.

Shared modules: `Wrappers` (`Option`, `Result`), `Grid` (the column view of a
two-dimensional array), `Complex` (exact complex
addition and real scaling) and `Arith` (integer and real facts).

Numerics that live in libraries are parameters of the model:

- `rfft`, `irfft`, the Hann window values, the magnitude, the dB conversion,
  `sqrt` and complex division.
- The rounded ERB boundaries are an input.

Python's floor division, `np.roll`, slice clamping and `size_t` arithmetic are
written out explicitly.

Where the documentation and the code differ, the model follows the code:

- The compressor's running mean is seeded with the complex value of the first
  frame, not its magnitude. The mean's imaginary part is the seed's, scaled by
  `alpha` once per step (`Cpx.MeanImaginaryPart`). So with a non-real seed
  and a nonzero `alpha` the compressor does not preserve phase.
- The `hopsize` fallback to `framesize // 4` is unreachable. `hopsize > 0` is
  asserted first, so `hopsize` is a required positive integer.
- The inverse FFT is called without an output length, so numpy returns
  `2 * (bins - 1)` samples. An odd frame size without padding therefore cannot
  be synthesised: the frame comes back one sample short and cannot be windowed
  (`Stft.DefaultIrfftLengthFinishes`).

## Model

| member | source | states |
|---|---|---|
| Erb.Sum | erb.py:72 | a sum of widths that are all at least 1 is at least the number of widths |
| Erb.Offset | erb.py:82 | the offset past the last band is the total width `sum(widths)` |
| Erb.BandWithinBins | erb.py:82-87 | with positive widths, band i starts at a non-negative bin and ends no later than `sum(widths)` |
| Erb.ClampInPlace | erb.py:57-69 | the loop overwrites every boundary with its band's clamped width, carrying the deficit from band to band |
| Erb.GetBandWidths | erb.py:57-74 | no bands is an error (`widths[erbsize-1]`); otherwise the call succeeds exactly when last boundary + final deficit + 1 equals fftsize/2 + 1, and then returns the clamped widths with one extra bin on the last band |
| Erb.BandWidths | erb.py:60-71 | one width per band, every width at least `minwidth`, the last at least `minwidth + 1` |
| Erb.ClampCarries | erb.py:62-67 | the deficit carried to the next band is `max(minwidth - raw, 0)`, never negative, and the clamped width is the raw width plus that deficit |
| Erb.Telescoping | erb.py:57-69 | after k bands the clamped widths sum to boundary k-1 (0 before the first band) plus the deficit still carried |
| Erb.WidthSum | erb.py:57-72 | the returned widths sum to the last boundary plus the final deficit plus one |
| Erb.NoClampMeansDifferences | erb.py:60-69 | when no boundary step is below `minwidth`, nothing is carried and every width is the difference of successive boundaries |
| Erb.NoClampSum | erb.py:71-72 | without clamping, the sum assertion holds exactly when twice the last boundary equals `fftsize` |
| Erb.WeightMatrix | erb.py:79-84 | the weight matrix has `sum(widths)` rows of `len(widths)` entries |
| Erb.FillBands | erb.py:84-87 | after filling, an entry is 1 exactly when its bin lies in its column's band, 0 otherwise |
| Erb.SumColumns | erb.py:95 | the column sums of the filled matrix are the band widths |
| Erb.GetBandWeights | erb.py:79-97 | the in-place fill and column division produce the matrix whose entry (j, i) is `1/w_i` when bin j lies in `[offset_i, offset_i + w_i)` and 0 otherwise |
| Erb.BinInOneBand | erb.py:82-87 | every bin lies in exactly one band: the bands partition the bins |
| Erb.RowHasOneNonzero | erb.py:86-95 | every row of the weight matrix has exactly one nonzero entry |
| Erb.ColumnSumCovered | erb.py:94-95 | a partial column sum is the number of band bins covered so far divided by the band width |
| Erb.ColumnSumsToOne | erb.py:94-95 | every column of the normalised weight matrix sums to one |
| Erb.NewFilterbank | erb.py:21-28 | construction fails as the width computation fails; on success the filterbank keeps `samplerate`, `fftsize`, `minwidth` and `erbsize = len(bounds)`, and holds those widths and their weight matrix, with `fftsize/2 + 1` rows |
| Erb.DotNonNegative | erb.py:32 | a row times a weight column is non-negative when both are |
| Erb.Energy | erb.py:32 | a band energy of non-negative magnitudes and weights is non-negative |
| Erb.DotIsPartialAverage | erb.py:32 | a row times band i's weight column over the first k bins is the sum of the band's bins below k divided by the band width |
| Erb.EnergyIsBandAverage | erb.py:32 | `x @ weights` gives each band the mean of `x` over the band's bins |
| Erb.NormaliseFrame | erb.py:36-38 | one time step updates every band's mean with the frame's level, subtracts it from that frame, and leaves the other frames unchanged |
| Erb.SubtractRunningMean | erb.py:35-38 | every entry becomes its level minus the running mean after its step; the mean is seeded with row 0 and updated before subtraction |
| Erb.Call | erb.py:30-40 | wrong bin count is a shape error; with `db`, no frames is an error; without `db` the result is the band energies; with `db` it is (level - running mean) / 40 per band and frame |
| Erb.FirstFrameZero | erb.py:35-39 | the first output frame is zero |
| Erb.ConstantLevelZero | erb.py:35-39 | a band whose level never changes has that level as its mean, so its feature is zero throughout |
| Erb.MeanCausal | erb.py:36-38 | the mean after step t depends only on the levels up to step t |
| Erb.MeanBounded | erb.py:37 | with `0 <= alpha <= 1` the mean stays within any bounds of the levels seen so far |
| Erb.MeanLimits | erb.py:35-37 | with `alpha = 0` the mean after step t is the level of step t (and before step t the level of step t-1); with `alpha = 1` it stays at the seed, the first level |
| Stft.NewPlan | stft.py:35-62 | fails on `framesize <= 0`, then `hopsize <= 0`, then `padsize < 0`, then on a name outside the registry; otherwise keeps the fields, and the window has `framesize` entries, all ones for rect/none/false and the periodic Hann values for true/hann |
| Stft.Registry | stft.py:50-56 | a key is found only if it is already lower-case; it selects the Hann window exactly for "true" and "hann" |
| Stft.LowerKeeps | stft.py:62 | lower-casing a string without upper-case letters leaves it unchanged |
| Stft.MakeWindow | stft.py:51-55 | the window has `framesize` entries: all ones for rect, entry k of `hanning(framesize + 1)` for Hann (the last point dropped) |
| Stft.DefaultWindowIsHann | stft.py:50-62 | the default `window=True` succeeds and selects the same plan as the name "HaNN" |
| Stft.NoWindowIsRect | stft.py:50-62 | `window=False` and `window=None` both give the all-ones window |
| Stft.LowerIdempotent | stft.py:62 | lower-casing twice is lower-casing once |
| Stft.WindowNameIgnoresCase | stft.py:62 | a window name and its lower-case form construct the same plan |
| Stft.SampleRate | stft.py:70 | `samplerate or 1`: never zero; a given nonzero rate is kept; positive exactly when missing or non-negative |
| Stft.Freqs | stft.py:64-70 | one frequency per bin of the real DFT of `framesize + padsize` samples, `(framesize + padsize)//2 + 1` in all, the first being 0 |
| Stft.FreqsSpacing | stft.py:70 | the bins are evenly spaced, `samplerate / (framesize + padsize)` apart, with a missing or zero sample rate counting as 1 |
| Stft.FreqsIncrease | stft.py:70 | with a positive sample rate the frequencies start at 0 and strictly increase |
| Stft.FreqsEndAtNyquist | stft.py:70 | for an even DFT size the last frequency is half the sample rate |
| Stft.FrameCountExact | stft.py:91 | a frame starts at i * hopsize exactly when a whole frame fits there |
| Stft.TailShorterThanHop | stft.py:91 | the samples dropped after the last frame are fewer than a hop |
| Stft.Frames | stft.py:87-91 | fewer samples than a frame is an error; otherwise `(len - framesize)//hopsize + 1` frames, frame i being `samples[i*hop : i*hop + framesize]` |
| Stft.Analyse | stft.py:72-94 | the forward transform is the prepared and transformed frames, one per frame, with the same error condition |
| Stft.FloorDiv | stft.py:144 | Python's floor division: the quotient is the floor of a / b for either sign of b |
| Stft.CenterShiftsCancel | stft.py:142-159 | the forward roll `framesize // -2` and the inverse roll `framesize // 2` add to 0 for an even and -1 for an odd frame size |
| Stft.Roll | stft.py:144 | rolling keeps the row's length |
| Stft.RollMoves | stft.py:144 | `np.roll` by s moves element i to position (i + s) mod n |
| Stft.RollCompose | stft.py:144 | rolling by s and then by t is rolling by s + t |
| Stft.RollsCancel | stft.py:142-159 | for an even frame size the inverse roll undoes the forward roll |
| Stft.Pad | stft.py:138-140 | padding keeps the row as a prefix and appends `padsize` zeros |
| Stft.Padded | stft.py:136-140 | the windowed frame followed by `padsize` zeros: sample m is `frame[m] * window[m]` below `framesize` and 0 after |
| Stft.RollPadded | stft.py:142-144 | rolling the padded frame by `framesize // -2` (by 0 uncentred) puts at n the padded sample (n - shift) mod (framesize + padsize) |
| Stft.Prepare | stft.py:129-146 | a prepared frame has `framesize + padsize` samples, and sample n is the windowed sample `(n - shift) mod (framesize + padsize)` of the frame when that index is below `framesize`, 0 otherwise, the shift being `framesize // -2` when centred and 0 otherwise |
| Stft.Finish | stft.py:148-167 | an inverse frame is accepted exactly when it has `framesize` samples (or at least that many when padded); the result has `framesize` samples and, uncentred, is the data times the window |
| Stft.FinishCentred | stft.py:157-165 | a centred inverse frame's sample n is data[(n - framesize//2) mod len] times the window |
| Stft.FinishUndoesPrepare | stft.py:136-165 | with no transform in between, finishing a prepared frame gives the frame windowed twice whenever the plan is uncentred or the frame size even |
| Stft.DefaultIrfftLengthFinishes | stft.py:155-165 | an inverse frame of numpy's default length can be finished exactly when the plan pads or the frame size is even |
| Stft.Synthesis | stft.py:121 | the inverse transform of a matrix succeeds exactly when every row can be finished, and then holds each finished row |
| Stft.BufferFrameCount | stft.py:116-123 | the output buffer holds `rows + 1` strided frame positions, so the loop bound `min(rows + 1, rows)` is `rows` |
| Stft.OverlapCount | stft.py:120-123 | the loop bound `min(len(frames0), len(frames1))` is the number of DFT rows |
| Stft.AddScaled | stft.py:125 | one strided frame of the buffer grows by `gain * frame` sample by sample, the rest is unchanged |
| Stft.AddFrame | stft.py:123-125 | each iteration extends the overlap-add from the first i frames to the first i + 1 |
| Stft.Accumulate | stft.py:115-127 | the buffer has `rows * hopsize + framesize` samples, and sample j is the sum over the frames covering j of `gain * frame_i[j - i*hop]` |
| Stft.Istft | stft.py:96-127 | fails exactly when the inverse transform fails; otherwise has the output length above and each sample is the overlap-add with gain `hopsize / sum(window^2)` |
| Stft.Energy | stft.py:115 | the window energy `sum(window^2)` is non-negative, and zero exactly when every window value is zero |
| Stft.OverlapAdd | stft.py:118-125 | an output sample that no frame covers stays zero |
| Stft.SingleCover | stft.py:118-125 | when the hop is at least the frame size, a covered sample holds its one frame's scaled value |
| Cpx.SliceStop | cpx.py:13 | the stop of `[:cpxsize]` on n bins: a stop in [0, n] is kept, a stop in [-n, 0) counts from the end, anything else is clamped into [0, n] |
| Cpx.CompressFrame | cpx.py:18-20 | one time step updates every bin's mean with the bin's magnitude, divides the bin by the square root of the updated mean, and leaves the other frames unchanged |
| Cpx.Truncate | cpx.py:13 | a fresh array holding every frame and the first `bins` bins of the input |
| Cpx.CompressAll | cpx.py:16-20 | after the time loop, every entry is its input value divided by the square root of its bin's running mean, seeded from the first frame |
| Cpx.Call | cpx.py:11-22 | no frames is an error; otherwise a fresh array with every frame and the first `min(F, cpxsize)` bins (Python slice rules), entry (t, b) being the input divided by the square root of bin b's running mean after step t |
| Cpx.MeanImaginaryPart | cpx.py:16-19 | the mean's imaginary part is the seed's times `alpha^(t+1)`: the seed is the complex value, not its magnitude |
| Cpx.MeanCausal | cpx.py:16-20 | the mean after step t depends only on the bin's values up to step t |
| Cpx.MeanBounded | cpx.py:16-19 | with a real seed and `0 <= alpha <= 1`, the mean stays real and within any bounds of the seed and the magnitudes seen |
| Cpx.MeanLimits | cpx.py:16-19 | with `alpha = 0` the mean after step t is the magnitude of step t (and before step t that of step t-1); with `alpha = 1` it stays at the seed, the complex value of step 0 |
| DeepFilterInference.Product | cpp/src/DeepFilterInference.cpp:224-235 | the product of the dimensions is 0 when some dimension is 0 |
| DeepFilterInference.Size | cpp/src/DeepFilterInference.cpp:222-238 | fails exactly when some dimension is negative; otherwise the product of the dimensions modulo 2^64 (1 for an empty shape), exact when it fits |
| DeepFilterInference.ProductNonNegative | cpp/src/DeepFilterInference.cpp:222-238 | a shape without negative dimensions has a non-negative product |
| DeepFilterInference.TableShapesSmall | cpp/src/DeepFilterInference.cpp:208-220 | every shape in the table is non-negative and its product fits in `size_t` |
| DeepFilterInference.CoefsTensorLength | cpp/src/DeepFilterInference.cpp:219 | the `coefs` tensor has 960 elements |
| DeepFilterInference.SessionTensorsInTable | cpp/src/DeepFilterInference.cpp:64-66 | every tensor name used by the three sessions is a key of the table |
| DeepFilterInference.MakeTensors | cpp/src/DeepFilterInference.cpp:240-250 | fails exactly when some shape has a negative dimension; otherwise one tensor per key, each with a copy of its shape and a zero buffer of its size |
| DeepFilterInference.TableIsSizeable | cpp/src/DeepFilterInference.cpp:208-238 | every table shape is sizeable without wrap-around |
| DeepFilterInference.GetTensors | cpp/src/DeepFilterInference.cpp:206-253 | exactly the table's keys, each tensor holding its shape and `product(shape)` zeros |
| DeepFilterInference.Inferred | cpp/src/DeepFilterInference.cpp:109-119 | same length, every non-negative entry kept, and no negative entry left when the infer value is non-negative |
| DeepFilterInference.ShapeToInfer | cpp/src/DeepFilterInference.cpp:109-119 | same length, every negative entry replaced by the infer value, every other entry kept |
| DeepFilterInference.WarmupShapePositive | cpp/src/DeepFilterInference.cpp:153 | inferring with 1 leaves no negative dimension, and the product is positive exactly when no dimension is 0 |
| DeepFilterInference.InferIdempotent | cpp/src/DeepFilterInference.cpp:109-119 | with a non-negative infer value, inferring twice is inferring once |
| DeepFilterInference.NatToString | cpp/src/DeepFilterInference.cpp:93 | `to_string` of a natural number is a non-empty string of digits |
| DeepFilterInference.IntToString | cpp/src/DeepFilterInference.cpp:93 | `to_string`: a minus sign exactly for a negative value, followed by at least one digit, digits throughout otherwise |
| DeepFilterInference.ValueToString | cpp/src/DeepFilterInference.cpp:86-95 | non-empty, `*` exactly for -1, and without commas |
| DeepFilterInference.JoinValues | cpp/src/DeepFilterInference.cpp:100-103 | the joined entries are empty exactly for an empty shape |
| DeepFilterInference.ShapeString | cpp/src/DeepFilterInference.cpp:99-106 | the text opens with "(", closes with ")", and holds the joined entries in between |
| DeepFilterInference.ValueRoundTrip | cpp/src/DeepFilterInference.cpp:86-95 | every value's text (`*` for -1, `to_string` otherwise) is comma-free and parses back to the value |
| DeepFilterInference.NegativeRoundTrip | cpp/src/DeepFilterInference.cpp:93 | `to_string` of a negative value other than -1 parses back to the value |
| DeepFilterInference.NatRoundTrip | cpp/src/DeepFilterInference.cpp:93 | `to_string` of a non-negative value parses back to the value |
| DeepFilterInference.DigitsRoundTrip | cpp/src/DeepFilterInference.cpp:93 | the decimal digits of n read back as n |
| DeepFilterInference.JoinRoundTrip | cpp/src/DeepFilterInference.cpp:99-104 | the comma-joined entries of a non-empty shape parse back to the shape |
| DeepFilterInference.ShapeToString | cpp/src/DeepFilterInference.cpp:84-107 | the text is "(" + entries joined by "," + ")", "()" for an empty shape |
| DeepFilterInference.ShapeStringRoundTrip | cpp/src/DeepFilterInference.cpp:84-107 | the shape text parses back to the shape |
| DeepFilterInference.ShapeStringInjective | cpp/src/DeepFilterInference.cpp:84-107 | two shapes with the same text are equal |

## Left out

- `hz2erb`, `erb2hz`, the float step `erbinc` and `np.round` (erb.py:4-16, 45-55): these are floating-point log/exp. The rounded band boundaries are the input of `Erb.GetBandWidths` and `Erb.NewFilterbank`, and their count is `erbsize`.
- The float assertion `np.sum(widths) == fftsize / 2 + 1` is modelled over exact reals. An odd `fftsize` therefore always fails it.
- `np.abs` and `20 * log10(y + eps)` in `ERB.__call__` (erb.py:31, 34): `Erb.Call` takes the magnitudes, and the dB conversion is a function parameter.
- The `inverse=True` branch of `get_band_weights` (erb.py:89-92), which uses torch-style `.t()` and `keepdim` that numpy arrays lack, and its `normalized=False` branch (erb.py:93-95), which skips the column division. The constructor uses neither, so the model always normalises. `all_freqs` (erb.py:80) is only used for its length.
- Erb.NewFilterbank: requires every clamped width to be at least 1 whenever the sum check passes, since only then are weights computed. That holds for any `minwidth >= 1`. With an empty or negative band numpy divides 0 by 0 (NaN weights, a warning, no exception) or slices with negative indices.
- Erb.GetBandWeights: requires every width to be at least 1, for the same reason.
- Default arguments: `db=True, alpha=0.99` of `ERB.__call__` (erb.py:30) and `padsize=0, center=False` of `STFT.__init__` (stft.py:15) are required parameters of `Erb.Call` and `Stft.NewPlan`. A caller passes the defaults explicitly.
- Leading batch axes: every matrix is two-dimensional (time by bin), and the `...` axes of numpy are not modelled.
- `np.fft.rfft`, `np.fft.irfft` and `np.hanning` (stft.py:54-55, 146, 155) are function parameters. No perfect-reconstruction claim is made, because that depends on the transform and on the window's overlap-add sum.
- `np.atleast_1d`, `np.atleast_2d` and the dimension assertions (stft.py:87-89, 111-113, 134, 153): the signal is a sequence of samples and the DFT matrix a sequence of rows. Scalars and inputs of other ranks are not modelled.
- `STFT.fft` and `STFT.ifft` are modelled as applied inside `stft` and `istft`, that is, on frames of `framesize` samples. Calling them directly on rows of other lengths relies on numpy broadcasting, which is not modelled.
- Stft.Istft: requires the window energy `sum(window^2)` to be nonzero. For a zero-energy window numpy divides by zero and produces inf/NaN samples. This happens with the Hann window at `framesize == 1`.
- Stft.Istft: a DFT matrix with no rows yields the zero-filled output. numpy would still compare the transform's row length with the window.
- `hopsize=None` (stft.py:36, 59): Python 3 raises `TypeError` when comparing `None > 0`, and the fallback `framesize // 4` is never reached. `hopsize` is an integer here.
- The power-of-two warnings (stft.py:39-48) sit under `if False:` and are never run.
- `str(window)` for window arguments other than booleans, `None` and strings is not modelled. `str.lower` is modelled on ASCII letters only.
- A floating-point sample rate in `STFT.freqs`: the sample rate is an integer here.
- `np.absolute`, `np.sqrt` and complex division in `CPX.__call__` (cpx.py:19-20) are function parameters. numpy's dtype casting of a real input array is not modelled.
- `CPX.__init__` is the `Cpx.Compressor` datatype constructor. The call receives the compressor as a value, so it cannot change `cpxsize` or `alpha`.
- ONNX Runtime plumbing (cpp/src/DeepFilterInference.cpp:9-67, 123-204, 255-281): sessions, `Run` calls, `type2str` and the text that `warmup` streams out.
- The tensor buffers are `float` in the source. Here they are zero reals, and the `shared_ptr` ownership is not modelled.
- `audio.py` (file I/O and resampling), `spectrum.py` (plotting), `test.py` and `test_ort.py` (scripts around an external model) are not part of this model.
- `cpp/src/main.cpp`, `cpp/src/DeepFilter.h`, `cpp/src/DeepFilterInference.h`, `cpp/src/DeepAssert.h` and `cpp/src/xt.h` (glue, declarations, message formatting) are not part of this model.
