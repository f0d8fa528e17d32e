/**
 * The STFT plan of `stft.py`: the constructor's checks and window registry,
 * the bin frequencies, the extraction of frames, the window/pad/roll steps
 * around the forward FFT, the roll/truncate/window steps after the inverse
 * FFT, and the weighted overlap-add of `istft`. The real FFT pair and the
 * values of the Hann window are parameters of the model.
 */
module Stft {
  import opened Wrappers
  import opened Complex
  import opened Arith

  datatype StftError =
    | NonPositiveFramesize   // `assert framesize > 0`
    | NonPositiveHopsize     // `assert hopsize > 0`
    | NegativePadsize        // `assert padsize >= 0`
    | UnknownWindow(key: string)  // the registry lookup raises `KeyError`
    | TooFewSamples          // `sliding_window_view` with a window longer than the input
    | FrameLengthMismatch    // an inverse frame that is not `framesize` long cannot be windowed and added

  /** The `window` argument of the constructor: a boolean, `None`, or a name. */
  datatype WindowArg = Flag(on: bool) | NoWindow | Name(name: string)

  /** Python's `str` of the window argument. */
  function Str(w: WindowArg): string
  {
    match w
    case Flag(on) => if on then "True" else "False"
    case NoWindow => "None"
    case Name(name) => name
  }

  function LowerChar(c: char): char
  {
    if 'A' <= c <= 'Z' then (c as int + 32) as char else c
  }

  /** `str.lower` on the ASCII letters. */
  function Lower(s: string): (r: string)
    ensures |r| == |s|
  {
    if s == [] then [] else [LowerChar(s[0])] + Lower(s[1..])
  }

  /** Lowering twice is lowering once, so the registry ignores letter case. */
  lemma {:induction false} LowerIdempotent(s: string)
    ensures Lower(Lower(s)) == Lower(s)
  {
    if s != [] {
      LowerIdempotent(s[1..]);
      assert Lower(s)[1..] == Lower(s[1..]);
    }
  }

  datatype WindowKind = Rect | Hann

  /**
   * The keys of the window registry of `STFT.__init__` and the window each
   * selects. Every key is in lower case, so any letter case of a key reaches
   * it once the name has been lowered.
   */
  function Registry(key: string): (r: Option<WindowKind>)
    ensures r.Some? ==> Lower(key) == key
    ensures r == Some(Hann) <==> key == "true" || key == "hann"
  {
    if key == "rect" || key == "none" || key == "false" then LowerKeeps(key); Some(Rect)
    else if key == "true" || key == "hann" then LowerKeeps(key); Some(Hann)
    else None
  }

  /** A string without upper-case letters is its own lower-case form. */
  lemma {:induction false} LowerKeeps(s: string)
    requires forall i :: 0 <= i < |s| ==> !('A' <= s[i] <= 'Z')
    ensures Lower(s) == s
  {
    if s != [] {
      LowerKeeps(s[1..]);
    }
  }

  /**
   * The window of a kind for a frame of n samples: all ones, or the first n
   * points of an (n+1)-point Hann window (`np.hanning(n+1)[:-1]`), where
   * `hanning(m, k)` stands for point k of an m-point Hann window.
   */
  function MakeWindow(kind: WindowKind, n: nat, hanning: (nat, nat) -> real): (w: seq<real>)
    ensures |w| == n
    ensures kind == Rect ==> forall k :: 0 <= k < n ==> w[k] == 1.0
    ensures kind == Hann ==> forall k :: 0 <= k < n ==> w[k] == hanning(n + 1, k)
  {
    match kind
    case Rect => seq(n, _ => 1.0)
    case Hann => seq(n, k requires 0 <= k < n => hanning(n + 1, k))
  }

  /** A constructed STFT plan: the fields `STFT.__init__` stores. */
  datatype Plan = Plan(framesize: int, hopsize: int, padsize: int, center: bool, window: seq<real>)
  {
    predicate Valid()
    {
      framesize > 0 && hopsize > 0 && padsize >= 0 && |window| == framesize
    }

    /** The length of a padded frame, the size of each DFT. */
    function Size(): int
    {
      framesize + padsize
    }
  }

  /**
   * `STFT.__init__`: the three assertions in order, then the registry
   * lookup of `str(window).lower()`.
   */
  function NewPlan(framesize: int, hopsize: int, padsize: int, center: bool, window: WindowArg,
                   hanning: (nat, nat) -> real): (r: Result<Plan, StftError>)
    ensures r.Ok? <==> framesize > 0 && hopsize > 0 && padsize >= 0 && Registry(Lower(Str(window))).Some?
    ensures framesize <= 0 ==> r == Err(NonPositiveFramesize)
    ensures framesize > 0 && hopsize <= 0 ==> r == Err(NonPositiveHopsize)
    ensures framesize > 0 && hopsize > 0 && padsize < 0 ==> r == Err(NegativePadsize)
    ensures r.Err? && framesize > 0 && hopsize > 0 && padsize >= 0 ==> r == Err(UnknownWindow(Lower(Str(window))))
    ensures r.Ok? ==> && r.value.Valid()
                      && r.value.framesize == framesize && r.value.hopsize == hopsize
                      && r.value.padsize == padsize && r.value.center == center
    ensures r.Ok? && Registry(Lower(Str(window))) == Some(Rect) ==>
      forall k :: 0 <= k < framesize ==> r.value.window[k] == 1.0
    ensures r.Ok? && Registry(Lower(Str(window))) == Some(Hann) ==>
      forall k :: 0 <= k < framesize ==> r.value.window[k] == hanning(framesize + 1, k)
  {
    if framesize <= 0 then Err(NonPositiveFramesize)
    else if hopsize <= 0 then Err(NonPositiveHopsize)
    else if padsize < 0 then Err(NegativePadsize)
    else
      var key := Lower(Str(window));
      match Registry(key)
      case None => Err(UnknownWindow(key))
      case Some(kind) => Ok(Plan(framesize, hopsize, padsize, center, MakeWindow(kind, framesize, hanning)))
  }

  /** The default `window=True`, and the name "hann" in any letter case, select the Hann window. */
  lemma DefaultWindowIsHann(framesize: int, hopsize: int, padsize: int, center: bool, hanning: (nat, nat) -> real)
    requires framesize > 0 && hopsize > 0 && padsize >= 0
    ensures NewPlan(framesize, hopsize, padsize, center, Flag(true), hanning).Ok?
    ensures NewPlan(framesize, hopsize, padsize, center, Flag(true), hanning)
         == NewPlan(framesize, hopsize, padsize, center, Name("HaNN"), hanning)
  {
    assert Lower(Str(Flag(true))) == "true";
    assert Lower(Str(Name("HaNN"))) == "hann";
  }

  /** `window=False` and `window=None` select the rectangular window. */
  lemma NoWindowIsRect(framesize: int, hopsize: int, padsize: int, center: bool, hanning: (nat, nat) -> real)
    requires framesize > 0 && hopsize > 0 && padsize >= 0
    ensures NewPlan(framesize, hopsize, padsize, center, Flag(false), hanning)
         == NewPlan(framesize, hopsize, padsize, center, NoWindow, hanning)
         == Ok(Plan(framesize, hopsize, padsize, center, seq(framesize, _ => 1.0)))
  {
    assert Lower(Str(Flag(false))) == "false";
    assert Lower(Str(NoWindow)) == "none";
  }

  /** A window name and its lower-case form construct the same plan. */
  lemma WindowNameIgnoresCase(framesize: int, hopsize: int, padsize: int, center: bool, name: string,
                              hanning: (nat, nat) -> real)
    ensures NewPlan(framesize, hopsize, padsize, center, Name(name), hanning)
         == NewPlan(framesize, hopsize, padsize, center, Name(Lower(name)), hanning)
  {
    LowerIdempotent(name);
  }

  /** `samplerate or 1`: a missing or zero sample rate counts as 1. */
  function SampleRate(samplerate: Option<int>): (r: int)
    ensures r != 0
    ensures samplerate.Some? && samplerate.value != 0 ==> r == samplerate.value
    ensures r > 0 <==> samplerate.None? || samplerate.value >= 0
  {
    match samplerate
    case None => 1
    case Some(s) => if s == 0 then 1 else s
  }

  /**
   * `STFT.freqs`: `np.fft.rfftfreq(framesize + padsize, 1 / (samplerate or 1))`,
   * whose bin k is `k / (n * (1 / s))`, that is `k * s / n` over exact reals.
   */
  function Freqs(plan: Plan, samplerate: Option<int>): (f: seq<real>)
    requires plan.Valid()
    ensures |f| == plan.Size() / 2 + 1
    ensures f[0] == 0.0
  {
    var n, s := plan.Size(), SampleRate(samplerate);
    seq(n / 2 + 1, k requires 0 <= k <= n / 2 => k as real * s as real / n as real)
  }

  /** With a positive sample rate the frequencies start at 0 and strictly increase. */
  lemma FreqsIncrease(plan: Plan, samplerate: Option<int>, k: nat)
    requires plan.Valid() && SampleRate(samplerate) > 0 && k + 1 < |Freqs(plan, samplerate)|
    ensures Freqs(plan, samplerate)[0] == 0.0
    ensures Freqs(plan, samplerate)[k] < Freqs(plan, samplerate)[k + 1]
  {
    var f, s, n := Freqs(plan, samplerate), SampleRate(samplerate) as real, plan.Size() as real;
    assert f[0] == 0.0 * s / n;
    StepUp(k as real, s, n);
    assert f[k] == k as real * s / n;
    assert f[k + 1] == (k as real + 1.0) * s / n;
  }

  /** Consecutive multiples of a positive step, over a positive divisor, increase. */
  lemma StepUp(k: real, s: real, n: real)
    requires s > 0.0 && n > 0.0
    ensures k * s / n < (k + 1.0) * s / n
  {
    assert (k + 1.0) * s == k * s + s;
    DivLess(k * s, k * s + s, n);
  }

  lemma DivLess(a: real, b: real, n: real)
    requires a < b && n > 0.0
    ensures a / n < b / n
  {
  }

  /** For an even DFT size the last frequency is the Nyquist frequency, half the sample rate. */
  lemma FreqsEndAtNyquist(plan: Plan, samplerate: Option<int>)
    requires plan.Valid() && plan.Size() % 2 == 0
    ensures Freqs(plan, samplerate)[plan.Size() / 2] == SampleRate(samplerate) as real / 2.0
  {
    var f, n, s := Freqs(plan, samplerate), plan.Size() as real, SampleRate(samplerate) as real;
    var k := plan.Size() / 2;
    var h := k as real;
    assert f[k] == h * s / n;
    assert n == 2.0 * h && h > 0.0;
    assert (s / 2.0) * n == h * s;
    DivIs(h * s, s / 2.0, n);
  }

  /** The bins are evenly spaced, `samplerate / (framesize + padsize)` apart. */
  lemma FreqsSpacing(plan: Plan, samplerate: Option<int>, k: nat)
    requires plan.Valid() && k + 1 < |Freqs(plan, samplerate)|
    ensures Freqs(plan, samplerate)[k + 1] - Freqs(plan, samplerate)[k] == SampleRate(samplerate) as real / plan.Size() as real
  {
    var f, s, n := Freqs(plan, samplerate), SampleRate(samplerate) as real, plan.Size() as real;
    StepSize(k as real, s, n);
    assert f[k + 1] == (k as real + 1.0) * s / n && f[k] == k as real * s / n;
  }

  lemma StepSize(k: real, s: real, n: real)
    requires n != 0.0
    ensures (k + 1.0) * s / n - k * s / n == s / n
  {
    assert (k + 1.0) * s - k * s == s;
    DivSub((k + 1.0) * s, k * s, n);
  }

  lemma DivSub(a: real, b: real, n: real)
    requires n != 0.0
    ensures a / n - b / n == (a - b) / n
  {
  }

  lemma DivIs(a: real, b: real, n: real)
    requires n != 0.0 && b * n == a
    ensures a / n == b
  {
  }

  /** The number of frames `sliding_window_view(...)[::hopsize]` takes from n samples. */
  function FrameCount(plan: Plan, n: int): int
    requires plan.Valid()
  {
    (n - plan.framesize) / plan.hopsize + 1
  }

  /** A frame starts at every multiple of the hop size that leaves room for a whole frame, and nowhere else. */
  lemma FrameCountExact(plan: Plan, n: int, i: nat)
    requires plan.Valid() && n >= plan.framesize
    ensures i < FrameCount(plan, n) <==> i * plan.hopsize + plan.framesize <= n
  {
    var f, h := plan.framesize, plan.hopsize;
    var q := (n - f) / h;
    assert q * h <= n - f < q * h + h;
    if i <= q {
      assert i * h <= q * h;
    } else {
      assert (q + 1) * h <= i * h;
    }
  }

  /** The samples after the last frame are fewer than a hop: only a partial hop is dropped. */
  lemma TailShorterThanHop(plan: Plan, n: int)
    requires plan.Valid() && n >= plan.framesize
    ensures 0 <= n - ((FrameCount(plan, n) - 1) * plan.hopsize + plan.framesize) < plan.hopsize
  {
  }

  /** The frames of `STFT.stft`: every window of `framesize` samples starting at a multiple of the hop. */
  function Frames(plan: Plan, samples: seq<real>): (r: Result<seq<seq<real>>, StftError>)
    requires plan.Valid()
    ensures r.Err? <==> |samples| < plan.framesize
    ensures r.Err? ==> r.error == TooFewSamples
    ensures r.Ok? ==> |r.value| == FrameCount(plan, |samples|)
    ensures r.Ok? ==> forall i :: 0 <= i < |r.value| ==>
      i * plan.hopsize + plan.framesize <= |samples| &&
      r.value[i] == samples[i * plan.hopsize..i * plan.hopsize + plan.framesize]
  {
    if |samples| < plan.framesize then Err(TooFewSamples)
    else
      var count := FrameCount(plan, |samples|);
      assert forall i :: 0 <= i < count ==> i * plan.hopsize + plan.framesize <= |samples| by {
        forall i | 0 <= i < count {
          FrameCountExact(plan, |samples|, i);
        }
      }
      Ok(seq(count, i requires 0 <= i < count => samples[i * plan.hopsize..i * plan.hopsize + plan.framesize]))
  }

  /** Python's floor division `a // b`. */
  function FloorDiv(a: int, b: int): (q: int)
    requires b != 0
    ensures b > 0 ==> b * q <= a < b * q + b
    ensures b < 0 ==> b * q + b < a <= b * q
  {
    if b < 0 && a % b != 0 then a / b - 1 else a / b
  }

  /** The two shifts of a centred plan add up to 0 for an even frame size and to -1 for an odd one. */
  lemma CenterShiftsCancel(framesize: int)
    requires framesize > 0
    ensures FloorDiv(framesize, -2) + FloorDiv(framesize, 2) == if framesize % 2 == 0 then 0 else -1
  {
  }

  /** `np.roll(x, s)` on one row: element i of the result is element (i - s) mod |x| of x. */
  function Roll(x: seq<real>, s: int): (r: seq<real>)
    ensures |r| == |x|
  {
    seq(|x|, i requires 0 <= i < |x| => x[(i - s) % |x|])
  }

  /** Rolling by s and then by t is rolling by s + t. */
  lemma RollCompose(x: seq<real>, s: int, t: int)
    ensures Roll(Roll(x, s), t) == Roll(x, s + t)
  {
    var n := |x|;
    if n > 0 {
      forall i | 0 <= i < n
        ensures Roll(Roll(x, s), t)[i] == Roll(x, s + t)[i]
      {
        ModCompose(i, s, t, n);
      }
    }
  }

  /** `np.roll` moves every element forward by s places, wrapping around at the end. */
  lemma RollMoves(x: seq<real>, s: int)
    ensures forall i :: 0 <= i < |x| ==> Roll(x, s)[(i + s) % |x|] == x[i]
  {
    forall i | 0 <= i < |x|
      ensures Roll(x, s)[(i + s) % |x|] == x[i]
    {
      ModCompose(i, s, -s, |x|);
      DivModUnique(i, 0, i, |x|);
    }
  }

  lemma RollZero(x: seq<real>)
    ensures Roll(x, 0) == x
  {
    if x != [] {
      forall i | 0 <= i < |x|
        ensures Roll(x, 0)[i] == x[i]
      {
        DivModUnique(i, 0, i, |x|);
      }
    }
  }

  /** Element-wise product with the window (`data * self.window`). */
  function Windowed(x: seq<real>, w: seq<real>): (r: seq<real>)
    requires |x| == |w|
    ensures |r| == |x|
  {
    seq(|x|, n requires 0 <= n < |x| => x[n] * w[n])
  }

  /** `np.pad` of one row with n zeros at the end. */
  function Pad(x: seq<real>, n: nat): (r: seq<real>)
    ensures |r| == |x| + n && r[..|x|] == x
    ensures forall k :: |x| <= k < |r| ==> r[k] == 0.0
  {
    x + seq(n, _ => 0.0)
  }

  /**
   * The first two steps of `STFT.fft` on one frame: window it, then append
   * `padsize` zeros when there are any.
   */
  function Padded(plan: Plan, frame: seq<real>): (p: seq<real>)
    requires plan.Valid() && |frame| == plan.framesize
    ensures |p| == plan.Size()
    ensures forall m :: 0 <= m < |p| ==> p[m] == if m < plan.framesize then frame[m] * plan.window[m] else 0.0
  {
    var w := Windowed(frame, plan.window);
    if plan.padsize != 0 then Pad(w, plan.padsize) else w
  }

  /** The shift of the roll in `STFT.fft`: `framesize // -2` for a centred plan, none otherwise. */
  function Shift(plan: Plan): int
    requires plan.Valid()
  {
    if plan.center then FloorDiv(plan.framesize, -2) else 0
  }

  /**
   * What sample n of a prepared frame holds: the windowed frame sample at
   * position (n - shift) mod the DFT size, or a padding zero beyond the frame.
   */
  function PreparedSample(plan: Plan, frame: seq<real>, n: int): real
    requires plan.Valid() && |frame| == plan.framesize
  {
    var k := (n - Shift(plan)) % plan.Size();
    if k < plan.framesize then frame[k] * plan.window[k] else 0.0
  }

  /**
   * The steps of `STFT.fft` before the transform, on one frame: the padded
   * frame, rolled by `framesize // -2` when the plan is centred.
   */
  function Prepare(plan: Plan, frame: seq<real>): (r: seq<real>)
    requires plan.Valid() && |frame| == plan.framesize
    ensures |r| == plan.Size()
    ensures forall n :: 0 <= n < |r| ==> r[n] == PreparedSample(plan, frame, n)
  {
    var p := Padded(plan, frame);
    RollPadded(plan, frame, p);
    if plan.center then Roll(p, FloorDiv(plan.framesize, -2))
    else RollZero(p); p
  }

  /** Rolling the padded frame by the plan's shift puts each sample where `PreparedSample` says. */
  lemma RollPadded(plan: Plan, frame: seq<real>, p: seq<real>)
    requires plan.Valid() && |frame| == plan.framesize && p == Padded(plan, frame)
    ensures forall n :: 0 <= n < |p| ==> Roll(p, Shift(plan))[n] == PreparedSample(plan, frame, n)
  {
  }

  /**
   * The steps of `STFT.ifft` after the transform, on one frame: roll by
   * `framesize // 2` when centred, keep the first `framesize` samples when
   * padded, and multiply by the window, which fails unless exactly
   * `framesize` samples are left.
   */
  function Finish(plan: Plan, data: seq<real>): (r: Result<seq<real>, StftError>)
    requires plan.Valid()
    ensures r.Ok? <==> if plan.padsize != 0 then |data| >= plan.framesize else |data| == plan.framesize
    ensures r.Err? ==> r.error == FrameLengthMismatch
    ensures r.Ok? ==> |r.value| == plan.framesize
    ensures r.Ok? && !plan.center ==> forall n :: 0 <= n < plan.framesize ==>
      r.value[n] == data[n] * plan.window[n]
  {
    var rolled := if plan.center then Roll(data, FloorDiv(plan.framesize, 2)) else data;
    var kept := if plan.padsize != 0 then rolled[..Min(plan.framesize, |rolled|)] else rolled;
    if |kept| != plan.framesize then Err(FrameLengthMismatch) else Ok(Windowed(kept, plan.window))
  }

  /** A centred plan's inverse frame sample n comes from position (n - framesize // 2) mod |data|. */
  lemma FinishCentred(plan: Plan, data: seq<real>, n: int)
    requires plan.Valid() && plan.center && Finish(plan, data).Ok? && 0 <= n < plan.framesize
    ensures Finish(plan, data).value[n] == data[(n - plan.framesize / 2) % |data|] * plan.window[n]
  {
    var f := plan.framesize;
    DivModUnique(f, FloorDiv(f, 2), f - 2 * FloorDiv(f, 2), 2);
    var rolled := Roll(data, f / 2);
    var kept := if plan.padsize != 0 then rolled[..f] else rolled;
    assert kept[n] == rolled[n];
    assert Finish(plan, data) == Ok(Windowed(kept, plan.window));
  }

  /** The length of numpy's `irfft` of m bins when no output length is given: 2 * (m - 1). */
  function IrfftLength(bins: int): int
  {
    2 * (bins - 1)
  }

  /**
   * An inverse frame of the default `irfft` length, from as many bins as the
   * forward transform produces, can be finished exactly when the plan pads
   * or its frame size is even: an odd unpadded frame comes back one sample short.
   */
  lemma DefaultIrfftLengthFinishes(plan: Plan, data: seq<real>)
    requires plan.Valid() && |data| == IrfftLength(|Freqs(plan, None)|)
    ensures Finish(plan, data).Ok? <==> plan.padsize != 0 || plan.framesize % 2 == 0
  {
  }

  /**
   * Without the transform in between, finishing a prepared frame gives the
   * frame windowed twice: padding is cut off again and the two rolls cancel
   * whenever the plan is not centred or its frame size is even.
   */
  lemma FinishUndoesPrepare(plan: Plan, frame: seq<real>)
    requires plan.Valid() && |frame| == plan.framesize
    requires !plan.center || plan.framesize % 2 == 0
    ensures Finish(plan, Prepare(plan, frame)) == Ok(Windowed(Windowed(frame, plan.window), plan.window))
  {
    var f := plan.framesize;
    var w := Windowed(frame, plan.window);
    var p := Padded(plan, frame);
    var d := Prepare(plan, frame);
    assert d == if plan.center then Roll(p, FloorDiv(f, -2)) else p;
    var rolled := if plan.center then Roll(d, FloorDiv(f, 2)) else d;
    if plan.center {
      RollsCancel(p, f);
    }
    assert rolled == p;
    var kept := if plan.padsize != 0 then rolled[..Min(f, |rolled|)] else rolled;
    assert kept == w;
  }

  /** The roll of `ifft` undoes the roll of `fft` for an even frame size. */
  lemma RollsCancel(x: seq<real>, framesize: int)
    requires framesize > 0 && framesize % 2 == 0
    ensures Roll(Roll(x, FloorDiv(framesize, -2)), FloorDiv(framesize, 2)) == x
  {
    RollCompose(x, FloorDiv(framesize, -2), FloorDiv(framesize, 2));
    CenterShiftsCancel(framesize);
    RollZero(x);
  }

  /**
   * `STFT.stft`: the frames of a one-dimensional signal, each prepared and
   * transformed; `rfft` stands for the forward real FFT of one row.
   */
  function Analyse(plan: Plan, samples: seq<real>, rfft: seq<real> -> seq<Complex>): (r: Result<seq<seq<Complex>>, StftError>)
    requires plan.Valid()
    ensures r.Err? <==> |samples| < plan.framesize
    ensures r.Ok? ==> |r.value| == FrameCount(plan, |samples|)
    ensures r.Ok? ==> forall i :: 0 <= i < |r.value| ==>
      i * plan.hopsize + plan.framesize <= |samples| &&
      r.value[i] == rfft(Prepare(plan, samples[i * plan.hopsize..i * plan.hopsize + plan.framesize]))
  {
    match Frames(plan, samples)
    case Err(e) => Err(e)
    case Ok(frames) =>
      Ok(seq(|frames|, i requires 0 <= i < |frames| => rfft(Prepare(plan, frames[i]))))
  }

  /**
   * `STFT.ifft` on a whole DFT matrix: every row transformed back by `irfft`
   * and finished; the first row that cannot be finished fails the whole call.
   */
  function Synthesis(plan: Plan, dfts: seq<seq<Complex>>, irfft: seq<Complex> -> seq<real>): (r: Result<seq<seq<real>>, StftError>)
    requires plan.Valid()
    ensures r.Ok? <==> forall i :: 0 <= i < |dfts| ==> Finish(plan, irfft(dfts[i])).Ok?
    ensures r.Err? ==> r.error == FrameLengthMismatch
    ensures r.Ok? ==> |r.value| == |dfts| && forall i :: 0 <= i < |dfts| ==>
      r.value[i] == Finish(plan, irfft(dfts[i])).value && |r.value[i]| == plan.framesize
  {
    if dfts == [] then Ok([])
    else
      match Synthesis(plan, dfts[..|dfts| - 1], irfft)
      case Err(e) => Err(e)
      case Ok(rows) =>
        match Finish(plan, irfft(dfts[|dfts| - 1]))
        case Err(e) => Err(e)
        case Ok(row) =>
          assert forall i :: 0 <= i < |dfts| - 1 ==> dfts[..|dfts| - 1][i] == dfts[i];
          Ok(rows + [row])
  }

  /**
   * The sum of the squared window values: never negative, and zero exactly
   * when every value is zero, so only an all-zero window leaves the gain of
   * `istft` undefined.
   */
  function Energy(w: seq<real>): (e: real)
    ensures e >= 0.0
    ensures e == 0.0 <==> forall k :: 0 <= k < |w| ==> w[k] == 0.0
  {
    if w == [] then 0.0
    else
      var init, x := w[..|w| - 1], w[|w| - 1];
      assert forall k :: 0 <= k < |init| ==> init[k] == w[k];
      assert x != 0.0 ==> Energy(init) + x * x > 0.0 by {
        if x != 0.0 {
          AddProduct(Energy(init), x, x);
        }
      }
      Energy(init) + x * x
  }

  /**
   * The overlap-add of the first `count` frames at output position j: the
   * sum, over the frames i that cover j, of `gain * frames[i][j - i*hop]`.
   * A position that none of them covers stays zero.
   */
  function OverlapAdd(frames: seq<seq<real>>, gain: real, hop: nat, f: nat, count: nat, j: int): (r: real)
    requires count <= |frames| && forall i :: 0 <= i < |frames| ==> |frames[i]| == f
    ensures (forall i :: 0 <= i < count ==> !(i * hop <= j < i * hop + f)) ==> r == 0.0
  {
    if count == 0 then 0.0
    else
      var i := count - 1;
      OverlapAdd(frames, gain, hop, f, i, j) + if i * hop <= j < i * hop + f then gain * frames[i][j - i * hop] else 0.0
  }

  /** The zero-filled buffer of `istft` holds one more frame position than there are DFT rows. */
  lemma BufferFrameCount(plan: Plan, rows: nat)
    requires plan.Valid()
    ensures FrameCount(plan, rows * plan.hopsize + plan.framesize) == rows + 1
  {
    DivModUnique(rows * plan.hopsize, rows, 0, plan.hopsize);
  }

  /**
   * The loop of `STFT.istft`: a zero buffer of `|frames| * hopsize +
   * framesize` samples, viewed as `|frames| + 1` strided frames, of which
   * the first `|frames|` each receive their scaled frame, added at offset
   * `i * hopsize`.
   */
  method Accumulate(plan: Plan, frames: seq<seq<real>>, gain: real) returns (samples: seq<real>)
    requires plan.Valid() && forall i :: 0 <= i < |frames| ==> |frames[i]| == plan.framesize
    ensures |samples| == |frames| * plan.hopsize + plan.framesize
    ensures forall j :: 0 <= j < |samples| ==>
      samples[j] == OverlapAdd(frames, gain, plan.hopsize, plan.framesize, |frames|, j)
  {
    var f, hop := plan.framesize, plan.hopsize;
    var size := |frames| * hop + f;
    var buffer := new real[size](_ => 0.0);
    var count := OverlapCount(plan, |frames|);
    for i := 0 to count
      invariant forall j :: 0 <= j < size ==> buffer[j] == OverlapAdd(frames, gain, hop, f, i, j)
    {
      FrameFits(i, hop, |frames|);
      AddFrame(buffer, frames, gain, hop, f, i);
    }
    samples := buffer[..];
  }

  /** One iteration of the `istft` loop: frame i, scaled, is added at offset `i * hop`. */
  method AddFrame(buffer: array<real>, frames: seq<seq<real>>, gain: real, hop: nat, f: nat, i: nat)
    requires i < |frames| && forall k :: 0 <= k < |frames| ==> |frames[k]| == f
    requires i * hop + f <= buffer.Length
    requires forall j :: 0 <= j < buffer.Length ==> buffer[j] == OverlapAdd(frames, gain, hop, f, i, j)
    modifies buffer
    ensures forall j :: 0 <= j < buffer.Length ==> buffer[j] == OverlapAdd(frames, gain, hop, f, i + 1, j)
  {
    AddScaled(buffer, i * hop, frames[i], gain);
    forall j | 0 <= j < buffer.Length
      ensures buffer[j] == OverlapAdd(frames, gain, hop, f, i + 1, j)
    {
      OverlapAddNext(frames, gain, hop, f, i, j);
    }
  }

  /**
   * The loop bound of `istft`: the smaller of the buffer's strided frame
   * count and the number of rows, which is the number of rows.
   */
  method OverlapCount(plan: Plan, rows: nat) returns (count: nat)
    requires plan.Valid()
    ensures count == rows
  {
    BufferFrameCount(plan, rows);
    count := Min(FrameCount(plan, rows * plan.hopsize + plan.framesize), rows);
  }

  /** One more frame adds its scaled sample wherever it covers j. */
  lemma OverlapAddNext(frames: seq<seq<real>>, gain: real, hop: nat, f: nat, i: nat, j: int)
    requires i < |frames| && forall k :: 0 <= k < |frames| ==> |frames[k]| == f
    ensures OverlapAdd(frames, gain, hop, f, i + 1, j)
         == OverlapAdd(frames, gain, hop, f, i, j) + if i * hop <= j < i * hop + f then gain * frames[i][j - i * hop] else 0.0
  {
  }

  /** Frame i < count of the strided view starts at least a hop before `count * hop`. */
  lemma FrameFits(i: nat, hop: nat, count: nat)
    requires i < count
    ensures i * hop + hop <= count * hop
  {
    MulMono(i, hop, count - 1, hop);
    assert (count - 1) * hop + hop == count * hop;
  }

  /** One strided frame of the buffer receives `gain * frame`, added sample by sample. */
  method AddScaled(buffer: array<real>, start: nat, frame: seq<real>, gain: real)
    requires start + |frame| <= buffer.Length
    modifies buffer
    ensures forall j :: 0 <= j < buffer.Length ==>
      buffer[j] == old(buffer[j]) + if start <= j < start + |frame| then gain * frame[j - start] else 0.0
  {
    for n := 0 to |frame|
      invariant forall j :: 0 <= j < buffer.Length ==>
        buffer[j] == old(buffer[j]) + if start <= j < start + n then gain * frame[j - start] else 0.0
    {
      buffer[start + n] := buffer[start + n] + gain * frame[n];
    }
  }

  /**
   * `STFT.istft` on a two-dimensional DFT matrix: every row transformed back
   * and finished, then overlap-added with the gain `hopsize / sum(window^2)`.
   */
  method Istft(plan: Plan, dfts: seq<seq<Complex>>, irfft: seq<Complex> -> seq<real>) returns (r: Result<seq<real>, StftError>)
    requires plan.Valid() && Energy(plan.window) != 0.0
    ensures r.Err? <==> Synthesis(plan, dfts, irfft).Err?
    ensures r.Err? ==> r.error == FrameLengthMismatch
    ensures r.Ok? ==> |r.value| == |dfts| * plan.hopsize + plan.framesize
    ensures r.Ok? ==> forall j :: 0 <= j < |r.value| ==>
      r.value[j] == OverlapAdd(Synthesis(plan, dfts, irfft).value, plan.hopsize as real / Energy(plan.window),
                               plan.hopsize, plan.framesize, |dfts|, j)
  {
    match Synthesis(plan, dfts, irfft) {
      case Err(e) =>
        return Err(e);
      case Ok(frames) =>
        var samples := Accumulate(plan, frames, plan.hopsize as real / Energy(plan.window));
        return Ok(samples);
    }
  }

  /**
   * When frames do not overlap (the hop is at least the frame size), a
   * covered position holds exactly the scaled sample of its one frame.
   */
  lemma {:induction false} SingleCover(frames: seq<seq<real>>, gain: real, hop: nat, f: nat, count: nat, j: int, k: nat)
    requires count <= |frames| && forall i :: 0 <= i < |frames| ==> |frames[i]| == f
    requires hop >= f && k < count && k * hop <= j < k * hop + f
    ensures OverlapAdd(frames, gain, hop, f, count, j) == gain * frames[k][j - k * hop]
  {
    var i := count - 1;
    if i == k {
      forall m | 0 <= m < k
        ensures !(m * hop <= j < m * hop + f)
      {
        MulMono(m + 1, hop, k, hop);
        assert (m + 1) * hop == m * hop + hop;
      }
      assert OverlapAdd(frames, gain, hop, f, k, j) == 0.0;
    } else {
      SingleCover(frames, gain, hop, f, i, j, k);
      MulMono(k + 1, hop, i, hop);
      assert (k + 1) * hop == k * hop + hop;
    }
  }
}
