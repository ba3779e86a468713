/** The buffer-filling half of `downloadAudio`: one sample stream per
    request (a single tone, a sum of tones, or a phase-accumulated sweep),
    written identically into every channel buffer and handed to `toWav`.
    Samples are exact reals; `Math.sin`, `Math.asin`, `Math.pow`,
    `Math.sqrt` and the successive draws of `Math.random` are parameters. */
module Synthesis {
  import opened Bytes
  import opened Quantize
  import opened Frames
  import opened Wav

  /** `Math.PI` as the decimal the double prints as. */
  const PI: real := 3.141592653589793

  datatype Mode = Single | Multiple | Sweep

  datatype Waveform = Sine | Square | Triangle | Sawtooth | Noise

  /** `'log'` selects the exponential sweep; any other value is linear. */
  datatype SweepType = Linear | Log

  /** The values `downloadAudio` reads from the form, already parsed. */
  datatype Request = Request(
    mode: Mode,
    waveform: Waveform,
    amplitude: real,
    duration: real,
    sampleRate: int,
    channels: int,
    bitDepth: int,
    normalize: bool,
    frequency: real,
    multiFreqs: seq<real>,
    sweepStart: real,
    sweepEnd: real,
    sweepType: SweepType)

  /** The library functions the generator calls; `random(i)` is the i-th
      draw of `Math.random` in single mode. */
  datatype Maths = Maths(
    sin: real -> real,
    asin: real -> real,
    pow: (real, real) -> real,
    sqrt: real -> real,
    random: nat -> real)

  /** `Math.sqrt` is positive on positive arguments. */
  ghost predicate ValidMaths(m: Maths)
  {
    (forall x :: 0.0 < x ==> 0.0 < m.sqrt(x)) &&
    (forall x :: m.pow(x, 0.0) == 1.0)
  }

  /** How a download ends without a file: `new Float32Array` of a negative
      length, the "Enter valid frequencies" alert, or `buffers[0].length`
      on an empty buffer list in `toWav`. */
  datatype DownloadError = RangeError | NoFrequencies | TypeError

  datatype Result<T> = Ok(value: T) | Err(error: DownloadError)

  /** JavaScript's `%` on finite numbers: the remainder of truncating
      division, with the sign of the dividend and smaller than the divisor
      in magnitude. */
  function JsRem(a: real, b: real): (r: real)
    requires b != 0.0
    ensures 0.0 <= a ==> 0.0 <= r
    ensures a <= 0.0 ==> r <= 0.0
    ensures Abs(r) < Abs(b)
    ensures ((a - r) / b).Floor as real == (a - r) / b
  {
    var t := Trunc(a / b);
    var r := a - b * (t as real);
    RemBounds(a, b, t);
    WholeQuotient(a, b, t, r);
    r
  }

  /** Taking `t` times `b` off `a` leaves a remainder `r` for which
      `(a - r) / b` is the whole number `t`. */
  lemma WholeQuotient(a: real, b: real, t: int, r: real)
    requires b != 0.0 && r == a - b * (t as real)
    ensures ((a - r) / b).Floor as real == (a - r) / b
  {
    assert a - r == b * (t as real);
    assert (a - r) / b == t as real;
  }

  /** `d` spans a whole number of periods of the frequency `f`. */
  predicate WholePeriods(d: real, f: real)
  {
    (d * f).Floor as real == d * f
  }

  /** Taking a remainder modulo the period `1 / f` leaves a whole number of
      periods behind. */
  lemma RemainderPeriods(time: real, c: real, f: real)
    requires f != 0.0 && ((time - c) / (1.0 / f)).Floor as real == (time - c) / (1.0 / f)
    ensures WholePeriods(time - c, f)
  {
    assert (time - c) / (1.0 / f) == (time - c) * f;
  }

  /** A product `p` with a factor of magnitude below one. */
  lemma ScaleBelowOne(x: real, y: real, p: real)
    requires 0.0 < x && -1.0 < y < 1.0 && p == x * y
    ensures -x < p < x
    ensures 0.0 <= y ==> 0.0 <= p
    ensures y <= 0.0 ==> p <= 0.0
  {
  }

  /** The remainder bounds for a positive divisor. */
  lemma RemPositive(a: real, b: real, t: int)
    requires 0.0 < b && t == Trunc(a / b)
    ensures 0.0 <= a ==> 0.0 <= a - b * (t as real)
    ensures a <= 0.0 ==> a - b * (t as real) <= 0.0
    ensures -b < a - b * (t as real) < b
  {
    var q := a / b;
    var d := q - t as real;
    assert -1.0 < d < 1.0;
    assert (0.0 <= a ==> 0.0 <= d) && (a <= 0.0 ==> d <= 0.0) by {
      assert (0.0 <= a ==> 0.0 <= q) && (a <= 0.0 ==> q <= 0.0);
    }
    var r := a - b * (t as real);
    assert r == b * d by {
      assert a == b * q;
    }
    ScaleBelowOne(b, d, r);
  }

  /** Truncation toward zero commutes with negation. */
  lemma TruncNegate(x: real)
    ensures Trunc(-x) == -Trunc(x)
  {
  }

  /** Dividing by `-b` negates the quotient. */
  lemma NegateDivisor(a: real, b: real)
    requires b != 0.0
    ensures a / -b == -(a / b)
  {
  }

  /** Negating both factors leaves a product unchanged. */
  lemma NegateBoth(x: real, y: real)
    ensures (-x) * (-y) == x * y
  {
  }

  lemma RemBounds(a: real, b: real, t: int)
    requires b != 0.0 && t == Trunc(a / b)
    ensures var r := a - b * (t as real);
      (0.0 <= a ==> 0.0 <= r) && (a <= 0.0 ==> r <= 0.0) && Abs(r) < Abs(b)
  {
    if 0.0 < b {
      RemPositive(a, b, t);
    } else {
      NegateDivisor(a, b);
      TruncNegate(a / b);
      RemPositive(a, -b, -t);
      NegateBoth(b, t as real);
    }
  }

  /** A remainder already smaller than a positive divisor is left as it is. */
  lemma JsRemReduced(a: real, b: real)
    requires 0.0 <= a < b
    ensures JsRem(a, b) == a
  {
    assert 0.0 <= a / b < 1.0;
  }

  /** `Math.floor(sampleRate * duration)`: the length of every buffer. */
  function Total(req: Request): (n: int)
    ensures n as real <= req.sampleRate as real * req.duration < n as real + 1.0
  {
    (req.sampleRate as real * req.duration).Floor
  }

  /** Any sample at all means a non-zero rate and duration. */
  lemma TotalPositive(req: Request)
    ensures Total(req) > 0 ==> req.sampleRate != 0 && req.duration != 0.0
  {
  }

  /** `i / sampleRate`. */
  function TimeOf(req: Request, i: nat): (t: real)
    requires i < Total(req)
    ensures t * req.sampleRate as real == i as real
    ensures 0 < req.sampleRate ==> 0.0 <= t
  {
    TotalPositive(req);
    i as real / req.sampleRate as real
  }

  /** One tone at frequency `f`, as single and multiple mode compute it;
      noise has no branch here and leaves the value at 0. */
  function Tone(m: Maths, w: Waveform, f: real, time: real, amp: real): (r: real)
    ensures w == Square ==> r == amp || r == -amp
    ensures amp == 0.0 ==> r == 0.0
  {
    var p := Angle(f, time);
    match w
    case Sine => m.sin(p) * amp
    case Square => (if m.sin(p) >= 0.0 then 1.0 else -1.0) * amp
    case Triangle => (2.0 / PI) * m.asin(m.sin(p)) * amp
    case Sawtooth => (2.0 / PI) * (f * PI * Cycle(time, f) - PI / 2.0) * amp
    case Noise => 0.0
  }

  /** The angle `p = 2 * PI * frequency * time` of a tone at `time`. */
  function Angle(f: real, time: real): real
  {
    2.0 * PI * f * time
  }

  /** `time % (1 / f)`: the time since the last whole period, shorter than
      one period; at `f == 0` the divisor is Infinity and the remainder is
      `time` itself. */
  function Cycle(time: real, f: real): (c: real)
    ensures 0.0 <= time ==> 0.0 <= c
    ensures time <= 0.0 ==> c <= 0.0
    ensures f != 0.0 ==> Abs(c) < Abs(1.0 / f)
    ensures f != 0.0 ==> WholePeriods(time - c, f)
  {
    if f == 0.0 then time
    else
      var c := JsRem(time, 1.0 / f);
      RemainderPeriods(time, c, f);
      c
  }

  /** Single mode: uniform noise scaled to the amplitude, or the tone. */
  function SingleValue(req: Request, m: Maths, i: nat): (r: real)
    requires i < Total(req)
    ensures req.amplitude == 0.0 ==> r == 0.0
    ensures req.waveform == Square ==> r == req.amplitude || r == -req.amplitude
    ensures req.waveform == Noise && 0.0 <= m.random(i) < 1.0 && 0.0 < req.amplitude ==>
      -req.amplitude <= r < req.amplitude
  {
    if req.waveform == Noise then
      var x := m.random(i) * 2.0 - 1.0;
      assert -1.0 <= x < 1.0 && 0.0 < req.amplitude ==> -req.amplitude <= x * req.amplitude < req.amplitude by {
        if -1.0 <= x < 1.0 && 0.0 < req.amplitude {
          UnitScale(x, req.amplitude);
        }
      }
      x * req.amplitude
    else Tone(m, req.waveform, req.frequency, TimeOf(req, i), req.amplitude)
  }

  /** The multi-tone list after `filter(x => x > 0)`. */
  function Positives(xs: seq<real>): (r: seq<real>)
    ensures forall k :: 0 <= k < |r| ==> r[k] > 0.0
    ensures forall x :: x in xs && x > 0.0 <==> x in r
    ensures forall x :: multiset(r)[x] == if x > 0.0 then multiset(xs)[x] else 0
    ensures |r| <= |xs|
  {
    if xs == [] then []
    else
      assert xs == [xs[0]] + xs[1..];
      if xs[0] > 0.0 then [xs[0]] + Positives(xs[1..])
    else Positives(xs[1..])
  }

  function Frequencies(req: Request): seq<real>
  {
    Positives(req.multiFreqs)
  }

  /** `amplitude / Math.sqrt(freqs.length)`: `n` tones share the amplitude
      so that the sum of their powers is that of one full tone. */
  function ToneAmplitude(req: Request, m: Maths): (ia: real)
    requires ValidMaths(m) && Frequencies(req) != []
    ensures ia * m.sqrt(|Frequencies(req)| as real) == req.amplitude
  {
    var n := |Frequencies(req)| as real;
    req.amplitude / m.sqrt(n)
  }

  /** The `forEach` of multiple mode: the tones of `fs` added left to right
      to a value starting at 0. */
  function MultiSum(m: Maths, w: Waveform, fs: seq<real>, time: real, amp: real): (r: real)
    ensures w == Noise ==> r == 0.0
    ensures amp == 0.0 ==> r == 0.0
  {
    if fs == [] then 0.0
    else MultiSum(m, w, fs[..|fs| - 1], time, amp) + Tone(m, w, fs[|fs| - 1], time, amp)
  }

  /** The requests whose sweep is defined: a logarithmic sweep divides by
      its start frequency. */
  predicate SweepDefined(req: Request)
  {
    req.mode == Sweep && req.sweepType == Log ==> req.sweepStart != 0.0
  }

  /** The instantaneous sweep frequency at sample `i`, at progress
      `time / duration` between the two end points. */
  function SweepFrequency(req: Request, m: Maths, i: nat): (f: real)
    requires SweepDefined(req) && req.mode == Sweep && i < Total(req)
    ensures req.sweepType == Linear ==>
      (f - req.sweepStart) * (req.sampleRate as real * req.duration) == (req.sweepEnd - req.sweepStart) * i as real
    ensures req.sweepType == Linear && 0 < req.sampleRate && 0.0 < req.duration ==>
      Min(req.sweepStart, req.sweepEnd) <= f <= Max(req.sweepStart, req.sweepEnd)
    ensures i == 0 && ValidMaths(m) ==> f == req.sweepStart
  {
    TotalPositive(req);
    var progress := TimeOf(req, i) / req.duration;
    if req.sweepType == Log then
      req.sweepStart * m.pow(req.sweepEnd / req.sweepStart, progress)
    else
      var f := req.sweepStart + (req.sweepEnd - req.sweepStart) * progress;
      LinearLaw(req.sweepStart, req.sweepEnd, TimeOf(req, i), req.duration, req.sampleRate as real, i as real);
      assert 0 < req.sampleRate && 0.0 < req.duration ==>
        Min(req.sweepStart, req.sweepEnd) <= f <= Max(req.sweepStart, req.sweepEnd) by {
        if 0 < req.sampleRate && 0.0 < req.duration {
          ProgressBounds(req, i);
          Between(req.sweepStart, req.sweepEnd, progress);
        }
      }
      f
  }

  /** The linear sweep law solved for the elapsed samples: at time `t`,
      with `t * sr == k` samples passed, the frequency has moved from `lo`
      by `(hi - lo) * k / (sr * d)`. */
  lemma LinearLaw(lo: real, hi: real, t: real, d: real, sr: real, k: real)
    requires d != 0.0 && t * sr == k
    ensures (lo + (hi - lo) * (t / d) - lo) * (sr * d) == (hi - lo) * k
  {
    calc {
      (lo + (hi - lo) * (t / d) - lo) * (sr * d);
      (hi - lo) * ((t / d) * d) * sr;
      { assert (t / d) * d == t; }
      (hi - lo) * (t * sr);
    }
  }

  /** A point a fraction `p` of the way between `lo` and `hi` lies between
      them. */
  lemma Between(lo: real, hi: real, p: real)
    requires 0.0 <= p <= 1.0
    ensures Min(lo, hi) <= lo + (hi - lo) * p <= Max(lo, hi)
  {
    if lo <= hi {
      MulNonNegative(hi - lo, p);
      MulNonNegative(hi - lo, 1.0 - p);
    } else {
      MulNonNegative(lo - hi, p);
      MulNonNegative(lo - hi, 1.0 - p);
    }
  }

  /** The accumulated phase after `n` samples: each sample adds
      `2 * PI * freq / sampleRate` and takes the remainder modulo `2 * PI`. */
  function PhaseAfter(req: Request, m: Maths, n: nat): (phase: real)
    requires SweepDefined(req) && req.mode == Sweep && n <= Total(req)
    ensures -2.0 * PI < phase < 2.0 * PI
  {
    if n == 0 then 0.0
    else
      TotalPositive(req);
      var phase := PhaseAfter(req, m, n - 1) + 2.0 * PI * SweepFrequency(req, m, n - 1) / req.sampleRate as real;
      JsRem(phase, 2.0 * PI)
  }

  /** A sweep sample from the phase; the sawtooth is computed from the
      phase itself, and noise again has no branch. */
  function SweepValue(m: Maths, w: Waveform, phase: real, amp: real): (r: real)
    ensures w == Square ==> r == amp || r == -amp
    ensures amp == 0.0 ==> r == 0.0
  {
    match w
    case Sine => m.sin(phase) * amp
    case Square => (if m.sin(phase) >= 0.0 then 1.0 else -1.0) * amp
    case Triangle => (2.0 / PI) * m.asin(m.sin(phase)) * amp
    case Sawtooth => (2.0 / PI) * (phase - PI) * amp
    case Noise => 0.0
  }

  /** The requests for which a signal is generated at all. */
  ghost predicate Ready(req: Request, m: Maths)
  {
    ValidMaths(m) && SweepDefined(req) && (req.mode == Multiple ==> Frequencies(req) != [])
  }

  /** Sample `i` of the signal, the value every channel receives. */
  function SampleValue(req: Request, m: Maths, i: nat): (r: real)
    requires Ready(req, m) && i < Total(req)
    ensures Silent(req) ==> r == 0.0
  {
    match req.mode
    case Single => SingleValue(req, m, i)
    case Multiple => MultiSum(m, req.waveform, Frequencies(req), TimeOf(req, i), ToneAmplitude(req, m))
    case Sweep => SweepValue(m, req.waveform, PhaseAfter(req, m, i + 1), req.amplitude)
  }

  /** The whole signal, `Math.floor(sampleRate * duration)` samples long. */
  function Signal(req: Request, m: Maths): (s: seq<real>)
    requires Ready(req, m) && Total(req) >= 0
    ensures |s| == Total(req)
    ensures forall i :: 0 <= i < |s| ==> s[i] == SampleValue(req, m, i)
  {
    seq(Total(req), i requires 0 <= i < Total(req) => SampleValue(req, m, i))
  }

  /** The channel buffers: the same signal in each of `channels`. */
  function Replicate(s: seq<real>, channels: nat): (buffers: seq<seq<real>>)
    requires 0 < channels
    ensures Rectangular(buffers, channels)
  {
    seq(channels, _ => s)
  }

  /** The requests this model covers: byte-aligned bit depths and a
      defined sweep. */
  ghost predicate Modelled(req: Request, m: Maths)
  {
    ValidMaths(m) && SweepDefined(req) && 0 <= req.bitDepth && req.bitDepth % 8 == 0
  }

  /** What `downloadAudio` hands to `downloadFile`, or why it stops first. */
  function Download(req: Request, m: Maths): (r: Result<seq<Byte>>)
    requires Modelled(req, m)
    ensures r.Ok? <==> 1 <= req.channels && 0 <= Total(req) && (req.mode == Multiple ==> Frequencies(req) != [])
    ensures r.Ok? ==> |r.value| == 44 + Total(req) * req.channels * (req.bitDepth / 8)
    ensures r == Err(RangeError) <==> 1 <= req.channels && Total(req) < 0
    ensures r == Err(NoFrequencies) <==>
      !(1 <= req.channels && Total(req) < 0) && req.mode == Multiple && Frequencies(req) == []
    ensures r == Err(TypeError) <==> req.channels <= 0 && !(req.mode == Multiple && Frequencies(req) == [])
  {
    var total := Total(req);
    if req.channels >= 1 && total < 0 then Err(RangeError)
    else if req.mode == Multiple && Frequencies(req) == [] then Err(NoFrequencies)
    else if req.channels <= 0 then Err(TypeError)
    else
      var buffers := Replicate(Signal(req, m), req.channels);
      Ok(WavFile(buffers, req.sampleRate, req.channels, req.bitDepth, req.normalize))
  }
  /** A result that agrees with `downloadAudio` on each of its four
      outcomes is its result. */
  lemma DownloadCases(req: Request, m: Maths, r: Result<seq<Byte>>)
    requires Modelled(req, m)
    requires req.channels >= 1 && Total(req) < 0 ==> r == Err(RangeError)
    requires !(req.channels >= 1 && Total(req) < 0) && req.mode == Multiple && Frequencies(req) == [] ==>
      r == Err(NoFrequencies)
    requires req.channels <= 0 && !(req.mode == Multiple && Frequencies(req) == []) ==> r == Err(TypeError)
    requires Ready(req, m) && req.channels >= 1 && Total(req) >= 0 ==>
      r == Ok(WavFile(Replicate(Signal(req, m), req.channels), req.sampleRate, req.channels, req.bitDepth, req.normalize))
    ensures r == Download(req, m)
  {
  }

  // ---------------------------------------------------------------------
  // Properties of the signal

  /** The requests whose signal is silence: amplitude 0, or noise outside
      single mode. */
  predicate Silent(req: Request)
  {
    req.amplitude == 0.0 || (req.mode != Single && req.waveform == Noise)
  }

  /** A square wave outside multiple mode is the amplitude where the sine
      of its angle (single mode) or of its accumulated phase (sweep mode) is
      non-negative, and minus the amplitude elsewhere. */
  lemma SquareLevels(req: Request, m: Maths, i: nat)
    requires Ready(req, m) && i < Total(req)
    requires req.waveform == Square && req.mode != Multiple
    ensures req.mode == Single ==>
      SampleValue(req, m, i) == (if m.sin(Angle(req.frequency, TimeOf(req, i))) >= 0.0 then req.amplitude else -req.amplitude)
    ensures req.mode == Sweep ==>
      SampleValue(req, m, i) == (if m.sin(PhaseAfter(req, m, i + 1)) >= 0.0 then req.amplitude else -req.amplitude)
  {
    if req.mode == Single {
      SquareTone(m, req.frequency, TimeOf(req, i), req.amplitude);
    } else {
      var phase := PhaseAfter(req, m, i + 1);
      assert SampleValue(req, m, i) == SweepValue(m, Square, phase, req.amplitude);
    }
  }

  /** The single-mode square tone: the amplitude where the sine of the
      angle is non-negative, its negation elsewhere. */
  lemma SquareTone(m: Maths, f: real, time: real, amp: real)
    ensures Tone(m, Square, f, time, amp) == if m.sin(Angle(f, time)) >= 0.0 then amp else -amp
  {
  }

  /** A sum of `n` square tones of a non-negative amplitude stays within
      `n` times that amplitude. */
  lemma {:induction false} MultiSquareBound(m: Maths, fs: seq<real>, time: real, amp: real)
    requires 0.0 <= amp
    ensures -(|fs| as real) * amp <= MultiSum(m, Square, fs, time, amp) <= (|fs| as real) * amp
  {
    if fs != [] {
      var n := |fs| as real;
      MultiSquareBound(m, fs[..|fs| - 1], time, amp);
      assert (n - 1.0) * amp + amp == n * amp;
    }
  }

  /** `time / duration` of a sample lies in [0, 1) when rate and duration
      are positive. */
  lemma ProgressBounds(req: Request, i: nat)
    requires 0 < req.sampleRate && 0.0 < req.duration && i < Total(req)
    ensures 0.0 <= TimeOf(req, i) / req.duration < 1.0
  {
    BelowDuration(TimeOf(req, i), i as real, req.sampleRate as real, req.duration);
    FractionBelowOne(TimeOf(req, i), req.duration);
  }

  /** A time `t` at which `t * sr` samples lie before `sr * d` samples is
      before `d`. */
  lemma BelowDuration(t: real, k: real, sr: real, d: real)
    requires 0.0 < sr && t * sr == k && k < sr * d
    ensures t < d
  {
    if t >= d {
      MulMonotone(d, t, sr);
    }
  }

  /** `x / d` lies in [0, 1) for `0 <= x < d`. */
  lemma FractionBelowOne(x: real, d: real)
    requires 0.0 <= x < d
    ensures 0.0 <= x / d < 1.0
  {
    var q := x / d;
    assert q * d == x;
    if q >= 1.0 {
      MulMonotone(1.0, q, d);
    }
  }

  /** Multiplying `a <= b` by a positive real. */
  lemma MulMonotone(a: real, b: real, c: real)
    requires a <= b && 0.0 < c
    ensures a * c <= b * c
  {
  }

  lemma MulStrict(a: real, b: real, c: real)
    requires a < b && 0.0 < c
    ensures a * c < b * c
  {
  }

  lemma MulNonNegative(a: real, b: real)
    requires 0.0 <= a && 0.0 <= b
    ensures 0.0 <= a * b
  {
  }

  /** The phase a sample adds at a non-negative frequency is non-negative. */
  lemma PhaseStep(f: real, sr: real)
    requires 0.0 <= f && 0.0 < sr
    ensures 0.0 <= 2.0 * PI * f / sr
  {
    MulNonNegative(2.0 * PI, f);
  }

  /** Under the conditions above the phase stays in [0, 2 * PI). */
  lemma {:induction false} LinearSweepPhase(req: Request, m: Maths, n: nat)
    requires req.mode == Sweep && req.sweepType == Linear
    requires 0 < req.sampleRate && 0.0 < req.duration && n <= Total(req)
    requires 0.0 <= req.sweepStart && 0.0 <= req.sweepEnd
    ensures 0.0 <= PhaseAfter(req, m, n) < 2.0 * PI
  {
    if n > 0 {
      LinearSweepPhase(req, m, n - 1);
      PhaseStep(SweepFrequency(req, m, n - 1), req.sampleRate as real);
    }
  }

  /** The single-mode sawtooth of a positive frequency at a non-negative
      time spans [-amp, amp). */
  lemma ToneSawtoothRange(m: Maths, f: real, time: real, amp: real)
    requires 0.0 < f && 0.0 <= time && 0.0 < amp
    ensures -amp <= Tone(m, Sawtooth, f, time, amp) < amp
  {
    var c := Cycle(time, f);
    assert 0.0 <= c < 1.0 / f;
    MulNonNegative(c, f);
    MulStrict(c, 1.0 / f, f);
    var p := c * f;
    assert 0.0 <= p < 1.0;
    assert f * PI * c == PI * p;
    var x := 2.0 * p - 1.0;
    assert (2.0 / PI) * (PI * p - PI / 2.0) == x;
    assert Tone(m, Sawtooth, f, time, amp) == x * amp;
    UnitScale(x, amp);
  }

  /** Scaling a value of [-1, 1) by a positive amplitude. */
  lemma UnitScale(x: real, amp: real)
    requires -1.0 <= x < 1.0 && 0.0 < amp
    ensures -amp <= x * amp < amp
  {
    MulMonotone(-1.0, x, amp);
  }

  /** The sweep-mode sawtooth of a phase in [0, 2 * PI) spans [-2 * amp,
      2 * amp): twice the range of the single-mode sawtooth, and it reaches
      the lower end at phase 0. */
  lemma SweepSawtoothRange(m: Maths, phase: real, amp: real)
    requires 0.0 <= phase < 2.0 * PI && 0.0 < amp
    ensures -2.0 * amp <= SweepValue(m, Sawtooth, phase, amp) < 2.0 * amp
    ensures SweepValue(m, Sawtooth, 0.0, amp) == -2.0 * amp
  {
    var x := (2.0 / PI) * (phase - PI) / 2.0;
    assert -1.0 <= x < 1.0;
    UnitScale(x, amp);
    assert SweepValue(m, Sawtooth, phase, amp) == 2.0 * (x * amp);
  }
  // ---------------------------------------------------------------------
  // Properties of the downloaded file

  /** The file has a 44-byte header and `bitDepth / 8` bytes per sample
      per channel, `Math.floor(sampleRate * duration)` samples long. */
  lemma DownloadLayout(req: Request, m: Maths)
    requires Modelled(req, m) && Download(req, m).Ok?
    ensures var f := Download(req, m).value;
      var ds := Total(req) * req.channels * (req.bitDepth / 8);
      |f| == 44 + ds && f[..44] == Header(req.sampleRate, req.channels, req.bitDepth, ds)
  {
    var buffers := Replicate(Signal(req, m), req.channels);
    var x := Normalized(Interleaved(buffers, req.channels), req.normalize);
    WavLayout(x, req.sampleRate, req.channels, req.bitDepth);
  }

  /** Reading the header of the file back gives the rate, channel count,
      bit depth and data size of the request, each modulo the width of its
      field. */
  lemma DownloadHeader(req: Request, m: Maths)
    requires Modelled(req, m) && Download(req, m).Ok?
    ensures var f := Download(req, m).value;
      var ds := Total(req) * req.channels * (req.bitDepth / 8);
      |f| == 44 + ds &&
      DecodeUint16(f[22..24]) == req.channels % TWO16 &&
      DecodeUint32(f[24..28]) == req.sampleRate % TWO32 &&
      DecodeUint16(f[34..36]) == req.bitDepth % TWO16 &&
      DecodeUint32(f[40..44]) == ds % TWO32
  {
    var ds := Total(req) * req.channels * (req.bitDepth / 8);
    DownloadLayout(req, m);
    FileHeader(Download(req, m).value, req.sampleRate, req.channels, req.bitDepth, ds);
  }

  /** The header fields read from any file that starts with the header. */
  lemma FileHeader(f: seq<Byte>, sampleRate: int, channels: nat, bitDepth: nat, ds: nat)
    requires 44 <= |f| && f[..44] == Header(sampleRate, channels, bitDepth, ds)
    ensures DecodeUint16(f[22..24]) == channels % TWO16
    ensures DecodeUint32(f[24..28]) == sampleRate % TWO32
    ensures DecodeUint16(f[34..36]) == bitDepth % TWO16
    ensures DecodeUint32(f[40..44]) == ds % TWO32
  {
    var h := f[..44];
    FmtFields(sampleRate, channels, bitDepth, ds);
    DataFields(sampleRate, channels, bitDepth, ds);
    assert f[22..24] == h[22..24] && f[24..28] == h[24..28];
    assert f[34..36] == h[34..36] && f[40..44] == h[40..44];
  }

  /** Every channel of a frame carries the same sample, before and after
      normalisation: the signal is one stream copied into each channel
      buffer. */
  lemma ChannelsIdentical(s: seq<real>, channels: nat, normalize: bool, i: nat, c: nat)
    requires 0 < channels && i < |s| && c < channels
    ensures var y := Interleaved(Replicate(s, channels), channels);
      var x := Normalized(y, normalize);
      i * channels + c < |x| && y[i * channels + c] == s[i] && x[i * channels + c] == x[i * channels]
  {
    var buffers := Replicate(s, channels);
    var y := Interleaved(buffers, channels);
    InterleavedAt(buffers, channels, c, i);
    InterleavedAt(buffers, channels, 0, i);
    var p := Peak(y);
    if normalize && p > 0.0 {
      NormalizedIsScale(y, p);
    }
  }

  /** A silent request downloads a file whose data chunk is all zero bytes,
      with or without normalisation. */
  lemma DownloadSilent(req: Request, m: Maths)
    requires Modelled(req, m) && Download(req, m).Ok? && Silent(req)
    ensures var f := Download(req, m).value;
      |f| == 44 + Total(req) * req.channels * (req.bitDepth / 8) &&
      forall j :: 44 <= j < |f| ==> f[j] == 0
  {
    var sig := Signal(req, m);
    var buffers := Replicate(sig, req.channels);
    SilentWav(buffers, req.sampleRate, req.channels, req.bitDepth, req.normalize);
  }

  /** One second of a 440 Hz sine at 8000 Hz, mono, 16-bit: 8000 samples
      of two bytes after the 44-byte header, 16044 bytes in all; bytes
      24-27 read 8000 and bytes 40-43 read 16000. */
  lemma MonoSineExample(req: Request, m: Maths)
    requires req == Request(Single, Sine, 0.5, 1.0, 8000, 1, 16, false, 440.0, [], 0.0, 0.0, Linear)
    requires ValidMaths(m)
    ensures Download(req, m).Ok?
    ensures |Download(req, m).value| == 16044
    ensures DecodeUint32(Download(req, m).value[24..28]) == 8000
    ensures DecodeUint32(Download(req, m).value[40..44]) == 16000
  {
    assert Total(req) == 8000;
    var file := WavFile(Replicate(Signal(req, m), 1), 8000, 1, 16, false);
    DownloadCases(req, m, Ok(file));
    assert Total(req) * req.channels * (req.bitDepth / 8) == 16000;
    DownloadHeader(req, m);
    assert 16000 % TWO32 == 16000 && 8000 % TWO32 == 8000;
  }
  // ---------------------------------------------------------------------
  // downloadAudio

  /** No two channels share a buffer. */
  predicate Distinct(buffers: seq<array<real>>)
  {
    forall c, d :: 0 <= c < d < |buffers| ==> buffers[c] != buffers[d]
  }

  /** The channel buffers: one zero-filled `Float32Array(totalSamples)` per
      channel; none when `channels` is not positive. */
  method AllocateBuffers(channels: int, total: int) returns (buffers: seq<array<real>>)
    requires channels <= 0 || 0 <= total
    ensures |buffers| == if channels > 0 then channels else 0
    ensures Distinct(buffers)
    ensures forall c :: 0 <= c < |buffers| ==>
      fresh(buffers[c]) && buffers[c].Length == total && buffers[c][..] == seq(total, _ => 0.0)
  {
    buffers := [];
    var c := 0;
    while c < channels
      invariant 0 <= c && (c <= channels || c == 0)
      invariant |buffers| == c
      invariant Distinct(buffers)
      invariant forall d :: 0 <= d < c ==>
        fresh(buffers[d]) && buffers[d].Length == total && buffers[d][..] == seq(total, _ => 0.0)
    {
      var b := new real[total](_ => 0.0);
      buffers := buffers + [b];
      c := c + 1;
    }
  }

  /** `for (c = 0; c < channels; c++) buffers[c][i] = value`. */
  method WriteFrame(buffers: seq<array<real>>, i: nat, value: real)
    requires Distinct(buffers)
    requires forall c :: 0 <= c < |buffers| ==> i < buffers[c].Length
    modifies set c | 0 <= c < |buffers| :: buffers[c]
    ensures forall c :: 0 <= c < |buffers| ==> buffers[c][..] == old(buffers[c][..])[i := value]
  {
    var c := 0;
    while c < |buffers|
      invariant 0 <= c <= |buffers|
      invariant forall d :: 0 <= d < c ==> buffers[d][..] == old(buffers[d][..])[i := value]
      invariant forall d :: c <= d < |buffers| ==> buffers[d][..] == old(buffers[d][..])
    {
      buffers[c][i] := value;
      c := c + 1;
    }
  }

  /** The channel buffers of a request, ready for a frame loop. */
  predicate Sized(buffers: seq<array<real>>, total: int)
    reads set c | 0 <= c < |buffers| :: buffers[c]
  {
    Distinct(buffers) && forall c :: 0 <= c < |buffers| ==> buffers[c].Length == total
  }

  /** The single-mode loop. */
  method FillSingle(req: Request, m: Maths, buffers: seq<array<real>>, total: int)
    requires req.mode == Single && Ready(req, m) && total == Total(req)
    requires Sized(buffers, total)
    modifies set c | 0 <= c < |buffers| :: buffers[c]
    ensures forall c, j :: 0 <= c < |buffers| && 0 <= j < total ==> buffers[c][j] == SampleValue(req, m, j)
  {
    var i := 0;
    while i < total
      invariant 0 <= i && (i <= total || i == 0)
      invariant forall c, j :: 0 <= c < |buffers| && 0 <= j < i ==> buffers[c][j] == SampleValue(req, m, j)
    {
      TotalPositive(req);
      var time := i as real / req.sampleRate as real;
      var value := 0.0;
      if req.waveform == Noise {
        value := (m.random(i) * 2.0 - 1.0) * req.amplitude;
      } else {
        value := Tone(m, req.waveform, req.frequency, time, req.amplitude);
      }
      WriteFrame(buffers, i, value);
      i := i + 1;
    }
  }

  /** The multiple-mode loop: each sample is the `forEach` sum over the
      positive frequencies at the shared amplitude. */
  method FillMultiple(req: Request, m: Maths, freqs: seq<real>, buffers: seq<array<real>>, total: int)
    requires req.mode == Multiple && Ready(req, m) && total == Total(req)
    requires freqs == Frequencies(req)
    requires Sized(buffers, total)
    modifies set c | 0 <= c < |buffers| :: buffers[c]
    ensures forall c, j :: 0 <= c < |buffers| && 0 <= j < total ==> buffers[c][j] == SampleValue(req, m, j)
  {
    var individualAmplitude := req.amplitude / m.sqrt(|freqs| as real);
    var i := 0;
    while i < total
      invariant 0 <= i && (i <= total || i == 0)
      invariant forall c, j :: 0 <= c < |buffers| && 0 <= j < i ==> buffers[c][j] == SampleValue(req, m, j)
    {
      TotalPositive(req);
      var time := i as real / req.sampleRate as real;
      var value := 0.0;
      var k := 0;
      while k < |freqs|
        invariant 0 <= k <= |freqs|
        invariant value == MultiSum(m, req.waveform, freqs[..k], time, individualAmplitude)
      {
        assert freqs[..k + 1][..k] == freqs[..k];
        value := value + Tone(m, req.waveform, freqs[k], time, individualAmplitude);
        k := k + 1;
      }
      assert freqs[..k] == freqs;
      WriteFrame(buffers, i, value);
      i := i + 1;
    }
  }

  /** The sweep loop: the phase advances by `2 * PI * freq / sampleRate`
      and is reduced modulo `2 * PI` before each sample is taken from it. */
  method FillSweep(req: Request, m: Maths, buffers: seq<array<real>>, total: int)
    requires req.mode == Sweep && Ready(req, m) && total == Total(req)
    requires Sized(buffers, total)
    modifies set c | 0 <= c < |buffers| :: buffers[c]
    ensures forall c, j :: 0 <= c < |buffers| && 0 <= j < total ==> buffers[c][j] == SampleValue(req, m, j)
  {
    var phase := 0.0;
    var i := 0;
    while i < total
      invariant 0 <= i && (i <= total || i == 0)
      invariant i <= total ==> phase == PhaseAfter(req, m, i)
      invariant forall c, j :: 0 <= c < |buffers| && 0 <= j < i ==> buffers[c][j] == SampleValue(req, m, j)
    {
      TotalPositive(req);
      var freq := SweepFrequency(req, m, i);
      phase := phase + 2.0 * PI * freq / req.sampleRate as real;
      phase := JsRem(phase, 2.0 * PI);
      assert phase == PhaseAfter(req, m, i + 1);
      var value := SweepValue(m, req.waveform, phase, req.amplitude);
      assert value == SampleValue(req, m, i);
      WriteFrame(buffers, i, value);
      i := i + 1;
    }
  }

  /** The contents of the channel buffers as `toWav` reads them. */
  method Contents(buffers: seq<array<real>>) returns (data: seq<seq<real>>)
    ensures |data| == |buffers|
    ensures forall c :: 0 <= c < |buffers| ==> data[c] == buffers[c][..]
  {
    data := [];
    var c := 0;
    while c < |buffers|
      invariant 0 <= c <= |buffers| && |data| == c
      invariant forall d :: 0 <= d < c ==> data[d] == buffers[d][..]
    {
      data := data + [buffers[c][..]];
      c := c + 1;
    }
  }

  /** The `switch (mode)` of `downloadAudio`: every channel buffer receives
      the signal of the selected mode. */
  method FillBuffers(req: Request, m: Maths, buffers: seq<array<real>>, total: int)
    requires Ready(req, m) && total == Total(req)
    requires Sized(buffers, total)
    modifies set c | 0 <= c < |buffers| :: buffers[c]
    ensures forall c, j :: 0 <= c < |buffers| && 0 <= j < total ==> buffers[c][j] == SampleValue(req, m, j)
  {
    match req.mode {
      case Single =>
        FillSingle(req, m, buffers, total);
      case Multiple =>
        var freqs := Positives(req.multiFreqs);
        FillMultiple(req, m, freqs, buffers, total);
      case Sweep =>
        FillSweep(req, m, buffers, total);
    }
  }

  /** `downloadAudio` from the parsed form values to the bytes of the file
      it downloads. */
  method DownloadAudio(req: Request, m: Maths) returns (r: Result<seq<Byte>>)
    requires Modelled(req, m)
    ensures r == Download(req, m)
  {
    var total := (req.sampleRate as real * req.duration).Floor;
    if req.channels >= 1 && total < 0 {
      r := Err(RangeError);
    } else {
      var buffers := AllocateBuffers(req.channels, total);
      // The multi-tone branch stops before filling anything when no
      // frequency is positive.
      if req.mode == Multiple && Positives(req.multiFreqs) == [] {
        r := Err(NoFrequencies);
      } else {
        r := RenderBuffers(req, m, buffers, total);
      }
    }
    DownloadCases(req, m, r);
  }

  /** The rest of `downloadAudio` once the buffers exist: fill them, stop
      in `toWav` when there is no channel, otherwise encode. */
  method RenderBuffers(req: Request, m: Maths, buffers: seq<array<real>>, total: int)
    returns (r: Result<seq<Byte>>)
    requires Modelled(req, m) && Ready(req, m) && total == Total(req)
    requires req.channels >= 1 ==> total >= 0
    requires |buffers| == if req.channels > 0 then req.channels else 0
    requires Sized(buffers, total)
    modifies set c | 0 <= c < |buffers| :: buffers[c]
    ensures req.channels <= 0 ==> r == Err(TypeError)
    ensures req.channels >= 1 ==>
      r == Ok(WavFile(Replicate(Signal(req, m), req.channels), req.sampleRate, req.channels, req.bitDepth, req.normalize))
  {
    FillBuffers(req, m, buffers, total);
    if req.channels <= 0 {
      return Err(TypeError);
    }
    var bytes := EncodeBuffers(req, m, buffers, total);
    return Ok(bytes);
  }

  /** The tail of `downloadAudio`: the filled channel buffers, each holding
      the signal, go through `toWav`. */
  method EncodeBuffers(req: Request, m: Maths, buffers: seq<array<real>>, total: int)
    returns (bytes: seq<Byte>)
    requires Modelled(req, m) && Ready(req, m) && req.channels >= 1 && total == Total(req) >= 0
    requires |buffers| == req.channels
    requires forall c :: 0 <= c < |buffers| ==> buffers[c].Length == total
    requires forall c, j :: 0 <= c < |buffers| && 0 <= j < total ==> buffers[c][j] == SampleValue(req, m, j)
    ensures bytes == WavFile(Replicate(Signal(req, m), req.channels), req.sampleRate, req.channels, req.bitDepth, req.normalize)
  {
    var data := Contents(buffers);
    var signal := Signal(req, m);
    assert data == Replicate(signal, req.channels) by {
      forall c | 0 <= c < req.channels
        ensures data[c] == signal
      {
        assert forall j :: 0 <= j < total ==> data[c][j] == signal[j];
      }
    }
    var wav := ToWav(data, req.sampleRate, req.channels, req.bitDepth, req.normalize);
    bytes := wav[..];
  }
}
