/** The broadcast FM receiver (tools/fm_rx.py: main). */
module FmReceiver {
  import opened Division
  import opened ChunkedFilter

  // Bytes come in chunks of a tenth of a second. Each is mixed, filtered, thinned out, turned into
  // audio by the phase step from sample to sample, filtered again, thinned out again and
  // de-emphasised. Four things are carried from chunk to chunk: the three filter states and the last
  // channel sample. The mixer starts afresh with every chunk.

  const FS: nat := 2_400_000
  const OFFSET: nat := 250_000
  const CHUNK: nat := 240_000
  const MIXER_PERIOD: nat := 48
  const CHANNEL_DEC: nat := 10
  const AUDIO_DEC: nat := 5

  // The arithmetic, what the mixer does to the n-th sample of a chunk, the taps of the two filters, the
  // de-emphasis factor and the phase step from one sample to the next.
  datatype Receiver = Receiver(cx: Space<Complex>, re: Space<real>, mix: (int, Complex) -> Complex,
                               b1: seq<real>, b2: seq<real>, a: real, turn: (Complex, Complex) -> real)

  // The mixer's n-th sample, exp(-2 pi i OFFSET n / FS): e(k) is exp(-2 pi i k / FS), for which only the
  // part of a turn that k is matters.
  function Mixer(e: int -> Complex): int -> Complex {
    (n: int) => e((OFFSET * n) % FS)
  }

  // The receiver over exact numbers; angle is np.angle.
  function FmRx(e: int -> Complex, b1: seq<real>, b2: seq<real>, a: real, angle: Complex -> real): Receiver {
    Receiver(Complexes(), Reals(), MixWith(Mixer(e)), b1, b2, a,
             (now: Complex, before: Complex) => angle(Multiply(now, Conjugate(before))))
  }

  predicate Valid(r: Receiver) { r.b1 != [] && r.b2 != [] }

  ghost predicate Periodic(mix: (int, Complex) -> Complex) {
    forall n: nat, v: Complex :: mix(n + MIXER_PERIOD, v) == mix(n, v)
  }

  // 48 samples are five whole turns of the mixer.
  lemma WholeTurns(n: nat)
    ensures (OFFSET * (n + MIXER_PERIOD)) % FS == (OFFSET * n) % FS
  {
    var a := OFFSET * n;
    assert OFFSET * (n + MIXER_PERIOD) == a + 5 * FS;
    var q, r := a / FS, a % FS;
    ModuloIs(a + 5 * FS, q + 5, r, FS);
  }

  lemma PeriodicMixer(e: int -> Complex)
    ensures Periodic(MixWith(Mixer(e)))
  {
    var mix := MixWith(Mixer(e));
    forall n: nat, v: Complex ensures mix(n + MIXER_PERIOD, v) == mix(n, v) {
      WholeTurns(n);
    }
  }

  // ------------------------------------------------------------------ the stages

  // The phase step to each sample from the one before it.
  function Steps(turn: (Complex, Complex) -> real, prev: Complex, y: seq<Complex>): (d: seq<real>)
    ensures |d| == |y|
  {
    seq(|y|, j requires 0 <= j < |y| => turn(y[j], if j == 0 then prev else y[j - 1]))
  }

  function LastOf(prev: Complex, y: seq<Complex>): Complex {
    if y == [] then prev else y[|y| - 1]
  }

  // lfilter([1 - a], [1, -a], x, zi=[z]): the samples, and the state.
  function OnePole(s: Space<real>, a: real, z: real, x: seq<real>): (y: seq<real>)
    ensures |y| == |x|
  {
    if x == [] then [] else
      var before := x[..|x| - 1];
      OnePole(s, a, z, before) + [s.plus(OnePoleState(s, a, z, before), s.times(1.0 - a, x[|x| - 1]))]
  }

  function OnePoleState(s: Space<real>, a: real, z: real, x: seq<real>): real {
    if x == [] then z else
      s.times(a, s.plus(OnePoleState(s, a, z, x[..|x| - 1]), s.times(1.0 - a, x[|x| - 1])))
  }

  // np.clip(au * 16000, -32768, 32767).astype("<i2"), which drops the fraction.
  function Pcm(v: real): (p: int)
    ensures -32768 <= p <= 32767
  {
    var w := v * 16000.0;
    if w <= -32768.0 then -32768 else if w >= 32767.0 then 32767 else if w >= 0.0 then w.Floor else -((-w).Floor)
  }

  function Pcms(e: seq<real>): (p: seq<int>)
    ensures |p| == |e|
  {
    seq(|e|, i requires 0 <= i < |e| => Pcm(e[i]))
  }

  lemma {:induction false} OnePoleAt(s: Space<real>, a: real, x: seq<real>, k: nat)
    requires k < |x|
    ensures OnePole(s, a, s.zero, x)[k] == s.plus(OnePoleState(s, a, s.zero, x[..k]), s.times(1.0 - a, x[k]))
    decreases |x|
  {
    var less := x[..|x| - 1];
    if k < |less| {
      OnePoleAt(s, a, less, k);
      assert less[..k] == x[..k];
    }
  }

  // The state after k inputs is the factor times the last output.
  lemma StateIsLast(s: Space<real>, a: real, x: seq<real>, k: nat)
    requires 0 < k <= |x|
    ensures OnePoleState(s, a, s.zero, x[..k]) == s.times(a, OnePole(s, a, s.zero, x)[k - 1])
  {
    OnePoleAt(s, a, x, k - 1);
    assert x[..k][..k - 1] == x[..k - 1] && x[..k][k - 1] == x[k - 1];
  }

  // Each output is the same mix of the input and the output before it.
  lemma OnePoleIsAverage(s: Space<real>, a: real, x: seq<real>, k: nat)
    requires k < |x|
    ensures var y := OnePole(s, a, s.zero, x);
            y[k] == s.plus(if k == 0 then s.zero else s.times(a, y[k - 1]), s.times(1.0 - a, x[k]))
  {
    OnePoleAt(s, a, x, k);
    if k > 0 {
      StateIsLast(s, a, x, k);
    }
  }

  // ------------------------------------------------------------------ the batch chain

  // All of a recording at once.
  function Channel(r: Receiver, x: seq<Complex>): seq<Complex>
    requires Valid(r)
  {
    Thinned(r.cx, r.b1, x, CHANNEL_DEC)
  }

  function Discriminated(r: Receiver, x: seq<Complex>): seq<real>
    requires Valid(r)
  {
    Steps(r.turn, ZERO, Channel(r, x))
  }

  function Audio(r: Receiver, x: seq<Complex>): seq<real>
    requires Valid(r)
  {
    Thinned(r.re, r.b2, Discriminated(r, x), AUDIO_DEC)
  }

  function Batch(r: Receiver, x: seq<Complex>): seq<int>
    requires Valid(r)
  {
    Pcms(OnePole(r.re, r.a, r.re.zero, Audio(r, x)))
  }

  // What the channel stages compute: every tenth sample of the channel filter's convolution, and the
  // phase step between neighbours of those.
  lemma ChannelMeans(r: Receiver, x: seq<Complex>, j: nat)
    requires Valid(r) && Lawful(r.cx) && j < |Channel(r, x)|
    ensures var y := Channel(r, x);
            && j * CHANNEL_DEC < |x| && y[j] == Sum(r.cx, r.b1, x, j * CHANNEL_DEC, 0)
            && Discriminated(r, x)[j] == r.turn(y[j], if j == 0 then ZERO else y[j - 1])
  {
    ThinnedIsConvolution(r.cx, r.b1, x, CHANNEL_DEC, j);
  }

  // And the audio stage: every fifth sample of the audio filter's convolution of those steps.
  lemma AudioMeans(r: Receiver, x: seq<Complex>, k: nat)
    requires Valid(r) && Lawful(r.re) && k < |Audio(r, x)|
    ensures var d := Discriminated(r, x);
            k * AUDIO_DEC < |d| && Audio(r, x)[k] == Sum(r.re, r.b2, d, k * AUDIO_DEC, 0)
  {
    ThinnedIsConvolution(r.re, r.b2, Discriminated(r, x), AUDIO_DEC, k);
  }

  // ------------------------------------------------------------------ what the discriminator hears

  function Scaled(k: real, z: Complex): Complex { Complex(k * z.re, k * z.im) }

  // An angle is that of a direction: lengthening a sample does not change it.
  ghost predicate DirectionOnly(angle: Complex -> real) {
    forall k: real, z: Complex :: k > 0.0 ==> angle(Scaled(k, z)) == angle(z)
  }

  function Product(a: real, b: real): real { a * b }

  // |z|^2
  function Power(z: Complex): real { Product(z.re, z.re) + Product(z.im, z.im) }

  lemma Positive(a: real, b: real)
    requires (a > 0.0 && b > 0.0) || (a < 0.0 && b < 0.0)
    ensures Product(a, b) > 0.0
    decreases a < 0.0
  {
    if a < 0.0 {
      Negated(a, b);
      Positive(-a, -b);
    }
  }

  lemma PowerPositive(z: Complex)
    requires z != ZERO
    ensures Power(z) > 0.0
  {
    assert z == Complex(z.re, z.im);
    if z.re != 0.0 {
      Positive(z.re, z.re);
    }
    if z.im != 0.0 {
      Positive(z.im, z.im);
    }
  }

  // a (p - q) and the like, multiplied out.
  lemma Out(a: real, p: real, q: real)
    ensures a * (p + q) == a * p + a * q && a * (p - q) == a * p - a * q && (p + q) * a == a * p + a * q
    ensures (p - q) * a == a * p - a * q && a * -p == -(a * p)
  {
  }

  lemma Order(a: real, b: real, c: real)
    ensures a * b == b * a && (a * b) * c == a * (b * c) && (a * b) * c == (a * c) * b
  {
  }

  // p (x - iy), p being (a + ib)(x + iy).
  lemma TurnParts(a: real, b: real, x: real, y: real, p: real, q: real)
    requires p == a * x - b * y && q == a * y + b * x
    ensures p * x + q * y == (x * x + y * y) * a
    ensures q * x - p * y == (x * x + y * y) * b
  {
    Out(x, a * x, b * y);
    Out(y, a * y, b * x);
    Out(x, a * y, b * x);
    Out(y, a * x, b * y);
    Order(a, x, x);
    Order(b, y, x);
    Order(a, y, y);
    Order(b, x, y);
    Order(a, y, x);
    Order(b, x, x);
    Order(a, x, y);
    Order(b, y, y);
    Out(a, x * x, y * y);
    Out(b, x * x, y * y);
  }

  // u z times the conjugate of z is u, lengthened.
  lemma TurnTimes(u: Complex, z: Complex)
    ensures Multiply(Multiply(u, z), Conjugate(z)) == Scaled(Power(z), u)
  {
    var p := Multiply(u, z);
    TurnParts(u.re, u.im, z.re, z.im, p.re, p.im);
    ByConjugate(p, z);
  }

  lemma ByConjugate(p: Complex, z: Complex)
    ensures Multiply(p, Conjugate(z)) == Complex(p.re * z.re + p.im * z.im, p.im * z.re - p.re * z.im)
  {
    Out(p.im, z.im, z.im);
    Out(p.re, z.im, z.im);
    Order(p.im, z.re, z.re);
  }

  // A sample turned by u from the one before it gives the angle of u, whatever the phase it started from.
  lemma TurnedBy(e: int -> Complex, b1: seq<real>, b2: seq<real>, a: real, angle: Complex -> real, u: Complex,
                 z: Complex)
    requires DirectionOnly(angle) && z != ZERO
    ensures FmRx(e, b1, b2, a, angle).turn(Multiply(u, z), z) == angle(u)
  {
    TurnTimes(u, z);
    PowerPositive(z);
    assert angle(Scaled(Power(z), u)) == angle(u);
  }

  // An unmodulated carrier is silent: two equal samples give the angle of no turn.
  lemma CarrierIsStill(e: int -> Complex, b1: seq<real>, b2: seq<real>, a: real, angle: Complex -> real, z: Complex)
    requires DirectionOnly(angle) && z != ZERO
    ensures FmRx(e, b1, b2, a, angle).turn(z, z) == angle(Complex(1.0, 0.0))
  {
    TurnedBy(e, b1, b2, a, angle, Complex(1.0, 0.0), z);
    assert Multiply(Complex(1.0, 0.0), z) == z;
  }

  // Turning two samples by the same u: (u now)(u before)* is u u* now before*.
  lemma BothTurned(u: Complex, now: Complex, before: Complex)
    ensures Multiply(Multiply(u, now), Conjugate(Multiply(u, before))) ==
            Scaled(Power(u), Multiply(now, Conjugate(before)))
  {
    var c := Conjugate(before);
    calc {
      Multiply(Multiply(u, now), Conjugate(Multiply(u, before)));
      { ConjugateOut(u, before); }
      Multiply(Multiply(u, now), Multiply(Conjugate(u), c));
      { Reorder(u, now, Conjugate(u), c); }
      Multiply(Multiply(u, Conjugate(u)), Multiply(now, c));
      { OwnPower(u); }
      Multiply(Complex(Power(u), 0.0), Multiply(now, c));
      Scaled(Power(u), Multiply(now, c));
    }
  }

  lemma ConjugateOut(u: Complex, v: Complex)
    ensures Conjugate(Multiply(u, v)) == Multiply(Conjugate(u), Conjugate(v))
  {
    Out(u.im, v.im, v.im);
    Out(u.re, v.im, v.im);
    Order(u.im, v.re, v.re);
    Negated(u.im, v.im);
    Negated(u.im, v.re);
  }

  lemma Negated(a: real, b: real)
    ensures -a * -b == a * b && -a * b == -(a * b) && a * -b == -(a * b)
  {
  }

  lemma OwnPower(u: Complex)
    ensures Multiply(u, Conjugate(u)) == Complex(Power(u), 0.0)
  {
    ByConjugate(u, u);
    Order(u.im, u.re, u.re);
  }

  lemma Commutes(a: Complex, b: Complex)
    ensures Multiply(a, b) == Multiply(b, a)
  {
    Order(a.re, b.re, b.re);
    Order(a.im, b.im, b.im);
    Order(a.re, b.im, b.im);
    Order(a.im, b.re, b.re);
  }

  // The parts of (a b) c.
  lemma Associates(a: Complex, b: Complex, c: Complex)
    ensures Multiply(Multiply(a, b), c) == Multiply(a, Multiply(b, c))
  {
    var p, q := Multiply(a, b), Multiply(b, c);
    ReParts(a.re, a.im, b.re, b.im, c.re, c.im, p.re, p.im, q.re, q.im);
    ImParts(a.re, a.im, b.re, b.im, c.re, c.im, p.re, p.im, q.re, q.im);
  }

  lemma ReParts(a: real, b: real, x: real, y: real, r: real, s: real, p: real, q: real, v: real, w: real)
    requires p == a * x - b * y && q == a * y + b * x && v == x * r - y * s && w == x * s + y * r
    ensures p * r - q * s == a * v - b * w
  {
    Out(r, a * x, b * y);
    Out(s, a * y, b * x);
    Out(a, x * r, y * s);
    Out(b, x * s, y * r);
    Order(a, x, r);
    Order(b, y, r);
    Order(a, y, s);
    Order(b, x, s);
  }

  lemma ImParts(a: real, b: real, x: real, y: real, r: real, s: real, p: real, q: real, v: real, w: real)
    requires p == a * x - b * y && q == a * y + b * x && v == x * r - y * s && w == x * s + y * r
    ensures p * s + q * r == a * w + b * v
  {
    Out(s, a * x, b * y);
    Out(r, a * y, b * x);
    Out(a, x * s, y * r);
    Out(b, x * r, y * s);
    Order(a, x, s);
    Order(b, y, s);
    Order(a, y, r);
    Order(b, x, r);
  }

  lemma Reorder(a: Complex, b: Complex, c: Complex, d: Complex)
    ensures Multiply(Multiply(a, b), Multiply(c, d)) == Multiply(Multiply(a, c), Multiply(b, d))
  {
    calc {
      Multiply(Multiply(a, b), Multiply(c, d));
      { Associates(a, b, Multiply(c, d)); }
      Multiply(a, Multiply(b, Multiply(c, d)));
      { Associates(b, c, d); Commutes(b, c); Associates(c, b, d); }
      Multiply(a, Multiply(c, Multiply(b, d)));
      { Associates(a, c, Multiply(b, d)); }
      Multiply(Multiply(a, c), Multiply(b, d));
    }
  }

  function Turned(u: Complex, y: seq<Complex>): (t: seq<Complex>)
    ensures |t| == |y|
  {
    seq(|y|, i requires 0 <= i < |y| => Multiply(u, y[i]))
  }

  // A common turn of the whole channel changes no step after the first.
  lemma CommonTurnUnheard(e: int -> Complex, b1: seq<real>, b2: seq<real>, a: real, angle: Complex -> real, u: Complex,
                          prev: Complex, y: seq<Complex>, j: nat)
    requires DirectionOnly(angle) && u != ZERO && 0 < j < |y|
    ensures var turn := FmRx(e, b1, b2, a, angle).turn; Steps(turn, prev, Turned(u, y))[j] == Steps(turn, prev, y)[j]
  {
    var r, now, before := FmRx(e, b1, b2, a, angle), y[j], y[j - 1];
    assert Turned(u, y)[j] == Multiply(u, now) && Turned(u, y)[j - 1] == Multiply(u, before);
    StepBothTurned(e, b1, b2, a, angle, u, now, before);
  }

  lemma StepBothTurned(e: int -> Complex, b1: seq<real>, b2: seq<real>, a: real, angle: Complex -> real, u: Complex,
                       now: Complex, before: Complex)
    requires DirectionOnly(angle) && u != ZERO
    ensures var turn := FmRx(e, b1, b2, a, angle).turn; turn(Multiply(u, now), Multiply(u, before)) == turn(now, before)
  {
    var z := Multiply(now, Conjugate(before));
    assert FmRx(e, b1, b2, a, angle).turn(Multiply(u, now), Multiply(u, before)) == angle(Scaled(Power(u), z)) by {
      BothTurned(u, now, before);
    }
    PowerPositive(u);
  }

  // The first sample has nothing before it: its step is the angle of nothing.
  lemma FirstStep(e: int -> Complex, b1: seq<real>, b2: seq<real>, a: real, angle: Complex -> real, y: seq<Complex>)
    requires y != []
    ensures Steps(FmRx(e, b1, b2, a, angle).turn, ZERO, y)[0] == angle(ZERO)
  {
    ByConjugate(y[0], ZERO);
  }

  // What the station's receiver computes, over plain numbers: each channel sample is the convolution of the
  // real and of the imaginary parts, every tenth one kept; each audio sample that of the steps, every fifth
  // one kept.
  lemma StationMeans(e: int -> Complex, b1: seq<real>, b2: seq<real>, a: real, angle: Complex -> real, x: seq<Complex>,
                     j: nat, k: nat)
    requires b1 != [] && b2 != []
    requires var r := FmRx(e, b1, b2, a, angle); j < |Channel(r, x)| && k < |Audio(r, x)|
    ensures var r := FmRx(e, b1, b2, a, angle);
            && 10 * j < |x| && Channel(r, x)[j].re == Dot(b1, ReOf(x), 10 * j, 0)
            && Channel(r, x)[j].im == Dot(b1, ImOf(x), 10 * j, 0)
            && 5 * k < |Discriminated(r, x)| && Audio(r, x)[k] == Dot(b2, Discriminated(r, x), 5 * k, 0)
  {
    var r := FmRx(e, b1, b2, a, angle);
    SpacesLawful();
    ChannelMeans(r, x, j);
    AudioMeans(r, x, k);
    ComplexSum(b1, x, j * CHANNEL_DEC, 0);
    RealSum(b2, Discriminated(r, x), k * AUDIO_DEC, 0);
  }

  // De-emphasis: a mix of the sample and the output before it.
  lemma DeemphasisMeans(a: real, x: seq<real>, k: nat)
    requires k < |x|
    ensures var y := OnePole(Reals(), a, 0.0, x); y[k] == (if k == 0 then 0.0 else a * y[k - 1]) + (1.0 - a) * x[k]
  {
    var y := OnePole(Reals(), a, 0.0, x);
    assert y[k] == (if k == 0 then 0.0 else Reals().times(a, y[k - 1])) + Reals().times(1.0 - a, x[k]) by {
      OnePoleIsAverage(Reals(), a, x, k);
    }
  }

  // Inside the range a value times 16000 loses its fraction, towards zero; outside it is held at the end.
  lemma PcmMeans(v: real)
    ensures 16000.0 * v > 32767.0 ==> Pcm(v) == 32767
    ensures 16000.0 * v < -32768.0 ==> Pcm(v) == -32768
    ensures 0.0 <= 16000.0 * v <= 32767.0 ==> Pcm(v) as real <= 16000.0 * v < Pcm(v) as real + 1.0
    ensures -32768.0 <= 16000.0 * v <= 0.0 ==> Pcm(v) as real - 1.0 < 16000.0 * v <= Pcm(v) as real
  {
  }

  // ------------------------------------------------------------------ each stage over two parts

  lemma StepsSplit(turn: (Complex, Complex) -> real, prev: Complex, x: seq<Complex>, y: seq<Complex>)
    ensures Steps(turn, prev, x + y) == Steps(turn, prev, x) + Steps(turn, LastOf(prev, x), y)
    ensures LastOf(prev, x + y) == LastOf(LastOf(prev, x), y)
  {
    var all, last := x + y, LastOf(prev, x);
    var d, before, after := Steps(turn, prev, all), Steps(turn, prev, x), Steps(turn, last, y);
    forall j | 0 <= j < |x| ensures d[j] == before[j] {
      assert all[j] == x[j] && (j > 0 ==> all[j - 1] == x[j - 1]);
    }
    forall j | 0 <= j < |y| ensures d[|x| + j] == after[j] {
      StepAcross(turn, prev, x, y, j);
    }
  }

  lemma StepAcross(turn: (Complex, Complex) -> real, prev: Complex, x: seq<Complex>, y: seq<Complex>, j: nat)
    requires j < |y|
    ensures Steps(turn, prev, x + y)[|x| + j] == Steps(turn, LastOf(prev, x), y)[j]
  {
    var all := x + y;
    assert all[|x| + j] == y[j];
    if j > 0 {
      assert all[|x| + j - 1] == y[j - 1];
    } else if |x| > 0 {
      assert all[|x| - 1] == x[|x| - 1];
    }
  }

  lemma {:induction false} OnePoleStateSplit(s: Space<real>, a: real, z: real, x: seq<real>, y: seq<real>)
    ensures OnePoleState(s, a, z, x + y) == OnePoleState(s, a, OnePoleState(s, a, z, x), y)
  {
    if y == [] {
      assert x + y == x;
    } else {
      assert (x + y)[..|x + y| - 1] == x + y[..|y| - 1];
      OnePoleStateSplit(s, a, z, x, y[..|y| - 1]);
    }
  }

  lemma {:induction false} OnePoleSplit(s: Space<real>, a: real, z: real, x: seq<real>, y: seq<real>)
    ensures OnePole(s, a, z, x + y) == OnePole(s, a, z, x) + OnePole(s, a, OnePoleState(s, a, z, x), y)
  {
    if y == [] {
      assert x + y == x;
    } else {
      var less := y[..|y| - 1];
      assert (x + y)[..|x + y| - 1] == x + less && (x + y)[|x + y| - 1] == y[|y| - 1];
      OnePoleSplit(s, a, z, x, less);
      OnePoleStateSplit(s, a, z, x, less);
    }
  }

  lemma PcmsSplit(x: seq<real>, y: seq<real>)
    ensures Pcms(x + y) == Pcms(x) + Pcms(y)
  {
    forall i | 0 <= i < |x + y| ensures Pcms(x + y)[i] == (Pcms(x) + Pcms(y))[i] {
    }
  }

  lemma TakenWhole(n: nat)
    requires n % CHUNK == 0
    ensures n % CHANNEL_DEC == 0 && Taken(n, CHANNEL_DEC, 0) % AUDIO_DEC == 0
  {
    var q := n / CHUNK;
    ModuloIs(n, 24_000 * q, 0, CHANNEL_DEC);
    if n > 0 {
      ModuloIs(n - 1, 24_000 * q - 1, 9, CHANNEL_DEC);
    }
    ModuloIs(24_000 * q, 4_800 * q, 0, AUDIO_DEC);
  }

  lemma ChannelLength(r: Receiver, x: seq<Complex>)
    requires Valid(r) && |x| % CHUNK == 0
    ensures |x| % CHANNEL_DEC == 0 && |Channel(r, x)| % AUDIO_DEC == 0
  {
    TakenWhole(|x|);
    EveryTakes(Fir(r.cx, r.b1, Rest(r.cx, r.b1), x), CHANNEL_DEC, 0);
  }

  // ------------------------------------------------------------------ the mixer

  lemma {:induction false} PeriodsOn(mix: (int, Complex) -> Complex, n: nat, v: Complex, k: nat)
    requires Periodic(mix)
    ensures mix(n + MIXER_PERIOD * k, v) == mix(n, v)
    decreases k
  {
    if k > 0 {
      PeriodsOn(mix, n, v, k - 1);
      var m := n + MIXER_PERIOD * (k - 1);
      assert mix(m + MIXER_PERIOD, v) == mix(m, v);
    }
  }

  // One chunk of bytes, mixed with a mixer that starts at its first sample.
  function MixedChunk(mix: (int, Complex) -> Complex, bytes: seq<int>): (c: seq<Complex>)
    requires |bytes| == 2 * CHUNK
    ensures |c| == CHUNK
  {
    Mixed(bytes, mix, 0, CHUNK)
  }

  // Restarting the mixer is not heard: a chunk is a whole number of its periods.
  lemma MixerContinues(mix: (int, Complex) -> Complex, raw: seq<int>, n: nat)
    requires Periodic(mix) && 2 * CHUNK * (n + 1) <= |raw|
    ensures MixedChunk(mix, raw[2 * CHUNK * n..2 * CHUNK * (n + 1)]) == Mixed(raw, mix, CHUNK * n, CHUNK * (n + 1))
  {
    var bytes := raw[2 * CHUNK * n..2 * CHUNK * (n + 1)];
    forall i | 0 <= i < CHUNK ensures mix(i, Sample(bytes, i)) == mix(CHUNK * n + i, Sample(raw, CHUNK * n + i)) {
      PeriodsOn(mix, i, Sample(bytes, i), 5000 * n);
    }
  }

  // ------------------------------------------------------------------ the receiver

  // What the loop carries from chunk to chunk.
  datatype Carry = Carry(z1: seq<Complex>, prev: Complex, z2: seq<real>, z3: real)

  predicate Fits(r: Receiver, s: Carry) { |s.z1| + 1 == |r.b1| && |s.z2| + 1 == |r.b2| }

  // What it carries after the samples x.
  function CarryAfter(r: Receiver, x: seq<Complex>): (s: Carry)
    requires Valid(r)
    ensures Fits(r, s)
  {
    Carry(FirState(r.cx, r.b1, Rest(r.cx, r.b1), x), LastOf(ZERO, Channel(r, x)),
          FirState(r.re, r.b2, Rest(r.re, r.b2), Discriminated(r, x)),
          OnePoleState(r.re, r.a, r.re.zero, Audio(r, x)))
  }

  lemma ChannelOn(r: Receiver, x: seq<Complex>, c: seq<Complex>, s: Carry, y: seq<Complex>)
    requires Valid(r) && |x| % CHUNK == 0 && Fits(r, s) && s == CarryAfter(r, x)
    requires y == Every(Fir(r.cx, r.b1, s.z1, c), CHANNEL_DEC, 0)
    ensures Channel(r, x + c) == Channel(r, x) + y
    ensures CarryAfter(r, x + c).z1 == FirState(r.cx, r.b1, s.z1, c)
    ensures CarryAfter(r, x + c).prev == LastOf(s.prev, y)
    ensures Discriminated(r, x + c) == Discriminated(r, x) + Steps(r.turn, s.prev, y)
  {
    ChannelLength(r, x);
    WholePhase(CHANNEL_DEC, |x|);
    ThinnedOn(r.cx, r.b1, x, c, CHANNEL_DEC, s.z1, y);
    StepsSplit(r.turn, ZERO, Channel(r, x), y);
  }

  lemma AudioOn(r: Receiver, x: seq<Complex>, x': seq<Complex>, s: Carry, d: seq<real>, au: seq<real>)
    requires Valid(r) && |x| % CHUNK == 0 && Fits(r, s) && s == CarryAfter(r, x)
    requires Discriminated(r, x') == Discriminated(r, x) + d
    requires au == Every(Fir(r.re, r.b2, s.z2, d), AUDIO_DEC, 0)
    ensures Audio(r, x') == Audio(r, x) + au
    ensures CarryAfter(r, x').z2 == FirState(r.re, r.b2, s.z2, d)
  {
    ChannelLength(r, x);
    WholePhase(AUDIO_DEC, |Discriminated(r, x)|);
    ThinnedOn(r.re, r.b2, Discriminated(r, x), d, AUDIO_DEC, s.z2, au);
  }

  lemma SoundOn(r: Receiver, x: seq<Complex>, x': seq<Complex>, s: Carry, au: seq<real>)
    requires Valid(r) && s == CarryAfter(r, x) && Audio(r, x') == Audio(r, x) + au
    ensures CarryAfter(r, x').z3 == OnePoleState(r.re, r.a, s.z3, au)
    ensures Batch(r, x') == Batch(r, x) + Pcms(OnePole(r.re, r.a, s.z3, au))
  {
    OnePoleStateSplit(r.re, r.a, r.re.zero, Audio(r, x), au);
    OnePoleSplit(r.re, r.a, r.re.zero, Audio(r, x), au);
    PcmsSplit(OnePole(r.re, r.a, r.re.zero, Audio(r, x)), OnePole(r.re, r.a, s.z3, au));
  }

  // One turn of the loop.
  method OneChunk(r: Receiver, s: Carry, c: seq<Complex>, ghost x: seq<Complex>) returns (s': Carry, pcm: seq<int>)
    requires Valid(r) && |x| % CHUNK == 0 && Fits(r, s) && s == CarryAfter(r, x)
    ensures s' == CarryAfter(r, x + c)
    ensures Batch(r, x + c) == Batch(r, x) + pcm
  {
    var y := Every(Fir(r.cx, r.b1, s.z1, c), CHANNEL_DEC, 0);
    var d := Steps(r.turn, s.prev, y);
    var au := Every(Fir(r.re, r.b2, s.z2, d), AUDIO_DEC, 0);
    ChannelOn(r, x, c, s, y);
    AudioOn(r, x, x + c, s, d, au);
    SoundOn(r, x, x + c, s, au);
    s' := Carry(FirState(r.cx, r.b1, s.z1, c), LastOf(s.prev, y), FirState(r.re, r.b2, s.z2, d),
                OnePoleState(r.re, r.a, s.z3, au));
    pcm := Pcms(OnePole(r.re, r.a, s.z3, au));
  }

  // How many whole chunks there are.
  function Chunks(raw: seq<int>): (n: nat)
    ensures 2 * CHUNK * n <= |raw| < 2 * CHUNK * (n + 1)
  {
    |raw| / (2 * CHUNK)
  }

  // The n-th read: up to a chunk of bytes.
  function Read(raw: seq<int>, n: nat): (bytes: seq<int>)
    requires n <= Chunks(raw)
    ensures |bytes| == 2 * CHUNK <==> n < Chunks(raw)
    ensures |bytes| <= 2 * CHUNK
  {
    raw[2 * CHUNK * n..if 2 * CHUNK * (n + 1) <= |raw| then 2 * CHUNK * (n + 1) else |raw|]
  }

  // The samples of the first n chunks.
  function Heard(r: Receiver, raw: seq<int>, n: nat): (x: seq<Complex>)
    requires n <= Chunks(raw)
    ensures |x| == CHUNK * n && |x| % CHUNK == 0
  {
    Mixed(raw, r.mix, 0, CHUNK * n)
  }

  // Sample i of the station is its two bytes, turned by i steps of 250 kHz at 2.4 MHz.
  lemma HeardAre(e: int -> Complex, b1: seq<real>, b2: seq<real>, a: real, angle: Complex -> real, raw: seq<int>,
                 n: nat, i: nat)
    requires n <= Chunks(raw) && i < CHUNK * n
    ensures var (re, im, m) := (raw[2 * i] as real, raw[2 * i + 1] as real, e((250_000 * i) % 2_400_000));
            var c := Heard(FmRx(e, b1, b2, a, angle), raw, n)[i];
            c.re == re * m.re - im * m.im && c.im == re * m.im + im * m.re
  {
    MixedAre(raw, Mixer(e), 0, CHUNK * n, i);
  }

  lemma HeardOn(r: Receiver, raw: seq<int>, n: nat)
    requires Periodic(r.mix) && n < Chunks(raw)
    ensures Heard(r, raw, n + 1) == Heard(r, raw, n) + MixedChunk(r.mix, Read(raw, n))
  {
    MixerContinues(r.mix, raw, n);
    MixedSplit(raw, r.mix, 0, CHUNK * n, CHUNK * (n + 1));
  }

  lemma NothingHeard(r: Receiver)
    requires Valid(r)
    ensures CarryAfter(r, []) == Carry(Rest(r.cx, r.b1), ZERO, Rest(r.re, r.b2), r.re.zero) && Batch(r, []) == []
  {
  }

  // main, from the bytes of the radio to those of the sound: whole chunks only.
  method Receive(r: Receiver, raw: seq<int>) returns (pcm: seq<int>)
    requires Valid(r) && Periodic(r.mix)
    ensures pcm == Batch(r, Heard(r, raw, Chunks(raw)))
  {
    var s := Carry(Rest(r.cx, r.b1), ZERO, Rest(r.re, r.b2), r.re.zero);
    pcm := [];
    var n := 0;
    ghost var x := Heard(r, raw, 0);
    NothingHeard(r);
    while true
      invariant n <= Chunks(raw) && x == Heard(r, raw, n)
      invariant Fits(r, s) && s == CarryAfter(r, x) && pcm == Batch(r, x)
      decreases Chunks(raw) - n
    {
      var bytes := Read(raw, n);
      if |bytes| < 2 * CHUNK {
        break;
      }
      HeardOn(r, raw, n);
      var c := MixedChunk(r.mix, bytes);
      var s', more := OneChunk(r, s, c, x);
      x := x + c;
      s, pcm, n := s', pcm + more, n + 1;
    }
  }

  // The receiver itself: nothing is assumed of its mixer but what OFFSET and FS make of it.
  method ReceiveStation(e: int -> Complex, b1: seq<real>, b2: seq<real>, a: real, angle: Complex -> real, raw: seq<int>)
    returns (pcm: seq<int>)
    requires b1 != [] && b2 != []
    ensures var r := FmRx(e, b1, b2, a, angle); pcm == Batch(r, Heard(r, raw, Chunks(raw)))
  {
    PeriodicMixer(e);
    pcm := Receive(FmRx(e, b1, b2, a, angle), raw);
  }
}
