/** Filters that run over a signal chunk by chunk (py/fixtures/dmr_ref.py, py/fixtures/flex_ref.py:
decode_ci8).

scipy's lfilter keeps a row of partial sums between calls. Here it runs over exact numbers, real or
complex, and is related to the convolution sum that defines the filter. */
module ChunkedFilter {
  import opened Wrappers
  import opened Division

  datatype Complex = Complex(re: real, im: real)

  function Multiply(a: Complex, b: Complex): Complex {
    Complex(a.re * b.re - a.im * b.im, a.re * b.im + a.im * b.re)
  }

  function Conjugate(a: Complex): Complex { Complex(a.re, -a.im) }

  const ZERO: Complex := Complex(0.0, 0.0)

  // What a filter with real taps needs of the values it runs over.
  datatype Space<!V> = Space(zero: V, plus: (V, V) -> V, times: (real, V) -> V)

  function Reals(): Space<real> {
    Space(0.0, (a: real, b: real) => a + b, (k: real, a: real) => k * a)
  }

  function Complexes(): Space<Complex> {
    Space(ZERO, (a: Complex, b: Complex) => Complex(a.re + b.re, a.im + b.im),
          (k: real, a: Complex) => Complex(k * a.re, k * a.im))
  }

  // Adding to nothing changes nothing.
  ghost predicate Neutral<V>(s: Space<V>, v: V) {
    s.plus(s.zero, v) == v
  }

  ghost predicate Lawful<V(!new)>(s: Space<V>) {
    forall v :: Neutral(s, v)
  }

  lemma SpacesLawful()
    ensures Lawful(Reals()) && Lawful(Complexes())
  {
    forall v: real ensures Neutral(Reals(), v) {
    }
    forall v: Complex ensures Neutral(Complexes(), v) {
    }
  }

  // ------------------------------------------------------------------ the filter

  // The partial sums after one more sample.
  function FirStep<V>(s: Space<V>, h: seq<real>, z: seq<V>, v: V): (z': seq<V>)
    requires |h| == |z| + 1
    ensures |z'| == |z|
  {
    seq(|z|, i requires 0 <= i < |z| =>
      if i == |z| - 1 then s.times(h[i + 1], v) else s.plus(z[i + 1], s.times(h[i + 1], v)))
  }

  // The output for one sample.
  function FirValue<V>(s: Space<V>, h: seq<real>, z: seq<V>, v: V): V
    requires |h| == |z| + 1
  {
    if |z| == 0 then s.times(h[0], v) else s.plus(z[0], s.times(h[0], v))
  }

  // lfilter(h, 1, x, zi=z): the state it returns, and the samples.
  function FirState<V>(s: Space<V>, h: seq<real>, z: seq<V>, x: seq<V>): (z': seq<V>)
    requires |h| == |z| + 1
    ensures |z'| == |z|
  {
    if x == [] then z else FirStep(s, h, FirState(s, h, z, x[..|x| - 1]), x[|x| - 1])
  }

  function Fir<V>(s: Space<V>, h: seq<real>, z: seq<V>, x: seq<V>): (y: seq<V>)
    requires |h| == |z| + 1
    ensures |y| == |x|
  {
    if x == [] then [] else
      var before := x[..|x| - 1];
      Fir(s, h, z, before) + [FirValue(s, h, FirState(s, h, z, before), x[|x| - 1])]
  }

  // np.zeros(len(taps) - 1)
  function Rest<V>(s: Space<V>, h: seq<real>): (z: seq<V>)
    requires h != []
    ensures |z| == |h| - 1
  {
    seq(|h| - 1, _ => s.zero)
  }

  // ------------------------------------------------------------------ its definition

  // The sum of h[j] * x[n - j] over j from k, what lies before the first sample being nothing.
  function Sum<V>(s: Space<V>, h: seq<real>, x: seq<V>, n: nat, k: nat): V
    requires k <= |h| && n < |x| + k
    decreases |h| - k
  {
    if k == |h| || n < k then s.zero else s.plus(Sum(s, h, x, n, k + 1), s.times(h[k], x[n - k]))
  }

  // The convolution sum over real numbers, on its own: h[k] x[n - k] + h[k + 1] x[n - k - 1] + ...
  function Dot(h: seq<real>, x: seq<real>, n: nat, k: nat): real
    requires k <= |h| && n < |x| + k
    decreases |h| - k
  {
    if k == |h| || n < k then 0.0 else h[k] * x[n - k] + Dot(h, x, n, k + 1)
  }

  function ReOf(x: seq<Complex>): (r: seq<real>)
    ensures |r| == |x| && forall i :: 0 <= i < |x| ==> r[i] == x[i].re
  {
    seq(|x|, i requires 0 <= i < |x| => x[i].re)
  }

  function ImOf(x: seq<Complex>): (r: seq<real>)
    ensures |r| == |x| && forall i :: 0 <= i < |x| ==> r[i] == x[i].im
  {
    seq(|x|, i requires 0 <= i < |x| => x[i].im)
  }

  lemma {:induction false} RealSum(h: seq<real>, x: seq<real>, n: nat, k: nat)
    requires k <= |h| && n < |x| + k
    ensures Sum(Reals(), h, x, n, k) == Dot(h, x, n, k)
    decreases |h| - k
  {
    if k < |h| && n >= k {
      RealSum(h, x, n, k + 1);
    }
  }

  // Of complex samples the real and the imaginary part are filtered each on its own.
  lemma {:induction false} ComplexSum(h: seq<real>, x: seq<Complex>, n: nat, k: nat)
    requires k <= |h| && n < |x| + k
    ensures Sum(Complexes(), h, x, n, k) == Complex(Dot(h, ReOf(x), n, k), Dot(h, ImOf(x), n, k))
    decreases |h| - k
  {
    if k < |h| && n >= k {
      ComplexSum(h, x, n, k + 1);
    }
  }

  // Later samples do not matter to it.
  lemma {:induction false} SumPrefix<V>(s: Space<V>, h: seq<real>, x: seq<V>, longer: seq<V>, n: nat, k: nat)
    requires k <= |h| && n < |x| + k && x <= longer
    ensures Sum(s, h, longer, n, k) == Sum(s, h, x, n, k)
    decreases |h| - k
  {
    if k < |h| && n >= k {
      SumPrefix(s, h, x, longer, n, k + 1);
      assert longer[n - k] == x[n - k];
    }
  }

  // Each partial sum is the part of a later output that is known already.
  lemma {:induction false} StateIsSum<V(!new)>(s: Space<V>, h: seq<real>, x: seq<V>, i: nat)
    requires Lawful(s) && i + 1 < |h|
    ensures FirState(s, h, Rest(s, h), x)[i] == Sum(s, h, x, |x| + i, i + 1)
    decreases |x|
  {
    if x == [] {
      assert Sum(s, h, x, i, i + 1) == s.zero;
    } else {
      var before, v := x[..|x| - 1], x[|x| - 1];
      if i + 2 < |h| {
        StateIsSum(s, h, before, i + 1);
        SumPrefix(s, h, before, x, |before| + i + 1, i + 2);
      }
      SumOpens(s, h, x, i + 1);
    }
  }

  lemma {:induction false} SumOpens<V(!new)>(s: Space<V>, h: seq<real>, x: seq<V>, k: nat)
    requires Lawful(s) && k < |h| && x != []
    ensures Sum(s, h, x, |x| - 1 + k, k) == s.plus(Sum(s, h, x, |x| - 1 + k, k + 1), s.times(h[k], x[|x| - 1]))
    ensures k + 1 == |h| ==> Sum(s, h, x, |x| - 1 + k, k) == s.times(h[k], x[|x| - 1])
  {
    var v := s.times(h[k], x[|x| - 1]);
    assert Neutral(s, v);
  }

  // The last output is its defining sum.
  lemma {:induction false} LastIsSum<V(!new)>(s: Space<V>, h: seq<real>, x: seq<V>)
    requires Lawful(s) && h != [] && x != []
    ensures Fir(s, h, Rest(s, h), x)[|x| - 1] == Sum(s, h, x, |x| - 1, 0)
  {
    var n: nat := |x| - 1;
    var before, v := x[..n], x[n];
    var z := FirState(s, h, Rest(s, h), before);
    assert Fir(s, h, Rest(s, h), x)[n] == FirValue(s, h, z, v);
    SumOpens(s, h, x, 0);
    if |h| > 1 {
      FirstIsSum(s, h, before, x, n, z);
    }
  }

  // The first partial sum is what the next output lacks of its sum.
  lemma {:induction false} FirstIsSum<V(!new)>(s: Space<V>, h: seq<real>, before: seq<V>, x: seq<V>, n: nat, z: seq<V>)
    requires Lawful(s) && |h| > 1 && z == FirState(s, h, Rest(s, h), before) && before <= x && n == |before|
    ensures z[0] == Sum(s, h, x, n, 1)
  {
    StateIsSum(s, h, before, 0);
    SumPrefix(s, h, before, x, n, 1);
  }

  // Started at rest, the filter's outputs are the convolution of its taps with the samples.
  lemma {:induction false} FirIsConvolution<V(!new)>(s: Space<V>, h: seq<real>, x: seq<V>, n: nat)
    requires Lawful(s) && h != [] && n < |x|
    ensures Fir(s, h, Rest(s, h), x)[n] == Sum(s, h, x, n, 0)
    decreases |x|
  {
    if n == |x| - 1 {
      LastIsSum(s, h, x);
    } else {
      var before, v := x[..|x| - 1], x[|x| - 1];
      FirIsConvolution(s, h, before, n);
      SumPrefix(s, h, before, x, n, 0);
    }
  }

  // ------------------------------------------------------------------ two calls are one

  lemma {:induction false} FirStateSplit<V>(s: Space<V>, h: seq<real>, z: seq<V>, x: seq<V>, y: seq<V>)
    requires |h| == |z| + 1
    ensures FirState(s, h, z, x + y) == FirState(s, h, FirState(s, h, z, x), y)
  {
    if y == [] {
      assert x + y == x;
    } else {
      assert (x + y)[..|x + y| - 1] == x + y[..|y| - 1];
      FirStateSplit(s, h, z, x, y[..|y| - 1]);
    }
  }

  // Filtering the second part from the state the first part left is filtering both.
  lemma {:induction false} FirSplit<V>(s: Space<V>, h: seq<real>, z: seq<V>, x: seq<V>, y: seq<V>)
    requires |h| == |z| + 1
    ensures Fir(s, h, z, x + y) == Fir(s, h, z, x) + Fir(s, h, FirState(s, h, z, x), y)
  {
    if y == [] {
      assert x + y == x;
    } else {
      var less := y[..|y| - 1];
      assert (x + y)[..|x + y| - 1] == x + less && (x + y)[|x + y| - 1] == y[|y| - 1];
      FirSplit(s, h, z, x, less);
      FirStateSplit(s, h, z, x, less);
    }
  }

  // ------------------------------------------------------------------ decimation

  // y[phase::dec]
  function Every<V>(y: seq<V>, dec: nat, phase: nat): seq<V>
    requires phase < dec
  {
    if y == [] then []
    else if phase == 0 then [y[0]] + Every(y[1..], dec, dec - 1)
    else Every(y[1..], dec, phase - 1)
  }

  // The phase to go on with after n samples: (phase - n) % dec.
  function PhaseAfter(dec: nat, phase: nat, n: nat): (p: nat)
    requires phase < dec
    ensures p < dec
  {
    (phase - n) % dec
  }

  lemma PhaseStep(dec: nat, phase: nat, n: nat)
    requires phase < dec && n > 0
    ensures PhaseAfter(dec, if phase == 0 then dec - 1 else phase - 1, n - 1) == PhaseAfter(dec, phase, n)
  {
    if phase == 0 {
      AddModulus(0 - n, dec);
    }
  }

  // The samples taken from two parts are those taken from the whole.
  lemma {:induction false} EverySplit<V>(x: seq<V>, y: seq<V>, dec: nat, phase: nat)
    requires phase < dec
    ensures Every(x + y, dec, phase) == Every(x, dec, phase) + Every(y, dec, PhaseAfter(dec, phase, |x|))
  {
    if x == [] {
      assert x + y == y;
      PhaseNow(dec, phase);
    } else {
      assert (x + y)[1..] == x[1..] + y && (x + y)[0] == x[0];
      PhaseStep(dec, phase, |x|);
      EverySplit(x[1..], y, dec, if phase == 0 then dec - 1 else phase - 1);
    }
  }

  lemma PhaseNow(dec: nat, phase: nat)
    requires phase < dec
    ensures PhaseAfter(dec, phase, 0) == phase
  {
  }

  // How many samples y[phase::dec] has, and which.
  function Taken(n: nat, dec: nat, phase: nat): nat
    requires phase < dec
  {
    if n <= phase then 0 else (n - phase - 1) / dec + 1
  }

  lemma {:induction false} EveryTakes<V>(y: seq<V>, dec: nat, phase: nat)
    requires phase < dec
    ensures |Every(y, dec, phase)| == Taken(|y|, dec, phase)
  {
    if y != [] {
      if phase > 0 {
        EveryTakes(y[1..], dec, phase - 1);
      } else {
        EveryTakes(y[1..], dec, dec - 1);
        TakenStep(|y|, dec);
      }
    }
  }

  lemma {:induction false} EveryIsSlice<V>(y: seq<V>, dec: nat, phase: nat, j: nat)
    requires phase < dec && j < |Every(y, dec, phase)|
    ensures phase + j * dec < |y| && Every(y, dec, phase)[j] == y[phase + j * dec]
    decreases |y|
  {
    if phase > 0 {
      EveryIsSlice(y[1..], dec, phase - 1, j);
    } else if j > 0 {
      EveryIsSlice(y[1..], dec, dec - 1, j - 1);
      OneLess(j, dec);
    }
  }

  lemma OneLess(j: nat, dec: nat)
    requires j > 0
    ensures j * dec == (j - 1) * dec + dec
  {
  }

  lemma TakenStep(n: nat, dec: nat)
    requires n > 0 && dec > 0
    ensures Taken(n, dec, 0) == 1 + Taken(n - 1, dec, dec - 1)
  {
    if n - 1 <= dec - 1 {
      ModuloIs(n - 1, 0, n - 1, dec);
    } else {
      var q, r := (n - 1 - dec) / dec, (n - 1 - dec) % dec;
      assert n - 1 - dec == dec * q + r;
      assert n - 1 == dec * (q + 1) + r;
      ModuloIs(n - 1, q + 1, r, dec);
    }
  }

  lemma {:induction false} EveryOne<V>(y: seq<V>)
    ensures Every(y, 1, 0) == y
  {
    if y != [] {
      EveryOne(y[1..]);
    }
  }

  // ------------------------------------------------------------------ filter and decimate

  // Every dec-th output of the filter, from rest.
  function Thinned<V>(s: Space<V>, h: seq<real>, x: seq<V>, dec: nat): seq<V>
    requires h != [] && dec > 0
  {
    Every(Fir(s, h, Rest(s, h), x), dec, 0)
  }

  // One more part c, filtered from the carried state z and thinned from where the first part stopped.
  lemma {:induction false} ThinnedOn<V>(s: Space<V>, h: seq<real>, x: seq<V>, c: seq<V>, dec: nat, z: seq<V>, y: seq<V>)
    requires h != [] && dec > 0 && z == FirState(s, h, Rest(s, h), x)
    requires y == Every(Fir(s, h, z, c), dec, PhaseAfter(dec, 0, |x|))
    ensures Thinned(s, h, x + c, dec) == Thinned(s, h, x, dec) + y
    ensures FirState(s, h, Rest(s, h), x + c) == FirState(s, h, z, c)
  {
    FirSplit(s, h, Rest(s, h), x, c);
    FirStateSplit(s, h, Rest(s, h), x, c);
    EverySplit(Fir(s, h, Rest(s, h), x), Fir(s, h, z, c), dec, 0);
  }

  lemma WholePhase(dec: nat, n: nat)
    requires dec > 0 && n % dec == 0
    ensures PhaseAfter(dec, 0, n) == 0
  {
    var q := n / dec;
    assert n == dec * q;
    assert 0 - n == dec * (0 - q) + 0;
    ModuloIs(0 - n, 0 - q, 0, dec);
  }

  // Thinning keeps every dec-th sample of the convolution.
  lemma {:induction false} ThinnedIsConvolution<V(!new)>(s: Space<V>, h: seq<real>, x: seq<V>, dec: nat, j: nat)
    requires Lawful(s) && h != [] && dec > 0
    ensures |Thinned(s, h, x, dec)| == Taken(|x|, dec, 0)
    ensures j < |Thinned(s, h, x, dec)| ==> j * dec < |x| && Thinned(s, h, x, dec)[j] == Sum(s, h, x, j * dec, 0)
  {
    var y := Fir(s, h, Rest(s, h), x);
    EveryTakes(y, dec, 0);
    if j < |Every(y, dec, 0)| {
      EveryIsSlice(y, dec, 0, j);
      FirIsConvolution(s, h, x, j * dec);
    }
  }

  // ------------------------------------------------------------------ decode_ci8

  // Interleaved 8-bit samples as complex numbers.
  function Sample(raw: seq<int>, i: nat): Complex
    requires 2 * i + 1 < |raw|
  {
    Complex(raw[2 * i] as real, raw[2 * i + 1] as real)
  }

  // Multiplying sample n by the mixer's, w(n).
  function MixWith(w: int -> Complex): (int, Complex) -> Complex {
    (n: int, v: Complex) => Multiply(v, w(n))
  }

  // Samples a to b - 1, each mixed by its place in the recording.
  function Mixed(raw: seq<int>, mix: (int, Complex) -> Complex, a: nat, b: nat): (c: seq<Complex>)
    requires a <= b && 2 * b <= |raw|
    ensures |c| == b - a
  {
    seq(b - a, i requires 0 <= i < b - a => mix(a + i, Sample(raw, a + i)))
  }

  // A sample is a pair of bytes, the real part first, turned by the mixer's sample.
  lemma MixedAre(raw: seq<int>, w: int -> Complex, a: nat, b: nat, i: nat)
    requires a <= b && 2 * b <= |raw| && i < b - a
    ensures var (re, im, m) := (raw[2 * (a + i)] as real, raw[2 * (a + i) + 1] as real, w(a + i));
            var c := Mixed(raw, MixWith(w), a, b)[i];
            c.re == re * m.re - im * m.im && c.im == re * m.im + im * m.re
  {
    var k := a + i;
    assert Mixed(raw, MixWith(w), a, b)[i] == MixWith(w)(k, Sample(raw, k)) == Multiply(Sample(raw, k), w(k));
  }

  lemma MixedSplit(raw: seq<int>, mix: (int, Complex) -> Complex, a: nat, b: nat, c: nat)
    requires a <= b <= c && 2 * c <= |raw|
    ensures Mixed(raw, mix, a, c) == Mixed(raw, mix, a, b) + Mixed(raw, mix, b, c)
  {
  }

  // The chunk loop, for any chunk length: its output is one pass over the whole signal.
  method FilterChunks(raw: seq<int>, mix: (int, Complex) -> Complex, taps: seq<real>, dec: nat, s0: nat, s1: nat,
                      step: nat)
    returns (out: seq<Complex>)
    requires taps != [] && dec > 0 && step > 0 && s0 <= s1 && 2 * s1 <= |raw|
    ensures out == Thinned(Complexes(), taps, Mixed(raw, mix, s0, s1), dec)
  {
    var zi: seq<Complex> := Rest(Complexes(), taps);
    out := [];
    var a := s0;
    while a < s1
      invariant s0 <= a <= s1
      invariant zi == FirState(Complexes(), taps, Rest(Complexes(), taps), Mixed(raw, mix, s0, a))
      invariant out == Thinned(Complexes(), taps, Mixed(raw, mix, s0, a), dec)
    {
      var b := if a + step < s1 then a + step else s1;
      var c := Mixed(raw, mix, a, b);
      var y := Fir(Complexes(), taps, zi, c);
      ghost var x, p := Mixed(raw, mix, s0, a), (-((a - s0) as int)) % dec;
      MixedSplit(raw, mix, s0, a, b);
      ThinnedOn(Complexes(), taps, x, c, dec, zi, Every(y, dec, p));
      zi := FirState(Complexes(), taps, zi, c);
      if dec > 1 {
        out := out + Every(y, dec, (-((a - s0) as int)) % dec);
      } else {
        EveryOne(y);
        OneIsZero(s0 - a, dec);
        out := out + y;
      }
      a := b;
    }
  }

  lemma OneIsZero(a: int, m: nat)
    requires m == 1
    ensures a % m == 0
  {
  }

  // Where the wanted part of a recording ends.
  function EndOf(raw: seq<int>, s0: nat, duration: Option<nat>): nat {
    var total := |raw| / 2;
    if duration.None? || s0 + duration.value > total then total else s0 + duration.value
  }

  // decode_ci8 up to the decoder; chunk is int(chunk_s * fs). None is the ValueError of a zero step or
  // of joining no chunks.
  method DecodeCi8(raw: seq<int>, w: int -> Complex, taps: seq<real>, dec: nat, s0: nat, duration: Option<nat>,
                   chunk: nat)
    returns (r: Option<seq<Complex>>)
    requires taps != [] && dec > 0
    ensures r.None? <==> chunk < dec || EndOf(raw, s0, duration) <= s0
    ensures r.Some? ==> r.value == Thinned(Complexes(), taps, Mixed(raw, MixWith(w), s0, EndOf(raw, s0, duration)), dec)
  {
    var s1 := EndOf(raw, s0, duration);
    var step := chunk / dec * dec;
    StepIsZero(chunk, dec);
    if step == 0 || s1 <= s0 {
      return None;
    }
    var out := FilterChunks(raw, MixWith(w), taps, dec, s0, s1, step);
    r := Some(out);
  }

  lemma StepIsZero(chunk: nat, dec: nat)
    requires dec > 0
    ensures chunk / dec * dec >= 0 && (chunk / dec * dec == 0 <==> chunk < dec)
  {
    var q := chunk / dec;
    assert chunk == dec * q + chunk % dec;
    if q > 0 {
      AtLeast(dec, q);
    }
  }

  // What the decoder is given: the convolution at every dec-th sample, whatever the chunk length.
  lemma {:induction false} DecimatedIsConvolution(raw: seq<int>, mix: (int, Complex) -> Complex,
                                                  taps: seq<real>, dec: nat, s0: nat, s1: nat, j: nat)
    requires taps != [] && dec > 0 && s0 <= s1 && 2 * s1 <= |raw|
    ensures var x := Mixed(raw, mix, s0, s1);
            var out := Thinned(Complexes(), taps, x, dec);
            && |out| == Taken(s1 - s0, dec, 0)
            && (j < |out| ==> j * dec < |x| && out[j] == Sum(Complexes(), taps, x, j * dec, 0))
  {
    SpacesLawful();
    ThinnedIsConvolution(Complexes(), taps, Mixed(raw, mix, s0, s1), dec, j);
  }
}
