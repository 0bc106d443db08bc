/** CRC-16/X-25, the frame check sequence of AIS (py/fixtures/ais_ref.py). */
module AisCrc {
  import opened BitWords

  // The register is the reflected 16-bit form the decoder uses, held least significant bit first.
  // Three views of it are related here: the octet loop of crc16_x25, a method that updates a register;
  // the register fed one air-order bit at a time, Feed, which is linear over GF(2) and injective; and
  // polynomial division by x^16 + x^12 + x^5 + 1, which is how section 4.2.5 of ISO/IEC 13239 and
  // Appendix C.2 of RFC 1662 define the frame check sequence.

  // A 16-bit register, least significant bit first.
  type Register = r: Bits | |r| == 16 witness Zeros(16)

  const INIT: nat := 0xFFFF
  const REFLECTED_POLY: nat := 0x8408
  const GOOD_RESIDUE: nat := 0xF0B8

  // The powers with a one in x^16 + x^12 + x^5 + 1, counted down from x^16.
  predicate InGenerator(i: int) { i == 0 || i == 4 || i == 11 || i == 16 }

  // 0x8408, least significant bit first: the generator without its leading power, reflected.
  function Poly(): Register { seq(16, i => InGenerator(i + 1)) }

  // ------------------------------------------------------------------ octets

  // One octet in air order: least significant bit first.
  function LsbBits(o: Octet): (b: Bits)
    ensures |b| == 8
  {
    FromNat(o, 8)
  }

  // Octets as they go on the air.
  function AirBits(octets: seq<Octet>): (b: Bits)
    ensures |b| == 8 * |octets|
  {
    if octets == [] then [] else LsbBits(octets[0]) + AirBits(octets[1..])
  }

  lemma {:induction false} AirBitsConcat(a: seq<Octet>, b: seq<Octet>)
    ensures AirBits(a + b) == AirBits(a) + AirBits(b)
  {
    if a == [] {
      assert a + b == b;
    } else {
      assert (a + b)[1..] == a[1..] + b;
      AirBitsConcat(a[1..], b);
    }
  }

  // ------------------------------------------------------------------ the register

  // `crc >> 1`
  function ShiftRight(r: Register): Register { r[1..] + [false] }

  // One turn of the inner loop of crc16_x25.
  function ZeroStep(r: Register): Register {
    if r[0] then Xor(ShiftRight(r), Poly()) else ShiftRight(r)
  }

  // One register step with the data bit XORed into the low end.
  function StepBit(r: Register, b: bool): Register {
    ZeroStep(r[0 := r[0] != b])
  }

  // The register after a run of air-order bits.
  function Feed(r: Register, d: Bits): Register
    decreases |d|
  {
    if d == [] then r else Feed(StepBit(r, d[0]), d[1..])
  }

  lemma PolyIsReflectedPoly()
    ensures ToNat(Poly()) == REFLECTED_POLY
  {
    var p := Poly();
    assert p[..4] == [false, false, false, true];
    assert p[4..8] == Zeros(4);
    assert p[8..12] == [false, false, true, false];
    assert p[12..] == [false, false, false, true];
    ToNat16(p);
    ToNatNibble(p[..4]);
    ToNatNibble(p[4..8]);
    ToNatNibble(p[8..12]);
    ToNatNibble(p[12..]);
  }

  lemma {:induction false} FeedConcat(r: Register, a: Bits, b: Bits)
    ensures Feed(r, a + b) == Feed(Feed(r, a), b)
    decreases |a|
  {
    if a == [] {
      assert a + b == b;
    } else {
      assert (a + b)[1..] == a[1..] + b;
      FeedConcat(StepBit(r, a[0]), a[1..], b);
    }
  }

  lemma StepLinear(r: Register, s: Register, a: bool, b: bool)
    ensures StepBit(Xor(r, s), a != b) == Xor(StepBit(r, a), StepBit(s, b))
  {
  }

  // The register is linear: a damaged frame's register is the clean one XOR the error's own.
  lemma {:induction false} FeedLinear(r: Register, s: Register, a: Bits, b: Bits)
    requires |a| == |b|
    ensures Feed(Xor(r, s), Xor(a, b)) == Xor(Feed(r, a), Feed(s, b))
    decreases |a|
  {
    if a != [] {
      StepLinear(r, s, a[0], b[0]);
      assert Xor(a, b)[1..] == Xor(a[1..], b[1..]);
      FeedLinear(StepBit(r, a[0]), StepBit(s, b[0]), a[1..], b[1..]);
    }
  }

  // The feedback bit can be read off the new top bit, so one step loses nothing.
  lemma StepInjective(r: Register, s: Register, b: bool)
    requires StepBit(r, b) == StepBit(s, b)
    ensures r == s
  {
    var u, v := StepBit(r, b), StepBit(s, b);
    assert r[0] == (u[15] != b) && s[0] == (v[15] != b);
    forall i | 1 <= i < 16 ensures r[i] == s[i] {
      assert u[i - 1] == (r[i] != (u[15] && Poly()[i - 1]));
      assert v[i - 1] == (s[i] != (v[15] && Poly()[i - 1]));
    }
  }

  lemma {:induction false} FeedInjective(r: Register, s: Register, d: Bits)
    requires Feed(r, d) == Feed(s, d)
    ensures r == s
    decreases |d|
  {
    if d != [] {
      FeedInjective(StepBit(r, d[0]), StepBit(s, d[0]), d[1..]);
      StepInjective(r, s, d[0]);
    }
  }

  lemma {:induction false} FeedZeros(n: nat)
    ensures Feed(Zeros(16), Zeros(n)) == Zeros(16)
  {
    if n != 0 {
      assert Zeros(n)[1..] == Zeros(n - 1);
      assert StepBit(Zeros(16), false) == Zeros(16);
      FeedZeros(n - 1);
    }
  }

  // ------------------------------------------------------------------ the octet loop

  function ZeroSteps(r: Register, n: nat): Register
    decreases n
  {
    if n == 0 then r else ZeroSteps(ZeroStep(r), n - 1)
  }

  // `crc ^= byte`, then eight turns.
  function OctetStep(r: Register, o: Octet): Register {
    ZeroSteps(Xor(r, LsbBits(o) + Zeros(8)), 8)
  }

  function FeedOctets(r: Register, data: seq<Octet>): Register
    decreases |data|
  {
    if data == [] then r else FeedOctets(OctetStep(r, data[0]), data[1..])
  }

  // XORing n bits into the low end and clocking n times is feeding them one at a time.
  lemma {:induction false} PreloadIsFeed(r: Register, b: Bits)
    requires |b| <= 16
    ensures ZeroSteps(Xor(r, b + Zeros(16 - |b|)), |b|) == Feed(r, b)
    decreases |b|
  {
    var n := |b|;
    if n == 0 {
      assert Xor(r, b + Zeros(16)) == r;
    } else {
      var x := Xor(r, b + Zeros(16 - n));
      var rest := b[1..] + Zeros(16 - (n - 1));
      assert ZeroStep(x) == Xor(StepBit(r, b[0]), rest) by {
        assert x[0] == (r[0] != b[0]);
        var y := r[0 := r[0] != b[0]];
        forall i | 0 <= i < 15 ensures x[i + 1] == (y[i + 1] != rest[i]) {
        }
        assert !rest[15];
      }
      PreloadIsFeed(StepBit(r, b[0]), b[1..]);
    }
  }

  // The octet loop runs the register over the air-order bits.
  lemma {:induction false} FeedOctetsIsFeed(r: Register, data: seq<Octet>)
    ensures FeedOctets(r, data) == Feed(r, AirBits(data))
    decreases |data|
  {
    if data != [] {
      PreloadIsFeed(r, LsbBits(data[0]));
      FeedConcat(r, LsbBits(data[0]), AirBits(data[1..]));
      FeedOctetsIsFeed(OctetStep(r, data[0]), data[1..]);
    }
  }

  lemma {:induction false} FeedOctetsSnoc(r: Register, data: seq<Octet>, o: Octet)
    ensures FeedOctets(r, data + [o]) == OctetStep(FeedOctets(r, data), o)
    decreases |data|
  {
    if data == [] {
      assert data + [o] == [o];
    } else {
      assert (data + [o])[1..] == data[1..] + [o];
      FeedOctetsSnoc(OctetStep(r, data[0]), data[1..], o);
    }
  }

  lemma {:induction false} ZeroStepsSnoc(r: Register, n: nat)
    ensures ZeroSteps(r, n + 1) == ZeroStep(ZeroSteps(r, n))
    decreases n
  {
    if n != 0 {
      ZeroStepsSnoc(ZeroStep(r), n - 1);
    }
  }

  // The value crc16_x25 returns: the complement of the register run over the data's air-order bits.
  function Crc(data: seq<Octet>): nat {
    ToNat(Invert(Feed(Ones(16), AirBits(data))))
  }

  // The register as the integer the source holds: `crc >> 1`, `crc & 1` and `^ 0x8408`.
  lemma RegisterShift(r: Register)
    ensures ToNat(ShiftRight(r)) == ToNat(r) / 2 && (ToNat(r) % 2 == 1 <==> r[0])
  {
    ToNatConcat(r[1..], [false]);
    ShiftLeftZero(15);
    assert ToNat([false]) == 0;
  }

  lemma {:induction false} ShiftLeftZero(n: nat)
    ensures ShiftLeft(0, n) == 0
  {
    if n > 0 {
      ShiftLeftZero(n - 1);
    }
  }

  lemma RegisterStep(r: Register)
    ensures ToNat(ZeroStep(r)) == if ToNat(r) % 2 == 1 then ExOr(ToNat(r) / 2, REFLECTED_POLY) else ToNat(r) / 2
  {
    RegisterShift(r);
    PolyIsReflectedPoly();
    XorIsExOr(ShiftRight(r), Poly());
  }

  // `crc ^= byte`
  lemma RegisterLoad(r: Register, o: Octet)
    ensures ToNat(Xor(r, LsbBits(o) + Zeros(8))) == ExOr(ToNat(r), o)
  {
    XorIsExOr(r, LsbBits(o) + Zeros(8));
    ToNatConcat(LsbBits(o), Zeros(8));
    Pow2Table();
    ToFromNat(o, 8);
    ZerosAreZero(8);
    ShiftLeftZero(8);
  }

  lemma {:induction false} ZerosAreZero(n: nat)
    ensures ToNat(Zeros(n)) == 0
  {
    if n > 0 {
      assert Zeros(n)[1..] == Zeros(n - 1);
      ZerosAreZero(n - 1);
    }
  }

  lemma OnesAreInit()
    ensures ToNat(Ones(16)) == INIT
  {
    var p := Ones(16);
    assert p[..4] == Ones(4) && p[4..8] == Ones(4) && p[8..12] == Ones(4) && p[12..] == Ones(4);
    ToNat16(p);
    ToNatNibble(Ones(4));
  }

  // `crc ^ 0xFFFF`
  lemma Complement(r: Register)
    ensures ExOr(ToNat(r), INIT) == ToNat(Invert(r))
  {
    OnesAreInit();
    XorIsExOr(r, Ones(16));
    assert Xor(r, Ones(16)) == Invert(r);
  }

  // The inner loop of crc16_x25.
  method ClockOctet(start: nat, ghost loaded: Register) returns (crc: nat)
    requires start == ToNat(loaded)
    ensures crc == ToNat(ZeroSteps(loaded, 8))
  {
    crc := start;
    for k := 0 to 8
      invariant crc == ToNat(ZeroSteps(loaded, k))
    {
      ZeroStepsSnoc(loaded, k);
      RegisterStep(ZeroSteps(loaded, k));
      crc := if crc % 2 == 1 then ExOr(crc / 2, REFLECTED_POLY) else crc / 2;
    }
  }

  // py/fixtures/ais_ref.py: crc16_x25
  method Crc16X25(data: seq<Octet>) returns (crc: nat)
    ensures crc == Crc(data)
  {
    crc := INIT;
    ghost var reg: Register := Ones(16);
    OnesAreInit();
    for i := 0 to |data|
      invariant reg == FeedOctets(Ones(16), data[..i]) && crc == ToNat(reg)
    {
      RegisterLoad(reg, data[i]);
      crc := ExOr(crc, data[i]);
      crc := ClockOctet(crc, Xor(reg, LsbBits(data[i]) + Zeros(8)));
      NextOctet(data, i);
      reg := OctetStep(reg, data[i]);
    }
    assert data[..|data|] == data;
    FeedOctetsIsFeed(Ones(16), data);
    Complement(reg);
    crc := ExOr(crc, INIT);
  }

  lemma NextOctet(data: seq<Octet>, i: nat)
    requires i < |data|
    ensures FeedOctets(Ones(16), data[..i + 1]) == OctetStep(FeedOctets(Ones(16), data[..i]), data[i])
  {
    assert data[..i + 1] == data[..i] + [data[i]];
    FeedOctetsSnoc(Ones(16), data[..i], data[i]);
  }

  // ------------------------------------------------------------------ polynomial division
  // A polynomial over GF(2) is its coefficients, highest power first.

  function At(p: Bits, i: int): bool { 0 <= i < |p| && p[i] }

  // q(x) * (x^16 + x^12 + x^5 + 1)
  function TimesGenerator(q: Bits): (p: Bits)
    ensures |p| == |q| + 16
  {
    seq(|q| + 16, i requires 0 <= i < |q| + 16 => ((At(q, i) != At(q, i - 4)) != At(q, i - 11)) != At(q, i - 16))
  }

  // p = q * generator + r for some q: r is the remainder of p, r having degree below 16.
  ghost predicate IsQuotient(p: Bits, q: Bits, r: Register) {
    |q| + 16 == |p| && p == Xor(TimesGenerator(q), Zeros(|q|) + r)
  }

  ghost predicate IsRemainder(p: Bits, r: Register) {
    exists q :: IsQuotient(p, q, r)
  }

  // d(x) * x^16 + init(x) * x^|d|: what the frame check sequence of d is taken of.
  function Dividend(init: Register, d: Bits): (p: Bits)
    ensures |p| == |d| + 16
  {
    Xor(d + Zeros(16), init + Zeros(|d|))
  }

  // The feedback bits of a run, which are the quotient's coefficients.
  function Feedback(r: Register, d: Bits): (q: Bits)
    ensures |q| == |d|
    decreases |d|
  {
    if d == [] then [] else [r[0] != d[0]] + Feedback(StepBit(r, d[0]), d[1..])
  }

  lemma StepBitAt(r: Register, b: bool, k: nat)
    requires k < 16
    ensures StepBit(r, b)[k] == ((k < 15 && r[k + 1]) != ((r[0] != b) && InGenerator(k + 1)))
  {
  }

  lemma DividendAt(r: Register, d: Bits, i: nat)
    requires i < |d| + 16
    ensures Dividend(r, d)[i] == ((i < |d| && d[i]) != (i < 16 && r[i]))
  {
  }

  lemma TimesGeneratorAt(q: Bits, i: nat)
    requires q != [] && i < |q| + 16
    ensures TimesGenerator(q)[i] ==
            ((i <= 16 && q[0] && InGenerator(i)) != (i > 0 && TimesGenerator(q[1..])[i - 1]))
  {
    var t := q[1..];
    assert forall k: int :: At(q, k) == if k == 0 then q[0] else At(t, k - 1);
  }

  // One place of the long division: the row below it is the same division one bit on. The rows are
  // given as the values they hold there.
  lemma DivideAt(r: Register, d: Bits, i: nat, below: bool, product: bool, row: bool)
    requires d != [] && i < |d| + 16
    requires i > 0 ==> below == ((i < |d| && d[i]) != (i <= 16 && StepBit(r, d[0])[i - 1]))
    requires i == 0 ==> !product && !row
    requires i > 0 ==> below == (product != row)
    ensures ((i < |d| && d[i]) != (i < 16 && r[i])) ==
            (((i <= 16 && (r[0] != d[0]) && InGenerator(i)) != product) != row)
  {
    if i == 0 {
    } else if i <= 16 {
      StepBitAt(r, d[0], i - 1);
    }
  }

  lemma DivideRow(r: Register, d: Bits, q: Bits, rem: Register, i: nat)
    requires d != [] && |q| == |d| && q[0] == (r[0] != d[0]) && i < |d| + 16
    requires IsQuotient(Dividend(StepBit(r, d[0]), d[1..]), q[1..], rem)
    ensures Dividend(r, d)[i] == (TimesGenerator(q)[i] != (Zeros(|d|) + rem)[i])
  {
    DividendAt(r, d, i);
    TimesGeneratorAt(q, i);
    if i == 0 {
      DivideAt(r, d, i, false, false, false);
    } else {
      var s, t := StepBit(r, d[0]), d[1..];
      DividendAt(s, t, i - 1);
      var product, row := TimesGenerator(q[1..])[i - 1], (Zeros(|t|) + rem)[i - 1];
      assert (Zeros(|d|) + rem)[i] == row;
      DivideAt(r, d, i, Dividend(s, t)[i - 1], product, row);
    }
  }

  // The register run is long division: quotient Feedback, remainder the final register.
  lemma {:induction false} FeedDivides(r: Register, d: Bits)
    ensures IsQuotient(Dividend(r, d), Feedback(r, d), Feed(r, d))
    decreases |d|
  {
    var q, rem := Feedback(r, d), Feed(r, d);
    if d == [] {
      NothingDivides(r);
    } else {
      FeedDivides(StepBit(r, d[0]), d[1..]);
      assert q[1..] == Feedback(StepBit(r, d[0]), d[1..]);
      forall i | 0 <= i < |d| + 16
        ensures Dividend(r, d)[i] == Xor(TimesGenerator(q), Zeros(|d|) + rem)[i]
      {
        DivideRow(r, d, q, rem, i);
      }
    }
  }

  lemma NothingDivides(r: Register)
    ensures IsQuotient(Dividend(r, []), [], r)
  {
    var p, product := Dividend(r, []), Xor(TimesGenerator([]), Zeros(0) + r);
    forall i | 0 <= i < 16 ensures p[i] == product[i] {
      DividendAt(r, [], i);
      NoProduct(i);
      assert (Zeros(0) + r)[i] == r[i];
    }
  }

  lemma NoProduct(i: nat)
    requires i < 16
    ensures !TimesGenerator([])[i]
  {
    assert !At([], i) && !At([], i - 4) && !At([], i - 11) && !At([], i - 16);
  }

  // The register is the remainder of the division, and the only one.
  lemma FeedIsRemainder(r: Register, d: Bits, rem: Register)
    ensures IsRemainder(Dividend(r, d), rem) <==> rem == Feed(r, d)
  {
    FeedDivides(r, d);
    if rem == Feed(r, d) {
      assert IsQuotient(Dividend(r, d), Feedback(r, d), rem);
    }
    forall q | IsQuotient(Dividend(r, d), q, rem) ensures rem == Feed(r, d) {
      QuotientUnique(Dividend(r, d), q, rem, Feedback(r, d), Feed(r, d));
    }
  }

  // Two divisions of one polynomial agree place by place from the top down.
  lemma {:induction false} QuotientsAgree(p: Bits, q: Bits, r: Register, q': Bits, r': Register, n: nat)
    requires IsQuotient(p, q, r) && IsQuotient(p, q', r') && n <= |q|
    ensures q[..n] == q'[..n]
  {
    if n != 0 {
      var i := n - 1;
      QuotientsAgree(p, q, r, q', r', i);
      AgreeAt(p, q, r, q', r', i);
      assert q[..n] == q[..i] + [q[i]] && q'[..n] == q'[..i] + [q'[i]];
    }
  }

  lemma AgreeAt(p: Bits, q: Bits, r: Register, q': Bits, r': Register, i: nat)
    requires IsQuotient(p, q, r) && IsQuotient(p, q', r') && i < |q| && q[..i] == q'[..i]
    ensures q[i] == q'[i]
  {
    QuotientPlace(p, q, r, i);
    QuotientPlace(p, q', r', i);
    EarlierPlaces(q, q', i, i - 4);
    EarlierPlaces(q, q', i, i - 11);
    EarlierPlaces(q, q', i, i - 16);
  }

  lemma QuotientPlace(p: Bits, q: Bits, r: Register, i: nat)
    requires IsQuotient(p, q, r) && i < |q|
    ensures p[i] == (((q[i] != At(q, i - 4)) != At(q, i - 11)) != At(q, i - 16))
  {
    assert !(Zeros(|q|) + r)[i];
    assert p[i] == (TimesGenerator(q)[i] != (Zeros(|q|) + r)[i]);
  }

  lemma EarlierPlaces(q: Bits, q': Bits, i: nat, k: int)
    requires i <= |q| && i <= |q'| && q[..i] == q'[..i] && k < i
    ensures At(q, k) == At(q', k)
  {
    if k >= 0 {
      assert q[k] == q[..i][k] && q'[k] == q'[..i][k];
    }
  }

  lemma QuotientUnique(p: Bits, q: Bits, r: Register, q': Bits, r': Register)
    requires IsQuotient(p, q, r) && IsQuotient(p, q', r')
    ensures q == q' && r == r'
  {
    var n := |q|;
    QuotientsAgree(p, q, r, q', r', n);
    assert q == q[..n] && q' == q'[..n];
    forall i | 0 <= i < 16 ensures r[i] == r'[i] {
      assert p[n + i] == (TimesGenerator(q)[n + i] != (Zeros(n) + r)[n + i]);
      assert p[n + i] == (TimesGenerator(q)[n + i] != (Zeros(n) + r')[n + i]);
    }
  }

  // ------------------------------------------------------------------ the residue

  // The bits of 0xF0B8, least significant first.
  function GoodRegister(): Register { seq(16, i => 3 <= i <= 5 || i == 7 || 12 <= i) }

  lemma GoodRegisterIsGoodResidue()
    ensures ToNat(GoodRegister()) == GOOD_RESIDUE
  {
    var p := GoodRegister();
    assert p[..4] == [false, false, false, true];
    assert p[4..8] == [true, true, false, true];
    assert p[8..12] == Zeros(4);
    assert p[12..] == Ones(4);
    ToNat16(p);
    ToNatNibble(p[..4]);
    ToNatNibble(p[4..8]);
    ToNatNibble(p[8..12]);
    ToNatNibble(p[12..]);
  }

  // x^31 + ... + x^16 divided: one place.
  lemma OnesDivideAt(q: Bits, r: Register, i: nat)
    requires q == seq(16, i => i < 4 || 8 <= i < 11 || 12 <= i) && r == GoodRegister() && i < 32
    ensures Xor(TimesGenerator(q), Zeros(16) + r)[i] == (i < 16)
  {
    var row := Zeros(16) + r;
    assert row[i] == (i >= 16 && (19 <= i <= 21 || i == 23 || 28 <= i));
    assert forall k: int :: At(q, k) == (0 <= k < 16 && (k < 4 || 8 <= k < 11 || 12 <= k));
    assert TimesGenerator(q)[i] == (((At(q, i) != At(q, i - 4)) != At(q, i - 11)) != At(q, i - 16));
  }

  // Sixteen clocks turn the all-ones register into 0xF0B8.
  lemma OnesClockedIsGood()
    ensures Feed(Ones(16), Zeros(16)) == GoodRegister()
  {
    var q := seq(16, i => i < 4 || 8 <= i < 11 || 12 <= i);
    var p, r := Dividend(Ones(16), Zeros(16)), GoodRegister();
    forall i | 0 <= i < 32 ensures p[i] == Xor(TimesGenerator(q), Zeros(16) + r)[i] {
      DividendAt(Ones(16), Zeros(16), i);
      OnesDivideAt(q, r, i);
    }
    assert IsQuotient(p, q, r);
    FeedIsRemainder(Ones(16), Zeros(16), r);
  }

  // Feeding a register 16 bits is XORing them in and clocking 16 times.
  lemma FeedSixteen(c: Register, w: Register)
    ensures Feed(c, w) == Feed(Xor(c, w), Zeros(16))
  {
    assert w + Zeros(0) == w && Xor(c, w) == Xor(Xor(c, w), Zeros(16) + Zeros(0));
    PreloadIsFeed(c, w);
    PreloadIsFeed(Xor(c, w), Zeros(16));
  }

  // Appendix C.2 of RFC 1662: over data and check sequence together the register ends at 0xF0B8
  // exactly when the check sequence is the data's.
  lemma ResidueIff(data: Bits, w: Register)
    ensures Feed(Ones(16), data + w) == GoodRegister() <==> w == Invert(Feed(Ones(16), data))
  {
    var c := Feed(Ones(16), data);
    FeedConcat(Ones(16), data, w);
    FeedSixteen(c, w);
    OnesClockedIsGood();
    if Feed(Xor(c, w), Zeros(16)) == GoodRegister() {
      FeedInjective(Xor(c, w), Ones(16), Zeros(16));
      forall i | 0 <= i < 16 ensures w[i] == Invert(c)[i] {
        assert Xor(c, w)[i] == Ones(16)[i];
      }
    }
    if w == Invert(c) {
      assert Xor(c, w) == Ones(16);
    }
  }

  // ------------------------------------------------------------------ errors

  // Every one in e falls inside some 16 consecutive places.
  ghost predicate ShortBurst(e: Bits) {
    forall i, j :: 0 <= i < |e| && 0 <= j < |e| && e[i] && e[j] ==> i - j < 16
  }

  // True when e has an odd number of ones.
  function Odd(e: Bits): bool
    decreases |e|
  {
    if e == [] then false else e[0] != Odd(e[1..])
  }

  // A pattern of at most 16 bits leaves a zero register only when it is zero: a nonzero multiple of
  // the generator is longer, its first and last ones being at least 16 places apart.
  lemma ShortIsSeen(b: Bits)
    requires |b| <= 16
    ensures Feed(Zeros(16), b) == Zeros(16) <==> b == Zeros(|b|)
  {
    FeedZeros(|b|);
    if Feed(Zeros(16), b) == Zeros(16) {
      FeedDivides(Zeros(16), b);
      DividendOfZero(b);
      ShortMultipleIsZero(b + Zeros(16), Feedback(Zeros(16), b));
      assert b == (b + Zeros(16))[..|b|] == Zeros(|b|);
    }
  }

  lemma DividendOfZero(d: Bits)
    ensures Dividend(Zeros(16), d) == d + Zeros(16)
  {
  }

  lemma ShortMultipleIsZero(p: Bits, q: Bits)
    requires IsQuotient(p, q, Zeros(16)) && |q| <= 16
    requires forall i :: |q| <= i < |p| ==> !p[i]
    ensures p == Zeros(|p|)
  {
    LastOnes(p, q, |q|);
    assert forall k: int :: !At(q, k);
    assert TimesGenerator(q) == Zeros(|p|);
  }

  // A multiple of the generator with nothing in its lowest 16 places is zero.
  lemma {:induction false} LastOnes(p: Bits, q: Bits, n: nat)
    requires IsQuotient(p, q, Zeros(16)) && n <= |q|
    requires forall i :: |q| <= i < |p| ==> !p[i]
    requires |q| <= 16
    ensures forall i :: |q| - n <= i < |q| ==> !q[i]
  {
    if n != 0 {
      LastOnes(p, q, n - 1);
      var i := |q| - n;
      assert p[i + 16] == (TimesGenerator(q)[i + 16] != (Zeros(|q|) + Zeros(16))[i + 16]);
    }
  }

  lemma {:induction false} BurstIsSeen(e: Bits, i: nat)
    requires ShortBurst(e) && i < |e| && e[i]
    ensures Feed(Zeros(16), e) != Zeros(16)
    decreases |e|
  {
    var z := Zeros(16);
    if !e[0] {
      assert StepBit(z, false) == z;
      assert ShortBurst(e[1..]) by {
        forall j, k | 0 <= j < |e[1..]| && 0 <= k < |e[1..]| && e[1..][j] && e[1..][k] ensures j - k < 16 {
          assert e[j + 1] && e[k + 1];
        }
      }
      BurstIsSeen(e[1..], i - 1);
    } else {
      LeadingBurstIsSeen(e);
    }
  }

  lemma LeadingBurstIsSeen(e: Bits)
    requires ShortBurst(e) && e != [] && e[0]
    ensures Feed(Zeros(16), e) != Zeros(16)
  {
    var n := if |e| < 16 then |e| else 16;
    var b, rest := e[..n], e[n..];
    assert b[0] && e == b + rest;
    forall j | 0 <= j < |rest| ensures !rest[j] {
      assert rest[j] == e[n + j];
    }
    assert rest == Zeros(|rest|);
    ShortIsSeen(b);
    FeedConcat(Zeros(16), b, rest);
    FeedZerosInjective(Feed(Zeros(16), b), |rest|);
  }

  lemma FeedZerosInjective(r: Register, n: nat)
    ensures Feed(r, Zeros(n)) == Zeros(16) <==> r == Zeros(16)
  {
    FeedZeros(n);
    if Feed(r, Zeros(n)) == Zeros(16) {
      FeedInjective(r, Zeros(16), Zeros(n));
    }
  }

  lemma {:induction false} OddConcat(a: Bits, b: Bits)
    ensures Odd(a + b) == (Odd(a) != Odd(b))
    decreases |a|
  {
    if a == [] {
      assert a + b == b;
    } else {
      assert (a + b)[1..] == a[1..] + b;
      OddConcat(a[1..], b);
    }
  }

  lemma {:induction false} OddXor(a: Bits, b: Bits)
    requires |a| == |b|
    ensures Odd(Xor(a, b)) == (Odd(a) != Odd(b))
    decreases |a|
  {
    if a != [] {
      assert Xor(a, b)[1..] == Xor(a[1..], b[1..]);
      OddXor(a[1..], b[1..]);
    }
  }

  lemma {:induction false} OddZeros(n: nat)
    ensures !Odd(Zeros(n))
  {
    if n != 0 {
      assert Zeros(n)[1..] == Zeros(n - 1);
      OddZeros(n - 1);
    }
  }

  lemma PolyIsOdd()
    ensures Odd(Poly())
  {
    var p := Poly();
    var a, b, c := Zeros(3) + [true], Zeros(6) + [true], Zeros(4) + [true];
    assert p == a + b + c;
    OddConcat(a + b, c);
    OddConcat(a, b);
    OddConcat(Zeros(3), [true]);
    OddConcat(Zeros(6), [true]);
    OddConcat(Zeros(4), [true]);
    OddZeros(3);
    OddZeros(6);
    OddZeros(4);
    assert Odd([true]);
  }

  // x + 1 divides the generator, so a step changes the register's parity by the bit it takes in.
  lemma StepParity(r: Register, b: bool)
    ensures Odd(StepBit(r, b)) == (Odd(r) != b)
  {
    var x := r[0 := r[0] != b];
    assert x[1..] == r[1..];
    assert Odd(x) == (Odd(r) != b);
    OddConcat(x[1..], [false]);
    assert !Odd([false]);
    OddXor(ShiftRight(x), Poly());
    PolyIsOdd();
  }

  lemma {:induction false} FeedParity(r: Register, d: Bits)
    ensures Odd(Feed(r, d)) == (Odd(r) != Odd(d))
    decreases |d|
  {
    if d != [] {
      StepParity(r, d[0]);
      FeedParity(StepBit(r, d[0]), d[1..]);
    }
  }

  lemma HasOne(f: Bits)
    ensures f == Zeros(|f|) || exists i :: 0 <= i < |f| && f[i]
  {
    if forall i :: 0 <= i < |f| ==> !f[i] {
      assert f == Zeros(|f|);
    }
  }

  // An error the register sees moves an accepted string off the residue.
  lemma SeenIsRejected(d: Bits, e: Bits)
    requires |d| == |e| && Feed(Ones(16), d) == GoodRegister() && Feed(Zeros(16), e) != Zeros(16)
    ensures Feed(Ones(16), Xor(d, e)) != GoodRegister()
  {
    FeedLinear(Ones(16), Zeros(16), d, e);
    assert Xor(Ones(16), Zeros(16)) == Ones(16);
    var g, f := GoodRegister(), Feed(Zeros(16), e);
    HasOne(f);
    var i :| 0 <= i < 16 && f[i];
    assert Xor(g, f)[i] != g[i];
  }
}
