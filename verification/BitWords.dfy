/** Bit strings and the integers they stand for.

The decoders in py/fixtures hold bits in arrays and move them in and out of Python integers with
shifts, masks and exclusive or. Here a bit string is a `seq<bool>`, and the two readings the sources
use, least significant bit first and most significant bit first, are total functions to `nat`. */
module BitWords {

  // A run of bits, in the order the source array holds them.
  type Bits = seq<bool>

  type Octet = o: nat | o < 256

  function Bit(b: bool): nat { if b then 1 else 0 }

  function Zeros(n: nat): (z: Bits)
    ensures |z| == n
  {
    seq(n, _ => false)
  }

  function Ones(n: nat): (z: Bits)
    ensures |z| == n
  {
    seq(n, _ => true)
  }

  function Invert(a: Bits): (b: Bits)
    ensures |b| == |a|
  {
    seq(|a|, i requires 0 <= i < |a| => !a[i])
  }

  // Bitwise exclusive or of two strings of one length.
  function Xor(a: Bits, b: Bits): (c: Bits)
    requires |a| == |b|
    ensures |c| == |a|
  {
    seq(|a|, i requires 0 <= i < |a| => a[i] != b[i])
  }

  function Pow2(n: nat): (p: nat)
    ensures p >= 1
  {
    if n == 0 then 1 else 2 * Pow2(n - 1)
  }

  lemma Pow2Table()
    ensures Pow2(4) == 16 && Pow2(8) == 256 && Pow2(16) == 65536
  {
    assert Pow2(4) == 2 * Pow2(3) == 4 * Pow2(2) == 16;
    assert Pow2(8) == 2 * Pow2(7) == 4 * Pow2(6) == 8 * Pow2(5) == 16 * Pow2(4);
    assert Pow2(12) == 2 * Pow2(11) == 4 * Pow2(10) == 8 * Pow2(9) == 16 * Pow2(8);
    assert Pow2(16) == 2 * Pow2(15) == 4 * Pow2(14) == 8 * Pow2(13) == 16 * Pow2(12);
  }

  // ------------------------------------------------------------------ exclusive or of integers

  function Differ(v: nat, t: nat): nat { if v == t then 0 else 1 }

  // x ^ y
  function ExOr(x: nat, y: nat): nat
    decreases x + y
  {
    if x == 0 && y == 0 then 0 else 2 * ExOr(x / 2, y / 2) + Differ(x % 2, y % 2)
  }

  lemma ExOrBit(x: nat, u: nat, v: nat, y: nat, w: nat, t: nat)
    requires v < 2 && t < 2 && x == 2 * u + v && y == 2 * w + t
    ensures ExOr(x, y) == 2 * ExOr(u, w) + Differ(v, t)
  {
    assert x / 2 == u && x % 2 == v && y / 2 == w && y % 2 == t;
  }

  // ------------------------------------------------------------------ least significant bit first

  // sum(bit[k] << k)
  function ToNat(b: Bits): nat {
    if b == [] then 0 else Bit(b[0]) + 2 * ToNat(b[1..])
  }

  // The low n bits of v.
  function FromNat(v: nat, n: nat): (b: Bits)
    ensures |b| == n
  {
    if n == 0 then [] else [v % 2 == 1] + FromNat(v / 2, n - 1)
  }

  lemma {:induction false} ToNatBound(b: Bits)
    ensures ToNat(b) < Pow2(|b|)
  {
    if b != [] {
      ToNatBound(b[1..]);
    }
  }

  lemma {:induction false} FromToNat(b: Bits)
    ensures FromNat(ToNat(b), |b|) == b
  {
    if b != [] {
      FromToNat(b[1..]);
      assert ToNat(b) / 2 == ToNat(b[1..]);
      assert [b[0]] + b[1..] == b;
    }
  }

  lemma {:induction false} ToFromNat(v: nat, n: nat)
    requires v < Pow2(n)
    ensures ToNat(FromNat(v, n)) == v
    decreases n
  {
    if n != 0 {
      ToFromNat(v / 2, n - 1);
      assert FromNat(v, n)[1..] == FromNat(v / 2, n - 1);
    }
  }

  // Two bit strings of one length are the same string when they are the same integer.
  lemma ToNatInjective(a: Bits, b: Bits)
    requires |a| == |b|
    ensures ToNat(a) == ToNat(b) <==> a == b
  {
    FromToNat(a);
    FromToNat(b);
  }

  // v << n
  function ShiftLeft(v: nat, n: nat): nat {
    if n == 0 then v else 2 * ShiftLeft(v, n - 1)
  }

  // The value of a concatenation: `lo | (hi << 8)` when lo has 8 bits.
  lemma {:induction false} ToNatConcat(a: Bits, b: Bits)
    ensures ToNat(a + b) == ToNat(a) + ShiftLeft(ToNat(b), |a|)
  {
    if a == [] {
      assert a + b == b;
    } else {
      assert (a + b)[1..] == a[1..] + b;
      ToNatConcat(a[1..], b);
    }
  }

  lemma ShiftLeftTable(v: nat)
    ensures ShiftLeft(v, 4) == 16 * v && ShiftLeft(v, 8) == 256 * v
  {
    assert ShiftLeft(v, 4) == 2 * ShiftLeft(v, 3) == 4 * ShiftLeft(v, 2) == 8 * ShiftLeft(v, 1);
    assert ShiftLeft(v, 8) == 2 * ShiftLeft(v, 7) == 4 * ShiftLeft(v, 6) == 8 * ShiftLeft(v, 5);
  }

  // The exclusive or of two strings stands for the exclusive or of their integers.
  lemma {:induction false} XorIsExOr(a: Bits, b: Bits)
    requires |a| == |b|
    ensures ToNat(Xor(a, b)) == ExOr(ToNat(a), ToNat(b))
  {
    if a != [] {
      var a', b', c := a[1..], b[1..], Xor(a, b);
      XorIsExOr(a', b');
      assert c[1..] == Xor(a', b');
      ExOrBit(ToNat(a), ToNat(a'), Bit(a[0]), ToNat(b), ToNat(b'), Bit(b[0]));
    }
  }

  // The value of four bits.
  lemma ToNatNibble(b: Bits)
    requires |b| == 4
    ensures ToNat(b) == Bit(b[0]) + 2 * Bit(b[1]) + 4 * Bit(b[2]) + 8 * Bit(b[3])
  {
    var c, d, e, f := b[1..], b[2..], b[3..], b[4..];
    assert c[1..] == d && d[1..] == e && e[1..] == f && f == [];
    assert ToNat(e) == Bit(b[3]) + 2 * ToNat(f);
    assert ToNat(d) == Bit(b[2]) + 2 * ToNat(e);
    assert ToNat(c) == Bit(b[1]) + 2 * ToNat(d);
  }

  // The value of sixteen bits, four at a time.
  lemma ToNat16(b: Bits)
    requires |b| == 16
    ensures ToNat(b) == ToNat(b[..4]) + 16 * ToNat(b[4..8]) + 256 * ToNat(b[8..12]) + 4096 * ToNat(b[12..])
  {
    ShiftLeftTable(ToNat(b[4..]));
    ShiftLeftTable(ToNat(b[8..]));
    ShiftLeftTable(ToNat(b[12..]));
    assert b == b[..4] + b[4..] && b[4..] == b[4..8] + b[8..] && b[8..] == b[8..12] + b[12..];
    ToNatConcat(b[..4], b[4..]);
    ToNatConcat(b[4..8], b[8..]);
    ToNatConcat(b[8..12], b[12..]);
  }

  // ------------------------------------------------------------------ most significant bit first

  // int(string, 2), and 0 for the empty string.
  function Uint(b: Bits): nat {
    if b == [] then 0 else 2 * Uint(b[..|b| - 1]) + Bit(b[|b| - 1])
  }

  function UintBits(v: nat, n: nat): (b: Bits)
    ensures |b| == n
  {
    if n == 0 then [] else UintBits(v / 2, n - 1) + [v % 2 == 1]
  }

  lemma {:induction false} UintRoundTrip(v: nat, n: nat)
    requires v < Pow2(n)
    ensures Uint(UintBits(v, n)) == v
    decreases n
  {
    if n != 0 {
      UintRoundTrip(v / 2, n - 1);
      assert UintBits(v, n)[..n - 1] == UintBits(v / 2, n - 1);
    }
  }

  lemma {:induction false} UintBound(b: Bits)
    ensures Uint(b) < Pow2(|b|)
  {
    if b != [] {
      UintBound(b[..|b| - 1]);
    }
  }

  lemma {:induction false} UintBitsRoundTrip(b: Bits)
    ensures UintBits(Uint(b), |b|) == b
  {
    if b != [] {
      var n, front := |b| - 1, b[..|b| - 1];
      var v, u := Uint(b), Uint(front);
      UintBitsRoundTrip(front);
      assert v / 2 == u && (v % 2 == 1) == b[n];
      assert UintBits(v, n + 1) == UintBits(u, n) + [b[n]];
      assert front + [b[n]] == b;
    }
  }
}
