/** The population count of the sync searches (py/fixtures/dmr_ref.py, py/fixtures/flex_ref.py:
_popcount64, _popcount32).

An unsigned word of n octets is a `nat` below 256^n; the operators that can wrap say so. The lemmas
about masks go digit by digit: masking and adding neighbours keeps, in each lane of 2, 4 and then 8
bits, the number of ones in that lane of the original word. */
module SyncWords {
  import opened Division

  // ------------------------------------------------------------------ operators on words

  function Both(v: nat, t: nat): nat { if v == 1 && t == 1 then 1 else 0 }

  // x & y
  function And(x: nat, y: nat): nat {
    if x == 0 || y == 0 then 0 else 2 * And(x / 2, y / 2) + Both(x % 2, y % 2)
  }

  // The digit d in each of k places of base b: 0x5555 is 1 in base 4.
  function Repeated(d: nat, b: nat, k: nat): nat {
    if k == 0 then 0 else d + b * Repeated(d, b, k - 1)
  }

  // 256^n: words of n octets are taken modulo it.
  function Modulus(n: nat): (m: nat)
    ensures m >= 1
  {
    if n == 0 then 1 else 256 * Modulus(n - 1)
  }

  // The lines of _popcount64 (n = 8) and _popcount32 (n = 4).
  function Pairs(x: nat, n: nat): nat {
    (x - And(x / 2, Repeated(1, 4, 4 * n))) % Modulus(n)
  }

  function Nibbles(x: nat, n: nat): nat {
    (And(x, Repeated(3, 16, 2 * n)) + And(x / 4, Repeated(3, 16, 2 * n))) % Modulus(n)
  }

  function Octets(x: nat, n: nat): nat {
    And((x + x / 16) % Modulus(n), Repeated(15, 256, n))
  }

  function Total(x: nat, n: nat): nat
    requires n > 0
  {
    And(((x * Repeated(1, 256, n)) % Modulus(n)) / Modulus(n - 1), 255)
  }

  function Popcount(x: nat, n: nat): nat
    requires n > 0
  {
    Total(Octets(Nibbles(Pairs(x, n), n), n), n)
  }

  // How many bits of a word are ones.
  function OnesIn(x: nat): nat {
    if x == 0 then 0 else x % 2 + OnesIn(x / 2)
  }

  // The masks are the ones written in the two sources.
  lemma Masks()
    ensures Repeated(1, 4, 16) == 0x55555555 && Repeated(1, 4, 32) == 0x5555555555555555
    ensures Repeated(3, 16, 8) == 0x33333333 && Repeated(3, 16, 16) == 0x3333333333333333
    ensures Repeated(15, 256, 4) == 0x0F0F0F0F && Repeated(15, 256, 8) == 0x0F0F0F0F0F0F0F0F
    ensures Repeated(1, 256, 4) == 0x01010101 && Repeated(1, 256, 8) == 0x0101010101010101
    ensures Modulus(4) == 0x1_0000_0000 && Modulus(8) == 0x1_0000_0000_0000_0000
    ensures Modulus(3) == 0x100_0000 && Modulus(7) == 0x100_0000_0000_0000
  {
    RepeatedTwice(1, 4, 2, 2);
    RepeatedTwice(1, 4, 4, 4);
    RepeatedTwice(1, 4, 8, 8);
    RepeatedTwice(1, 4, 16, 16);
    RepeatedTwice(3, 16, 2, 2);
    RepeatedTwice(3, 16, 4, 4);
    RepeatedTwice(3, 16, 8, 8);
    RepeatedTwice(15, 256, 2, 2);
    RepeatedTwice(15, 256, 4, 4);
    RepeatedTwice(1, 256, 2, 2);
    RepeatedTwice(1, 256, 4, 4);
    Powers();
    assert Modulus(3) == 256 * Modulus(2) && Modulus(2) == 256 * Modulus(1) && Modulus(1) == 256 * Modulus(0);
    assert Modulus(4) == 256 * Modulus(3);
    assert Modulus(5) == 256 * Modulus(4);
    assert Modulus(6) == 256 * Modulus(5);
    assert Modulus(7) == 256 * Modulus(6);
    assert Modulus(8) == 256 * Modulus(7);
  }

  function Power(b: nat, k: nat): nat {
    if k == 0 then 1 else b * Power(b, k - 1)
  }

  lemma {:induction false} RepeatedTwice(d: nat, b: nat, j: nat, k: nat)
    ensures Repeated(d, b, j + k) == Repeated(d, b, j) + Power(b, j) * Repeated(d, b, k)
  {
    if j > 0 {
      RepeatedTwice(d, b, j - 1, k);
      OneMoreDigit(d, b, Repeated(d, b, j - 1), Power(b, j - 1), Repeated(d, b, k));
    }
  }

  lemma OneMoreDigit(d: nat, b: nat, q: nat, p: nat, r: nat)
    ensures d + b * (q + p * r) == (d + b * q) + (b * p) * r
  {
  }

  lemma Powers()
    ensures Power(4, 2) == 16 && Power(4, 4) == 256 && Power(4, 8) == 0x1_0000 && Power(4, 16) == 0x1_0000_0000
    ensures Power(16, 2) == 256 && Power(16, 4) == 0x1_0000 && Power(16, 8) == 0x1_0000_0000
    ensures Power(256, 2) == 0x1_0000 && Power(256, 4) == 0x1_0000_0000
    ensures Repeated(1, 4, 2) == 5 && Repeated(3, 16, 2) == 51 && Repeated(15, 256, 2) == 3855
             && Repeated(1, 256, 2) == 257
  {
    assert Power(4, 2) == 4 * Power(4, 1) == 16 * Power(4, 0);
    PowerTwice(4, 2, 2);
    PowerTwice(4, 4, 4);
    PowerTwice(4, 8, 8);
    assert Power(16, 2) == 16 * Power(16, 1) == 256 * Power(16, 0);
    PowerTwice(16, 2, 2);
    PowerTwice(16, 4, 4);
    assert Power(256, 2) == 256 * Power(256, 1) == 0x1_0000 * Power(256, 0);
    PowerTwice(256, 2, 2);
    assert Repeated(1, 4, 1) == 1 && Repeated(3, 16, 1) == 3 && Repeated(15, 256, 1) == 15 && Repeated(1, 256, 1) == 1;
  }

  lemma {:induction false} PowerTwice(b: nat, j: nat, k: nat)
    ensures Power(b, j + k) == Power(b, j) * Power(b, k)
  {
    if j > 0 {
      PowerTwice(b, j - 1, k);
      Regroup(b, Power(b, j - 1), Power(b, k));
    }
  }

  lemma Regroup(b: nat, p: nat, r: nat)
    ensures b * (p * r) == (b * p) * r
  {
  }

  // ------------------------------------------------------------------ masks act digit by digit

  lemma AndBit(x: nat, u: nat, v: nat, y: nat, w: nat, t: nat)
    requires v < 2 && t < 2 && x == 2 * u + v && y == 2 * w + t
    ensures And(x, y) == 2 * And(u, w) + Both(v, t)
  {
  }

  // Two bits of each.
  lemma AndBits(x: nat, u: nat, v1: nat, v0: nat, y: nat, w: nat, t1: nat, t0: nat)
    requires v1 < 2 && v0 < 2 && t1 < 2 && t0 < 2 && x == 4 * u + 2 * v1 + v0 && y == 4 * w + 2 * t1 + t0
    ensures And(x, y) == 4 * And(u, w) + 2 * Both(v1, t1) + Both(v0, t0)
  {
    var x1, y1 := 2 * u + v1, 2 * w + t1;
    calc {
      And(x, y);
      { AndBit(x, x1, v0, y, y1, t0); }
      2 * And(x1, y1) + Both(v0, t0);
      { AndBit(x1, u, v1, y1, w, t1); }
      4 * And(u, w) + 2 * Both(v1, t1) + Both(v0, t0);
    }
  }

  lemma And4(x: nat, u: nat, v: nat, y: nat, w: nat, t: nat)
    requires v < 4 && t < 4 && x == 4 * u + v && y == 4 * w + t
    ensures And(x, y) == 4 * And(u, w) + And(v, t)
  {
    AndBits(x, u, v / 2, v % 2, y, w, t / 2, t % 2);
    AndBits(v, 0, v / 2, v % 2, t, 0, t / 2, t % 2);
  }

  // Two digits of two bits each.
  lemma And16(x: nat, u: nat, v1: nat, v0: nat, y: nat, w: nat, t1: nat, t0: nat)
    requires v1 < 4 && v0 < 4 && t1 < 4 && t0 < 4 && x == 16 * u + 4 * v1 + v0 && y == 16 * w + 4 * t1 + t0
    ensures And(x, y) == 16 * And(u, w) + 4 * And(v1, t1) + And(v0, t0)
  {
    var x1, y1 := 4 * u + v1, 4 * w + t1;
    calc {
      And(x, y);
      { And4(x, x1, v0, y, y1, t0); }
      4 * And(x1, y1) + And(v0, t0);
      { And4(x1, u, v1, y1, w, t1); }
      16 * And(u, w) + 4 * And(v1, t1) + And(v0, t0);
    }
  }

  lemma AndNibble(x: nat, u: nat, v: nat, y: nat, w: nat, t: nat)
    requires v < 16 && t < 16 && x == 16 * u + v && y == 16 * w + t
    ensures And(x, y) == 16 * And(u, w) + And(v, t)
  {
    And16(x, u, v / 4, v % 4, y, w, t / 4, t % 4);
    And4(v, v / 4, v % 4, t, t / 4, t % 4);
  }

  // Two digits of four bits each.
  lemma And256(x: nat, u: nat, v1: nat, v0: nat, y: nat, w: nat, t1: nat, t0: nat)
    requires v1 < 16 && v0 < 16 && t1 < 16 && t0 < 16 && x == 256 * u + 16 * v1 + v0 && y == 256 * w + 16 * t1 + t0
    ensures And(x, y) == 256 * And(u, w) + 16 * And(v1, t1) + And(v0, t0)
  {
    var x1, y1 := 16 * u + v1, 16 * w + t1;
    calc {
      And(x, y);
      { AndNibble(x, x1, v0, y, y1, t0); }
      16 * And(x1, y1) + And(v0, t0);
      { AndNibble(x1, u, v1, y1, w, t1); }
      256 * And(u, w) + 16 * And(v1, t1) + And(v0, t0);
    }
  }

  // A mask of ones keeps a digit.
  lemma Keep4(v: nat)
    requires v < 4
    ensures And(v, 3) == v
  {
    AndBits(v, 0, v / 2, v % 2, 3, 0, 1, 1);
  }

  lemma Keep16(v: nat)
    requires v < 16
    ensures And(v, 15) == v
  {
    And16(v, 0, v / 4, v % 4, 15, 0, 3, 3);
    Keep4(v / 4);
    Keep4(v % 4);
  }

  lemma Keep256(v: nat)
    requires v < 256
    ensures And(v, 255) == v
  {
    And256(v, 0, v / 16, v % 16, 255, 0, 15, 15);
    Keep16(v / 16);
    Keep16(v % 16);
  }

  // ------------------------------------------------------------------ the four steps

  // The population count of each 2, 4 or 8 bit lane, in that lane.
  function Lanes2(x: nat): nat { if x == 0 then 0 else OnesIn(x % 4) + 4 * Lanes2(x / 4) }

  function Lanes4(x: nat): nat { if x == 0 then 0 else OnesIn(x % 16) + 16 * Lanes4(x / 16) }

  function Lanes8(x: nat): nat { if x == 0 then 0 else OnesIn(x % 256) + 256 * Lanes8(x / 256) }

  lemma OnesBit(x: nat, u: nat, v: nat)
    requires v < 2 && x == 2 * u + v
    ensures OnesIn(x) == v + OnesIn(u)
  {
    assert x / 2 == u && x % 2 == v;
  }

  lemma Ones4(x: nat, u: nat, v: nat)
    requires v < 4 && x == 4 * u + v
    ensures OnesIn(x) == OnesIn(u) + OnesIn(v) && OnesIn(v) == v - v / 2 <= 2
  {
    var a, b := v / 2, v % 2;
    OnesBit(x, 2 * u + a, b);
    OnesBit(2 * u + a, u, a);
    OnesBit(v, a, b);
    OnesBit(a, 0, a);
  }

  lemma Ones16(x: nat, u: nat, h: nat, l: nat)
    requires h < 4 && l < 4 && x == 16 * u + 4 * h + l
    ensures OnesIn(x) == OnesIn(u) + OnesIn(h) + OnesIn(l) && OnesIn(h) <= 2 && OnesIn(l) <= 2
  {
    var y := 4 * u + h;
    calc {
      OnesIn(x);
      { Ones4(x, y, l); }
      OnesIn(y) + OnesIn(l);
      { Ones4(y, u, h); }
      OnesIn(u) + OnesIn(h) + OnesIn(l);
    }
    Ones4(x, y, l);
    Ones4(y, u, h);
  }

  lemma OnesNibble(x: nat, u: nat, v: nat)
    requires v < 16 && x == 16 * u + v
    ensures OnesIn(x) == OnesIn(u) + OnesIn(v) && OnesIn(v) <= 4
  {
    Ones16(x, u, v / 4, v % 4);
    Ones4(v, v / 4, v % 4);
  }

  lemma Ones256(x: nat, u: nat, h: nat, l: nat)
    requires h < 16 && l < 16 && x == 256 * u + 16 * h + l
    ensures OnesIn(x) == OnesIn(u) + OnesIn(h) + OnesIn(l) && OnesIn(h) <= 4 && OnesIn(l) <= 4
  {
    var y := 16 * u + h;
    OnesNibble(x, y, l);
    OnesNibble(y, u, h);
  }

  lemma OnesOctet(x: nat, u: nat, v: nat)
    requires v < 256 && x == 256 * u + v
    ensures OnesIn(x) == OnesIn(u) + OnesIn(v) && OnesIn(v) <= 8
  {
    Ones256(x, u, v / 16, v % 16);
    OnesNibble(v, v / 16, v % 16);
  }

  lemma Quotient(x: nat, u: nat, v: nat)
    ensures v < 4 && x == 4 * u + v ==> x / 4 == u && x % 4 == v
    ensures v < 16 && x == 16 * u + v ==> x / 16 == u && x % 16 == v
    ensures v < 256 && x == 256 * u + v ==> x / 256 == u && x % 256 == v
  {
  }

  // The lanes of a word with one more digit.
  lemma Lanes2Digit(x: nat, u: nat, v: nat)
    requires v < 4 && x == 4 * u + v
    ensures Lanes2(x) == 4 * Lanes2(u) + OnesIn(v)
  {
    Quotient(x, u, v);
    assert x == 0 ==> u == 0 && v == 0 && OnesIn(v) == 0;
  }

  lemma Lanes4Digit(x: nat, u: nat, v: nat)
    requires v < 16 && x == 16 * u + v
    ensures Lanes4(x) == 16 * Lanes4(u) + OnesIn(v)
  {
    Quotient(x, u, v);
    assert x == 0 ==> u == 0 && v == 0 && OnesIn(v) == 0;
  }

  lemma Lanes8Digit(x: nat, u: nat, v: nat)
    requires v < 256 && x == 256 * u + v
    ensures Lanes8(x) == 256 * Lanes8(u) + OnesIn(v)
  {
    Quotient(x, u, v);
    assert x == 0 ==> u == 0 && v == 0 && OnesIn(v) == 0;
  }

  // The low digits of a word and what is above them.
  lemma SplitPair(x: nat) returns (p: nat, q: nat, h: nat, l: nat)
    ensures q < 2 && h < 2 && l < 2 && x == 8 * p + 4 * q + 2 * h + l
  {
    var y, v := x / 4, x % 4;
    p, q, h, l := y / 2, y % 2, v / 2, v % 2;
  }

  lemma SplitNibble(x: nat) returns (y: nat, h: nat, l: nat)
    ensures h < 4 && l < 4 && x == 16 * y + 4 * h + l
  {
    var v := x % 16;
    y, h, l := x / 16, v / 4, v % 4;
  }

  lemma SplitOctet(x: nat) returns (y: nat, h: nat, l: nat)
    ensures h < 16 && l < 16 && x == 256 * y + 16 * h + l
  {
    var v := x % 256;
    y, h, l := x / 256, v / 16, v % 16;
  }

  // One more pair of bits.
  lemma Pair(x: nat, y: nat, p: nat, q: nat, h: nat, l: nat, m: nat, mask: nat, half: nat)
    requires q < 2 && h < 2 && l < 2 && y == 2 * p + q && x == 4 * y + 2 * h + l && mask == 1 + 4 * m
    requires half == x / 2 && And(p, m) <= y && y - And(p, m) == Lanes2(y)
    ensures And(half, mask) <= x && x - And(half, mask) == Lanes2(x)
  {
    var v := 2 * h + l;
    assert half == 4 * p + 2 * q + h;
    AndBits(half, p, q, h, mask, m, 0, 1);
    Lanes2Digit(x, y, v);
    OnesBit(v, h, l);
    OnesBit(h, 0, h);
  }

  lemma {:induction false} Step2(x: nat, k: nat, half: nat, mask: nat)
    requires x < Power(4, k) && half == x / 2 && mask == Repeated(1, 4, k)
    ensures And(half, mask) <= x && x - And(half, mask) == Lanes2(x)
    decreases k
  {
    if k > 0 {
      var p, q, h, l := SplitPair(x);
      var y, m := 2 * p + q, Repeated(1, 4, k - 1);
      Step2(y, k - 1, p, m);
      Pair(x, y, p, q, h, l, m, mask, half);
    }
  }

  // One more nibble, with digits h and l of two bits.
  lemma Nibble(x: nat, y: nat, h: nat, l: nat)
    requires h < 4 && l < 4 && x == 16 * y + 4 * h + l
    ensures Lanes2(x) == 16 * Lanes2(y) + 4 * OnesIn(h) + OnesIn(l)
    ensures Lanes4(x) == 16 * Lanes4(y) + OnesIn(h) + OnesIn(l)
    ensures OnesIn(h) <= 2 && OnesIn(l) <= 2
  {
    var u, v := 4 * y + h, 4 * h + l;
    Lanes2Digit(x, u, l);
    Lanes2Digit(u, y, h);
    Ones16(v, 0, h, l);
    Lanes4Digit(x, y, v);
  }

  // Masking and adding neighbours, one nibble: a4 is `a >> 2`, mask is m with one more digit.
  lemma FoldNibble(z: nat, d1: nat, d0: nat, m: nat, mask: nat, a: nat, a4: nat)
    requires d1 <= 2 && d0 <= 2 && a == 16 * z + 4 * d1 + d0 && a4 == a / 4 && mask == 3 + 16 * m
    ensures And(a, mask) + And(a4, mask) == 16 * (And(z, m) + And(z / 4, m)) + d1 + d0
  {
    var c, e, u := z / 4, z % 4, 4 * z + d1;
    Quotient(a, u, d0);
    calc {
      And(a, mask);
      { And16(a, z, d1, d0, mask, m, 0, 3); Keep4(d0); }
      16 * And(z, m) + d0;
    }
    calc {
      And(a4, mask);
      { And16(a4, c, e, d1, mask, m, 0, 3); Keep4(d1); }
      16 * And(c, m) + d1;
    }
  }

  lemma Turn4(x: nat, y: nat, h: nat, l: nat, m: nat, mask: nat, a: nat, a4: nat, z: nat, z4: nat)
    requires h < 4 && l < 4 && x == 16 * y + 4 * h + l && mask == 3 + 16 * m && a == Lanes2(x) && a4 == a / 4
    requires z == Lanes2(y) && z4 == z / 4 && And(z, m) + And(z4, m) == Lanes4(y)
    ensures And(a, mask) + And(a4, mask) == Lanes4(x)
  {
    var d1, d0 := OnesIn(h), OnesIn(l);
    Nibble(x, y, h, l);
    calc {
      And(a, mask) + And(a4, mask);
      { FoldNibble(z, d1, d0, m, mask, a, a4); }
      16 * Lanes4(y) + d1 + d0;
      Lanes4(x);
    }
  }

  lemma {:induction false} Step4(x: nat, k: nat, a: nat, a4: nat, mask: nat)
    requires x < Power(16, k) && a == Lanes2(x) && a4 == a / 4 && mask == Repeated(3, 16, k)
    ensures And(a, mask) + And(a4, mask) == Lanes4(x)
    decreases k
  {
    if k > 0 {
      var y, h, l := SplitNibble(x);
      var m := Repeated(3, 16, k - 1);
      var z := Lanes2(y);
      var z4 := z / 4;
      Step4(y, k - 1, z, z4, m);
      Turn4(x, y, h, l, m, mask, a, a4, z, z4);
    }
  }

  lemma Lanes4Low(x: nat)
    ensures Lanes4(x) % 16 <= 4
  {
    var u, v := x / 16, x % 16;
    var z, d := Lanes4(u), OnesIn(v);
    assert d <= 4 by { OnesNibble(x, u, v); }
    assert Lanes4(x) == 16 * z + d by { Lanes4Digit(x, u, v); }
    Quotient(16 * z + d, z, d);
  }

  // One more octet, with digits h and l of four bits.
  lemma TwoNibbles(x: nat, y: nat, h: nat, l: nat)
    requires h < 16 && l < 16 && x == 256 * y + 16 * h + l
    ensures Lanes4(x) == 256 * Lanes4(y) + 16 * OnesIn(h) + OnesIn(l)
    ensures Lanes8(x) == 256 * Lanes8(y) + OnesIn(h) + OnesIn(l)
    ensures OnesIn(h) <= 4 && OnesIn(l) <= 4
  {
    var u, v := 16 * y + h, 16 * h + l;
    Lanes4Digit(x, u, l);
    Lanes4Digit(u, y, h);
    Ones256(v, 0, h, l);
    Lanes8Digit(x, y, v);
  }

  lemma FoldOctet(z: nat, h: nat, l: nat, m: nat, mask: nat, b: nat, sum: nat, rest: nat)
    requires h <= 4 && l <= 4 && z % 16 <= 4 && b == 256 * z + 16 * h + l && sum == b + b / 16 && mask == 15 + 256 * m
    requires rest == z + z / 16
    ensures And(sum, mask) == 256 * And(rest, m) + h + l
  {
    var u, e := 16 * z + h, z % 16;
    var v1, v0 := e + h, l + h;
    Quotient(b, u, l);
    assert sum == 256 * rest + 16 * v1 + v0;
    calc {
      And(sum, mask);
      { And256(sum, rest, v1, v0, mask, m, 0, 15); Keep16(v0); }
      256 * And(rest, m) + l + h;
    }
  }

  lemma Turn8(x: nat, y: nat, h: nat, l: nat, m: nat, mask: nat, sum: nat, rest: nat)
    requires h < 16 && l < 16 && x == 256 * y + 16 * h + l && mask == 15 + 256 * m && sum == Lanes4(x) + Lanes4(x) / 16
    requires rest == Lanes4(y) + Lanes4(y) / 16 && And(rest, m) == Lanes8(y)
    ensures And(sum, mask) == Lanes8(x)
  {
    var b, z, d1, d0 := Lanes4(x), Lanes4(y), OnesIn(h), OnesIn(l);
    TwoNibbles(x, y, h, l);
    calc {
      And(sum, mask);
      { Lanes4Low(y); FoldOctet(z, d1, d0, m, mask, b, sum, rest); }
      256 * Lanes8(y) + d1 + d0;
      Lanes8(x);
    }
  }

  lemma {:induction false} Step8(x: nat, k: nat, sum: nat, mask: nat)
    requires x < Power(256, k) && sum == Lanes4(x) + Lanes4(x) / 16 && mask == Repeated(15, 256, k)
    ensures And(sum, mask) == Lanes8(x)
    decreases k
  {
    if k > 0 {
      var y, h, l := SplitOctet(x);
      var m := Repeated(15, 256, k - 1);
      var rest := Lanes4(y) + Lanes4(y) / 16;
      Step8(y, k - 1, rest, m);
      Turn8(x, y, h, l, m, mask, sum, rest);
    }
  }

  // ------------------------------------------------------------------ the multiplication adds the lanes

  // The running sums of the k octets of Lanes8(x), starting from acc, one in each octet.
  function Sums(acc: nat, x: nat, k: nat): nat
    decreases k
  {
    if k == 0 then 0 else (acc + OnesIn(x % 256)) + 256 * Sums(acc + OnesIn(x % 256), x / 256, k - 1)
  }

  lemma {:induction false} SumsBound(acc: nat, x: nat, k: nat)
    requires acc + OnesIn(x) < 256
    ensures Sums(acc, x, k) < Modulus(k)
    decreases k
  {
    if k > 0 {
      OnesOctet(x, x / 256, x % 256);
      SumsBound(acc + OnesIn(x % 256), x / 256, k - 1);
    }
  }

  // The top octet holds the whole sum.
  lemma {:induction false} SumsTop(acc: nat, x: nat, k: nat, total: nat, top: nat, all: nat)
    requires 0 < k && x < Modulus(k) && all < 256
    requires total == Sums(acc, x, k) && top == Modulus(k - 1) && all == acc + OnesIn(x)
    ensures top * all <= total < top * all + top
    decreases k
  {
    var y, d, s := FirstOctet(acc, x, k, total, all);
    if k == 1 {
      assert top == 1;
    } else {
      var m := Modulus(k - 2);
      assert m * all <= s < m * all + m by { SumsTop(d, y, k - 1, s, m, all); }
      assert top == 256 * m;
      OctetDown(d, s, m, all, total, top);
    }
  }

  lemma FirstOctet(acc: nat, x: nat, k: nat, total: nat, all: nat) returns (y: nat, d: nat, s: nat)
    requires 0 < k && x < Modulus(k) && all < 256 && total == Sums(acc, x, k) && all == acc + OnesIn(x)
    ensures y < Modulus(k - 1) && s == Sums(d, y, k - 1) && all == d + OnesIn(y) && total == d + 256 * s && d < 256
    ensures k == 1 ==> s == 0 && all == d
  {
    var v: nat;
    y, v := SplitWord(x);
    d := acc + OnesIn(v);
    s := Sums(d, y, k - 1);
    assert total == d + 256 * s by { SumsUnfold(acc, x, k, y, v); }
    assert all == d + OnesIn(y) by { OnesOctet(x, y, v); }
    if k == 1 {
      assert s == 0 && OnesIn(y) == 0 by { SumsEnd(d, y); }
    }
  }

  lemma OctetDown(d: nat, s: nat, m: nat, all: nat, total: nat, top: nat)
    requires d < 256 && m * all <= s < m * all + m && total == d + 256 * s && top == 256 * m
    ensures top * all <= total < top * all + top
  {
    assert 256 * (m * all) == top * all;
  }

  lemma SplitWord(x: nat) returns (y: nat, v: nat)
    ensures v < 256 && x == 256 * y + v
  {
    y, v := x / 256, x % 256;
  }

  lemma SumsUnfold(acc: nat, x: nat, k: nat, y: nat, v: nat)
    requires k > 0 && v < 256 && x == 256 * y + v
    ensures Sums(acc, x, k) == acc + OnesIn(v) + 256 * Sums(acc + OnesIn(v), y, k - 1)
  {
    Quotient(x, y, v);
  }

  // Above the only octet there is nothing.
  lemma SumsEnd(d: nat, y: nat)
    requires 256 * y < Modulus(1)
    ensures Sums(d, y, 0) == 0 && OnesIn(y) == 0
  {
    assert Modulus(1) == 256 * Modulus(0);
  }

  // The product is the sums plus something the modulus drops.
  lemma {:induction false} ProductIsSums(acc: nat, x: nat, k: nat, ones: nat, lanes: nat, sums: nat) returns (q: nat)
    requires ones == Repeated(1, 256, k) && lanes == Lanes8(x) && sums == Sums(acc, x, k)
    ensures acc * ones + lanes * ones == sums + q * Modulus(k)
    decreases k
  {
    q := 0;
    if k > 0 {
      var rest, d, y, s := ProductOctet(acc, x, k, lanes, sums);
      var h, m := Repeated(1, 256, k - 1), Modulus(k - 1);
      q := ProductIsSums(acc + d, rest, k - 1, h, y, s);
      assert 1 + 256 * h == h + m by { OctetAbove(k - 1); }
      OneMoreOctet(acc, d, h, y, m, s, q, ones, lanes, Modulus(k), sums);
      q := q + y;
    } else {
      NothingLeft(acc, lanes, ones, q);
    }
  }

  lemma ProductOctet(acc: nat, x: nat, k: nat, lanes: nat, sums: nat) returns (rest: nat, d: nat, y: nat, s: nat)
    requires 0 < k && lanes == Lanes8(x) && sums == Sums(acc, x, k)
    ensures y == Lanes8(rest) && lanes == d + 256 * y
    ensures s == Sums(acc + d, rest, k - 1) && sums == acc + d + 256 * s
  {
    var low: nat;
    rest, low := SplitWord(x);
    d := OnesIn(low);
    y, s := Lanes8(rest), Sums(acc + d, rest, k - 1);
    assert lanes == d + 256 * y by { Lanes8Digit(x, rest, low); }
    assert sums == acc + d + 256 * s by { SumsUnfold(acc, x, k, rest, low); }
  }

  lemma NothingLeft(acc: nat, lanes: nat, ones: nat, q: nat)
    requires ones == 0 && q == 0
    ensures acc * ones + lanes * ones == 0 == q * 1
  {
  }

  // 0x0101 is also one in the top octet above 0x01.
  lemma {:induction false} OctetAbove(k: nat)
    ensures 1 + 256 * Repeated(1, 256, k) == Repeated(1, 256, k) + Modulus(k)
  {
    if k > 0 {
      OctetAbove(k - 1);
    }
  }

  lemma OneMoreOctet(acc: nat, d: nat, h: nat, y: nat, m: nat, s: nat, q: nat, ones: nat, lanes: nat,
                     top: nat, sums: nat)
    requires (acc + d) * h + y * h == s + q * m && 1 + 256 * h == h + m
    requires ones == 1 + 256 * h && lanes == d + 256 * y && top == 256 * m && sums == acc + d + 256 * s
    ensures acc * ones + lanes * ones == sums + (q + y) * top
  {
    calc {
      acc * ones + lanes * ones;
      (acc + d) * ones + 256 * y * ones;
      (acc + d) * (1 + 256 * h) + 256 * y * (h + m);
      (acc + d) + 256 * ((acc + d) * h + y * h) + 256 * y * m;
      (acc + d) + 256 * (s + q * m) + 256 * y * m;
      sums + (q + y) * top;
    }
  }

  lemma Multiply(x: nat, n: nat)
    requires n > 0 && x < Modulus(n) && OnesIn(x) < 256
    ensures (Lanes8(x) * Repeated(1, 256, n)) % Modulus(n) / Modulus(n - 1) == OnesIn(x)
  {
    var sums, m, product := Sums(0, x, n), Modulus(n), Lanes8(x) * Repeated(1, 256, n);
    var top, all := Modulus(n - 1), OnesIn(x);
    assert product % m == sums by {
      var q := ProductIsSums(0, x, n, Repeated(1, 256, n), Lanes8(x), sums);
      SumsBound(0, x, n);
      ModuloIs(product, q, sums, m);
    }
    assert sums / top == all by {
      SumsTop(0, x, n, sums, top, all);
      TopIs(sums, all, top);
    }
  }

  lemma TopIs(sums: nat, all: nat, top: nat)
    requires top * all <= sums < top * all + top
    ensures sums / top == all
  {
    ModuloIs(sums, all, sums - top * all, top);
  }

  // ------------------------------------------------------------------ the population count is exact

  lemma {:induction false} ModulusIs(n: nat)
    ensures Power(4, 4 * n) == Power(16, 2 * n) == Power(256, n) == Modulus(n)
  {
    if n > 0 {
      ModulusIs(n - 1);
      PowerTwice(4, 4, 4 * n - 4);
      PowerTwice(16, 2, 2 * n - 2);
      Powers();
    }
  }

  lemma {:induction false} LanesBound(x: nat, n: nat)
    requires x < Modulus(n)
    ensures 3 * Lanes4(x) < Modulus(n)
    decreases n
  {
    if n > 0 {
      var y, h, l := SplitOctet(x);
      assert 3 * Lanes4(y) < Modulus(n - 1) by { LanesBound(y, n - 1); }
      TwoNibbles(x, y, h, l);
    }
  }

  lemma {:induction false} OnesBound(x: nat, n: nat)
    requires x < Modulus(n)
    ensures OnesIn(x) <= 8 * n
    decreases n
  {
    if n > 0 {
      OnesBound(x / 256, n - 1);
      OnesOctet(x, x / 256, x % 256);
    }
  }

  lemma NoWrap(v: nat, m: nat)
    requires v < m
    ensures v % m == v
  {
  }

  // Nothing wraps before the product.
  lemma PairsAreLanes(x: nat, n: nat)
    requires x < Modulus(n)
    ensures Pairs(x, n) == Lanes2(x)
  {
    var half, m, mask, a := x / 2, Modulus(n), Repeated(1, 4, 4 * n), Lanes2(x);
    var ones := And(half, mask);
    assert x - ones == a <= x by {
      assert x < Power(4, 4 * n) by { ModulusIs(n); }
      Step2(x, 4 * n, half, mask);
    }
    calc {
      Pairs(x, n);
      (x - ones) % m;
      a % m;
      { NoWrap(a, m); }
      a;
    }
  }

  lemma NibblesAreLanes(x: nat, n: nat)
    requires x < Modulus(n)
    ensures Nibbles(Lanes2(x), n) == Lanes4(x)
  {
    var a, mask := Lanes2(x), Repeated(3, 16, 2 * n);
    var a4 := a / 4;
    ModulusIs(n);
    Step4(x, 2 * n, a, a4, mask);
    LanesBound(x, n);
    NoWrap(Lanes4(x), Modulus(n));
  }

  lemma OctetsAreLanes(x: nat, n: nat)
    requires x < Modulus(n)
    ensures Octets(Lanes4(x), n) == Lanes8(x)
  {
    var b, m, mask := Lanes4(x), Modulus(n), Repeated(15, 256, n);
    var sum := b + b / 16;
    assert 3 * b < m by { LanesBound(x, n); }
    assert sum % m == sum by { NoWrap(sum, m); }
    assert And(sum, mask) == Lanes8(x) by {
      ModulusIs(n);
      Step8(x, n, sum, mask);
    }
  }

  lemma TotalIsSum(x: nat, n: nat)
    requires 0 < n < 32 && x < Modulus(n)
    ensures Total(Lanes8(x), n) == OnesIn(x)
  {
    OnesBound(x, n);
    Multiply(x, n);
    Keep256(OnesIn(x));
  }
}
