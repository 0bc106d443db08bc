/** Quotients and remainders, by any divisor. */
module Division {

  lemma AddModulus(a: int, m: nat)
    requires m > 0
    ensures (a + m) % m == a % m
  {
    var q, r := a / m, a % m;
    assert a == m * q + r;
    assert a + m == m * (q + 1) + r;
    ModuloIs(a + m, q + 1, r, m);
  }

  lemma ModuloIs(a: int, q: int, r: nat, m: nat)
    requires m > 0 && r < m && a == m * q + r
    ensures a % m == r && a / m == q
  {
    var p, t := a / m, a % m;
    assert a == m * p + t && 0 <= t < m;
    SameParts(p, t, q, r, m);
  }

  lemma SameParts(p: int, t: nat, q: int, r: nat, m: nat)
    requires t < m && r < m && m * p + t == m * q + r
    ensures p == q && t == r
  {
    assert m * (p - q) == r - t;
    if p > q {
      AtLeast(m, p - q);
    } else if p < q {
      AtLeast(m, q - p);
    }
  }

  lemma {:induction false} AtLeast(m: nat, k: nat)
    requires k > 0
    ensures m * k >= m
  {
    if k > 1 {
      AtLeast(m, k - 1);
      assert m * k == m * (k - 1) + m;
    }
  }

  // A whole number is at most a quotient just when it fits.
  lemma FloorFits(rest: int, w: nat, n: nat)
    requires w > 0
    ensures n <= rest / w <==> n * w <= rest
  {
    assert rest / w * w <= rest < rest / w * w + w;
    if n <= rest / w {
      Monotone(n, rest / w, w);
    } else {
      Monotone(rest / w + 1, n, w);
    }
  }

  lemma Monotone(a: int, b: int, w: nat)
    requires a <= b
    ensures a * w <= b * w
  {
    assert (b - a) * w >= 0;
  }
}
