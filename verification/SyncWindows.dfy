/** The words the sync searches look at and their distances (py/fixtures/dmr_ref.py,
py/fixtures/flex_ref.py: _windows, _windows32, _reverse_bits, _reverse32). */
module SyncWindows {
  import opened Wrappers
  import opened BitWords
  import opened SyncWords

  // The word trick counts the ones of every word.
  lemma {:induction false} PopcountCounts(x: nat, n: nat)
    requires 0 < n < 32 && x < Modulus(n)
    ensures Popcount(x, n) == OnesIn(x)
  {
    PairsAreLanes(x, n);
    NibblesAreLanes(x, n);
    OctetsAreLanes(x, n);
    TotalIsSum(x, n);
  }

  // ------------------------------------------------------------------ distances

  // The positions where two strings of bits differ.
  function Differences(a: Bits, b: Bits): set<nat>
    requires |a| == |b|
  {
    set i: nat | i < |a| && a[i] != b[i]
  }

  function Hamming(a: Bits, b: Bits): nat
    requires |a| == |b|
  {
    |Differences(a, b)|
  }

  // The ones of the exclusive or of two words are the positions where their bits differ.
  lemma {:induction false} ExOrCounts(a: Bits, b: Bits)
    requires |a| == |b|
    ensures OnesIn(ExOr(Uint(a), Uint(b))) == Hamming(a, b) && ExOr(Uint(a), Uint(b)) < Pow2(|a|)
  {
    if a == [] {
      assert Differences(a, b) == {};
    } else {
      var n := |a| - 1;
      var a', b' := a[..n], b[..n];
      var u, w, v, t := Uint(a'), Uint(b'), Bit(a[n]), Bit(b[n]);
      var x, d := ExOr(u, w), Differ(v, t);
      ExOrCounts(a', b');
      ExOrBit(Uint(a), u, v, Uint(b), w, t);
      OnesBit(ExOr(Uint(a), Uint(b)), x, d);
      DifferencesSnoc(a, b);
    }
  }

  lemma DifferencesSnoc(a: Bits, b: Bits)
    requires |a| == |b| > 0
    ensures var n := |a| - 1; Hamming(a, b) == Hamming(a[..n], b[..n]) + Differ(Bit(a[n]), Bit(b[n]))
  {
    var n: nat := |a| - 1;
    var less := Differences(a[..n], b[..n]);
    assert n !in less;
    assert Differences(a, b) == less + (if a[n] != b[n] then {n} else {});
  }

  lemma {:induction false} PowIsModulus(n: nat)
    ensures Pow2(8 * n) == Modulus(n)
  {
    if n > 0 {
      PowIsModulus(n - 1);
      var k := 8 * n;
      assert Pow2(k) == 2 * Pow2(k - 1) && Pow2(k - 1) == 2 * Pow2(k - 2) && Pow2(k - 2) == 2 * Pow2(k - 3);
      assert Pow2(k - 3) == 2 * Pow2(k - 4) && Pow2(k - 4) == 2 * Pow2(k - 5) && Pow2(k - 5) == 2 * Pow2(k - 6);
      assert Pow2(k - 6) == 2 * Pow2(k - 7) && Pow2(k - 7) == 2 * Pow2(k - 8);
    }
  }

  lemma {:induction false} Pow2Grows(k: nat, m: nat)
    requires k <= m
    ensures Pow2(k) <= Pow2(m)
    decreases m
  {
    if k < m {
      Pow2Grows(k, m - 1);
    }
  }

  // What the searches compute for a window is its distance from the pattern.
  lemma {:induction false} PopcountIsHamming(a: Bits, b: Bits, n: nat)
    requires |a| == |b| <= 8 * n && 0 < n < 32
    ensures Popcount(ExOr(Uint(a), Uint(b)), n) == Hamming(a, b)
  {
    ExOrCounts(a, b);
    Pow2Grows(|a|, 8 * n);
    PowIsModulus(n);
    PopcountCounts(ExOr(Uint(a), Uint(b)), n);
  }

  // ------------------------------------------------------------------ windows

  // bits[k:k + n] with a possibly negative end, which counts from the back.
  function Slice(bits: Bits, lo: nat, end: int): Bits {
    var hi := if end < 0 then (if |bits| + end < 0 then 0 else |bits| + end) else if end > |bits| then |bits| else end;
    if lo < hi then bits[lo..hi] else []
  }

  // (w << 1) | bits, word by word.
  function ShiftIn(words: seq<nat>, bits: Bits, n: nat): seq<nat>
    requires |words| == |bits|
  {
    seq(|words|, p requires 0 <= p < |words| => (2 * words[p]) % Modulus(n) + Bit(bits[p]))
  }

  // The words of the windows so far, k bits of each read.
  ghost predicate Rolled(bits: Bits, words: seq<nat>, k: nat)
    requires |words| + k <= |bits| + 1
  {
    forall p :: 0 <= p < |words| ==> words[p] == Uint(bits[p..p + k])
  }

  lemma {:induction false} RolledStep(bits: Bits, words: seq<nat>, k: nat, n: nat, slice: Bits)
    requires |words| + k <= |bits| && k < 8 * n && Rolled(bits, words, k)
    requires |slice| == |words| && forall p :: 0 <= p < |words| ==> slice[p] == bits[p + k]
    ensures Rolled(bits, ShiftIn(words, slice, n), k + 1)
  {
    var after := ShiftIn(words, slice, n);
    forall p | 0 <= p < |after| ensures after[p] == Uint(bits[p..p + (k + 1)]) {
      assert words[p] == Uint(bits[p..p + k]) && slice[p] == bits[p + k];
      RolledAt(bits, k, n, p);
    }
  }

  lemma RolledAt(bits: Bits, k: nat, n: nat, p: nat)
    requires p + k < |bits| && k < 8 * n
    ensures (2 * Uint(bits[p..p + k])) % Modulus(n) + Bit(bits[p + k]) == Uint(bits[p..p + (k + 1)])
  {
    var b := bits[p..p + k];
    RollOne(b, bits[p + k], n);
    assert bits[p..p + (k + 1)] == b + [bits[p + k]];
  }

  // No bit is lost from the top of the word.
  lemma RollOne(b: Bits, bit: bool, n: nat)
    requires |b| < 8 * n
    ensures (2 * Uint(b)) % Modulus(n) + Bit(bit) == Uint(b + [bit])
  {
    UintBound(b);
    Pow2Grows(|b| + 1, 8 * n);
    PowIsModulus(n);
    NoWrap(2 * Uint(b), Modulus(n));
    assert (b + [bit])[..|b|] == b;
  }

  // A search over this many bits has no windows and fails on the lengths instead of finding none.
  predicate TooShort(bits: Bits, width: nat) {
    |bits| + 1 < width < 2 * |bits|
  }

  // _windows and _windows32. None is the ValueError of adding arrays whose lengths do not match, with
  // the exception that an array of length one fits any.
  method Windows(bits: Bits, width: nat, n: nat) returns (r: Option<seq<nat>>)
    requires 0 < width <= 8 * n
    ensures r.None? <==> TooShort(bits, width)
    ensures r.Some? ==> |r.value| == if |bits| < width then 0 else |bits| + 1 - width
    ensures r.Some? ==> forall p :: 0 <= p < |r.value| ==> r.value[p] == Uint(bits[p..p + width])
  {
    var count := |bits| - width + 1;
    var words: seq<nat> := seq(if count < 0 then 0 else count, _ => 0);
    for k := 0 to width
      invariant |words| == if count < 0 then 0 else count
      invariant |words| > 0 ==> Rolled(bits, words, k)
      invariant k > 0 ==> !TooShort(bits, width)
    {
      var slice := Slice(bits, k, k + count);
      if |slice| != |words| && |slice| != 1 {
        return None;
      }
      if |words| > 0 {
        RolledStep(bits, words, k, n, slice);
        words := ShiftIn(words, slice, n);
      }
    }
    r := Some(words);
  }

  // ------------------------------------------------------------------ the order bits are sent in

  function Reverse(b: Bits): (r: Bits)
    ensures |r| == |b|
  {
    seq(|b|, i requires 0 <= i < |b| => b[|b| - 1 - i])
  }

  // _reverse_bits and _reverse32: through the binary digits.
  function ReverseWord(x: nat, width: nat): nat {
    Uint(Reverse(UintBits(x, width)))
  }

  lemma {:induction false} ReverseWordReverses(b: Bits)
    ensures ReverseWord(Uint(b), |b|) == Uint(Reverse(b))
  {
    UintBitsRoundTrip(b);
  }
}
