/** The AIS line below the frame: NRZI, zero-bit stuffing and flags (py/fixtures/ais_ref.py). */
module AisLine {
  import opened BitWords

  // The decoder's own steps are functions or methods named after the source's; the sender's, which the
  // repository does not hold, are specification functions written from ISO/IEC 13239 sections 4.3 and
  // 4.4 and ITU-R M.1371-5 Annex 2.

  // ------------------------------------------------------------------ NRZI

  // Line levels to data bits: 1 where the level did not change; the first is arbitrary and is 1.
  function NrziDecode(levels: Bits): (bits: Bits)
    requires |levels| > 0
    ensures |bits| == |levels|
  {
    [true] + seq(|levels| - 1, i requires 0 <= i < |levels| - 1 => levels[i + 1] == levels[i])
  }

  // The sender: `level` is the line before the first bit, and a 0 toggles it.
  function NrziEncode(level: bool, bits: Bits): (levels: Bits)
    ensures |levels| == |bits|
    decreases |bits|
  {
    if bits == [] then []
    else
      var next := level == bits[0];
      [next] + NrziEncode(next, bits[1..])
  }

  lemma {:induction false} NrziEncodeStep(level: bool, bits: Bits, i: nat)
    requires i < |bits|
    ensures NrziEncode(level, bits)[i] == ((if i == 0 then level else NrziEncode(level, bits)[i - 1]) == bits[i])
    decreases |bits|
  {
    if i != 0 {
      NrziEncodeStep(level == bits[0], bits[1..], i - 1);
    }
  }

  // Only the first data bit of a line is lost.
  lemma NrziRoundTrip(level: bool, bits: Bits)
    requires |bits| > 0
    ensures NrziDecode(NrziEncode(level, bits)) == [true] + bits[1..]
  {
    var levels := NrziEncode(level, bits);
    forall i | 1 <= i < |bits| ensures NrziDecode(levels)[i] == bits[i] {
      NrziEncodeStep(level, bits, i);
    }
  }

  // A global inversion of the line cancels.
  lemma NrziPolarity(levels: Bits)
    requires |levels| > 0
    ensures NrziDecode(Invert(levels)) == NrziDecode(levels)
  {
    var a, b := NrziDecode(Invert(levels)), NrziDecode(levels);
    forall i | 0 <= i < |levels| ensures a[i] == b[i] {
      if i != 0 {
        assert a[i] == (Invert(levels)[i] == Invert(levels)[i - 1]);
      }
    }
  }

  // ------------------------------------------------------------------ stuffing

  // What hdlc_destuff emits from `bits`, `ones` ones having just gone by.
  function Destuff(bits: Bits, ones: nat): Bits
    decreases |bits|
  {
    if bits == [] then []
    else if bits[0] then [true] + Destuff(bits[1..], ones + 1)
    else if ones == 5 then Destuff(bits[1..], 0)
    else [false] + Destuff(bits[1..], 0)
  }

  // The sender: a 0 after every fifth consecutive 1. `ones` ones have just been sent.
  function Stuff(bits: Bits, ones: nat): Bits
    requires ones < 5
    decreases |bits|
  {
    if bits == [] then []
    else if !bits[0] then [false] + Stuff(bits[1..], 0)
    else if ones == 4 then [true, false] + Stuff(bits[1..], 0)
    else [true] + Stuff(bits[1..], ones + 1)
  }

  // py/fixtures/ais_ref.py: hdlc_destuff
  method HdlcDestuff(bits: Bits) returns (out: Bits)
    ensures out == Destuff(bits, 0)
  {
    out := [];
    var ones := 0;
    for i := 0 to |bits|
      invariant out + Destuff(bits[i..], ones) == Destuff(bits, 0)
    {
      ghost var rest := bits[i..];
      assert rest[0] == bits[i] && rest[1..] == bits[i + 1..];
      ghost var before := out;
      if bits[i] {
        ones := ones + 1;
        out := out + [true];
        assert before + ([true] + Destuff(rest[1..], ones)) == out + Destuff(rest[1..], ones);
      } else if ones == 5 {
        ones := 0;
      } else {
        ones := 0;
        out := out + [false];
        assert before + ([false] + Destuff(rest[1..], ones)) == out + Destuff(rest[1..], ones);
      }
    }
    assert bits[|bits|..] == [] && out + [] == out;
  }

  // Destuffing undoes stuffing, also when the data end in five ones.
  lemma {:induction false} DestuffStuff(p: Bits, ones: nat)
    requires ones < 5
    ensures Destuff(Stuff(p, ones), ones) == p
    decreases |p|
  {
    if p != [] {
      var s := Stuff(p, ones);
      if !p[0] {
        DestuffStuff(p[1..], 0);
        assert s[1..] == Stuff(p[1..], 0);
      } else if ones == 4 {
        DestuffStuff(p[1..], 0);
        assert s[1..][0] == false && s[1..][1..] == Stuff(p[1..], 0);
      } else {
        DestuffStuff(p[1..], ones + 1);
        assert s[1..] == Stuff(p[1..], ones + 1);
      }
    }
  }

  // Stuffing costs at most one bit in five.
  lemma {:induction false} StuffGrowth(p: Bits, ones: nat)
    requires ones < 5
    ensures |p| <= |Stuff(p, ones)|
    ensures 5 * (|Stuff(p, ones)| - |p|) <= |p| + ones
    decreases |p|
  {
    if p != [] {
      StuffGrowth(p[1..], if !p[0] || ones == 4 then 0 else ones + 1);
    }
  }

  // ------------------------------------------------------------------ runs of ones

  // Ones in a row ending at the end of `bits`, when `ones` preceded it.
  function TrailingOnes(bits: Bits, ones: nat): nat
    decreases |bits|
  {
    if bits == [] then ones else TrailingOnes(bits[1..], if bits[0] then ones + 1 else 0)
  }

  // The zero at i comes right after exactly five ones.
  predicate Stuffed(bits: Bits, i: nat)
    requires i < |bits|
  {
    && !bits[i] && i >= 5 && bits[i - 1] && bits[i - 2] && bits[i - 3] && bits[i - 4] && bits[i - 5]
    && (i > 5 ==> !bits[i - 6])
  }

  // The bits that are not such zeros, in order.
  function Unstuffed(bits: Bits): Bits {
    if bits == [] then []
    else
      var n := |bits| - 1;
      Unstuffed(bits[..n]) + (if Stuffed(bits, n) then [] else [bits[n]])
  }

  lemma {:induction false} TrailingSnoc(bits: Bits, ones: nat, b: bool)
    ensures TrailingOnes(bits + [b], ones) == if b then TrailingOnes(bits, ones) + 1 else 0
    decreases |bits|
  {
    if bits == [] {
      assert (bits + [b])[1..] == [];
    } else {
      assert (bits + [b])[1..] == bits[1..] + [b];
      TrailingSnoc(bits[1..], if bits[0] then ones + 1 else 0, b);
    }
  }

  // The ones that end the string, counted back from its end.
  lemma {:induction false} TrailingAre(bits: Bits)
    ensures var n := TrailingOnes(bits, 0);
            n <= |bits| && (forall k :: |bits| - n <= k < |bits| ==> bits[k]) && (n < |bits| ==> !bits[|bits| - n - 1])
  {
    if bits != [] {
      var less := bits[..|bits| - 1];
      TrailingAre(less);
      TrailingSnoc(less, 0, bits[|bits| - 1]);
      assert less + [bits[|bits| - 1]] == bits;
    }
  }

  lemma StuffedIsFifth(bits: Bits, i: nat)
    requires i < |bits|
    ensures Stuffed(bits, i) <==> !bits[i] && TrailingOnes(bits[..i], 0) == 5
  {
    var before := bits[..i];
    var n := TrailingOnes(before, 0);
    TrailingAre(before);
    if n == 5 {
      assert before[i - 1] && before[i - 2] && before[i - 3] && before[i - 4] && before[i - 5];
    } else if n < 5 {
      assert n < i ==> !bits[i - n - 1];
    } else {
      assert before[i - 6];
    }
  }

  lemma {:induction false} DestuffSnoc(bits: Bits, ones: nat, b: bool)
    ensures Destuff(bits + [b], ones) == Destuff(bits, ones) + (if !b && TrailingOnes(bits, ones) == 5 then [] else [b])
    decreases |bits|
  {
    if bits == [] {
      assert (bits + [b])[1..] == [];
    } else {
      assert (bits + [b])[1..] == bits[1..] + [b];
      DestuffSnoc(bits[1..], if bits[0] then ones + 1 else 0, b);
    }
  }

  // Of any line, stuffed or not, exactly the zeros that follow exactly five ones are dropped.
  lemma {:induction false} DestuffDrops(bits: Bits)
    ensures Destuff(bits, 0) == Unstuffed(bits)
  {
    if bits != [] {
      var n := |bits| - 1;
      DestuffDrops(bits[..n]);
      DestuffSnoc(bits[..n], 0, bits[n]);
      StuffedIsFifth(bits, n);
      assert bits[..n] + [bits[n]] == bits;
    }
  }

  // No six consecutive ones, counting `ones` before the start.
  predicate NoSixOnes(bits: Bits, ones: nat)
    decreases |bits|
  {
    if bits == [] then ones < 6
    else ones < 6 && NoSixOnes(bits[1..], if bits[0] then ones + 1 else 0)
  }

  lemma {:induction false} StuffHasNoSixOnes(p: Bits, ones: nat)
    requires ones < 5
    ensures NoSixOnes(Stuff(p, ones), ones)
    ensures TrailingOnes(Stuff(p, ones), ones) < 5
    decreases |p|
  {
    if p != [] {
      var s := Stuff(p, ones);
      if !p[0] {
        assert s[1..] == Stuff(p[1..], 0);
        StuffHasNoSixOnes(p[1..], 0);
      } else if ones == 4 {
        assert s[1..][1..] == Stuff(p[1..], 0);
        StuffHasNoSixOnes(p[1..], 0);
      } else {
        assert s[1..] == Stuff(p[1..], ones + 1);
        StuffHasNoSixOnes(p[1..], ones + 1);
      }
    }
  }

  // Every window of six holds a zero; a window may begin among the ones that preceded.
  lemma {:induction false} NoSixOnesWindow(bits: Bits, ones: nat, i: int)
    requires NoSixOnes(bits, ones) && -(ones as int) <= i && i + 6 <= |bits|
    ensures exists j :: 0 <= j < |bits| && i <= j < i + 6 && !bits[j]
    decreases |bits|
  {
    if bits == [] {
      assert false;
    } else if bits[0] || i > 0 {
      NoSixOnesWindow(bits[1..], if bits[0] then ones + 1 else 0, i - 1);
      var j :| 0 <= j < |bits[1..]| && i - 1 <= j < i + 5 && !bits[1..][j];
      assert !bits[j + 1];
    }
  }

  // ------------------------------------------------------------------ flags

  // 0x7E, a palindrome.
  function Flag(): (f: Bits)
    ensures |f| == 8
  {
    seq(8, k => 1 <= k <= 6)
  }

  predicate FlagAt(line: Bits, i: nat) {
    i + 8 <= |line| && forall j :: i <= j < i + 8 ==> line[j] == (i < j < i + 7)
  }

  lemma FlagAtIsSlice(line: Bits, i: nat)
    requires i + 8 <= |line|
    ensures FlagAt(line, i) <==> line[i..i + 8] == Flag()
  {
    if line[i..i + 8] == Flag() {
      forall j | i <= j < i + 8 ensures line[j] == (i < j < i + 7) {
        assert line[j] == line[i..i + 8][j - i];
      }
    }
  }

  // The places from `from` on where a flag starts, in order.
  function FlagPositions(line: Bits, from: nat): seq<nat>
    decreases |line| - from
  {
    if from + 8 > |line| then []
    else if FlagAt(line, from) then [from] + FlagPositions(line, from + 1)
    else FlagPositions(line, from + 1)
  }

  // str.find: the first flag at or after `from`, or -1.
  method Find(line: Bits, from: nat) returns (k: int)
    ensures k == -1 || (k >= from && FlagAt(line, k))
    ensures forall i: nat :: from <= i && (k == -1 || i < k) ==> !FlagAt(line, i)
  {
    k := from;
    while k + 8 <= |line|
      invariant k >= from
      invariant forall i: nat :: from <= i < k ==> !FlagAt(line, i)
    {
      FlagAtIsSlice(line, k);
      if line[k..k + 8] == Flag() {
        return;
      }
      k := k + 1;
    }
    k := -1;
  }

  lemma {:induction false} FlagPositionsSkip(line: Bits, from: nat, limit: nat)
    requires from <= limit && forall i: nat :: from <= i < limit ==> !FlagAt(line, i)
    ensures FlagPositions(line, from) == FlagPositions(line, limit)
    decreases limit - from
  {
    if from < limit {
      assert !FlagAt(line, from);
      FlagPositionsSkip(line, from + 1, limit);
    }
  }

  // The flags still to report when str.find has answered k.
  function FlagsFrom(line: Bits, k: int): seq<nat>
    requires k >= -1
  {
    if k == -1 then [] else FlagPositions(line, k)
  }

  lemma AfterFind(line: Bits, from: nat, k: int)
    requires k == -1 || k >= from
    requires forall i: nat :: from <= i && (k == -1 || i < k) ==> !FlagAt(line, i)
    ensures FlagPositions(line, from) == FlagsFrom(line, k)
  {
    FlagPositionsSkip(line, from, if k != -1 then k else if from < |line| then |line| else from);
  }

  // One turn of the search loop: report k, look on from the next place.
  lemma NextFlag(line: Bits, done: seq<nat>, k: nat, next: int)
    requires FlagAt(line, k)
    requires next == -1 || next >= k + 1
    requires forall i: nat :: k + 1 <= i && (next == -1 || i < next) ==> !FlagAt(line, i)
    ensures done + FlagsFrom(line, k) == (done + [k]) + FlagsFrom(line, next)
  {
    AfterFind(line, k + 1, next);
    assert FlagPositions(line, k) == [k] + FlagPositions(line, k + 1);
  }

  // py/fixtures/ais_ref.py: find_flags
  method FindFlags(line: Bits) returns (out: seq<nat>)
    ensures out == FlagPositions(line, 0)
  {
    out := [];
    var k := Find(line, 0);
    AfterFind(line, 0, k);
    while k != -1
      invariant k == -1 || (k >= 0 && FlagAt(line, k))
      invariant out + FlagsFrom(line, k) == FlagPositions(line, 0)
      decreases if k == -1 then 0 else |line| + 1 - k
    {
      var next := Find(line, k + 1);
      NextFlag(line, out, k, next);
      out, k := out + [k], next;
    }
  }

  // Every flag is found, and nothing else is.
  lemma {:induction false} FlagPositionsComplete(line: Bits, from: nat)
    ensures forall i: nat :: i in FlagPositions(line, from) <==> from <= i && FlagAt(line, i)
    decreases |line| - from
  {
    if from + 8 <= |line| {
      FlagPositionsComplete(line, from + 1);
    }
  }

  // Flags are reported left to right, each once.
  lemma {:induction false} FlagPositionsOrdered(line: Bits, from: nat, a: nat, b: nat)
    requires a < b < |FlagPositions(line, from)|
    ensures FlagPositions(line, from)[a] < FlagPositions(line, from)[b]
    decreases |line| - from
  {
    var all, rest := FlagPositions(line, from), FlagPositions(line, from + 1);
    if all == rest {
      FlagPositionsOrdered(line, from + 1, a, b);
    } else if a == 0 {
      FlagPositionsComplete(line, from + 1);
      assert all[b] == rest[b - 1] && rest[b - 1] in rest;
    } else {
      FlagPositionsOrdered(line, from + 1, a - 1, b - 1);
    }
  }

  // ------------------------------------------------------------------ one frame on a line

  // The frame p between its flags, with other bits on both sides.
  function FramedLine(before: Bits, p: Bits, after: Bits): Bits {
    before + Flag() + Stuff(p, 0) + Flag() + after
  }

  function ClosingFlag(before: Bits, p: Bits): nat {
    |before| + 8 + |Stuff(p, 0)|
  }

  lemma FramedLineParts(before: Bits, p: Bits, after: Bits)
    ensures var line, m, c := FramedLine(before, p, after), |before|, ClosingFlag(before, p);
            && |line| == c + 8 + |after|
            && line[..m] == before && line[m + 8..c] == Stuff(p, 0) && line[c + 8..] == after
            && FlagAt(line, m) && FlagAt(line, c)
  {
    var line, m, c := FramedLine(before, p, after), |before|, ClosingFlag(before, p);
    assert line[m..m + 8] == Flag() && line[c..c + 8] == Flag();
    FlagAtIsSlice(line, m);
    FlagAtIsSlice(line, c);
  }

  lemma FlagAvoidsZero(line: Bits, i: nat, z: nat)
    requires i < z < i + 7 && z < |line| && !line[z]
    ensures !FlagAt(line, i)
  {
  }

  lemma FlagNotInside(line: Bits, part: Bits, lo: nat, i: nat)
    requires lo + |part| <= |line| && line[lo..lo + |part|] == part && NoSixOnes(part, 0)
    requires lo <= i + 1 && i + 7 <= lo + |part|
    ensures !FlagAt(line, i)
  {
    NoSixOnesWindow(part, 0, i + 1 - lo);
    var j :| 0 <= j < |part| && i + 1 - lo <= j < i + 7 - lo && !part[j];
    assert line[lo + j] == part[j];
    FlagAvoidsZero(line, i, lo + j);
  }

  // No flag starts strictly between two zeros that are all that interrupts `part`.
  lemma NoFlagBetween(line: Bits, part: Bits, lo: nat, i: nat)
    requires lo + |part| <= |line| && line[lo..lo + |part|] == part && NoSixOnes(part, 0)
    requires lo <= i + 1 && i < lo + |part|
    requires lo + |part| < |line| ==> !line[lo + |part|]
    ensures !FlagAt(line, i)
  {
    if i + 7 <= lo + |part| {
      FlagNotInside(line, part, lo, i);
    } else if lo + |part| < |line| {
      FlagAvoidsZero(line, i, lo + |part|);
    }
  }

  // Between its flags a stuffed frame makes no other, and none straddles them, whatever the frame and
  // whatever surrounds it.
  lemma NoFlagInFrame(before: Bits, p: Bits, after: Bits, i: nat)
    requires |before| < i < ClosingFlag(before, p)
    ensures !FlagAt(FramedLine(before, p, after), i)
  {
    var line, m := FramedLine(before, p, after), |before|;
    FramedLineParts(before, p, after);
    StuffHasNoSixOnes(p, 0);
    if i < m + 7 {
      FlagAvoidsZero(line, i, m + 7);
    } else {
      NoFlagBetween(line, Stuff(p, 0), m + 8, i);
    }
  }

  // With no run of six ones in the bits around it there is no third flag.
  lemma OnlyTheTwoFlags(before: Bits, p: Bits, after: Bits)
    requires NoSixOnes(before, 0) && NoSixOnes(after, 0)
    ensures FlagPositions(FramedLine(before, p, after), 0) == [|before|, ClosingFlag(before, p)]
  {
    var line, m, c := FramedLine(before, p, after), |before|, ClosingFlag(before, p);
    FramedLineParts(before, p, after);
    forall i: nat | i != m && i != c ensures !FlagAt(line, i) {
      if i < m {
        NoFlagBetween(line, before, 0, i);
      } else if i < c {
        NoFlagInFrame(before, p, after, i);
      } else if i < c + 7 {
        FlagAvoidsZero(line, i, c + 7);
      } else if i < |line| {
        NoFlagBetween(line, after, c + 8, i);
      }
    }
    TwoFlagPositions(line, m, c);
  }

  lemma TwoFlagPositions(line: Bits, m: nat, c: nat)
    requires m < c && FlagAt(line, m) && FlagAt(line, c)
    requires forall i: nat :: i != m && i != c ==> !FlagAt(line, i)
    ensures FlagPositions(line, 0) == [m, c]
  {
    FlagPositionsSkip(line, 0, m);
    FlagPositionsSkip(line, m + 1, c);
    FlagPositionsSkip(line, c + 1, |line|);
  }
}
