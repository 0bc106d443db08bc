/** The AIS common navigation block (py/fixtures/ais_ref.py, ITU-R M.1371-5 table 45). */
module AisFields {
  import opened Wrappers
  import opened BitWords

  // Message bits are read most significant bit first. Scaled fields are exact reals: the source's
  // floating-point rounding of `* 0.1` and `/ 600000.0` is not modelled.

  // The Class A position report fields of message types 1, 2 and 3.
  datatype Report = Report(
    navStatus: nat, rot: int, sogKt: real, positionAccuracy: nat, longitudeDeg: real, latitudeDeg: real,
    cogDeg: real, headingDeg: nat, timestampS: nat, maneuver: nat, raim: nat, commState: nat)

  datatype Fields = Fields(messageType: nat, repeatIndicator: nat, mmsi: nat, report: Option<Report>)

  // A Python slice: bounds past the end are clamped.
  function Slice(b: Bits, lo: nat, hi: nat): (s: Bits)
    requires lo <= hi
    ensures hi <= |b| ==> s == b[lo..hi]
  {
    var h := if hi < |b| then hi else |b|;
    if lo < h then b[lo..h] else []
  }

  // Two's complement of |b| bits, and 0 for no bits.
  function Int(b: Bits): int {
    if |b| > 0 && b[0] then Uint(b) - Pow2(|b|) else Uint(b)
  }

  // py/fixtures/ais_ref.py: parse_common_block
  function ParseCommonBlock(b: Bits): Fields {
    var messageType := Uint(Slice(b, 0, 6));
    Fields(messageType, Uint(Slice(b, 6, 8)), Uint(Slice(b, 8, 38)),
           if 1 <= messageType <= 3 && |b| >= 168 then Some(ParseReport(b)) else None)
  }

  function ParseReport(b: Bits): Report {
    Report(
      Uint(Slice(b, 38, 42)), Int(Slice(b, 42, 50)), Uint(Slice(b, 50, 60)) as real * 0.1,
      Uint(Slice(b, 60, 61)), Int(Slice(b, 61, 89)) as real / 600000.0, Int(Slice(b, 89, 116)) as real / 600000.0,
      Uint(Slice(b, 116, 128)) as real * 0.1, Uint(Slice(b, 128, 137)), Uint(Slice(b, 137, 143)),
      Uint(Slice(b, 143, 145)), Uint(Slice(b, 148, 149)), Uint(Slice(b, 149, 168)))
  }

  // ------------------------------------------------------------------ the sender

  predicate FitsInt(v: int, n: nat) { -(Pow2(n) as int) <= 2 * v < Pow2(n) }

  // n bits of two's complement.
  function IntBits(v: int, n: nat): (b: Bits)
    requires FitsInt(v, n)
    ensures |b| == n
  {
    UintBits(if v < 0 then v + Pow2(n) else v, n)
  }

  lemma {:induction false} TopBitIsHalf(b: Bits)
    requires |b| > 0
    ensures b[0] <==> 2 * Uint(b) >= Pow2(|b|)
  {
    UintBound(b);
    if |b| == 1 {
      assert b[..0] == [];
      assert Uint(b[..0]) == 0;
      assert Pow2(1) == 2 * Pow2(0);
    } else {
      TopBitIsHalf(b[..|b| - 1]);
    }
  }

  lemma IntRoundTrip(v: int, n: nat)
    requires n > 0 && FitsInt(v, n)
    ensures Int(IntBits(v, n)) == v
  {
    UintRoundTrip(if v < 0 then v + Pow2(n) else v, n);
    TopBitIsHalf(IntBits(v, n));
  }

  // A position report as table 45 numbers it: raw integers, before scaling.
  datatype RawReport = RawReport(
    messageType: nat, repeatIndicator: nat, mmsi: nat, navStatus: nat, rot: int, sog: nat, positionAccuracy: nat,
    longitude: int, latitude: int, cog: nat, heading: nat, timestamp: nat, maneuver: nat, spare: nat, raim: nat,
    commState: nat)
  {
    predicate Valid() {
      && 1 <= messageType <= 3 && repeatIndicator < Pow2(2) && mmsi < Pow2(30)
      && navStatus < Pow2(4) && FitsInt(rot, 8) && sog < Pow2(10) && positionAccuracy < Pow2(1)
      && FitsInt(longitude, 28) && FitsInt(latitude, 27)
      && cog < Pow2(12) && heading < Pow2(9) && timestamp < Pow2(6) && maneuver < Pow2(2) && spare < Pow2(3)
      && raim < Pow2(1) && commState < Pow2(19)
    }

    // The fields in transmission order: 168 bits.
    function Segments(): (s: seq<Bits>)
      requires Valid()
    {
      assert Pow2(6) == 4 * Pow2(4);
      [UintBits(messageType, 6), UintBits(repeatIndicator, 2), UintBits(mmsi, 30), UintBits(navStatus, 4),
       IntBits(rot, 8), UintBits(sog, 10), UintBits(positionAccuracy, 1), IntBits(longitude, 28), IntBits(latitude, 27),
       UintBits(cog, 12), UintBits(heading, 9), UintBits(timestamp, 6), UintBits(maneuver, 2), UintBits(spare, 3),
       UintBits(raim, 1), UintBits(commState, 19)]
    }

    function Encode(): (b: Bits)
      requires Valid()
    {
      Join(Segments())
    }

    // What a receiver should report.
    function Meaning(): Fields {
      Fields(messageType, repeatIndicator, mmsi, Some(Report(
        navStatus, rot, sog as real * 0.1, positionAccuracy, longitude as real / 600000.0, latitude as real / 600000.0,
        cog as real * 0.1, heading, timestamp, maneuver, raim, commState)))
    }
  }

  function Join(segments: seq<Bits>): Bits {
    if segments == [] then [] else segments[0] + Join(segments[1..])
  }

  function Offset(segments: seq<Bits>, k: nat): nat
    requires k <= |segments|
  {
    if k == 0 then 0 else |segments[0]| + Offset(segments[1..], k - 1)
  }

  lemma {:induction false} JoinSlice(segments: seq<Bits>, k: nat)
    requires k < |segments|
    ensures var lo := Offset(segments, k);
            lo + |segments[k]| <= |Join(segments)| && Join(segments)[lo..lo + |segments[k]|] == segments[k]
  {
    if k != 0 {
      var n, rest := |segments[0]|, segments[1..];
      JoinSlice(rest, k - 1);
      var lo := Offset(rest, k - 1);
      assert Join(segments)[n + lo..n + lo + |rest[k - 1]|] == Join(rest)[lo..lo + |rest[k - 1]|];
    }
  }

  lemma {:induction false} OffsetStep(segments: seq<Bits>, k: nat)
    requires k < |segments|
    ensures Offset(segments, k + 1) == Offset(segments, k) + |segments[k]|
  {
    if k != 0 {
      OffsetStep(segments[1..], k - 1);
    }
  }

  lemma {:induction false} JoinLength(segments: seq<Bits>)
    ensures |Join(segments)| == Offset(segments, |segments|)
  {
    if segments != [] {
      JoinLength(segments[1..]);
    }
  }

  // Segment k holds v in n bits.
  predicate HoldsUint(segments: seq<Bits>, k: nat, v: nat, n: nat) {
    k < |segments| && v < Pow2(n) && segments[k] == UintBits(v, n)
  }

  predicate HoldsInt(segments: seq<Bits>, k: nat, v: int, n: nat) {
    k < |segments| && n > 0 && FitsInt(v, n) && segments[k] == IntBits(v, n)
  }

  // A field of the encoded report is where table 45 puts it, and reads back as itself.
  lemma UintField(segments: seq<Bits>, k: nat, lo: nat, v: nat, n: nat)
    requires HoldsUint(segments, k, v, n) && Offset(segments, k) == lo
    ensures Uint(Slice(Join(segments), lo, lo + n)) == v && Offset(segments, k + 1) == lo + n
  {
    JoinSlice(segments, k);
    OffsetStep(segments, k);
    UintRoundTrip(v, n);
  }

  lemma IntField(segments: seq<Bits>, k: nat, lo: nat, v: int, n: nat)
    requires HoldsInt(segments, k, v, n) && Offset(segments, k) == lo
    ensures Int(Slice(Join(segments), lo, lo + n)) == v && Offset(segments, k + 1) == lo + n
  {
    JoinSlice(segments, k);
    OffsetStep(segments, k);
    IntRoundTrip(v, n);
  }

  predicate CommonHeld(r: RawReport, s: seq<Bits>) {
    && HoldsUint(s, 0, r.messageType, 6)
    && HoldsUint(s, 1, r.repeatIndicator, 2)
    && HoldsUint(s, 2, r.mmsi, 30)
  }

  predicate MotionHeld(r: RawReport, s: seq<Bits>) {
    && HoldsUint(s, 3, r.navStatus, 4)
    && HoldsInt(s, 4, r.rot, 8)
    && HoldsUint(s, 5, r.sog, 10)
  }

  predicate PositionHeld(r: RawReport, s: seq<Bits>) {
    && HoldsUint(s, 6, r.positionAccuracy, 1)
    && HoldsInt(s, 7, r.longitude, 28)
    && HoldsInt(s, 8, r.latitude, 27)
  }

  predicate HeadingHeld(r: RawReport, s: seq<Bits>) {
    && HoldsUint(s, 9, r.cog, 12)
    && HoldsUint(s, 10, r.heading, 9)
    && HoldsUint(s, 11, r.timestamp, 6)
  }

  predicate StatusHeld(r: RawReport, s: seq<Bits>) {
    && HoldsUint(s, 12, r.maneuver, 2)
    && HoldsUint(s, 13, r.spare, 3)
    && HoldsUint(s, 14, r.raim, 1)
    && HoldsUint(s, 15, r.commState, 19)
  }

  lemma CommonFields(r: RawReport, s: seq<Bits>)
    requires CommonHeld(r, s)
    ensures var b := Join(s);
            && Uint(Slice(b, 0, 6)) == r.messageType
            && Uint(Slice(b, 6, 8)) == r.repeatIndicator
            && Uint(Slice(b, 8, 38)) == r.mmsi
            && Offset(s, 3) == 38
  {
    UintField(s, 0, 0, r.messageType, 6);
    UintField(s, 1, 6, r.repeatIndicator, 2);
    UintField(s, 2, 8, r.mmsi, 30);
  }

  lemma MotionFields(r: RawReport, s: seq<Bits>)
    requires MotionHeld(r, s) && Offset(s, 3) == 38
    ensures var b := Join(s);
            && Uint(Slice(b, 38, 42)) == r.navStatus
            && Int(Slice(b, 42, 50)) == r.rot
            && Uint(Slice(b, 50, 60)) == r.sog
            && Offset(s, 6) == 60
  {
    UintField(s, 3, 38, r.navStatus, 4);
    IntField(s, 4, 42, r.rot, 8);
    UintField(s, 5, 50, r.sog, 10);
  }

  lemma PositionFields(r: RawReport, s: seq<Bits>)
    requires PositionHeld(r, s) && Offset(s, 6) == 60
    ensures var b := Join(s);
            && Uint(Slice(b, 60, 61)) == r.positionAccuracy
            && Int(Slice(b, 61, 89)) == r.longitude
            && Int(Slice(b, 89, 116)) == r.latitude
            && Offset(s, 9) == 116
  {
    UintField(s, 6, 60, r.positionAccuracy, 1);
    IntField(s, 7, 61, r.longitude, 28);
    IntField(s, 8, 89, r.latitude, 27);
  }

  lemma HeadingFields(r: RawReport, s: seq<Bits>)
    requires HeadingHeld(r, s) && Offset(s, 9) == 116
    ensures var b := Join(s);
            && Uint(Slice(b, 116, 128)) == r.cog
            && Uint(Slice(b, 128, 137)) == r.heading
            && Uint(Slice(b, 137, 143)) == r.timestamp
            && Offset(s, 12) == 143
  {
    UintField(s, 9, 116, r.cog, 12);
    UintField(s, 10, 128, r.heading, 9);
    UintField(s, 11, 137, r.timestamp, 6);
  }

  lemma StatusFields(r: RawReport, s: seq<Bits>)
    requires StatusHeld(r, s) && Offset(s, 12) == 143
    ensures var b := Join(s);
            && Uint(Slice(b, 143, 145)) == r.maneuver
            && Uint(Slice(b, 145, 148)) == r.spare
            && Uint(Slice(b, 148, 149)) == r.raim
            && Uint(Slice(b, 149, 168)) == r.commState
            && Offset(s, 16) == 168
  {
    UintField(s, 12, 143, r.maneuver, 2);
    UintField(s, 13, 145, r.spare, 3);
    UintField(s, 14, 148, r.raim, 1);
    UintField(s, 15, 149, r.commState, 19);
  }

  lemma CommonSegments(r: RawReport)
    requires r.Valid()
    ensures |r.Segments()| == 16 && CommonHeld(r, r.Segments())
  {
  }

  lemma MotionSegments(r: RawReport)
    requires r.Valid()
    ensures |r.Segments()| == 16 && MotionHeld(r, r.Segments())
  {
  }

  lemma PositionSegments(r: RawReport)
    requires r.Valid()
    ensures |r.Segments()| == 16 && PositionHeld(r, r.Segments())
  {
  }

  lemma HeadingSegments(r: RawReport)
    requires r.Valid()
    ensures |r.Segments()| == 16 && HeadingHeld(r, r.Segments())
  {
  }

  lemma StatusSegments(r: RawReport)
    requires r.Valid()
    ensures |r.Segments()| == 16 && StatusHeld(r, r.Segments())
  {
  }

  // A parsed report whose every field is the sender's, scaled.
  predicate Matches(p: Report, r: RawReport) {
    && p.navStatus == r.navStatus && p.rot == r.rot && p.sogKt == r.sog as real * 0.1
    && p.positionAccuracy == r.positionAccuracy && p.longitudeDeg == r.longitude as real / 600000.0
    && p.latitudeDeg == r.latitude as real / 600000.0 && p.cogDeg == r.cog as real * 0.1
    && p.headingDeg == r.heading && p.timestampS == r.timestamp && p.maneuver == r.maneuver
    && p.raim == r.raim && p.commState == r.commState
  }

  lemma MatchesIsMeaning(p: Report, r: RawReport)
    requires Matches(p, r)
    ensures Some(p) == r.Meaning().report
  {
  }

  // The fields of a whole report, and where it ends.
  lemma ParsedMatches(r: RawReport, s: seq<Bits>)
    requires |s| == 16 && CommonHeld(r, s) && MotionHeld(r, s) && PositionHeld(r, s) && HeadingHeld(r, s)
             && StatusHeld(r, s)
    ensures Matches(ParseReport(Join(s)), r) && |Join(s)| == 168
  {
    CommonFields(r, s);
    MotionFields(r, s);
    PositionFields(r, s);
    HeadingFields(r, s);
    StatusFields(r, s);
    JoinLength(s);
  }

  // Every field of every valid report comes back with its value, sign and scale.
  lemma ReportRoundTrip(r: RawReport)
    requires r.Valid()
    ensures |r.Encode()| == 168 && ParseCommonBlock(r.Encode()) == r.Meaning()
  {
    var s := r.Segments();
    CommonSegments(r);
    MotionSegments(r);
    PositionSegments(r);
    HeadingSegments(r);
    StatusSegments(r);
    CommonFields(r, s);
    assert |Join(s)| == 168 && Some(ParseReport(Join(s))) == r.Meaning().report by {
      ParsedMatches(r, s);
      MatchesIsMeaning(ParseReport(Join(s)), r);
    }
  }

  // ------------------------------------------------------------------ every message

  // The first 38 bits of any message, as table 45 and every other table of the standard begin.
  function Header(t: nat, repeat: nat, mmsi: nat): (b: Bits)
    requires t < 64 && repeat < 4 && mmsi < 0x4000_0000
    ensures |b| == 38
  {
    HeaderWidths();
    UintBits(t, 6) + UintBits(repeat, 2) + UintBits(mmsi, 30)
  }

  lemma HeaderWidths()
    ensures Pow2(2) == 4 && Pow2(6) == 64 && Pow2(30) == 0x4000_0000
  {
    assert Pow2(2) == 2 * Pow2(1) == 4 * Pow2(0);
    assert Pow2(6) == 2 * Pow2(5) == 4 * Pow2(4) == 8 * Pow2(3) == 16 * Pow2(2);
    assert Pow2(12) == 2 * Pow2(11) == 4 * Pow2(10) == 8 * Pow2(9) == 16 * Pow2(8) == 32 * Pow2(7) == 64 * Pow2(6);
    assert Pow2(18) == 2 * Pow2(17) == 4 * Pow2(16) == 8 * Pow2(15) == 16 * Pow2(14) == 32 * Pow2(13);
    assert Pow2(24) == 2 * Pow2(23) == 4 * Pow2(22) == 8 * Pow2(21) == 16 * Pow2(20) == 32 * Pow2(19);
    assert Pow2(30) == 2 * Pow2(29) == 4 * Pow2(28) == 8 * Pow2(27) == 16 * Pow2(26) == 32 * Pow2(25);
  }

  // Three fields in a row, the last of any width, and what follows them.
  lemma ThreeFields(t: nat, repeat: nat, v: nat, n: nat, rest: Bits, b: Bits)
    requires t < Pow2(6) && repeat < Pow2(2) && v < Pow2(n)
    requires b == UintBits(t, 6) + UintBits(repeat, 2) + UintBits(v, n) + rest
    ensures Uint(b[..6]) == t && Uint(b[6..8]) == repeat && Uint(b[8..8 + n]) == v
  {
    assert b[..6] == UintBits(t, 6) && b[6..8] == UintBits(repeat, 2) && b[8..8 + n] == UintBits(v, n);
    UintRoundTrip(t, 6);
    UintRoundTrip(repeat, 2);
    UintRoundTrip(v, n);
  }

  // f says what a message of n bits with that header says.
  predicate Announces(f: Fields, t: nat, repeat: nat, mmsi: nat, n: nat) {
    && f.messageType == t && f.repeatIndicator == repeat && f.mmsi == mmsi
    && (f.report.Some? <==> 1 <= t <= 3 && n >= 168)
  }

  // Of every message, whatever its type, the type, the repeat indicator and the MMSI are read back; and
  // the position fields are there exactly for types 1, 2 and 3 of at least 168 bits.
  lemma HeaderRoundTrip(t: nat, repeat: nat, mmsi: nat, rest: Bits)
    requires t < 64 && repeat < 4 && mmsi < 0x4000_0000
    ensures Announces(ParseCommonBlock(Header(t, repeat, mmsi) + rest), t, repeat, mmsi, 38 + |rest|)
  {
    HeaderWidths();
    ThreeFields(t, repeat, mmsi, 30, rest, Header(t, repeat, mmsi) + rest);
  }

  // A message that ends inside its MMSI gives what there is of it, and no position.
  lemma CutHeader(t: nat, repeat: nat, v: nat, n: nat)
    requires t < 64 && repeat < 4 && n < 30 && v < Pow2(n)
    ensures var f := ParseCommonBlock(UintBits(t, 6) + UintBits(repeat, 2) + UintBits(v, n));
            f.messageType == t && f.repeatIndicator == repeat && f.mmsi == v && f.report == None
  {
    HeaderWidths();
    var b := UintBits(t, 6) + UintBits(repeat, 2) + UintBits(v, n);
    assert b + [] == b;
    ThreeFields(t, repeat, v, n, [], b);
    assert Slice(b, 8, 38) == b[8..8 + n];
  }

  lemma SliceKept(b: Bits, more: Bits, lo: nat, hi: nat)
    requires lo <= hi <= |b|
    ensures Slice(b + more, lo, hi) == Slice(b, lo, hi)
  {
    assert (b + more)[lo..hi] == b[lo..hi];
  }

  lemma MotionKept(b: Bits, more: Bits)
    requires |b| >= 168
    ensures var c := b + more;
            && Slice(c, 38, 42) == Slice(b, 38, 42) && Slice(c, 42, 50) == Slice(b, 42, 50)
            && Slice(c, 50, 60) == Slice(b, 50, 60) && Slice(c, 60, 61) == Slice(b, 60, 61)
            && Slice(c, 61, 89) == Slice(b, 61, 89) && Slice(c, 89, 116) == Slice(b, 89, 116)
  {
    SliceKept(b, more, 38, 42);
    SliceKept(b, more, 42, 50);
    SliceKept(b, more, 50, 60);
    SliceKept(b, more, 60, 61);
    SliceKept(b, more, 61, 89);
    SliceKept(b, more, 89, 116);
  }

  lemma StatusKept(b: Bits, more: Bits)
    requires |b| >= 168
    ensures var c := b + more;
            && Slice(c, 116, 128) == Slice(b, 116, 128) && Slice(c, 128, 137) == Slice(b, 128, 137)
            && Slice(c, 137, 143) == Slice(b, 137, 143) && Slice(c, 143, 145) == Slice(b, 143, 145)
            && Slice(c, 148, 149) == Slice(b, 148, 149) && Slice(c, 149, 168) == Slice(b, 149, 168)
  {
    SliceKept(b, more, 116, 128);
    SliceKept(b, more, 128, 137);
    SliceKept(b, more, 137, 143);
    SliceKept(b, more, 143, 145);
    SliceKept(b, more, 148, 149);
    SliceKept(b, more, 149, 168);
  }

  lemma ReportKept(b: Bits, more: Bits)
    requires |b| >= 168
    ensures ParseReport(b + more) == ParseReport(b)
  {
    MotionKept(b, more);
    StatusKept(b, more);
  }

  // Bits after a report change nothing of it.
  lemma LongReport(r: RawReport, more: Bits)
    requires r.Valid()
    ensures ParseCommonBlock(r.Encode() + more) == r.Meaning()
  {
    var b := r.Encode();
    assert ParseCommonBlock(b) == r.Meaning() && |b| == 168 by { ReportRoundTrip(r); }
    ReportKept(b, more);
    SliceKept(b, more, 0, 6);
    SliceKept(b, more, 6, 8);
    SliceKept(b, more, 8, 38);
  }
}
