/** From line bits to parsed AIS messages, and what the decoder promises about them (py/fixtures/ais_ref.py). */
module AisDecoder {
  import opened Wrappers
  import opened BitWords
  import opened AisCrc
  import opened AisLine
  import opened AisFields

  // ------------------------------------------------------------------ frames

  ghost predicate AreFlags(line: Bits, flags: seq<nat>) {
    forall i :: 0 <= i < |flags| ==> FlagAt(line, flags[i])
  }

  // The destuffed span between the flags at a and b, if there is a bit between them.
  function Span(line: Bits, a: nat, b: nat): seq<Bits>
    requires FlagAt(line, b)
  {
    if b > a + 8 then [Destuff(line[a + 8..b], 0)] else []
  }

  // The spans from the flag at `a` to each of `closers`.
  function SpansFrom(line: Bits, a: nat, closers: seq<nat>): seq<Bits>
    requires AreFlags(line, closers)
  {
    if closers == [] then []
    else
      assert FlagAt(line, closers[0]);
      Span(line, a, closers[0]) + SpansFrom(line, a, closers[1..])
  }

  function Spans(line: Bits, flags: seq<nat>): seq<Bits>
    requires AreFlags(line, flags)
  {
    if flags == [] then [] else SpansFrom(line, flags[0], flags[1..]) + Spans(line, flags[1..])
  }

  lemma FlagsAreFlags(line: Bits)
    ensures AreFlags(line, FlagPositions(line, 0))
  {
    FlagPositionsComplete(line, 0);
    var flags := FlagPositions(line, 0);
    assert forall i :: 0 <= i < |flags| ==> flags[i] in flags;
  }

  function Frames(line: Bits): seq<Bits> {
    FlagsAreFlags(line);
    Spans(line, FlagPositions(line, 0))
  }

  // One turn of the inner loop.
  lemma NextSpan(line: Bits, done: seq<Bits>, a: nat, closers: seq<nat>)
    requires AreFlags(line, closers) && closers != []
    ensures FlagAt(line, closers[0])
    ensures done + SpansFrom(line, a, closers) == done + Span(line, a, closers[0]) + SpansFrom(line, a, closers[1..])
  {
    assert FlagAt(line, closers[0]);
  }

  // One turn of the outer loop.
  lemma NextOpener(line: Bits, done: seq<Bits>, flags: seq<nat>)
    requires AreFlags(line, flags) && flags != []
    ensures done + Spans(line, flags) == done + SpansFrom(line, flags[0], flags[1..]) + Spans(line, flags[1..])
  {
  }

  // The inner loop of frames_between_flags: the spans opened by one flag.
  method SpansAfter(line: Bits, a: nat, closers: seq<nat>) returns (out: seq<Bits>)
    requires AreFlags(line, closers)
    ensures out == SpansFrom(line, a, closers)
  {
    out := [];
    var todo := closers;
    while todo != []
      invariant AreFlags(line, todo)
      invariant out + SpansFrom(line, a, todo) == SpansFrom(line, a, closers)
      decreases |todo|
    {
      NextSpan(line, out, a, todo);
      var frame := SpanBetween(line, a, todo[0]);
      out := out + frame;
      todo := todo[1..];
    }
  }

  // The destuffed bits between two flags, if there are any.
  method SpanBetween(line: Bits, a: nat, b: nat) returns (frame: seq<Bits>)
    requires FlagAt(line, b)
    ensures frame == Span(line, a, b)
  {
    frame := [];
    if b > a + 8 {
      var destuffed := HdlcDestuff(line[a + 8..b]);
      frame := [destuffed];
    }
  }

  // py/fixtures/ais_ref.py: frames_between_flags
  method FramesBetweenFlags(line: Bits) returns (out: seq<Bits>)
    ensures out == Frames(line)
  {
    var flags := FindFlags(line);
    FlagsAreFlags(line);
    out := [];
    while flags != []
      invariant AreFlags(line, flags)
      invariant out + Spans(line, flags) == Frames(line)
      decreases |flags|
    {
      NextOpener(line, out, flags);
      var spans := SpansAfter(line, flags[0], flags[1..]);
      out := out + spans;
      flags := flags[1..];
    }
  }

  // Any two flags with something between them give a frame.
  lemma {:induction false} SpanIsFrame(line: Bits, flags: seq<nat>, x: nat, y: nat)
    requires AreFlags(line, flags) && x < y < |flags| && flags[y] > flags[x] + 8
    ensures FlagAt(line, flags[y]) && Destuff(line[flags[x] + 8..flags[y]], 0) in Spans(line, flags)
  {
    assert FlagAt(line, flags[y]);
    if x == 0 {
      CloserGivesSpan(line, flags[0], flags[1..], y - 1);
    } else {
      SpanIsFrame(line, flags[1..], x - 1, y - 1);
    }
  }

  lemma {:induction false} CloserGivesSpan(line: Bits, a: nat, closers: seq<nat>, y: nat)
    requires AreFlags(line, closers) && y < |closers| && closers[y] > a + 8
    ensures FlagAt(line, closers[y]) && Destuff(line[a + 8..closers[y]], 0) in SpansFrom(line, a, closers)
  {
    assert FlagAt(line, closers[y]);
    if y != 0 {
      CloserGivesSpan(line, a, closers[1..], y - 1);
    }
  }

  // f is what two flags, in order and with a bit between them, enclose.
  predicate Encloses(line: Bits, a: nat, b: nat, f: Bits) {
    FlagAt(line, a) && FlagAt(line, b) && a + 8 < b && f == Destuff(line[a + 8..b], 0)
  }

  lemma {:induction false} SpansFromEnclose(line: Bits, a: nat, closers: seq<nat>, f: Bits)
    requires AreFlags(line, closers) && FlagAt(line, a) && f in SpansFrom(line, a, closers)
    ensures exists b: nat :: Encloses(line, a, b, f)
  {
    assert FlagAt(line, closers[0]);
    if f in Span(line, a, closers[0]) {
      assert Encloses(line, a, closers[0], f);
    } else {
      SpansFromEnclose(line, a, closers[1..], f);
    }
  }

  lemma {:induction false} SpansEnclose(line: Bits, flags: seq<nat>, f: Bits)
    requires AreFlags(line, flags) && f in Spans(line, flags)
    ensures exists a: nat, b: nat :: Encloses(line, a, b, f)
  {
    assert FlagAt(line, flags[0]);
    if f in SpansFrom(line, flags[0], flags[1..]) {
      SpansFromEnclose(line, flags[0], flags[1..], f);
    } else {
      SpansEnclose(line, flags[1..], f);
    }
  }

  // The frames are exactly what any two flags of the line enclose, neighbours or not.
  lemma FramesAreEnclosed(line: Bits, f: Bits)
    ensures f in Frames(line) <==> exists a: nat, b: nat :: Encloses(line, a, b, f)
  {
    var flags := FlagPositions(line, 0);
    FlagsAreFlags(line);
    if f in Frames(line) {
      SpansEnclose(line, flags, f);
    }
    if a: nat, b: nat :| Encloses(line, a, b, f) {
      EnclosedIsFrame(line, flags, a, b, f);
    }
  }

  lemma EnclosedIsFrame(line: Bits, flags: seq<nat>, a: nat, b: nat, f: Bits)
    requires Encloses(line, a, b, f) && flags == FlagPositions(line, 0) && AreFlags(line, flags)
    ensures f in Spans(line, flags)
  {
    FlagPositionsComplete(line, 0);
    var x: nat :| x < |flags| && flags[x] == a;
    var y: nat :| y < |flags| && flags[y] == b;
    if y < x {
      FlagPositionsOrdered(line, 0, y, x);
    }
    SpanIsFrame(line, flags, x, y);
  }

  // ------------------------------------------------------------------ octets and the frame check

  // Octets of air-order bits; a trailing part octet is dropped.
  function Octets(air: Bits): (o: seq<Octet>)
    ensures |o| == |air| / 8
    decreases |air|
  {
    if |air| < 8 then [] else [OctetAt(air, 0)] + Octets(air[8..])
  }

  function OctetAt(air: Bits, i: nat): Octet
    requires i + 8 <= |air|
  {
    ToNatBound(air[i..i + 8]);
    Pow2Table();
    ToNat(air[i..i + 8])
  }

  lemma {:induction false} OctetsSnoc(air: Bits, i: nat)
    requires 8 * i + 8 <= |air|
    ensures Octets(air[..8 * i + 8]) == Octets(air[..8 * i]) + [OctetAt(air, 8 * i)]
    decreases |air|
  {
    var n := 8 * i;
    FirstOctet(air, n + 8);
    if i > 0 {
      var t, m := air[8..], n - 8;
      OctetsSnoc(t, i - 1);
      FirstOctet(air, n);
      assert t[m..m + 8] == air[n..n + 8];
    }
  }

  // What a cut after the first octet leaves.
  lemma FirstOctet(air: Bits, n: nat)
    requires 8 <= n <= |air|
    ensures air[..n][0..8] == air[0..8] && air[..n][8..] == air[8..][..n - 8]
  {
  }

  // py/fixtures/ais_ref.py: octets_lsb_first
  method OctetsLsbFirst(air: Bits) returns (out: seq<Octet>)
    ensures out == Octets(air)
  {
    out := [];
    var i := 0;
    while i < |air| - |air| % 8
      invariant i % 8 == 0 && i <= |air| - |air| % 8
      invariant out == Octets(air[..i])
    {
      OctetsSnoc(air, i / 8);
      out := out + [OctetAt(air, i)];
      i := i + 8;
    }
    DropPartOctet(air);
  }

  lemma {:induction false} DropPartOctet(air: Bits)
    ensures Octets(air[..|air| - |air| % 8]) == Octets(air)
    decreases |air|
  {
    if |air| >= 8 {
      var b := air[..|air| - |air| % 8];
      DropPartOctet(air[8..]);
      assert b[8..] == air[8..][..|air[8..]| - |air[8..]| % 8];
      assert b[0..8] == air[0..8];
    }
  }

  lemma {:induction false} AirOctetsRoundTrip(air: Bits)
    requires |air| % 8 == 0
    ensures AirBits(Octets(air)) == air
    decreases |air|
  {
    if air != [] {
      AirOctetsRoundTrip(air[8..]);
      FromToNat(air[0..8]);
      assert Octets(air)[1..] == Octets(air[8..]);
      assert air[0..8] + air[8..] == air;
    }
  }

  lemma {:induction false} OctetsAirRoundTrip(octets: seq<Octet>)
    ensures Octets(AirBits(octets)) == octets
  {
    if octets != [] {
      var air := AirBits(octets);
      OctetsAirRoundTrip(octets[1..]);
      Pow2Table();
      ToFromNat(octets[0], 8);
      assert air[8..] == AirBits(octets[1..]) && air[0..8] == LsbBits(octets[0]);
    }
  }

  // np.unpackbits: each octet most significant bit first.
  function MsbBits(octets: seq<Octet>): (b: Bits)
    ensures |b| == 8 * |octets|
  {
    if octets == [] then [] else UintBits(octets[0], 8) + MsbBits(octets[1..])
  }

  // lo | (hi << 8)
  function LittleEndian(lo: Octet, hi: Octet): nat { (lo as nat) + 256 * (hi as nat) }

  datatype Checked = Checked(message: Option<Bits>, ok: bool)

  // py/fixtures/ais_ref.py: check_crc
  function CheckCrc(frame: Bits): Checked {
    if |frame| < 24 || |frame| % 8 != 0 then Checked(None, false)
    else CheckOctets(Octets(frame))
  }

  function CheckOctets(octets: seq<Octet>): Checked
    requires |octets| >= 2
  {
    var data, lo, hi := octets[..|octets| - 2], octets[|octets| - 2], octets[|octets| - 1];
    Checked(Some(MsbBits(data)), LittleEndian(lo, hi) == Crc(data))
  }

  // Two octets on the air are one 16-bit number, least significant bit first.
  lemma TwoOctets(lo: Octet, hi: Octet)
    ensures |AirBits([lo, hi])| == 16 && ToNat(AirBits([lo, hi])) == LittleEndian(lo, hi)
  {
    assert [lo, hi] == [lo] + [hi];
    AirBitsConcat([lo], [hi]);
    OneOctet(lo);
    OneOctet(hi);
    ToNatConcat(AirBits([lo]), AirBits([hi]));
    ShiftLeftTable(hi);
  }

  lemma OneOctet(o: Octet)
    ensures |AirBits([o])| == 8 && ToNat(AirBits([o])) == o
  {
    assert [o][1..] == [];
    assert AirBits([o]) == LsbBits(o) + AirBits([]);
    assert AirBits([o]) == LsbBits(o);
    Pow2Table();
    ToFromNat(o, 8);
  }

  lemma {:induction false} SplitTrailer(o: seq<Octet>)
    requires |o| >= 2
    ensures AirBits(o) == AirBits(o[..|o| - 2]) + AirBits([o[|o| - 2], o[|o| - 1]])
  {
    var k := |o| - 2;
    AirBitsConcat(o[..k], o[k..]);
    assert o == o[..k] + o[k..] && o[k..] == [o[k], o[k + 1]];
  }

  // The last two octets, taken as one number, are the frame's last 16 bits.
  lemma {:induction false} TrailerValue(frame: Bits, o: seq<Octet>)
    requires |frame| >= 24 && |frame| % 8 == 0 && o == Octets(frame)
    ensures |o| >= 3 && AirBits(o[..|o| - 2]) == frame[..|frame| - 16]
    ensures LittleEndian(o[|o| - 2], o[|o| - 1]) == ToNat(frame[|frame| - 16..])
  {
    AirOctetsRoundTrip(frame);
    SplitTrailer(o);
    TwoOctets(o[|o| - 2], o[|o| - 1]);
    var data, trailer := AirBits(o[..|o| - 2]), AirBits([o[|o| - 2], o[|o| - 1]]);
    assert frame == data + trailer;
    assert frame[..|frame| - 16] == data && frame[|frame| - 16..] == trailer;
  }

  // A frame passes exactly when it is whole octets, at least three of them, and the register run
  // over all of it, check sequence included, ends at 0xF0B8.
  lemma {:induction false} CheckCrcIff(frame: Bits)
    ensures CheckCrc(frame).ok <==>
            |frame| >= 24 && |frame| % 8 == 0 && ToNat(Feed(Ones(16), frame)) == GOOD_RESIDUE
  {
    if |frame| >= 24 && |frame| % 8 == 0 {
      var n := |frame| - 16;
      assert frame == frame[..n] + frame[n..];
      CheckCrcReads(frame, frame[..n], frame[n..]);
      TrailerIff(frame[..n], frame[n..]);
    }
  }

  lemma CheckCrcReads(frame: Bits, data: Bits, fcs: Register)
    requires |frame| >= 24 && |frame| % 8 == 0 && frame == data + fcs
    ensures CheckCrc(frame).ok <==> ToNat(fcs) == ToNat(Invert(Feed(Ones(16), data)))
  {
    TrailerValue(frame, Octets(frame));
    assert frame[..|frame| - 16] == data && frame[|frame| - 16..] == fcs;
  }

  lemma TrailerIff(data: Bits, fcs: Register)
    ensures ToNat(fcs) == ToNat(Invert(Feed(Ones(16), data))) <==> ToNat(Feed(Ones(16), data + fcs)) == GOOD_RESIDUE
  {
    ResidueIff(data, fcs);
    ToNatInjective(fcs, Invert(Feed(Ones(16), data)));
    GoodRegisterIsGoodResidue();
    ToNatInjective(Feed(Ones(16), data + fcs), GoodRegister());
  }

  // ------------------------------------------------------------------ damage

  // Any damage confined to 16 consecutive bits of a good frame, data and check sequence together,
  // is rejected, whatever the frame's length.
  lemma BurstRejected(frame: Bits, error: Bits)
    requires CheckCrc(frame).ok && |error| == |frame| && ShortBurst(error) && error != Zeros(|error|)
    ensures !CheckCrc(Xor(frame, error)).ok
  {
    HasOne(error);
    var i :| 0 <= i < |error| && error[i];
    BurstIsSeen(error, i);
    RejectSeen(frame, error);
  }

  // So is any odd number of wrong bits, anywhere.
  lemma OddErrorRejected(frame: Bits, error: Bits)
    requires CheckCrc(frame).ok && |error| == |frame| && Odd(error)
    ensures !CheckCrc(Xor(frame, error)).ok
  {
    FeedParity(Zeros(16), error);
    OddZeros(16);
    RejectSeen(frame, error);
  }

  lemma RejectSeen(frame: Bits, error: Bits)
    requires CheckCrc(frame).ok && |error| == |frame| && Feed(Zeros(16), error) != Zeros(16)
    ensures !CheckCrc(Xor(frame, error)).ok
  {
    CheckCrcIff(frame);
    CheckCrcIff(Xor(frame, error));
    GoodRegisterIsGoodResidue();
    ToNatInjective(Feed(Ones(16), frame), GoodRegister());
    ToNatInjective(Feed(Ones(16), Xor(frame, error)), GoodRegister());
    SeenIsRejected(frame, error);
  }

  // ------------------------------------------------------------------ messages

  // What f makes of each frame, in order.
  function Each(f: Bits -> seq<Fields>, frames: seq<Bits>): seq<Fields> {
    if frames == [] then [] else f(frames[0]) + Each(f, frames[1..])
  }

  lemma EachNext(f: Bits -> seq<Fields>, out: seq<Fields>, frames: seq<Bits>, i: nat)
    requires i < |frames|
    ensures out + Each(f, frames[i..]) == (out + f(frames[i])) + Each(f, frames[i + 1..])
  {
    assert frames[i..][0] == frames[i] && frames[i..][1..] == frames[i + 1..];
  }

  lemma {:induction false} EachHas(f: Bits -> seq<Fields>, frames: seq<Bits>, frame: Bits, message: Fields)
    requires frame in frames && message in f(frame)
    ensures message in Each(f, frames)
  {
    if frames[0] != frame {
      EachHas(f, frames[1..], frame, message);
    }
  }

  lemma EachOne(f: Bits -> seq<Fields>, frame: Bits)
    ensures Each(f, [frame]) == f(frame)
  {
    assert [frame][1..] == [];
  }

  // The message of an accepted frame.
  function ParseFrame(frame: Bits): seq<Fields> {
    var c := CheckCrc(frame);
    if c.ok then [ParseCommonBlock(c.message.value)] else []
  }

  function Decoded(line: Bits): seq<Fields> { Each(ParseFrame, Frames(line)) }

  // py/fixtures/ais_ref.py: decode_line_bits
  method DecodeLineBits(line: Bits) returns (out: seq<Fields>)
    ensures out == Decoded(line)
  {
    var frames := FramesBetweenFlags(line);
    out := [];
    for i := 0 to |frames|
      invariant out + Each(ParseFrame, frames[i..]) == Decoded(line)
    {
      EachNext(ParseFrame, out, frames, i);
      var message := MessageOf(frames[i]);
      out := out + message;
    }
    assert frames[|frames|..] == [] && out + [] == out;
  }

  // The body of its loop.
  method MessageOf(frame: Bits) returns (out: seq<Fields>)
    ensures out == ParseFrame(frame)
  {
    var c := CheckCrc(frame);
    out := [];
    if c.ok {
      out := [ParseCommonBlock(c.message.value)];
    }
  }

  // ------------------------------------------------------------------ what is decoded

  // Whole octets, at least three, over which the register ends at 0xF0B8.
  predicate Accepted(frame: Bits) {
    |frame| >= 24 && |frame| % 8 == 0 && ToNat(Feed(Ones(16), frame)) == 0xF0B8
  }

  // The place of bit j when every octet is reversed.
  function Mirror(j: nat): (i: nat)
    ensures i / 8 == j / 8 && i % 8 == 7 - j % 8
  {
    8 * (j / 8) + (7 - j % 8)
  }

  // m is a frame's message: its bits but for the last sixteen, those of each octet in reverse.
  predicate Reads(frame: Bits, m: Bits) {
    |m| + 16 == |frame| && forall j :: 0 <= j < |m| ==> Mirror(j) < |frame| && m[j] == frame[Mirror(j)]
  }

  lemma LowBitLast(b: Bits)
    requires b != []
    ensures UintBits(ToNat(b), |b|) == UintBits(ToNat(b[1..]), |b| - 1) + [b[0]]
  {
    var v, u := ToNat(b), ToNat(b[1..]);
    assert v == Bit(b[0]) + 2 * u;
    assert v / 2 == u && v % 2 == Bit(b[0]);
  }

  lemma {:induction false} Reversed(b: Bits, k: nat)
    requires k < |b|
    ensures UintBits(ToNat(b), |b|)[k] == b[|b| - 1 - k]
  {
    LowBitLast(b);
    if k < |b| - 1 {
      Reversed(b[1..], k);
    }
  }

  lemma MirrorWithin(j: nat, n: nat)
    requires n % 8 == 0 && j < n
    ensures Mirror(j) < n && (j < 8 ==> Mirror(j) == 7 - j) && (j >= 8 ==> Mirror(j) == 8 + Mirror(j - 8))
  {
  }

  lemma MsbFirst(air: Bits)
    requires |air| >= 8
    ensures MsbBits(Octets(air)) == UintBits(ToNat(air[0..8]), 8) + MsbBits(Octets(air[8..]))
  {
    assert Octets(air)[1..] == Octets(air[8..]);
  }

  lemma {:induction false} MsbReads(air: Bits, j: nat)
    requires |air| % 8 == 0 && j < |air|
    ensures Mirror(j) < |air| && |MsbBits(Octets(air))| == |air| && MsbBits(Octets(air))[j] == air[Mirror(j)]
    decreases j
  {
    MsbFirst(air);
    MirrorWithin(j, |air|);
    if j < 8 {
      Reversed(air[0..8], j);
    } else {
      var rest, i := air[8..], j - 8;
      MsbReads(rest, i);
      assert rest[Mirror(i)] == air[8 + Mirror(i)];
    }
  }

  lemma MessageReads(frame: Bits)
    requires |frame| >= 24 && |frame| % 8 == 0
    ensures CheckCrc(frame).message.Some? && Reads(frame, CheckCrc(frame).message.value)
  {
    var n, o := |frame| - 16, Octets(frame);
    var data := o[..|o| - 2];
    TrailerValue(frame, o);
    OctetsAirRoundTrip(data);
    assert Octets(frame[..n]) == data && n % 8 == 0;
    forall j | 0 <= j < n ensures Mirror(j) < |frame| && MsbBits(data)[j] == frame[Mirror(j)] {
      MsbReads(frame[..n], j);
    }
  }

  lemma ReadsOne(frame: Bits, m: Bits, n: Bits)
    requires Reads(frame, m) && Reads(frame, n)
    ensures m == n
  {
  }

  ghost predicate IsMessageOf(frame: Bits, x: Fields) {
    Accepted(frame) && exists m :: Reads(frame, m) && x == ParseCommonBlock(m)
  }

  lemma ParsedAre(frame: Bits, x: Fields)
    ensures x in ParseFrame(frame) <==> IsMessageOf(frame, x)
  {
    CheckCrcIff(frame);
    if Accepted(frame) {
      var c := CheckCrc(frame).message;
      MessageReads(frame);
      forall m | Reads(frame, m) ensures m == c.value {
        ReadsOne(frame, m, c.value);
      }
    }
  }

  // Of any line exactly the messages of the accepted frames are decoded: no other frame gives one.
  lemma DecodedAre(line: Bits, x: Fields)
    ensures x in Decoded(line) <==> exists frame :: frame in Frames(line) && IsMessageOf(frame, x)
  {
    forall frame ensures x in ParseFrame(frame) <==> IsMessageOf(frame, x) {
      ParsedAre(frame, x);
    }
    EachIff(ParseFrame, Frames(line), x);
  }

  lemma {:induction false} EachIff(f: Bits -> seq<Fields>, frames: seq<Bits>, x: Fields)
    ensures x in Each(f, frames) <==> exists frame :: frame in frames && x in f(frame)
  {
    if frames != [] {
      EachIff(f, frames[1..], x);
      assert forall frame :: frame in frames <==> frame == frames[0] || frame in frames[1..];
    }
  }

  // The messages of some frames and then of others are those of all, in order.
  lemma {:induction false} EachParts(f: Bits -> seq<Fields>, a: seq<Bits>, b: seq<Bits>)
    ensures Each(f, a + b) == Each(f, a) + Each(f, b)
  {
    if a == [] {
      assert a + b == b;
    } else {
      assert (a + b)[0] == a[0] && (a + b)[1..] == a[1..] + b;
      EachParts(f, a[1..], b);
    }
  }

  // ------------------------------------------------------------------ the sender

  // The frame check sequence of ISO/IEC 13239 section 4.2.5 in transmission order, highest power
  // first: the complement of the remainder of the data, preset with sixteen ones, by the generator.
  ghost predicate IsFcs(data: Bits, fcs: Bits) {
    |fcs| == 16 && IsRemainder(Dividend(Ones(16), data), Invert(fcs))
  }

  // Every data string has exactly one, and it is the octet loop's value sent low-order octet first.
  lemma {:induction false} FcsIsCrc(octets: seq<Octet>, fcs: Bits)
    requires |fcs| == 16
    ensures IsFcs(AirBits(octets), fcs) <==> ToNat(fcs) == Crc(octets)
  {
    var r := Feed(Ones(16), AirBits(octets));
    FeedIsRemainder(Ones(16), AirBits(octets), Invert(fcs));
    ToNatInjective(fcs, Invert(r));
    assert Invert(Invert(fcs)) == fcs && Invert(Invert(r)) == r;
  }

  // What is sent between the flags: the octets least significant bit first, then their FCS.
  function FrameBits(octets: seq<Octet>, fcs: Bits): Bits { AirBits(octets) + fcs }

  // A sent frame is accepted, with its message.
  lemma {:induction false} SentFrame(octets: seq<Octet>, fcs: Bits, frame: Bits)
    requires |octets| > 0 && |fcs| == 16 && ToNat(fcs) == Crc(octets) && frame == FrameBits(octets, fcs)
    ensures CheckCrc(frame) == Checked(Some(MsbBits(octets)), true)
  {
    var o := Octets(frame);
    SentOctets(octets, fcs, frame, o);
    SentCheck(octets, o);
    assert |frame| == 8 * |octets| + 16;
    assert CheckCrc(frame) == CheckOctets(o);
  }

  lemma SentCheck(octets: seq<Octet>, o: seq<Octet>)
    requires |o| == |octets| + 2 && o[..|octets|] == octets && LittleEndian(o[|o| - 2], o[|o| - 1]) == Crc(octets)
    ensures CheckOctets(o) == Checked(Some(MsbBits(octets)), true)
  {
  }

  lemma {:induction false} SentOctets(octets: seq<Octet>, fcs: Bits, frame: Bits, o: seq<Octet>)
    requires |octets| > 0 && |fcs| == 16 && frame == FrameBits(octets, fcs) && o == Octets(frame)
    ensures |o| == |octets| + 2 && o[..|octets|] == octets && LittleEndian(o[|o| - 2], o[|o| - 1]) == ToNat(fcs)
  {
    TrailerValue(frame, o);
    assert frame[..|frame| - 16] == AirBits(octets) && frame[|frame| - 16..] == fcs;
    OctetsAirRoundTrip(octets);
    OctetsAirRoundTrip(o[..|octets|]);
  }

  // The line for one message: `before` and `after` are whatever else is on it.
  function SentLine(level: bool, before: Bits, octets: seq<Octet>, fcs: Bits, after: Bits): (levels: Bits)
    ensures |levels| >= 16
  {
    NrziEncode(level, FramedLine(before, FrameBits(octets, fcs), after))
  }

  // Received data bits for a line that has at least one symbol before its opening flag.
  lemma ReceivedBits(level: bool, before: Bits, p: Bits, after: Bits)
    requires |before| > 0
    ensures NrziDecode(NrziEncode(level, FramedLine(before, p, after))) == FramedLine([true] + before[1..], p, after)
  {
    var bits := FramedLine(before, p, after);
    NrziRoundTrip(level, bits);
    assert [true] + bits[1..] == FramedLine([true] + before[1..], p, after);
  }

  // Whatever surrounds the frame, and from either starting level, the message is in the output.
  lemma {:induction false} MessageDelivered(level: bool, before: Bits, octets: seq<Octet>, fcs: Bits, after: Bits)
    requires |before| > 0 && |octets| > 0 && IsFcs(AirBits(octets), fcs)
    ensures ParseCommonBlock(MsbBits(octets)) in Decoded(NrziDecode(SentLine(level, before, octets, fcs, after)))
  {
    var p, lead := FrameBits(octets, fcs), [true] + before[1..];
    ReceivedBits(level, before, p, after);
    FcsIsCrc(octets, fcs);
    CrcFrameIsDecoded(lead, octets, fcs, after);
  }

  lemma {:induction false} CrcFrameIsDecoded(before: Bits, octets: seq<Octet>, fcs: Bits, after: Bits)
    requires |octets| > 0 && |fcs| == 16 && ToNat(fcs) == Crc(octets)
    ensures ParseCommonBlock(MsbBits(octets)) in Decoded(FramedLine(before, FrameBits(octets, fcs), after))
  {
    var p := FrameBits(octets, fcs);
    var line := FramedLine(before, p, after);
    assert p in Frames(line) by { FrameIsFound(before, p, after); }
    SentFrame(octets, fcs, p);
    GoodFrameIsDecoded(line, p, MsbBits(octets));
  }

  lemma GoodFrameIsDecoded(line: Bits, frame: Bits, message: Bits)
    requires frame in Frames(line) && CheckCrc(frame) == Checked(Some(message), true)
    ensures ParseCommonBlock(message) in Decoded(line)
  {
    EachHas(ParseFrame, Frames(line), frame, ParseCommonBlock(message));
  }

  // Inverting the whole line changes nothing.
  lemma PolarityFree(levels: Bits)
    requires |levels| > 0
    ensures Decoded(NrziDecode(Invert(levels))) == Decoded(NrziDecode(levels))
  {
    NrziPolarity(levels);
  }

  // Whatever surrounds it, a framed p comes out of the flag search and destuffing.
  lemma FrameIsFound(before: Bits, p: Bits, after: Bits)
    requires p != []
    ensures p in Frames(FramedLine(before, p, after))
  {
    var line, m, c := FramedLine(before, p, after), |before|, ClosingFlag(before, p);
    FramedLineParts(before, p, after);
    FlagPositionsComplete(line, 0);
    FlagsAreFlags(line);
    var flags := FlagPositions(line, 0);
    assert m in flags && c in flags;
    var x :| 0 <= x < |flags| && flags[x] == m;
    var y :| 0 <= y < |flags| && flags[y] == c;
    if y < x {
      FlagPositionsOrdered(line, 0, y, x);
    }
    StuffGrowth(p, 0);
    SpanIsFrame(line, flags, x, y);
    DestuffStuff(p, 0);
  }

  // When the bits around the frame hold no run of six ones, the output is that message and no other.
  lemma {:induction false} MessageDeliveredAlone(level: bool, before: Bits, octets: seq<Octet>, fcs: Bits, after: Bits)
    requires |before| > 0 && |octets| > 0 && IsFcs(AirBits(octets), fcs)
    requires NoSixOnes([true] + before[1..], 0) && NoSixOnes(after, 0)
    ensures Decoded(NrziDecode(SentLine(level, before, octets, fcs, after))) == [ParseCommonBlock(MsbBits(octets))]
  {
    var p, lead := FrameBits(octets, fcs), [true] + before[1..];
    var line := FramedLine(lead, p, after);
    ReceivedBits(level, before, p, after);
    assert ToNat(fcs) == Crc(octets) by { FcsIsCrc(octets, fcs); }
    assert Frames(line) == [p] by { OnlyFrame(lead, p, after); }
    SentFrame(octets, fcs, p);
    OnlyMessage(line, p, MsbBits(octets));
  }

  lemma OnlyFrame(before: Bits, p: Bits, after: Bits)
    requires p != [] && NoSixOnes(before, 0) && NoSixOnes(after, 0)
    ensures Frames(FramedLine(before, p, after)) == [p]
  {
    var line, m, c := FramedLine(before, p, after), |before|, ClosingFlag(before, p);
    FramedLineParts(before, p, after);
    OnlyTheTwoFlags(before, p, after);
    FlagsAreFlags(line);
    StuffGrowth(p, 0);
    DestuffStuff(p, 0);
    var flags: seq<nat> := [m, c];
    assert flags[1..] == [c] && flags[1..][1..] == [];
    assert Span(line, m, c) == [p];
    assert SpansFrom(line, m, [c]) == [p];
    assert Spans(line, [c]) == [];
  }

  lemma OnlyMessage(line: Bits, frame: Bits, message: Bits)
    requires Frames(line) == [frame] && CheckCrc(frame) == Checked(Some(message), true)
    ensures Decoded(line) == [ParseCommonBlock(message)]
  {
    EachOne(ParseFrame, frame);
  }

  // A line that starts with a flag: NRZI loses its first bit, so that flag is lost and no other, and the
  // frames found are those between the flags after it, whatever follows.
  lemma {:induction false} FirstFlagLost(level: bool, sent: Bits)
    requires FlagAt(sent, 0)
    ensures var line, flags := NrziDecode(NrziEncode(level, sent)), FlagPositions(sent, 1);
            && FlagPositions(line, 0) == flags
            && AreFlags(sent, flags) && Frames(line) == Spans(sent, flags)
  {
    var line, flags := NrziDecode(NrziEncode(level, sent)), FlagPositions(sent, 1);
    NrziRoundTrip(level, sent);
    assert line[0] && forall i :: 0 < i < |sent| ==> line[i] == sent[i];
    assert !FlagAt(line, 0);
    SameFlags(line, sent, 1);
    FlagPositionsComplete(sent, 1);
    assert forall i :: 0 <= i < |flags| ==> flags[i] in flags;
    FlagsAreFlags(line);
    SameSpans(line, sent, flags);
  }

  // Two lines that agree from `from` on have the same flags there.
  lemma {:induction false} SameFlags(a: Bits, b: Bits, from: nat)
    requires |a| == |b| && forall i :: from <= i < |a| ==> a[i] == b[i]
    ensures FlagPositions(a, from) == FlagPositions(b, from)
    decreases |a| - from
  {
    if from + 8 <= |a| {
      SameFlags(a, b, from + 1);
      assert FlagAt(a, from) <==> FlagAt(b, from);
    }
  }

  lemma {:induction false} SameSpans(a: Bits, b: Bits, flags: seq<nat>)
    requires |a| == |b| && (forall i :: 0 < i < |a| ==> a[i] == b[i]) && AreFlags(a, flags) && AreFlags(b, flags)
    ensures Spans(a, flags) == Spans(b, flags)
  {
    if flags != [] {
      SameSpansFrom(a, b, flags[0], flags[1..]);
      SameSpans(a, b, flags[1..]);
    }
  }

  lemma {:induction false} SameSpansFrom(a: Bits, b: Bits, x: nat, closers: seq<nat>)
    requires |a| == |b| && (forall i :: 0 < i < |a| ==> a[i] == b[i]) && AreFlags(a, closers) && AreFlags(b, closers)
    ensures SpansFrom(a, x, closers) == SpansFrom(b, x, closers)
  {
    if closers != [] {
      var y := closers[0];
      assert FlagAt(a, y) && FlagAt(b, y);
      if y > x + 8 {
        assert a[x + 8..y] == b[x + 8..y];
      }
      SameSpansFrom(a, b, x, closers[1..]);
    }
  }

  // The lead-in symbol is needed: with nothing else that could be a flag the message is lost.
  lemma NoLeadInNoMessage(level: bool, p: Bits, after: Bits)
    requires NoSixOnes(after, 0)
    ensures Decoded(NrziDecode(NrziEncode(level, FramedLine([], p, after)))) == []
  {
    var sent, c := FramedLine([], p, after), ClosingFlag([], p);
    FramedLineParts([], p, after);
    FirstFlagLost(level, sent);
    OnlyTheTwoFlags([], p, after);
    assert FlagAt(sent, 0) && FlagPositions(sent, 0) == [0] + FlagPositions(sent, 1);
    assert [0, c][1..] == [c] && FlagPositions(sent, 1) == [c];
    assert [c][1..] == [] && Spans(sent, [c]) == [];
  }

  // ------------------------------------------------------------------ position reports

  // Message bits packed into octets, most significant bit first.
  function PackMsb(b: Bits): (o: seq<Octet>)
    requires |b| % 8 == 0
    ensures |o| == |b| / 8
    decreases |b|
  {
    if b == [] then []
    else
      UintBound(b[..8]);
      Pow2Table();
      [Uint(b[..8])] + PackMsb(b[8..])
  }

  lemma {:induction false} PackMsbRoundTrip(b: Bits)
    requires |b| % 8 == 0
    ensures MsbBits(PackMsb(b)) == b
    decreases |b|
  {
    if b != [] {
      UintBitsRoundTrip(b[..8]);
      PackMsbRoundTrip(b[8..]);
      assert PackMsb(b)[1..] == PackMsb(b[8..]);
      assert b[..8] + b[8..] == b;
    }
  }

  // The octets of a report.
  function ReportOctets(report: RawReport): (o: seq<Octet>)
    requires report.Valid()
    ensures |o| == 21
  {
    ReportRoundTrip(report);
    PackMsb(report.Encode())
  }

  // A class A position report sent over the line is reported with its own values.
  lemma ReportDelivered(level: bool, before: Bits, report: RawReport, fcs: Bits, after: Bits)
    requires |before| > 0 && report.Valid() && IsFcs(AirBits(ReportOctets(report)), fcs)
    ensures report.Meaning() in Decoded(NrziDecode(SentLine(level, before, ReportOctets(report), fcs, after)))
  {
    MessageDelivered(level, before, ReportOctets(report), fcs, after);
    ReportMeaning(report);
  }

  lemma ReportMeaning(report: RawReport)
    requires report.Valid()
    ensures ParseCommonBlock(MsbBits(ReportOctets(report))) == report.Meaning()
  {
    ReportRoundTrip(report);
    PackMsbRoundTrip(report.Encode());
  }

  // Message bits packed, sent and decoded are parsed as they were.
  lemma PackedDelivered(level: bool, before: Bits, b: Bits, octets: seq<Octet>, fcs: Bits, after: Bits)
    requires |before| > 0 && b != [] && |b| % 8 == 0 && octets == PackMsb(b) && IsFcs(AirBits(octets), fcs)
    ensures ParseCommonBlock(b) in Decoded(NrziDecode(SentLine(level, before, octets, fcs, after)))
  {
    MessageDelivered(level, before, octets, fcs, after);
    PackMsbRoundTrip(b);
  }

  // Any message sent over the line, of whatever type, is reported with its type, repeat indicator and
  // MMSI, and with a position exactly when it has one.
  lemma HeaderDelivered(level: bool, before: Bits, t: nat, repeat: nat, mmsi: nat, rest: Bits, octets: seq<Octet>,
                        fcs: Bits, after: Bits)
    returns (f: Fields)
    requires |before| > 0 && t < 64 && repeat < 4 && mmsi < 0x4000_0000 && |rest| % 8 == 2
    requires octets == PackMsb(Header(t, repeat, mmsi) + rest) && IsFcs(AirBits(octets), fcs)
    ensures f in Decoded(NrziDecode(SentLine(level, before, octets, fcs, after)))
    ensures Announces(f, t, repeat, mmsi, 38 + |rest|)
  {
    var b := Header(t, repeat, mmsi) + rest;
    f := ParseCommonBlock(b);
    HeaderRoundTrip(t, repeat, mmsi, rest);
    PackedDelivered(level, before, b, octets, fcs, after);
  }
}
