/** The stream contract's framing as its example reader reads it (py/examples/hkstream.py). */
module Framing {
  import opened Wrappers
  import opened BitWords

  // A frame is a little-endian 32-bit length and that many bytes. The reader asks its file for the
  // bytes still missing and the file gives it any nonempty part of them, so what is read must not
  // depend on how the bytes arrive. JSON is not modelled: what a header frame says is given by a
  // function.

  type Bytes = seq<Octet>

  const HEADER_MAX_LEN: nat := 65536
  const PROTOCOL_MAX_FRAME_LEN: nat := 4194304

  // ------------------------------------------------------------------ little-endian integers

  // n bytes of v, low-order first.
  function LittleEndian(v: nat, n: nat): (b: Bytes)
    ensures |b| == n
  {
    if n == 0 then [] else [v % 256] + LittleEndian(v / 256, n - 1)
  }

  function FromLittleEndian(b: Bytes): nat {
    if b == [] then 0 else (b[0] as nat) + 256 * FromLittleEndian(b[1..])
  }

  // Values n bytes can hold.
  function Range(n: nat): (r: nat)
    ensures r > 0
  {
    if n == 0 then 1 else 256 * Range(n - 1)
  }

  lemma {:induction false} LittleEndianRoundTrip(v: nat, n: nat)
    requires v < Range(n)
    ensures FromLittleEndian(LittleEndian(v, n)) == v
    decreases n
  {
    if n != 0 {
      LittleEndianRoundTrip(v / 256, n - 1);
      assert LittleEndian(v, n)[1..] == LittleEndian(v / 256, n - 1);
    }
  }

  lemma Range4()
    ensures Range(4) == 0x1_0000_0000
  {
    assert Range(4) == 256 * Range(3) == 65536 * Range(2) == 16777216 * Range(1);
  }

  // ------------------------------------------------------------------ the file

  // A file whose remaining bytes arrive in pieces: `pieces` says how many at most each read gives.
  class Source {
    var rest: Bytes
    var pieces: seq<nat>

    constructor (bytes: Bytes, pieces: seq<nat>)
      ensures rest == bytes && this.pieces == pieces
    {
      rest, this.pieces := bytes, pieces;
    }

    // At least one and at most n of the remaining bytes; none only at the end.
    method Read(n: nat) returns (b: Bytes)
      requires n > 0
      modifies this
      ensures |b| <= n && (b == [] <==> old(rest) == [])
      ensures old(rest) == b + rest
    {
      var k := if pieces != [] && 0 < pieces[0] < n then pieces[0] else n;
      if pieces != [] {
        pieces := pieces[1..];
      }
      if |rest| < k {
        k := |rest|;
      }
      b := rest[..k];
      rest := rest[k..];
    }
  }

  // ------------------------------------------------------------------ reading

  datatype Exact = Got(bytes: Bytes) | CleanEnd | CutOff

  // The next n bytes of s; nothing at a clean end.
  function TakeExact(s: Bytes, n: nat): Exact {
    if |s| >= n then Got(s[..n]) else if s == [] then CleanEnd else CutOff
  }

  function DropExact(s: Bytes, n: nat): Bytes { if |s| >= n then s[n..] else [] }

  // _read_exact
  method ReadExact(f: Source, n: nat) returns (r: Exact)
    modifies f
    ensures r == TakeExact(old(f.rest), n) && f.rest == DropExact(old(f.rest), n)
  {
    var got: Bytes := [];
    while |got| < n
      invariant |got| <= n && old(f.rest) == got + f.rest
      decreases n - |got|
    {
      var b := f.Read(n - |got|);
      if b == [] {
        return if got == [] then CleanEnd else CutOff;
      }
      got := got + b;
    }
    r := Got(got);
  }

  datatype FrameRead = Frame(payload: Bytes) | EndOfStream | Truncated | TooLong(length: nat)

  // read_frame on the bytes s.
  function NextFrame(s: Bytes, maxLen: nat): FrameRead {
    match TakeExact(s, 4)
    case CleanEnd => EndOfStream
    case CutOff => Truncated
    case Got(prefix) =>
      var n := FromLittleEndian(prefix);
      if n > maxLen then TooLong(n)
      else match TakeExact(s[4..], n)
        case Got(payload) => Frame(payload)
        case _ => Truncated
  }

  function AfterFrame(s: Bytes, maxLen: nat): (rest: Bytes)
    ensures NextFrame(s, maxLen).Frame? ==> |rest| < |s|
  {
    if |s| < 4 then []
    else if FromLittleEndian(s[..4]) > maxLen then s[4..]
    else DropExact(s[4..], FromLittleEndian(s[..4]))
  }

  // read_frame
  method ReadFrame(f: Source, maxLen: nat) returns (r: FrameRead)
    modifies f
    ensures r == NextFrame(old(f.rest), maxLen) && f.rest == AfterFrame(old(f.rest), maxLen)
  {
    var prefix := ReadExact(f, 4);
    match prefix {
      case CleanEnd => return EndOfStream;
      case CutOff => return Truncated;
      case Got(bytes) =>
        var n := FromLittleEndian(bytes);
        if n > maxLen {
          return TooLong(n);
        }
        var payload := ReadExact(f, n);
        r := if payload.Got? then Frame(payload.bytes) else Truncated;
    }
  }

  // What a reader that takes frames until something else happens gets, and what that is.
  datatype Reading = Reading(frames: seq<Bytes>, stop: FrameRead)

  function ReadAll(s: Bytes, maxLen: nat): (r: Reading)
    ensures !r.stop.Frame?
    decreases |s|
  {
    var n := NextFrame(s, maxLen);
    if n.Frame? then
      var rest := ReadAll(AfterFrame(s, maxLen), maxLen);
      Reading([n.payload] + rest.frames, rest.stop)
    else Reading([], n)
  }

  // `taken` frames and then whatever the rest reads as.
  function ReadOn(taken: seq<Bytes>, rest: Bytes, maxLen: nat): Reading {
    var r := ReadAll(rest, maxLen);
    Reading(taken + r.frames, r.stop)
  }

  lemma ReadOnStep(taken: seq<Bytes>, rest: Bytes, maxLen: nat)
    ensures var n := NextFrame(rest, maxLen);
            ReadOn(taken, rest, maxLen) ==
            if n.Frame? then ReadOn(taken + [n.payload], AfterFrame(rest, maxLen), maxLen) else Reading(taken, n)
  {
    var n := NextFrame(rest, maxLen);
    if n.Frame? {
      var later := ReadAll(AfterFrame(rest, maxLen), maxLen).frames;
      assert taken + ([n.payload] + later) == (taken + [n.payload]) + later;
    } else {
      assert taken + [] == taken;
    }
  }

  // What StreamReader.records yields, run to its end: the bytes decide it, their arrival does not.
  method Records(f: Source, maxLen: nat) returns (r: Reading)
    modifies f
    ensures r == ReadAll(old(f.rest), maxLen)
  {
    var frames: seq<Bytes> := [];
    while true
      invariant ReadOn(frames, f.rest, maxLen) == ReadAll(old(f.rest), maxLen)
      decreases |f.rest|
    {
      ReadOnStep(frames, f.rest, maxLen);
      var n := ReadFrame(f, maxLen);
      if !n.Frame? {
        return Reading(frames, n);
      }
      frames := frames + [n.payload];
    }
  }

  // ------------------------------------------------------------------ the sender

  function EncodeFrame(p: Bytes): (s: Bytes)
    ensures |s| == 4 + |p|
  {
    LittleEndian(|p|, 4) + p
  }

  function Encode(frames: seq<Bytes>): Bytes {
    if frames == [] then [] else EncodeFrame(frames[0]) + Encode(frames[1..])
  }

  predicate Within(frames: seq<Bytes>, maxLen: nat) {
    forall i :: 0 <= i < |frames| ==> |frames[i]| <= maxLen && |frames[i]| < 0x1_0000_0000
  }

  // One frame at the head of the bytes, however they go on.
  lemma FrameAtHead(p: Bytes, tail: Bytes, maxLen: nat)
    requires |p| < 0x1_0000_0000
    ensures NextFrame(EncodeFrame(p) + tail, maxLen) == if |p| > maxLen then TooLong(|p|) else Frame(p)
    ensures |p| <= maxLen ==> AfterFrame(EncodeFrame(p) + tail, maxLen) == tail
  {
    var s := EncodeFrame(p) + tail;
    Range4();
    LittleEndianRoundTrip(|p|, 4);
    assert s[..4] == LittleEndian(|p|, 4);
    assert s[4..] == p + tail;
  }

  // A frame cut short, but not cut off whole, is a truncation.
  lemma FrameCut(p: Bytes, k: nat, maxLen: nat)
    requires |p| <= maxLen && |p| < 0x1_0000_0000 && 0 < k < |EncodeFrame(p)|
    ensures NextFrame(EncodeFrame(p)[..k], maxLen) == Truncated
  {
    var s := EncodeFrame(p)[..k];
    if k >= 4 {
      Range4();
      LittleEndianRoundTrip(|p|, 4);
      assert s[..4] == LittleEndian(|p|, 4);
    }
  }

  // Reading a frame within the limit and what follows it.
  lemma ReadCons(p: Bytes, tail: Bytes, s: Bytes, maxLen: nat)
    requires |p| <= maxLen && |p| < 0x1_0000_0000 && s == EncodeFrame(p) + tail
    ensures var r := ReadAll(tail, maxLen); ReadAll(s, maxLen) == Reading([p] + r.frames, r.stop)
  {
    FrameAtHead(p, tail, maxLen);
  }

  // Any frames within the limit come back as sent, then a clean end.
  lemma {:induction false} FramesRoundTrip(frames: seq<Bytes>, maxLen: nat)
    requires Within(frames, maxLen)
    ensures ReadAll(Encode(frames), maxLen) == Reading(frames, EndOfStream)
    decreases |frames|
  {
    if frames != [] {
      FramesRoundTrip(frames[1..], maxLen);
      ReadCons(frames[0], Encode(frames[1..]), Encode(frames), maxLen);
      assert [frames[0]] + frames[1..] == frames;
    }
  }

  // The first frame over the limit stops the reader after the frames before it, whatever follows.
  lemma OverlongStops(frames: seq<Bytes>, p: Bytes, tail: Bytes, maxLen: nat)
    requires Within(frames, maxLen) && maxLen < |p| < 0x1_0000_0000
    ensures ReadAll(Encode(frames) + (EncodeFrame(p) + tail), maxLen) == Reading(frames, TooLong(|p|))
  {
    var bad := EncodeFrame(p) + tail;
    FrameAtHead(p, tail, maxLen);
    StopsAfter(frames, bad, maxLen, TooLong(|p|));
  }

  // Frames within the limit, then bytes that read as no frame.
  lemma {:induction false} StopsAfter(frames: seq<Bytes>, bad: Bytes, maxLen: nat, stop: FrameRead)
    requires Within(frames, maxLen) && NextFrame(bad, maxLen) == stop && !stop.Frame?
    ensures ReadAll(Encode(frames) + bad, maxLen) == Reading(frames, stop)
    decreases |frames|
  {
    if frames == [] {
      assert Encode(frames) + bad == bad;
    } else {
      var first, others := frames[0], frames[1..];
      assert ReadAll(Encode(others) + bad, maxLen) == Reading(others, stop) by {
        StopsAfter(others, bad, maxLen, stop);
      }
      ReadFirst(first, others, frames, bad, maxLen, stop);
    }
  }

  lemma ReadFirst(first: Bytes, others: seq<Bytes>, frames: seq<Bytes>, bad: Bytes, maxLen: nat, stop: FrameRead)
    requires |first| <= maxLen && |first| < 0x1_0000_0000 && frames == [first] + others
    requires ReadAll(Encode(others) + bad, maxLen) == Reading(others, stop)
    ensures ReadAll(Encode(frames) + bad, maxLen) == Reading(frames, stop)
  {
    var head, tail := EncodeFrame(first), Encode(others);
    Associates(head, tail, bad);
    assert frames[0] == first && frames[1..] == others;
    ReadCons(first, tail + bad, (head + tail) + bad, maxLen);
  }

  lemma Associates(a: Bytes, b: Bytes, c: Bytes)
    ensures (a + b) + c == a + (b + c)
  {
  }

  // The number of whole frames in the first k bytes.
  function WholeFrames(frames: seq<Bytes>, k: nat): (m: nat)
    ensures m <= |frames|
  {
    if frames == [] || k < |EncodeFrame(frames[0])| then 0
    else 1 + WholeFrames(frames[1..], k - |EncodeFrame(frames[0])|)
  }

  // The first k bytes are m whole frames of n bytes and the start of the next.
  predicate Cut(frames: seq<Bytes>, k: nat, m: nat, n: nat) {
    && m <= |frames| && n <= k <= |Encode(frames)|
    && Encode(frames)[..n] == Encode(frames[..m])
    && (m == |frames| ==> n == k)
    && (m < |frames| ==> k - n < |EncodeFrame(frames[m])| && Encode(frames)[n..k] == EncodeFrame(frames[m])[..k - n])
  }

  lemma CutInFirst(frames: seq<Bytes>, k: nat)
    requires frames != [] && k < |EncodeFrame(frames[0])|
    ensures Cut(frames, k, 0, 0)
  {
    var head, tail := EncodeFrame(frames[0]), Encode(frames[1..]);
    assert Encode(frames) == head + tail && frames[..0] == [];
    assert (head + tail)[0..k] == head[..k];
  }

  lemma CutLater(frames: seq<Bytes>, k: nat, m: nat, n: nat)
    requires frames != [] && |EncodeFrame(frames[0])| <= k && Cut(frames[1..], k - |EncodeFrame(frames[0])|, m, n)
    ensures Cut(frames, k, m + 1, |EncodeFrame(frames[0])| + n)
  {
    var head, tail := EncodeFrame(frames[0]), Encode(frames[1..]);
    assert Encode(frames) == head + tail;
    FirstTaken(frames, m + 1);
    SliceBehind(head, tail, n, k - |head|);
  }

  lemma {:induction false} PrefixParts(frames: seq<Bytes>, k: nat) returns (n: nat)
    requires k <= |Encode(frames)|
    ensures Cut(frames, k, WholeFrames(frames, k), n)
    decreases |frames|
  {
    n := 0;
    if frames != [] {
      var size := |EncodeFrame(frames[0])|;
      if k < size {
        CutInFirst(frames, k);
      } else {
        n := PrefixParts(frames[1..], k - size);
        CutLater(frames, k, WholeFrames(frames[1..], k - size), n);
        n := size + n;
      }
    }
  }

  lemma SliceBehind(head: Bytes, tail: Bytes, n: nat, j: nat)
    requires n <= j <= |tail|
    ensures (head + tail)[..|head| + n] == head + tail[..n]
    ensures (head + tail)[|head| + n..|head| + j] == tail[n..j]
  {
  }

  lemma FirstTaken(frames: seq<Bytes>, m: nat)
    requires 0 < m <= |frames|
    ensures Encode(frames[..m]) == EncodeFrame(frames[0]) + Encode(frames[1..][..m - 1])
  {
    assert frames[..m][0] == frames[0] && frames[..m][1..] == frames[1..][..m - 1];
  }

  // A stream cut anywhere gives exactly its whole frames, then a clean end if it was cut between
  // frames and a truncation error if not.
  lemma PrefixReads(frames: seq<Bytes>, k: nat, maxLen: nat)
    requires Within(frames, maxLen) && k <= |Encode(frames)|
    ensures var m := WholeFrames(frames, k);
            && |Encode(frames[..m])| <= k
            && ReadAll(Encode(frames)[..k], maxLen) ==
               Reading(frames[..m], if k == |Encode(frames[..m])| then EndOfStream else Truncated)
  {
    var n := PrefixParts(frames, k);
    var m := WholeFrames(frames, k);
    var all, taken := Encode(frames), frames[..m];
    assert |all[..n]| == n;
    var left := all[n..k];
    assert all[..k] == Encode(taken) + left;
    if n < k {
      FrameCut(frames[m], k - n, maxLen);
    }
    StopsAfter(taken, left, maxLen, if k == n then EndOfStream else Truncated);
  }

  // ------------------------------------------------------------------ binary records

  datatype Record = Record(
    kind: nat, flags: nat, reserved: nat, payloadLen: nat, seqNo: nat, tNs: int, sampleIndex: nat, payload: Bytes)
  {
    predicate Valid() {
      && kind < Range(1) && flags < Range(1) && reserved < Range(2) && payloadLen < Range(4) && seqNo < Range(8)
      && -(Range(8) as int) <= 2 * tNs < Range(8) && sampleIndex < Range(8)
    }

    // struct "<BBHIQqQ", then the payload.
    function Encoded(): Bytes
      requires Valid()
    {
      LittleEndian(kind, 1) + LittleEndian(flags, 1) + LittleEndian(reserved, 2) + LittleEndian(payloadLen, 4)
      + LittleEndian(seqNo, 8) + LittleEndian(if tNs < 0 then tNs + Range(8) else tNs, 8) + LittleEndian(sampleIndex, 8)
      + payload
    }
  }

  // A signed 64-bit little-endian integer.
  function Signed8(b: Bytes): int
    requires |b| == 8
  {
    var v := FromLittleEndian(b);
    if 2 * v >= Range(8) then v - Range(8) else v
  }

  // parse_binary_record; shorter than the 32-byte header raises ValueError.
  function ParseBinaryRecord(s: Bytes): Option<Record> {
    if |s| < 32 then None
    else Some(Record(FromLittleEndian(s[0..1]), FromLittleEndian(s[1..2]), FromLittleEndian(s[2..4]),
                     FromLittleEndian(s[4..8]),
                     FromLittleEndian(s[8..16]), Signed8(s[16..24]), FromLittleEndian(s[24..32]), s[32..]))
  }

  lemma RecordParts(r: Record)
    requires r.Valid()
    ensures var s := r.Encoded();
            && |s| >= 32 && s[0..1] == LittleEndian(r.kind, 1) && s[1..2] == LittleEndian(r.flags, 1)
            && s[2..4] == LittleEndian(r.reserved, 2) && s[4..8] == LittleEndian(r.payloadLen, 4)
            && s[8..16] == LittleEndian(r.seqNo, 8)
            && s[16..24] == LittleEndian(if r.tNs < 0 then r.tNs + Range(8) else r.tNs, 8)
            && s[24..32] == LittleEndian(r.sampleIndex, 8) && s[32..] == r.payload
  {
    HeaderSlices(LittleEndian(r.kind, 1), LittleEndian(r.flags, 1), LittleEndian(r.reserved, 2),
                 LittleEndian(r.payloadLen, 4), LittleEndian(r.seqNo, 8),
                 LittleEndian(if r.tNs < 0 then r.tNs + Range(8) else r.tNs, 8),
                 LittleEndian(r.sampleIndex, 8), r.payload);
  }

  lemma HeaderSlices(a: Bytes, b: Bytes, c: Bytes, d: Bytes, e: Bytes, f: Bytes, g: Bytes, h: Bytes)
    requires |a| == |b| == 1 && |c| == 2 && |d| == 4 && |e| == |f| == |g| == 8
    ensures var s := a + b + c + d + e + f + g + h;
            && s[0..1] == a && s[1..2] == b && s[2..4] == c && s[4..8] == d
            && s[8..16] == e && s[16..24] == f && s[24..32] == g && s[32..] == h
  {
  }

  lemma SignedRoundTrip(v: int)
    requires -(Range(8) as int) <= 2 * v < Range(8)
    ensures Signed8(LittleEndian(if v < 0 then v + Range(8) else v, 8)) == v
  {
    LittleEndianRoundTrip(if v < 0 then v + Range(8) else v, 8);
  }

  lemma FieldsRoundTrip(r: Record)
    requires r.Valid()
    ensures FromLittleEndian(LittleEndian(r.kind, 1)) == r.kind && FromLittleEndian(LittleEndian(r.flags, 1)) == r.flags
    ensures FromLittleEndian(LittleEndian(r.reserved, 2)) == r.reserved
    ensures FromLittleEndian(LittleEndian(r.payloadLen, 4)) == r.payloadLen
    ensures FromLittleEndian(LittleEndian(r.seqNo, 8)) == r.seqNo
    ensures FromLittleEndian(LittleEndian(r.sampleIndex, 8)) == r.sampleIndex
  {
    LittleEndianRoundTrip(r.kind, 1);
    LittleEndianRoundTrip(r.flags, 1);
    LittleEndianRoundTrip(r.reserved, 2);
    LittleEndianRoundTrip(r.payloadLen, 4);
    LittleEndianRoundTrip(r.seqNo, 8);
    LittleEndianRoundTrip(r.sampleIndex, 8);
  }

  // Every record a sender can write parses back to itself, sign included.
  lemma RecordRoundTrip(r: Record)
    requires r.Valid()
    ensures ParseBinaryRecord(r.Encoded()) == Some(r)
  {
    RecordParts(r);
    FieldsRoundTrip(r);
    SignedRoundTrip(r.tNs);
  }

  // ------------------------------------------------------------------ a whole stream

  // What a header frame's JSON says: a refusal, another schema or version, or a stream whose frames
  // are at most maxFrameLen long, binary records or NDJSON.
  datatype Header = Refusal | Foreign | Unsupported | Accepted(maxFrameLen: Option<nat>, binary: bool)

  datatype HeaderRead = Opened(header: Header) | Refused | NoHeader | BadHeader(stop: FrameRead) | NotAStream

  function JudgeHeader(r: FrameRead, parse: Bytes -> Header): HeaderRead {
    match r
    case EndOfStream => NoHeader
    case Frame(p) =>
      var h := parse(p);
      if h.Refusal? then Refused else if h.Accepted? then Opened(h) else NotAStream
    case _ => BadHeader(r)
  }

  // min(max_frame_len + 64, PROTOCOL_MAX_FRAME_LEN + 64)
  function FrameLimit(h: Header): nat
    requires h.Accepted?
  {
    var n := if h.maxFrameLen.Some? then h.maxFrameLen.value else PROTOCOL_MAX_FRAME_LEN;
    (if n < PROTOCOL_MAX_FRAME_LEN then n else PROTOCOL_MAX_FRAME_LEN) + 64
  }

  // How a binary stream ends: as its frames do, or at a frame shorter than a record's header.
  datatype RecordStop = AtFrame(stop: FrameRead) | ShortRecord

  datatype RecordReading = RecordReading(records: seq<Record>, stop: RecordStop)

  // The records of the bytes s.
  function ReadRecords(s: Bytes, maxLen: nat): RecordReading
    decreases |s|
  {
    var n := NextFrame(s, maxLen);
    if !n.Frame? then RecordReading([], AtFrame(n))
    else if ParseBinaryRecord(n.payload).None? then RecordReading([], ShortRecord)
    else
      var rest := ReadRecords(AfterFrame(s, maxLen), maxLen);
      RecordReading([ParseBinaryRecord(n.payload).value] + rest.records, rest.stop)
  }

  // The frames parsed in turn, up to the first too short to be a record.
  function ParseRecords(frames: seq<Bytes>): seq<Record> {
    if frames == [] || ParseBinaryRecord(frames[0]).None? then []
    else [ParseBinaryRecord(frames[0]).value] + ParseRecords(frames[1..])
  }

  // The records are the frames parsed; the stream ends as its frames do unless one of them is short.
  lemma {:induction false} RecordsAreFrames(s: Bytes, maxLen: nat)
    ensures var all, r := ReadAll(s, maxLen), ReadRecords(s, maxLen);
            && r.records == ParseRecords(all.frames)
            && r.stop == if |r.records| < |all.frames| then ShortRecord else AtFrame(all.stop)
    decreases |s|
  {
    var n := NextFrame(s, maxLen);
    if n.Frame? {
      RecordsAreFrames(AfterFrame(s, maxLen), maxLen);
    }
  }

  // `taken` records and then whatever the rest reads as.
  function RecordsOn(taken: seq<Record>, rest: Bytes, maxLen: nat): RecordReading {
    var r := ReadRecords(rest, maxLen);
    RecordReading(taken + r.records, r.stop)
  }

  lemma RecordsOnStep(taken: seq<Record>, rest: Bytes, maxLen: nat)
    ensures var n := NextFrame(rest, maxLen);
            RecordsOn(taken, rest, maxLen) ==
            if !n.Frame? then RecordReading(taken, AtFrame(n))
            else if ParseBinaryRecord(n.payload).None? then RecordReading(taken, ShortRecord)
            else RecordsOn(taken + [ParseBinaryRecord(n.payload).value], AfterFrame(rest, maxLen), maxLen)
  {
    var n := NextFrame(rest, maxLen);
    if n.Frame? && ParseBinaryRecord(n.payload).Some? {
      var p, later := ParseBinaryRecord(n.payload).value, ReadRecords(AfterFrame(rest, maxLen), maxLen).records;
      assert taken + ([p] + later) == (taken + [p]) + later;
    } else {
      assert taken + [] == taken;
    }
  }

  class StreamReader {
    const f: Source
    var header: Option<Header>

    constructor (f: Source)
      ensures this.f == f && header == None
    {
      this.f := f;
      header := None;
    }

    // read_header: read once, then remembered.
    method ReadHeader(parse: Bytes -> Header) returns (r: HeaderRead)
      requires header.Some? ==> header.value.Accepted?
      modifies this, f
      ensures header.Some? ==> header.value.Accepted?
      ensures old(header).Some? ==> r == Opened(old(header).value) && f.rest == old(f.rest) && header == old(header)
      ensures old(header).None? ==>
                && r == JudgeHeader(NextFrame(old(f.rest), HEADER_MAX_LEN), parse)
                && f.rest == AfterFrame(old(f.rest), HEADER_MAX_LEN)
                && header == (if r.Opened? then Some(r.header) else None)
    {
      if header.Some? {
        return Opened(header.value);
      }
      var n := ReadFrame(f, HEADER_MAX_LEN);
      r := JudgeHeader(n, parse);
      if r.Opened? {
        header := Some(r.header);
      }
    }

    // The loop of records on a binary stream.
    method YieldRecords(maxLen: nat) returns (r: RecordReading)
      modifies f
      ensures r == ReadRecords(old(f.rest), maxLen)
    {
      var records: seq<Record> := [];
      while true
        invariant RecordsOn(records, f.rest, maxLen) == ReadRecords(old(f.rest), maxLen)
        decreases |f.rest|
      {
        RecordsOnStep(records, f.rest, maxLen);
        var n := ReadFrame(f, maxLen);
        if !n.Frame? {
          return RecordReading(records, AtFrame(n));
        }
        var record := ParseBinaryRecord(n.payload);
        if record.None? {
          return RecordReading(records, ShortRecord);
        }
        records := records + [record.value];
      }
    }

    // records of a binary stream, to its end.
    method BinaryRecords(parse: Bytes -> Header) returns (r: HeaderRead, all: RecordReading)
      requires header == None
      modifies this, f
      ensures r == JudgeHeader(NextFrame(old(f.rest), HEADER_MAX_LEN), parse)
      ensures all == if r.Opened? then ReadRecords(AfterFrame(old(f.rest), HEADER_MAX_LEN), FrameLimit(r.header))
                     else RecordReading([], AtFrame(EndOfStream))
    {
      all := RecordReading([], AtFrame(EndOfStream));
      r := ReadHeader(parse);
      if r.Opened? {
        all := YieldRecords(FrameLimit(r.header));
      }
    }
  }

  function EncodeRecords(records: seq<Record>): seq<Bytes>
    requires forall i :: 0 <= i < |records| ==> records[i].Valid()
  {
    if records == [] then [] else [records[0].Encoded()] + EncodeRecords(records[1..])
  }

  lemma {:induction false} RecordsRoundTrip(records: seq<Record>)
    requires forall i :: 0 <= i < |records| ==> records[i].Valid()
    ensures ParseRecords(EncodeRecords(records)) == records
    decreases |records|
  {
    if records != [] {
      var first, others := records[0], records[1..];
      var frame, rest := first.Encoded(), EncodeRecords(others);
      assert ParseRecords(rest) == others by { RecordsRoundTrip(others); }
      assert ParseBinaryRecord(frame) == Some(first) by { RecordRoundTrip(first); }
      ParseFirst(frame, rest);
      assert [first] + others == records;
    }
  }

  lemma ParseFirst(frame: Bytes, frames: seq<Bytes>)
    requires ParseBinaryRecord(frame).Some?
    ensures ParseRecords([frame] + frames) == [ParseBinaryRecord(frame).value] + ParseRecords(frames)
  {
    assert ([frame] + frames)[1..] == frames;
  }

  // A header and any records within the limit: the reader yields those records and a clean end, in
  // whatever pieces the bytes arrive.
  lemma StreamRoundTrip(header: Bytes, parse: Bytes -> Header, records: seq<Record>)
    requires |header| <= HEADER_MAX_LEN && parse(header).Accepted?
    requires forall i :: 0 <= i < |records| ==> records[i].Valid()
    requires Within(EncodeRecords(records), FrameLimit(parse(header)))
    ensures var s := EncodeFrame(header) + Encode(EncodeRecords(records));
            && JudgeHeader(NextFrame(s, HEADER_MAX_LEN), parse) == Opened(parse(header))
            && ReadRecords(AfterFrame(s, HEADER_MAX_LEN), FrameLimit(parse(header))) ==
               RecordReading(records, AtFrame(EndOfStream))
  {
    var body, limit := Encode(EncodeRecords(records)), FrameLimit(parse(header));
    FrameAtHead(header, body, HEADER_MAX_LEN);
    FramesRoundTrip(EncodeRecords(records), limit);
    RecordsRoundTrip(records);
    RecordsAreFrames(body, limit);
    AsManyFrames(records);
  }

  lemma {:induction false} AsManyFrames(records: seq<Record>)
    requires forall i :: 0 <= i < |records| ==> records[i].Valid()
    ensures |EncodeRecords(records)| == |records|
  {
    if records != [] {
      AsManyFrames(records[1..]);
    }
  }
}
