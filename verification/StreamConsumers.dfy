/** Two consumers of a stream's records: bursts and the WAV writer (py/examples/hk_bits.py, hk_audio_wav.py). */
module StreamConsumers {
  import opened Wrappers
  import opened BitWords
  import opened Division
  import opened Framing

  const RECORD_DATA: nat := 1
  const RECORD_DROPPED: nat := 2
  const RECORD_STATUS: nat := 3

  // FLAG_GATED is the lowest flag bit.
  predicate Gated(r: Record) { r.flags % 2 == 1 }

  // ------------------------------------------------------------------ bursts

  // A burst: the index of its status record, and of the record it was yielded at - its data record,
  // or the status itself when the content was withheld.
  datatype Burst = Burst(status: nat, at: nat, bits: Option<Bytes>)

  // The status record at s is waiting for its data just before record n.
  predicate Waiting(recs: seq<Record>, withheld: Bytes -> bool, s: nat, n: nat) {
    && s < n <= |recs| && recs[s].kind == RECORD_STATUS && !withheld(recs[s].payload)
    && forall k :: s < k < n ==> !EndsWait(recs[k])
  }

  // What the stream means: a withheld status is a burst of its own; a data record belongs to the
  // status waiting for it; a drop marker or another status ends the wait.
  predicate IsBurst(recs: seq<Record>, withheld: Bytes -> bool, bitsOf: Bytes -> Bytes, b: Burst) {
    && b.at < |recs|
    && if recs[b.at].kind == RECORD_STATUS then b.status == b.at && withheld(recs[b.at].payload) && b.bits == None
       else && recs[b.at].kind == RECORD_DATA && Waiting(recs, withheld, b.status, b.at)
            && b.bits == if recs[b.at].flags % 2 == 1 then None else Some(bitsOf(recs[b.at].payload))
  }

  // hk_bits.bursts: exactly the stream's bursts, in order, each once.
  method Bursts(recs: seq<Record>, withheld: Bytes -> bool, bitsOf: Bytes -> Bytes) returns (out: seq<Burst>)
    ensures forall b :: b in out <==> IsBurst(recs, withheld, bitsOf, b)
    ensures forall i, j :: 0 <= i < j < |out| ==> out[i].at < out[j].at
  {
    out := [];
    var status: Option<nat> := None;
    for n := 0 to |recs|
      invariant forall s: nat :: status == Some(s) <==> Waiting(recs, withheld, s, n)
      invariant forall b :: b in out <==> b.at < n && IsBurst(recs, withheld, bitsOf, b)
      invariant forall i, j :: 0 <= i < j < |out| ==> out[i].at < out[j].at
    {
      var rec := recs[n];
      WaitStep(recs, withheld, n);
      if rec.kind == RECORD_STATUS {
        status := Some(n);
        if withheld(rec.payload) {
          out := out + [Burst(n, n, None)];
          status := None;
        }
      } else if rec.kind == RECORD_DROPPED {
        status := None;
      } else if rec.kind == RECORD_DATA && status.Some? {
        out := out + [Burst(status.value, n, if Gated(rec) then None else Some(bitsOf(rec.payload)))];
        status := None;
      }
    }
  }

  predicate EndsWait(r: Record) { r.kind in {RECORD_DATA, RECORD_DROPPED, RECORD_STATUS} }

  // Who waits after record n.
  lemma WaitStep(recs: seq<Record>, withheld: Bytes -> bool, n: nat)
    requires n < |recs|
    ensures forall s: nat :: Waiting(recs, withheld, s, n + 1) <==>
              if s == n then recs[n].kind == RECORD_STATUS && !withheld(recs[n].payload)
              else Waiting(recs, withheld, s, n) && !EndsWait(recs[n])
  {
    forall s: nat
      ensures Waiting(recs, withheld, s, n + 1) <==>
              if s == n then recs[n].kind == RECORD_STATUS && !withheld(recs[n].payload)
              else Waiting(recs, withheld, s, n) && !EndsWait(recs[n])
    {
      WaitOn(recs, withheld, s, n);
    }
  }

  lemma WaitOn(recs: seq<Record>, withheld: Bytes -> bool, s: nat, n: nat)
    requires n < |recs|
    ensures Waiting(recs, withheld, s, n + 1) <==>
            if s == n then recs[n].kind == RECORD_STATUS && !withheld(recs[n].payload)
            else Waiting(recs, withheld, s, n) && !EndsWait(recs[n])
  {
    if s < n && Waiting(recs, withheld, s, n + 1) {
      assert !EndsWait(recs[n]);
    }
  }

  // ------------------------------------------------------------------ pack_bits

  function BitsOf(b: Bytes): (r: Bits)
    ensures |r| == |b|
  {
    seq(|b|, i requires 0 <= i < |b| => b[i] % 2 == 1)
  }

  function PackOctet(b: Bits, msbFirst: bool): (o: Octet)
    requires |b| == 8
  {
    Pow2Table();
    UintBound(b);
    ToNatBound(b);
    if msbFirst then Uint(b) else ToNat(b)
  }

  // Octet o holds eight bits in the order asked for.
  predicate Packs(o: Octet, b: Bits, msbFirst: bool) {
    |b| == 8 && b == if msbFirst then UintBits(o, 8) else FromNat(o, 8)
  }

  lemma PackOctetPacks(b: Bits, msbFirst: bool)
    requires |b| == 8
    ensures Packs(PackOctet(b, msbFirst), b, msbFirst)
  {
    UintBitsRoundTrip(b);
    FromToNat(b);
  }

  ghost predicate PacksAll(out: Bytes, bits: Bits, msbFirst: bool) {
    8 * |out| <= |bits| && forall i :: 0 <= i < |out| ==> Packs(out[i], bits[8 * i..8 * i + 8], msbFirst)
  }

  // pack_bits: octet i holds bits 8i to 8i + 7; a trailing part octet is dropped.
  method PackBits(bits: Bytes, msbFirst: bool) returns (out: Bytes)
    ensures |out| == |bits| / 8 && PacksAll(out, BitsOf(bits), msbFirst)
  {
    out := [];
    var all := BitsOf(bits);
    for i := 0 to |bits| / 8
      invariant |out| == i && PacksAll(out, all, msbFirst)
    {
      var b := all[8 * i..8 * i + 8];
      PackOctetPacks(b, msbFirst);
      out := out + [PackOctet(b, msbFirst)];
    }
  }

  // Bit k of octet i, counted from its top or its bottom as asked, is the lowest bit of byte 8i + k.
  lemma PackedBits(out: Bytes, bits: Bytes, msbFirst: bool, i: nat, k: nat)
    requires PacksAll(out, BitsOf(bits), msbFirst) && i < |out| && k < 8
    ensures out[i] / Pow2(if msbFirst then 7 - k else k) % 2 == bits[8 * i + k] % 2
  {
    var b := BitsOf(bits)[8 * i..8 * i + 8];
    assert Packs(out[i], b, msbFirst) && (b[k] <==> bits[8 * i + k] % 2 == 1);
    if msbFirst {
      UintBitAt(out[i], 8, k);
    } else {
      FromNatBitAt(out[i], 8, k);
    }
  }

  lemma {:induction false} FromNatBitAt(v: nat, n: nat, k: nat)
    requires k < n
    ensures FromNat(v, n)[k] <==> v / Pow2(k) % 2 == 1
    decreases n
  {
    if k > 0 {
      FromNatBitAt(v / 2, n - 1, k - 1);
      HalfThen(v, Pow2(k - 1));
    }
  }

  lemma HalfThen(v: nat, m: nat)
    requires m > 0
    ensures v / 2 / m == v / (2 * m)
  {
    var h, b := v / 2, v % 2;
    var q, r := h / m, h % m;
    assert h == m * q + r && v == 2 * h + b;
    assert v == (2 * m) * q + (2 * r + b);
    ModuloIs(v, q, 2 * r + b, 2 * m);
  }

  lemma {:induction false} UintBitAt(v: nat, n: nat, k: nat)
    requires k < n
    ensures UintBits(v, n)[k] <==> v / Pow2(n - 1 - k) % 2 == 1
    decreases n
  {
    if k < n - 1 {
      UintBitAt(v / 2, n - 1, k);
      HalfThen(v, Pow2(n - 2 - k));
    }
  }

  // ------------------------------------------------------------------ the WAV writer

  // One sample frame of the file: silence filling a gap, or frame k of the audio of record `rec`.
  datatype Sample = Silence | Audio(rec: nat, k: nat)

  // A record that carries audio, of `frames` sample frames from `index` on.
  predicate IsAudio(r: Record) { r.kind == RECORD_DATA && !Gated(r) }

  // len(payload) // (2 * stereo), channels being 1 or 2.
  function FramesIn(r: Record, stereo: bool): nat { if stereo then |r.payload| / 4 else |r.payload| / 2 }

  function SilenceRun(n: nat): (s: seq<Sample>)
    ensures |s| == n
  {
    seq(n, _ => Silence)
  }

  function AudioRun(rec: nat, n: nat): (s: seq<Sample>)
    ensures |s| == n
  {
    seq(n, k requires 0 <= k < n => Audio(rec, k))
  }

  function Min(a: int, b: int): int { if a < b then a else b }

  // What the writer has done after some records: the file, where the next record should start, where
  // the first one started, and the sample frames of gaps not filled and of overlaps written twice.
  datatype Wav = Wav(file: seq<Sample>, next: Option<nat>, first: nat, lost: nat, repeated: nat)

  function WriteRecord(w: Wav, recs: seq<Record>, n: nat, rate: nat, stereo: bool): Wav
    requires n < |recs|
  {
    var r := recs[n];
    if !IsAudio(r) then w
    else
      var gap := if w.next.Some? && r.sampleIndex > w.next.value then r.sampleIndex - w.next.value else 0;
      var back := if w.next.Some? && r.sampleIndex < w.next.value then w.next.value - r.sampleIndex else 0;
      var fill := Min(gap, rate);
      var frames := FramesIn(r, stereo);
      Wav(w.file + SilenceRun(fill) + AudioRun(n, frames), Some(r.sampleIndex + frames),
          if w.next.Some? then w.first else r.sampleIndex, w.lost + (gap - fill), w.repeated + back)
  }

  // The first n records, all written.
  function Written(recs: seq<Record>, n: nat, rate: nat, stereo: bool): Wav
    requires n <= |recs|
  {
    if n == 0 then Wav([], None, 0, 0, 0)
    else WriteRecord(Written(recs, n - 1, rate, stereo), recs, n - 1, rate, stereo)
  }

  // write_wav's loop: records until `want` sample frames are there; `done` is how many it took.
  method WriteWav(recs: seq<Record>, want: nat, rate: nat, stereo: bool)
    returns (file: seq<Sample>, written: nat, done: nat)
    ensures done <= |recs| && file == Written(recs, done, rate, stereo).file && written == |file|
    ensures done < |recs| ==> written >= want
    ensures forall n :: 0 < n < done && IsAudio(recs[n - 1]) ==> |Written(recs, n, rate, stereo).file| < want
  {
    file, written, done := [], 0, 0;
    var next: Option<nat> := None;
    while done < |recs|
      invariant done <= |recs|
      invariant var w := Written(recs, done, rate, stereo); file == w.file && next == w.next && written == |file|
      invariant forall n :: 0 < n <= done && IsAudio(recs[n - 1]) ==> |Written(recs, n, rate, stereo).file| < want
    {
      var r := recs[done];
      done := done + 1;
      if !IsAudio(r) {
        continue;
      }
      if next.Some? && r.sampleIndex > next.value {
        var gap := Min(r.sampleIndex - next.value, rate);
        file, written := file + SilenceRun(gap), written + gap;
      } else {
        assert file + SilenceRun(0) == file;
      }
      var frames := FramesIn(r, stereo);
      file, written := file + AudioRun(done - 1, frames), written + frames;
      next := Some(r.sampleIndex + frames);
      if written >= want {
        break;
      }
    }
  }

  // Frame k of a record's audio is the bytes of its payload from k times the size of a frame on.
  lemma FramesAreBytes(r: Record, stereo: bool, k: nat)
    ensures var size := if stereo then 4 else 2;
            k < FramesIn(r, stereo) <==> size * k + size <= |r.payload|
  {
  }

  // The file goes on with so much silence and then the frames of record n.
  predicate GoesOn(before: seq<Sample>, after: seq<Sample>, silent: nat, n: nat, frames: nat) {
    && |after| == |before| + silent + frames && after[..|before|] == before
    && (forall i :: |before| <= i < |before| + silent ==> after[i] == Silence)
    && (forall k :: 0 <= k < frames ==> after[|before| + silent + k] == Audio(n, k))
  }

  lemma LaidDown(before: seq<Sample>, silent: nat, n: nat, frames: nat)
    ensures GoesOn(before, before + SilenceRun(silent) + AudioRun(n, frames), silent, n, frames)
  {
    var gap := before + SilenceRun(silent);
    assert gap[..|before|] == before;
    assert (gap + AudioRun(n, frames))[..|before|] == before;
  }

  // What record n, r, adds to the file. One that is not data, or is gated, adds nothing. Any other adds its
  // frames; before them silence for the time since the frame last due, but no more than a second of it; and
  // nothing for time that was written before.
  predicate Adds(w: Wav, v: Wav, n: nat, r: Record, rate: nat, stereo: bool) {
    if r.kind != 1 || r.flags % 2 == 1 then v.file == w.file && v.next == w.next
    else
      var frames := |r.payload| / (if stereo then 4 else 2);
      var silent := if w.next.None? || r.sampleIndex <= w.next.value then 0
                    else if r.sampleIndex - w.next.value <= rate then r.sampleIndex - w.next.value else rate;
      v.next == Some(r.sampleIndex + frames) && GoesOn(w.file, v.file, silent, n, frames)
  }

  lemma RecordWrites(recs: seq<Record>, n: nat, rate: nat, stereo: bool)
    requires n < |recs|
    ensures Adds(Written(recs, n, rate, stereo), Written(recs, n + 1, rate, stereo), n, recs[n], rate, stereo)
  {
    RecordAdds(Written(recs, n, rate, stereo), recs, n, rate, stereo);
  }

  lemma RecordAdds(w: Wav, recs: seq<Record>, n: nat, rate: nat, stereo: bool)
    requires n < |recs|
    ensures Adds(w, WriteRecord(w, recs, n, rate, stereo), n, recs[n], rate, stereo)
  {
    var r := recs[n];
    var silent := if w.next.None? || r.sampleIndex <= w.next.value then 0
                  else if r.sampleIndex - w.next.value <= rate then r.sampleIndex - w.next.value else rate;
    LaidDown(w.file, silent, n, FramesIn(r, stereo));
  }

  // For every stream: what is in the file, plus the gaps it did not fill, is the time from the first
  // sample to the next one due, plus what was written twice.
  lemma {:induction false} TimeAccounted(recs: seq<Record>, n: nat, rate: nat, stereo: bool)
    requires n <= |recs|
    ensures var w := Written(recs, n, rate, stereo);
            (w.next.None? ==> w.file == [] && w.lost == w.repeated == 0)
            && (w.next.Some? ==> |w.file| + w.lost == w.next.value - w.first + w.repeated)
  {
    if n != 0 {
      TimeAccounted(recs, n - 1, rate, stereo);
    }
  }

  // Record m neither goes back nor leaves a gap of over a second.
  predicate InStep(recs: seq<Record>, m: nat, rate: nat, stereo: bool)
    requires m < |recs|
  {
    var next := Written(recs, m, rate, stereo).next;
    IsAudio(recs[m]) && next.Some? ==> 0 <= recs[m].sampleIndex - next.value <= rate
  }

  predicate Steady(recs: seq<Record>, n: nat, rate: nat, stereo: bool)
    requires n <= |recs|
  {
    forall m :: 0 <= m < n ==> InStep(recs, m, rate, stereo)
  }

  // A stream is steady exactly when the writer loses and repeats nothing of it.
  lemma {:induction false} SteadyLosesNothing(recs: seq<Record>, n: nat, rate: nat, stereo: bool)
    requires n <= |recs|
    ensures var w := Written(recs, n, rate, stereo); Steady(recs, n, rate, stereo) <==> w.lost == 0 && w.repeated == 0
  {
    if n != 0 {
      SteadyLosesNothing(recs, n - 1, rate, stereo);
      assert Steady(recs, n, rate, stereo) <==> Steady(recs, n - 1, rate, stereo) && InStep(recs, n - 1, rate, stereo);
      StepLoses(Written(recs, n - 1, rate, stereo), recs, n - 1, rate, stereo);
    }
  }

  lemma StepLoses(w: Wav, recs: seq<Record>, m: nat, rate: nat, stereo: bool)
    requires m < |recs| && w == Written(recs, m, rate, stereo)
    ensures var v := WriteRecord(w, recs, m, rate, stereo);
            v.lost >= w.lost && v.repeated >= w.repeated
            && (InStep(recs, m, rate, stereo) <==> v.lost == w.lost && v.repeated == w.repeated)
  {
  }

  // Place `at` of the file holds x.
  predicate Holds(w: Wav, at: int, x: Sample) {
    w.next.Some? && 0 <= at < |w.file| && w.file[at] == x
  }

  // On a steady stream the file keeps real time: sample frame k of a record lies at its own index,
  // counted from the first sample, and stays there.
  lemma KeepsRealTime(recs: seq<Record>, n: nat, rate: nat, stereo: bool, m: nat, k: nat)
    requires m < n <= |recs| && Steady(recs, n, rate, stereo)
    requires IsAudio(recs[m]) && k < FramesIn(recs[m], stereo)
    ensures var w := Written(recs, n, rate, stereo);
            Holds(w, recs[m].sampleIndex + k - w.first, Audio(m, k)) && |w.file| == w.next.value - w.first
  {
    LandsAndStays(recs, m, n, rate, stereo, k, recs[m].sampleIndex + k, Audio(m, k));
    SteadyLength(recs, n, rate, stereo);
  }

  lemma LandsAndStays(recs: seq<Record>, m: nat, n: nat, rate: nat, stereo: bool, k: nat, at: int, x: Sample)
    requires m < n <= |recs| && Steady(recs, m + 1, rate, stereo)
    requires IsAudio(recs[m]) && k < FramesIn(recs[m], stereo) && at == recs[m].sampleIndex + k && x == Audio(m, k)
    ensures var w := Written(recs, n, rate, stereo); Holds(w, at - w.first, x)
  {
    RecordLands(recs, m, rate, stereo, k);
    StaysThere(recs, m + 1, n, rate, stereo, at, x);
  }

  // What is written stays where it is.
  lemma {:induction false} StaysThere(recs: seq<Record>, i: nat, n: nat, rate: nat, stereo: bool, index: int, x: Sample)
    requires i <= n <= |recs|
    requires var w := Written(recs, i, rate, stereo); Holds(w, index - w.first, x)
    ensures var w := Written(recs, n, rate, stereo); Holds(w, index - w.first, x)
    decreases n - i
  {
    if i < n {
      OneMoreRecord(Written(recs, i, rate, stereo), recs, i, rate, stereo, index, x);
      StaysThere(recs, i + 1, n, rate, stereo, index, x);
    }
  }

  lemma OneMoreRecord(w: Wav, recs: seq<Record>, i: nat, rate: nat, stereo: bool, index: int, x: Sample)
    requires i < |recs| && Holds(w, index - w.first, x)
    ensures var v := WriteRecord(w, recs, i, rate, stereo); Holds(v, index - v.first, x)
  {
  }

  lemma SteadyLength(recs: seq<Record>, n: nat, rate: nat, stereo: bool)
    requires n <= |recs| && Steady(recs, n, rate, stereo)
    ensures var w := Written(recs, n, rate, stereo);
            w.file != [] ==> w.next.Some? && |w.file| == w.next.value - w.first
  {
    TimeAccounted(recs, n, rate, stereo);
    SteadyLosesNothing(recs, n, rate, stereo);
  }

  lemma RecordLands(recs: seq<Record>, m: nat, rate: nat, stereo: bool, k: nat)
    requires m < |recs| && Steady(recs, m + 1, rate, stereo) && IsAudio(recs[m]) && k < FramesIn(recs[m], stereo)
    ensures var v := Written(recs, m + 1, rate, stereo); Holds(v, recs[m].sampleIndex + k - v.first, Audio(m, k))
  {
    var w := Written(recs, m, rate, stereo);
    TimeAccounted(recs, m, rate, stereo);
    assert Steady(recs, m, rate, stereo);
    SteadyLosesNothing(recs, m, rate, stereo);
    assert InStep(recs, m, rate, stereo);
    var fill := if w.next.Some? then recs[m].sampleIndex - w.next.value else 0;
    var v := Written(recs, m + 1, rate, stereo);
    assert v.file == w.file + SilenceRun(fill) + AudioRun(m, FramesIn(recs[m], stereo));
    assert |w.file| + fill == recs[m].sampleIndex - v.first;
    assert v.file[|w.file| + fill + k] == AudioRun(m, FramesIn(recs[m], stereo))[k];
  }
}
