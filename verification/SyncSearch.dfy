/** The sync searches (py/fixtures/dmr_ref.py and py/fixtures/flex_ref.py: find_syncs). */
module SyncSearch {
  import opened Wrappers
  import opened BitWords
  import opened SyncWords
  import opened SyncWindows
  import opened SyncMerge

  // The DMR search also runs at every timing phase: find_syncs_any_phase. One search is given by its
  // constants; Dmr and Flex are the two in the sources. A window of the bits is a hit when it is near
  // enough to a sync pattern, read in either order and in either polarity.

  datatype Search = Search(width: nat, octets: nat, limit: nat, gap: nat, patterns: seq<nat>)

  predicate Valid(s: Search) {
    && 0 < s.octets < 32
    && 0 < s.width <= 8 * s.octets
    && forall k :: 0 <= k < |s.patterns| ==> s.patterns[k] < Pow2(s.width)
  }

  function Dmr(): Search {
    Search(48, 8, 4, 2, [0x755FD7DF75F7, 0xDFF57D75DF5D, 0x7F7D5DD57DFD, 0xD5D7F77FD757])
  }

  function Flex(): Search {
    Search(32, 4, 3, 1, [0xA6C6AAAA])
  }

  lemma DmrValid()
    ensures Valid(Dmr()) && Pow2(48) == 0x1_0000_0000_0000
  {
    assert Pow2(48) == 0x1_0000_0000_0000 by {
      PowIsModulus(6);
      Octets6();
    }
  }

  lemma FlexValid()
    ensures Valid(Flex()) && Pow2(32) == 0x1_0000_0000
  {
    assert Pow2(32) == 0x1_0000_0000 by {
      PowIsModulus(4);
      Octets4();
    }
  }

  lemma Octets4()
    ensures Modulus(4) == 0x1_0000_0000
  {
    assert Modulus(4) == 256 * Modulus(3);
    assert Modulus(3) == 256 * Modulus(2);
    assert Modulus(2) == 256 * Modulus(1);
  }

  lemma Octets6()
    ensures Modulus(6) == 0x1_0000_0000_0000
  {
    Octets4();
    assert Modulus(6) == 256 * Modulus(5);
    assert Modulus(5) == 256 * Modulus(4);
  }

  // ------------------------------------------------------------------ variants

  datatype Order = Natural | NaturalInv | Reversed | ReversedInv

  // In the order find_syncs tries them.
  function Orders(): (orders: seq<Order>)
    ensures |orders| == 4
  {
    [Natural, NaturalInv, Reversed, ReversedInv]
  }

  lemma OrdersAll(order: Order)
    ensures order in Orders()
  {
    match order
    case Natural => assert Orders()[0] == order;
    case NaturalInv => assert Orders()[1] == order;
    case Reversed => assert Orders()[2] == order;
    case ReversedInv => assert Orders()[3] == order;
  }

  // The bits of a window as a variant takes them.
  function Read(order: Order, window: Bits): (b: Bits)
    ensures |b| == |window|
  {
    match order
    case Natural => window
    case NaturalInv => Invert(window)
    case Reversed => Reverse(window)
    case ReversedInv => Reverse(Invert(window))
  }

  function ReverseWords(words: seq<nat>, width: nat): seq<nat> {
    seq(|words|, p requires 0 <= p < |words| => ReverseWord(words[p], width))
  }

  // The variants dictionary.
  function Variant(order: Order, words: seq<nat>, inverted: seq<nat>, width: nat): seq<nat> {
    match order
    case Natural => words
    case NaturalInv => inverted
    case Reversed => ReverseWords(words, width)
    case ReversedInv => ReverseWords(inverted, width)
  }

  lemma VariantReads(order: Order, words: seq<nat>, inverted: seq<nat>, window: Bits, p: nat)
    requires p < |words| == |inverted| && words[p] == Uint(window) && inverted[p] == Uint(Invert(window))
    ensures |Variant(order, words, inverted, |window|)| == |words|
    ensures Variant(order, words, inverted, |window|)[p] == Uint(Read(order, window))
  {
    ReverseWordReverses(window);
    ReverseWordReverses(Invert(window));
  }

  // ------------------------------------------------------------------ hits

  // pattern is an index into the patterns.
  datatype Hit = Hit(bit: nat, order: Order, pattern: nat, hamming: nat)

  function Window(s: Search, bits: Bits, p: nat): (w: Bits)
    requires p + s.width <= |bits|
    ensures |w| == s.width
  {
    bits[p..p + s.width]
  }

  // The bits in which a window differs from a pattern.
  function Distance(s: Search, bits: Bits, order: Order, pattern: nat, p: nat): nat
    requires p + s.width <= |bits| && pattern < |s.patterns|
  {
    Hamming(Read(order, Window(s, bits, p)), UintBits(s.patterns[pattern], s.width))
  }

  predicate IsHit(s: Search, bits: Bits, h: Hit) {
    && h.bit + s.width <= |bits|
    && h.pattern < |s.patterns|
    && h.hamming == Distance(s, bits, h.order, h.pattern, h.bit)
    && h.hamming <= s.limit
  }

  // How many windows there are.
  function Places(s: Search, bits: Bits): nat {
    if |bits| < s.width then 0 else |bits| + 1 - s.width
  }

  // The hits of one pattern and order in the first n windows.
  function HitsIn(s: Search, bits: Bits, pattern: nat, order: Order, n: nat): seq<Hit>
    requires n <= Places(s, bits) && pattern < |s.patterns|
  {
    if n == 0 then [] else
      var d := Distance(s, bits, order, pattern, n - 1);
      HitsIn(s, bits, pattern, order, n - 1) + if d <= s.limit then [Hit(n - 1, order, pattern, d)] else []
  }

  function OrderHits(s: Search, bits: Bits, pattern: nat, k: nat): seq<Hit>
    requires pattern < |s.patterns| && k <= 4
  {
    if k == 0 then []
    else OrderHits(s, bits, pattern, k - 1) + HitsIn(s, bits, pattern, Orders()[k - 1], Places(s, bits))
  }

  function PatternHits(s: Search, bits: Bits, m: nat): seq<Hit>
    requires m <= |s.patterns|
  {
    if m == 0 then [] else PatternHits(s, bits, m - 1) + OrderHits(s, bits, m - 1, 4)
  }

  lemma InSum<T>(a: seq<T>, b: seq<T>, x: T)
    ensures x in a + b <==> x in a || x in b
  {
  }

  lemma HitAt(s: Search, bits: Bits, pattern: nat, order: Order, p: nat, h: Hit)
    requires p + s.width <= |bits| && pattern < |s.patterns|
    ensures h == Hit(p, order, pattern, Distance(s, bits, order, pattern, p)) && h.hamming <= s.limit
       <==> IsHit(s, bits, h) && h.pattern == pattern && h.order == order && h.bit == p
  {
  }

  // h is a hit of the variant in one of the first n windows.
  predicate HitBefore(s: Search, bits: Bits, pattern: nat, order: Order, n: nat, h: Hit) {
    IsHit(s, bits, h) && h.pattern == pattern && h.order == order && h.bit < n
  }

  lemma HitsInStep(s: Search, bits: Bits, pattern: nat, order: Order, p: nat, h: Hit)
    requires p < Places(s, bits) && pattern < |s.patterns|
    requires h in HitsIn(s, bits, pattern, order, p) <==> HitBefore(s, bits, pattern, order, p, h)
    ensures h in HitsIn(s, bits, pattern, order, p + 1) <==> HitBefore(s, bits, pattern, order, p + 1, h)
  {
    var d := Distance(s, bits, order, pattern, p);
    var last := if d <= s.limit then [Hit(p, order, pattern, d)] else [];
    InSum(HitsIn(s, bits, pattern, order, p), last, h);
    HitAt(s, bits, pattern, order, p, h);
    assert h in last <==> h == Hit(p, order, pattern, d) && h.hamming <= s.limit;
  }

  lemma {:induction false} HitsInHas(s: Search, bits: Bits, pattern: nat, order: Order, n: nat, h: Hit)
    requires n <= Places(s, bits) && pattern < |s.patterns|
    ensures h in HitsIn(s, bits, pattern, order, n) <==> HitBefore(s, bits, pattern, order, n, h)
  {
    if n > 0 {
      HitsInHas(s, bits, pattern, order, n - 1, h);
      HitsInStep(s, bits, pattern, order, n - 1, h);
    }
  }

  lemma OrdersSnoc(k: nat, order: Order)
    requires 0 < k <= 4
    ensures order in Orders()[..k] <==> order in Orders()[..k - 1] || order == Orders()[k - 1]
  {
    assert Orders()[..k] == Orders()[..k - 1] + [Orders()[k - 1]];
  }

  lemma {:induction false} OrderHitsHas(s: Search, bits: Bits, pattern: nat, k: nat, h: Hit)
    requires pattern < |s.patterns| && k <= 4
    ensures h in OrderHits(s, bits, pattern, k) <==>
            IsHit(s, bits, h) && h.pattern == pattern && h.order in Orders()[..k]
  {
    if k > 0 {
      var order := Orders()[k - 1];
      OrderHitsHas(s, bits, pattern, k - 1, h);
      HitsInHas(s, bits, pattern, order, Places(s, bits), h);
      InSum(OrderHits(s, bits, pattern, k - 1), HitsIn(s, bits, pattern, order, Places(s, bits)), h);
      OrdersSnoc(k, h.order);
    }
  }

  lemma AllOrdersHas(s: Search, bits: Bits, pattern: nat, h: Hit)
    requires pattern < |s.patterns|
    ensures h in OrderHits(s, bits, pattern, 4) <==> IsHit(s, bits, h) && h.pattern == pattern
  {
    OrdersAll(h.order);
    OrderHitsHas(s, bits, pattern, 4, h);
    assert Orders()[..4] == Orders();
  }

  lemma {:induction false} PatternHitsHas(s: Search, bits: Bits, m: nat, h: Hit)
    requires m <= |s.patterns|
    ensures h in PatternHits(s, bits, m) <==> IsHit(s, bits, h) && h.pattern < m
  {
    if m > 0 {
      var p, hit := m - 1, IsHit(s, bits, h);
      var before, of := PatternHits(s, bits, p), OrderHits(s, bits, p, 4);
      assert h in before <==> hit && h.pattern < p by { PatternHitsHas(s, bits, p, h); }
      assert h in of <==> hit && h.pattern == p by { AllOrdersHas(s, bits, p, h); }
      assert h in before + of <==> h in before || h in of by { InSum(before, of, h); }
      assert PatternHits(s, bits, m) == before + of;
    }
  }

  // ------------------------------------------------------------------ find_syncs

  // What the search computes for one window is its distance.
  lemma WordDistance(s: Search, bits: Bits, words: seq<nat>, order: Order, pattern: nat, p: nat)
    requires Valid(s) && pattern < |s.patterns| && p < |words| && p + s.width <= |bits|
    requires words[p] == Uint(Read(order, Window(s, bits, p)))
    ensures Popcount(ExOr(words[p], s.patterns[pattern]), s.octets) == Distance(s, bits, order, pattern, p)
  {
    var a, b := Read(order, Window(s, bits, p)), UintBits(s.patterns[pattern], s.width);
    UintRoundTrip(s.patterns[pattern], s.width);
    PopcountIsHamming(a, b, s.octets);
  }

  // The words of one variant.
  ghost predicate ReadsAll(s: Search, bits: Bits, words: seq<nat>, order: Order) {
    |words| == Places(s, bits) && forall p :: 0 <= p < |words| ==> words[p] == Uint(Read(order, Window(s, bits, p)))
  }

  lemma WindowsRead(s: Search, bits: Bits, words: seq<nat>)
    requires |words| == if |bits| < s.width then 0 else |bits| + 1 - s.width
    requires forall p :: 0 <= p < |words| ==> words[p] == Uint(bits[p..p + s.width])
    ensures ReadsAll(s, bits, words, Natural)
  {
  }

  lemma HitsInNext(s: Search, bits: Bits, pattern: nat, order: Order, p: nat)
    requires p < Places(s, bits) && pattern < |s.patterns|
    ensures var d, before := Distance(s, bits, order, pattern, p), HitsIn(s, bits, pattern, order, p);
            HitsIn(s, bits, pattern, order, p + 1) ==
            if d <= s.limit then before + [Hit(p, order, pattern, d)] else before
  {
  }

  // The positions of one variant within the limit of one pattern.
  method VariantHits(s: Search, words: seq<nat>, order: Order, pattern: nat, ghost bits: Bits) returns (hits: seq<Hit>)
    requires Valid(s) && pattern < |s.patterns| && ReadsAll(s, bits, words, order)
    ensures hits == HitsIn(s, bits, pattern, order, Places(s, bits))
  {
    hits := [];
    for pos := 0 to |words|
      invariant hits == HitsIn(s, bits, pattern, order, pos)
    {
      WordDistance(s, bits, words, order, pattern, pos);
      HitsInNext(s, bits, pattern, order, pos);
      var dist := Popcount(ExOr(words[pos], s.patterns[pattern]), s.octets);
      if dist <= s.limit {
        hits := hits + [Hit(pos, order, pattern, dist)];
      }
    }
  }

  lemma InvertWindow(s: Search, bits: Bits, p: nat)
    requires p + s.width <= |bits|
    ensures Window(s, Invert(bits), p) == Invert(Window(s, bits, p))
  {
  }

  lemma VariantsRead(s: Search, bits: Bits, words: seq<nat>, inverted: seq<nat>, order: Order)
    requires ReadsAll(s, bits, words, Natural) && ReadsAll(s, Invert(bits), inverted, Natural)
    ensures ReadsAll(s, bits, Variant(order, words, inverted, s.width), order)
  {
    var w := Variant(order, words, inverted, s.width);
    assert |w| == |words|;
    forall p | 0 <= p < |w| ensures w[p] == Uint(Read(order, Window(s, bits, p))) {
      InvertWindow(s, bits, p);
      VariantReads(order, words, inverted, Window(s, bits, p), p);
    }
  }

  // The positions and distances of hits.
  function ByBit(): Scale<Hit> {
    Scale((h: Hit) => h.bit as real, (h: Hit) => h.hamming)
  }

  function Bests<T>(clusters: seq<Cluster<T>>): (bests: seq<T>)
    ensures |bests| == |clusters|
  {
    seq(|clusters|, i requires 0 <= i < |clusters| => clusters[i].best)
  }

  function AllHits(s: Search, bits: Bits): seq<Hit> {
    SortAt(ByBit(), PatternHits(s, bits, |s.patterns|))
  }

  function Events(s: Search, bits: Bits): seq<Hit> {
    Bests(Merge(ByBit(), s.gap as real, AllHits(s, bits)))
  }

  // The hits of one pattern, in each of the four variants.
  method OnePatternHits(s: Search, words: seq<nat>, inverted: seq<nat>, pattern: nat, ghost bits: Bits)
    returns (hits: seq<Hit>)
    requires Valid(s) && pattern < |s.patterns|
    requires ReadsAll(s, bits, words, Natural) && ReadsAll(s, Invert(bits), inverted, Natural)
    ensures hits == OrderHits(s, bits, pattern, 4)
  {
    hits := [];
    for k := 0 to 4
      invariant hits == OrderHits(s, bits, pattern, k)
    {
      var order := Orders()[k];
      VariantsRead(s, bits, words, inverted, order);
      var more := VariantHits(s, Variant(order, words, inverted, s.width), order, pattern, bits);
      hits := hits + more;
    }
  }

  // find_syncs. None is the ValueError of _windows.
  method FindSyncs(s: Search, bits: Bits) returns (r: Option<seq<Hit>>)
    requires Valid(s)
    ensures r.None? <==> TooShort(bits, s.width)
    ensures r.Some? ==> r.value == Events(s, bits)
  {
    var words := Windows(bits, s.width, s.octets);
    var inverted := Windows(Invert(bits), s.width, s.octets);
    if words.None? || inverted.None? {
      return None;
    }
    WindowsRead(s, bits, words.value);
    WindowsRead(s, Invert(bits), inverted.value);
    var hits: seq<Hit> := [];
    for m := 0 to |s.patterns|
      invariant hits == PatternHits(s, bits, m)
    {
      var more := OnePatternHits(s, words.value, inverted.value, m, bits);
      hits := hits + more;
    }
    var merged := MergeHits(ByBit(), s.gap as real, SortAt(ByBit(), hits));
    r := Some(Bests(merged));
  }

  // ------------------------------------------------------------------ what find_syncs finds

  // An event accounts for a hit, in bits.
  predicate Accounts(s: Search, e: Hit, h: Hit) {
    e.hamming <= h.hamming && h.bit - s.gap <= e.bit <= h.bit + s.gap * (h.hamming - e.hamming)
  }

  lemma {:induction false} TimesIs(gap: nat, n: nat)
    ensures Times(gap as real, n) == (gap * n) as real
  {
    if n > 0 {
      TimesIs(gap, n - 1);
      assert gap * n == gap * (n - 1) + gap;
    }
  }

  lemma AllHitsMerged(s: Search, bits: Bits)
    ensures Merged(ByBit(), s.gap as real, Merge(ByBit(), s.gap as real, AllHits(s, bits)), AllHits(s, bits))
  {
    SortSorts(ByBit(), PatternHits(s, bits, |s.patterns|));
    MergeMeans(ByBit(), s.gap as real, AllHits(s, bits));
  }

  // The hits are exactly the windows within the limit.
  lemma HitsAreWindows(s: Search, bits: Bits, h: Hit)
    ensures h in AllHits(s, bits) <==> IsHit(s, bits, h)
  {
    SortHas(ByBit(), PatternHits(s, bits, |s.patterns|), h);
    PatternHitsHas(s, bits, |s.patterns|, h);
  }

  // Every event is a window within the limit, and events are more than the gap apart.
  lemma EventsAreHits(s: Search, bits: Bits, i: nat)
    requires i < |Events(s, bits)|
    ensures IsHit(s, bits, Events(s, bits)[i])
    ensures forall j :: i < j < |Events(s, bits)| ==> Events(s, bits)[i].bit + s.gap < Events(s, bits)[j].bit
  {
    var hits := AllHits(s, bits);
    var merged := Merge(ByBit(), s.gap as real, hits);
    assert Spaced(ByBit(), s.gap as real, merged) && FromHits(merged, hits) by { AllHitsMerged(s, bits); }
    assert merged[i].best in hits;
    HitsAreWindows(s, bits, merged[i].best);
    SpacedInBits(s.gap, merged, i);
  }

  lemma SpacedInBits(gap: nat, merged: seq<Cluster<Hit>>, i: nat)
    requires Spaced(ByBit(), gap as real, merged) && i < |merged|
    ensures forall j :: i < j < |merged| ==> merged[i].best.bit + gap < merged[j].best.bit
  {
    forall j | i < j < |merged| ensures merged[i].best.bit + gap < merged[j].best.bit {
      assert ByBit().at(merged[i].best) + gap as real < ByBit().at(merged[j].best);
    }
  }

  lemma CoversAccounts(s: Search, e: Hit, h: Hit)
    requires Covers(ByBit(), s.gap as real, e, h)
    ensures Accounts(s, e, h)
  {
    TimesIs(s.gap, h.hamming - e.hamming);
  }

  lemma CoveredEvent(s: Search, merged: seq<Cluster<Hit>>, h: Hit)
    requires Covered(ByBit(), s.gap as real, merged, h)
    ensures exists e :: e in Bests(merged) && Accounts(s, e, h)
  {
    var i: nat :| i < |merged| && Covers(ByBit(), s.gap as real, merged[i].best, h);
    CoversAccounts(s, merged[i].best, h);
    assert Bests(merged)[i] == merged[i].best;
  }

  // Every window within the limit has an event that accounts for it.
  lemma HitsHaveEvents(s: Search, bits: Bits, h: Hit)
    requires IsHit(s, bits, h)
    ensures exists e :: e in Events(s, bits) && Accounts(s, e, h)
  {
    var merged := Merge(ByBit(), s.gap as real, AllHits(s, bits));
    assert Covered(ByBit(), s.gap as real, merged, h) by {
      AllHitsMerged(s, bits);
      HitsAreWindows(s, bits, h);
    }
    CoveredEvent(s, merged, h);
  }

  // No window from an event's place up to the gap after it is nearer to any pattern.
  lemma EventsAreNearest(s: Search, bits: Bits, e: Hit, h: Hit)
    requires e in Events(s, bits) && IsHit(s, bits, h) && e.bit <= h.bit <= e.bit + s.gap
    ensures e.hamming <= h.hamming
  {
    var merged := Merge(ByBit(), s.gap as real, AllHits(s, bits));
    var i: nat :| i < |Events(s, bits)| && Events(s, bits)[i] == e;
    assert AllBeaten(ByBit(), s.gap as real, merged, AllHits(s, bits)) by { AllHitsMerged(s, bits); }
    assert h in AllHits(s, bits) by { HitsAreWindows(s, bits, h); }
    BeatsInBits(s.gap, merged, AllHits(s, bits), i, h);
  }

  lemma BeatsInBits(gap: nat, merged: seq<Cluster<Hit>>, hits: seq<Hit>, i: nat, h: Hit)
    requires AllBeaten(ByBit(), gap as real, merged, hits) && h in hits && i < |merged|
    requires merged[i].best.bit <= h.bit <= merged[i].best.bit + gap
    ensures merged[i].best.hamming <= h.hamming
  {
    assert Beats(ByBit(), gap as real, merged[i].best, h);
  }

  // A pattern sent without error in any order and polarity is reported, exactly, up to a gap earlier.
  lemma ExactSyncReported(s: Search, bits: Bits, order: Order, pattern: nat, p: nat)
    requires Valid(s) && p + s.width <= |bits| && pattern < |s.patterns|
    requires Read(order, Window(s, bits, p)) == UintBits(s.patterns[pattern], s.width)
    ensures exists e :: e in Events(s, bits) && e.hamming == 0 && p - s.gap <= e.bit <= p
  {
    var b := UintBits(s.patterns[pattern], s.width);
    assert Differences(b, b) == {};
    var h := Hit(p, order, pattern, 0);
    assert IsHit(s, bits, h);
    HitsHaveEvents(s, bits, h);
    var e :| e in Events(s, bits) && Accounts(s, e, h);
    assert s.gap * 0 == 0;
  }

  // ------------------------------------------------------------------ find_syncs_any_phase

  // The bits sliced at one timing phase, and the phase in samples.
  datatype Phase = Phase(bits: Bits, off: real)

  // A hit at one phase, and where it is in the signal.
  datatype Event = Event(hit: Hit, phase: nat, sample: real)

  datatype Key = Key(order: Order, pattern: nat)

  function KeyOf(e: Event): Key { Key(e.hit.order, e.hit.pattern) }

  // off + (bit / 2.0) * sps
  function SampleOf(off: real, bit: nat, sps: real): real {
    off + (bit as real / 2.0) * sps
  }

  function PhaseEvents(s: Search, phases: seq<Phase>, sps: real, k: nat): (events: seq<Event>)
    requires k < |phases|
  {
    var found := Events(s, phases[k].bits);
    seq(|found|, i requires 0 <= i < |found| => Event(found[i], k, SampleOf(phases[k].off, found[i].bit, sps)))
  }

  // The events of the first k phases.
  function AllEvents(s: Search, phases: seq<Phase>, sps: real, k: nat): seq<Event>
    requires k <= |phases|
  {
    if k == 0 then [] else AllEvents(s, phases, sps, k - 1) + PhaseEvents(s, phases, sps, k - 1)
  }

  function CountOf(events: seq<Event>, key: Key): nat {
    if events == [] then 0 else (if KeyOf(events[0]) == key then 1 else 0) + CountOf(events[1..], key)
  }

  function HammingOf(events: seq<Event>, key: Key): nat {
    if events == [] then 0
    else (if KeyOf(events[0]) == key then events[0].hit.hamming else 0) + HammingOf(events[1..], key)
  }

  // (counts[k], -sum of distances), compared as tuples.
  predicate Better(events: seq<Event>, a: Key, b: Key) {
    || CountOf(events, a) > CountOf(events, b)
    || (CountOf(events, a) == CountOf(events, b) && HammingOf(events, a) < HammingOf(events, b))
  }

  // The key of event i is met there first, all met before it are worse, and none is better.
  ghost predicate FirstBest(events: seq<Event>, i: nat)
    requires i < |events|
  {
    && (forall j :: 0 <= j < i ==> Better(events, KeyOf(events[i]), KeyOf(events[j])))
    && (forall j :: 0 <= j < |events| ==> !Better(events, KeyOf(events[j]), KeyOf(events[i])))
  }

  // max over the keys, which come in the order they were first met.
  method BestKey(events: seq<Event>) returns (best: nat)
    requires events != []
    ensures best < |events| && FirstBest(events, best)
  {
    best := 0;
    for i := 1 to |events|
      invariant best < i
      invariant forall j :: 0 <= j < best ==> Better(events, KeyOf(events[best]), KeyOf(events[j]))
      invariant forall j :: 0 <= j < i ==> !Better(events, KeyOf(events[j]), KeyOf(events[best]))
    {
      if Better(events, KeyOf(events[i]), KeyOf(events[best])) {
        best := i;
      }
    }
  }

  function WithKey(events: seq<Event>, key: Key): seq<Event> {
    if events == [] then [] else (if KeyOf(events[0]) == key then [events[0]] else []) + WithKey(events[1..], key)
  }

  function BySample(): Scale<Event> {
    Scale((e: Event) => e.sample, (e: Event) => e.hit.hamming)
  }

  const MIN_PHASE_CORROBORATION: nat := 4

  function Corroborated(clusters: seq<Cluster<Event>>): seq<Cluster<Event>> {
    if clusters == [] then [] else
      (if clusters[0].count >= MIN_PHASE_CORROBORATION then [clusters[0]] else []) + Corroborated(clusters[1..])
  }

  // The events of one key, merged over the phases.
  function PhasesMerged(events: seq<Event>, key: Key, sps: real): seq<Cluster<Event>> {
    Merge(BySample(), sps, SortAt(BySample(), WithKey(events, key)))
  }

  // ------------------------------------------------------------------ which key is kept

  // The places at which events of one order and pattern are met.
  function Having(events: seq<Event>, key: Key): set<nat> {
    set i: nat | i < |events| && events[i].hit.order == key.order && events[i].hit.pattern == key.pattern
  }

  function Distances(events: seq<Event>): nat {
    if events == [] then 0 else Distances(events[..|events| - 1]) + events[|events| - 1].hit.hamming
  }

  // What is kept of a list is what is kept of its parts, in order; of one event, that event if its order
  // and pattern are the ones kept.
  lemma {:induction false} WithKeyParts(a: seq<Event>, b: seq<Event>, key: Key, e: Event)
    ensures WithKey(a + b, key) == WithKey(a, key) + WithKey(b, key)
    ensures WithKey([e], key) == if e.hit.order == key.order && e.hit.pattern == key.pattern then [e] else []
  {
    assert [e][1..] == [];
    if a == [] {
      assert a + b == b;
    } else {
      assert (a + b)[1..] == a[1..] + b;
      WithKeyParts(a[1..], b, key, e);
    }
  }

  lemma HavingLast(events: seq<Event>, key: Key)
    requires events != []
    ensures var n := |events| - 1;
            |Having(events, key)| == |Having(events[..n], key)| + (if KeyOf(events[n]) == key then 1 else 0)
  {
    var n := |events| - 1;
    assert Having(events, key) == Having(events[..n], key) + (if KeyOf(events[n]) == key then {n} else {});
  }

  lemma {:induction false} CountConcat(a: seq<Event>, b: seq<Event>, key: Key)
    ensures CountOf(a + b, key) == CountOf(a, key) + CountOf(b, key)
  {
    if a == [] {
      assert a + b == b;
    } else {
      assert (a + b)[1..] == a[1..] + b;
      CountConcat(a[1..], b, key);
    }
  }

  // CountOf counts them, and as many are kept.
  lemma {:induction false} CountIs(events: seq<Event>, key: Key)
    ensures CountOf(events, key) == |Having(events, key)| == |WithKey(events, key)|
  {
    if events != [] {
      var n := |events| - 1;
      var before, e := events[..n], events[n];
      CountIs(before, key);
      HavingLast(events, key);
      CountConcat(before, [e], key);
      WithKeyParts(before, [e], key, e);
      assert before + [e] == events && [e][1..] == [];
    }
  }

  lemma {:induction false} DistancesConcat(a: seq<Event>, b: seq<Event>)
    ensures Distances(a + b) == Distances(a) + Distances(b)
    decreases |b|
  {
    if b == [] {
      assert a + b == a;
    } else {
      assert (a + b)[..|a + b| - 1] == a + b[..|b| - 1];
      DistancesConcat(a, b[..|b| - 1]);
    }
  }

  lemma {:induction false} HammingIs(events: seq<Event>, key: Key)
    ensures HammingOf(events, key) == Distances(WithKey(events, key))
  {
    if events != [] {
      var head := if KeyOf(events[0]) == key then [events[0]] else [];
      HammingIs(events[1..], key);
      DistancesConcat(head, WithKey(events[1..], key));
      assert head != [] ==> head[..0] == [];
    }
  }

  // The key chosen: met at no fewer places than any other; of those met as often, none with less distance;
  // and of those that equal it in both, the first met.
  lemma ChosenKey(events: seq<Event>, i: nat, j: nat)
    requires i < |events| && j < |events| && FirstBest(events, i)
    ensures var (a, b) := (KeyOf(events[i]), KeyOf(events[j]));
            && |Having(events, b)| <= |Having(events, a)|
            && (|Having(events, b)| == |Having(events, a)| ==>
                  Distances(WithKey(events, a)) <= Distances(WithKey(events, b)))
            && (|Having(events, b)| == |Having(events, a)| ==>
                  Distances(WithKey(events, a)) == Distances(WithKey(events, b)) ==> i <= j)
  {
    CountIs(events, KeyOf(events[i]));
    CountIs(events, KeyOf(events[j]));
    HammingIs(events, KeyOf(events[i]));
    HammingIs(events, KeyOf(events[j]));
  }

  lemma {:induction false} CorroboratedParts(a: seq<Cluster<Event>>, b: seq<Cluster<Event>>, c: Cluster<Event>)
    ensures Corroborated(a + b) == Corroborated(a) + Corroborated(b)
    ensures Corroborated([c]) == if c.count >= 4 then [c] else []
  {
    assert [c][1..] == [];
    if a == [] {
      assert a + b == b;
    } else {
      assert (a + b)[1..] == a[1..] + b;
      CorroboratedParts(a[1..], b, c);
    }
  }

  // The events are those of every phase's own search, each placed in the signal.
  lemma {:induction false} AllEventsAre(s: Search, phases: seq<Phase>, sps: real, n: nat, x: Event)
    requires n <= |phases|
    ensures x in AllEvents(s, phases, sps, n) <==>
            && x.phase < n && x.hit in Events(s, phases[x.phase].bits)
            && x.sample == phases[x.phase].off + (x.hit.bit as real / 2.0) * sps
  {
    if n > 0 {
      var before, last := AllEvents(s, phases, sps, n - 1), PhaseEvents(s, phases, sps, n - 1);
      AllEventsAre(s, phases, sps, n - 1, x);
      OnePhase(s, phases, sps, n - 1, x);
      InSum(before, last, x);
    }
  }

  lemma OnePhase(s: Search, phases: seq<Phase>, sps: real, k: nat, x: Event)
    requires k < |phases|
    ensures x in PhaseEvents(s, phases, sps, k) <==>
            && x.phase == k && x.hit in Events(s, phases[k].bits)
            && x.sample == phases[k].off + (x.hit.bit as real / 2.0) * sps
  {
    var found, events := Events(s, phases[k].bits), PhaseEvents(s, phases, sps, k);
    if x.hit in found && x.phase == k && x.sample == SampleOf(phases[k].off, x.hit.bit, sps) {
      var i: nat :| i < |found| && found[i] == x.hit;
      assert events[i] == x;
    }
  }

  // find_syncs_any_phase; sps is the samples of a symbol.
  method FindSyncsAnyPhase(s: Search, phases: seq<Phase>, sps: real) returns (r: Option<seq<Cluster<Event>>>)
    requires Valid(s)
    ensures r.None? <==> exists k :: 0 <= k < |phases| && TooShort(phases[k].bits, s.width)
    ensures r.Some? ==>
              var events := AllEvents(s, phases, sps, |phases|);
              if events == [] then r.value == []
              else exists i :: 0 <= i < |events| && FirstBest(events, i)
                               && r.value == Corroborated(PhasesMerged(events, KeyOf(events[i]), sps))
  {
    var events: seq<Event> := [];
    for k := 0 to |phases|
      invariant events == AllEvents(s, phases, sps, k)
      invariant forall j :: 0 <= j < k ==> !TooShort(phases[j].bits, s.width)
    {
      var found := FindSyncs(s, phases[k].bits);
      if found.None? {
        return None;
      }
      var at := seq(|found.value|, i requires 0 <= i < |found.value| =>
        Event(found.value[i], k, SampleOf(phases[k].off, found.value[i].bit, sps)));
      assert at == PhaseEvents(s, phases, sps, k);
      events := events + at;
    }
    if events == [] {
      return Some([]);
    }
    var best := BestKey(events);
    var merged := MergeHits(BySample(), sps, SortAt(BySample(), WithKey(events, KeyOf(events[best]))));
    r := Some(Corroborated(merged));
  }

  // A hit of a phase, placed in the signal.
  predicate IsEvent(s: Search, phases: seq<Phase>, sps: real, e: Event) {
    && e.phase < |phases|
    && IsHit(s, phases[e.phase].bits, e.hit)
    && e.sample == phases[e.phase].off + (e.hit.bit as real / 2.0) * sps
  }

  lemma PhaseEventsAre(s: Search, phases: seq<Phase>, sps: real, k: nat, e: Event)
    requires k < |phases| && e in PhaseEvents(s, phases, sps, k)
    ensures IsEvent(s, phases, sps, e)
  {
    var found := Events(s, phases[k].bits);
    OnePhase(s, phases, sps, k, e);
    var i: nat :| i < |found| && found[i] == e.hit;
    EventsAreHits(s, phases[k].bits, i);
  }

  lemma {:induction false} EventPhase(s: Search, phases: seq<Phase>, sps: real, k: nat, e: Event) returns (i: nat)
    requires k <= |phases| && e in AllEvents(s, phases, sps, k)
    ensures i < k && e in PhaseEvents(s, phases, sps, i)
  {
    i := k - 1;
    var before := AllEvents(s, phases, sps, i);
    if e in before {
      i := EventPhase(s, phases, sps, i, e);
    } else {
      InSum(before, PhaseEvents(s, phases, sps, i), e);
    }
  }

  lemma {:induction false} WithKeyHas(events: seq<Event>, key: Key, e: Event)
    ensures e in WithKey(events, key) <==> e in events && KeyOf(e) == key
  {
    if events != [] {
      WithKeyHas(events[1..], key, e);
      assert e in events <==> e == events[0] || e in events[1..];
    }
  }

  lemma {:induction false} CorroboratedHas(clusters: seq<Cluster<Event>>, c: Cluster<Event>)
    ensures c in Corroborated(clusters) <==> c in clusters && c.count >= MIN_PHASE_CORROBORATION
  {
    if clusters != [] {
      CorroboratedHas(clusters[1..], c);
      assert c in clusters <==> c == clusters[0] || c in clusters[1..];
    }
  }

  lemma PhasesMergedMeans(events: seq<Event>, key: Key, sps: real)
    requires sps >= 0.0
    ensures Merged(BySample(), sps, PhasesMerged(events, key, sps), SortAt(BySample(), WithKey(events, key)))
  {
    SortSorts(BySample(), WithKey(events, key));
    MergeMeans(BySample(), sps, SortAt(BySample(), WithKey(events, key)));
  }

  // Every sync reported is a window within the limit at its phase, in the chosen order and of the
  // chosen pattern, seen at least four times.
  lemma ReportedAreHits(s: Search, phases: seq<Phase>, sps: real, key: Key, c: Cluster<Event>)
    requires sps >= 0.0
    requires c in Corroborated(PhasesMerged(AllEvents(s, phases, sps, |phases|), key, sps))
    ensures IsEvent(s, phases, sps, c.best) && KeyOf(c.best) == key && c.count >= 4
  {
    var events := AllEvents(s, phases, sps, |phases|);
    var merged := PhasesMerged(events, key, sps);
    CorroboratedHas(merged, c);
    PhasesMergedMeans(events, key, sps);
    var i :| 0 <= i < |merged| && merged[i] == c;
    assert merged[i].best in SortAt(BySample(), WithKey(events, key));
    SortHas(BySample(), WithKey(events, key), c.best);
    WithKeyHas(events, key, c.best);
    var k := EventPhase(s, phases, sps, |phases|, c.best);
    PhaseEventsAre(s, phases, sps, k, c.best);
  }

  // Every event of the chosen key is accounted for by one of the merged ones, which is reported unless
  // it was seen fewer than four times.
  lemma KeyEventsCovered(events: seq<Event>, key: Key, sps: real, e: Event)
    requires sps >= 0.0 && e in events && KeyOf(e) == key
    ensures exists c :: c in PhasesMerged(events, key, sps) && Covers(BySample(), sps, c.best, e)
                        && (c in Corroborated(PhasesMerged(events, key, sps)) <==> c.count >= 4)
  {
    var merged := PhasesMerged(events, key, sps);
    PhasesMergedMeans(events, key, sps);
    WithKeyHas(events, key, e);
    SortHas(BySample(), WithKey(events, key), e);
    assert Covered(BySample(), sps, merged, e);
    var i :| 0 <= i < |merged| && Covers(BySample(), sps, merged[i].best, e);
    CorroboratedHas(merged, merged[i]);
  }
}
