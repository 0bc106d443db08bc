/** The greedy merge of sync hits into events (py/fixtures/dmr_ref.py, py/fixtures/flex_ref.py). */
module SyncMerge {

  // Hits come sorted by position. Each is compared with the last event only, and replaces it when it is
  // nearer to the pattern, so the last event drifts along a chain of ever better hits.

  // An event, and how many hits went into it.
  datatype Cluster<T> = Cluster(best: T, count: nat)

  // Where a hit lies and how far it is from the pattern.
  datatype Scale<!T> = Scale(at: T -> real, hamming: T -> nat)

  // ------------------------------------------------------------------ the loop

  // One more hit.
  function Absorb<T>(s: Scale<T>, gap: real, clusters: seq<Cluster<T>>, h: T): seq<Cluster<T>> {
    if clusters != [] && s.at(h) - s.at(clusters[|clusters| - 1].best) <= gap then
      var last := clusters[|clusters| - 1];
      var best := if s.hamming(h) < s.hamming(last.best) then h else last.best;
      clusters[..|clusters| - 1] + [Cluster(best, last.count + 1)]
    else
      clusters + [Cluster(h, 1)]
  }

  function Merge<T>(s: Scale<T>, gap: real, hits: seq<T>): seq<Cluster<T>> {
    if hits == [] then [] else Absorb(s, gap, Merge(s, gap, hits[..|hits| - 1]), hits[|hits| - 1])
  }

  // The merge loops of find_syncs and find_syncs_any_phase.
  method MergeHits<T>(s: Scale<T>, gap: real, hits: seq<T>) returns (merged: seq<Cluster<T>>)
    ensures merged == Merge(s, gap, hits)
  {
    merged := [];
    for i := 0 to |hits|
      invariant merged == Merge(s, gap, hits[..i])
    {
      MergeSnoc(s, gap, hits, i);
      merged := AbsorbHit(s, gap, merged, hits[i]);
    }
    assert hits[..|hits|] == hits;
  }

  // One turn of the loop.
  method AbsorbHit<T>(s: Scale<T>, gap: real, merged: seq<Cluster<T>>, h: T) returns (r: seq<Cluster<T>>)
    ensures r == Absorb(s, gap, merged, h)
  {
    var n := |merged|;
    if n > 0 && s.at(h) - s.at(merged[n - 1].best) <= gap {
      var last := merged[n - 1];
      var best := if s.hamming(h) < s.hamming(last.best) then h else last.best;
      r := merged[..n - 1] + [Cluster(best, last.count + 1)];
    } else {
      r := merged + [Cluster(h, 1)];
    }
  }

  lemma MergeSnoc<T>(s: Scale<T>, gap: real, hits: seq<T>, i: nat)
    requires i < |hits|
    ensures Merge(s, gap, hits[..i + 1]) == Absorb(s, gap, Merge(s, gap, hits[..i]), hits[i])
  {
    assert hits[..i + 1][..i] == hits[..i];
  }

  // ------------------------------------------------------------------ what the events are

  ghost predicate Sorted<T>(s: Scale<T>, hits: seq<T>) {
    forall i, j :: 0 <= i < j < |hits| ==> s.at(hits[i]) <= s.at(hits[j])
  }

  // Events are more than the gap apart.
  ghost predicate Spaced<T>(s: Scale<T>, gap: real, clusters: seq<Cluster<T>>) {
    forall i, j :: 0 <= i < j < |clusters| ==> s.at(clusters[i].best) + gap < s.at(clusters[j].best)
  }

  // Every event is one of the hits.
  ghost predicate FromHits<T>(clusters: seq<Cluster<T>>, hits: seq<T>) {
    forall i :: 0 <= i < |clusters| ==> clusters[i].best in hits
  }

  // n gaps
  function Times(gap: real, n: nat): real {
    if n == 0 then 0.0 else gap + Times(gap, n - 1)
  }

  // The event accounts for the hit: it is no worse, at most a gap before it, and after it by at most a
  // gap for each bit it is better.
  predicate Covers<T>(s: Scale<T>, gap: real, e: T, h: T) {
    && s.hamming(e) <= s.hamming(h)
    && s.at(h) - gap <= s.at(e) <= s.at(h) + Times(gap, s.hamming(h) - s.hamming(e))
  }

  ghost predicate Covered<T>(s: Scale<T>, gap: real, clusters: seq<Cluster<T>>, h: T) {
    exists i :: 0 <= i < |clusters| && Covers(s, gap, clusters[i].best, h)
  }

  ghost predicate AllCovered<T>(s: Scale<T>, gap: real, clusters: seq<Cluster<T>>, hits: seq<T>) {
    forall h {:trigger Covered(s, gap, clusters, h)} :: h in hits ==> Covered(s, gap, clusters, h)
  }

  // No hit up to a gap after the event is nearer to the pattern.
  predicate Beats<T>(s: Scale<T>, gap: real, e: T, h: T) {
    s.at(e) <= s.at(h) <= s.at(e) + gap ==> s.hamming(e) <= s.hamming(h)
  }

  ghost predicate AllBeaten<T>(s: Scale<T>, gap: real, clusters: seq<Cluster<T>>, hits: seq<T>) {
    forall i, h {:trigger Beats(s, gap, clusters[i].best, h)} ::
      0 <= i < |clusters| && h in hits ==> Beats(s, gap, clusters[i].best, h)
  }

  function Total<T>(clusters: seq<Cluster<T>>): nat {
    if clusters == [] then 0 else Total(clusters[..|clusters| - 1]) + clusters[|clusters| - 1].count
  }

  ghost predicate Merged<T>(s: Scale<T>, gap: real, clusters: seq<Cluster<T>>, hits: seq<T>) {
    && Spaced(s, gap, clusters)
    && FromHits(clusters, hits)
    && AllCovered(s, gap, clusters, hits)
    && AllBeaten(s, gap, clusters, hits)
    && Total(clusters) == |hits|
  }

  // A better event up to a gap later still accounts for what the old one did.
  lemma CoversOn<T>(s: Scale<T>, gap: real, e: T, e': T, h: T)
    requires gap >= 0.0 && Covers(s, gap, e, h) && s.hamming(e') < s.hamming(e)
    requires s.at(e) <= s.at(e') <= s.at(e) + gap
    ensures Covers(s, gap, e', h)
  {
    TimesGrows(gap, s.hamming(h) - s.hamming(e), s.hamming(h) - s.hamming(e'));
  }

  lemma {:induction false} TimesGrows(gap: real, k: nat, m: nat)
    requires gap >= 0.0
    ensures k < m ==> Times(gap, k) + gap <= Times(gap, m)
    ensures Times(gap, m) >= 0.0
    decreases m
  {
    if m > 0 {
      TimesGrows(gap, k, m - 1);
    }
  }

  // A hit accounts for itself and for a worse one up to a gap later.
  lemma CoversLater<T>(s: Scale<T>, gap: real, e: T, h: T)
    requires gap >= 0.0 && s.hamming(e) <= s.hamming(h) && s.at(e) <= s.at(h) <= s.at(e) + gap
    ensures Covers(s, gap, e, h)
  {
    TimesGrows(gap, 0, s.hamming(h) - s.hamming(e));
  }

  // Where the last event lies among them.
  ghost predicate AtMost<T>(s: Scale<T>, xs: seq<T>, p: real) {
    forall x :: x in xs ==> s.at(x) <= p
  }

  lemma LastCluster<T>(s: Scale<T>, gap: real, clusters: seq<Cluster<T>>, i: nat)
    requires gap >= 0.0 && Spaced(s, gap, clusters) && i < |clusters|
    ensures s.at(clusters[i].best) <= s.at(clusters[|clusters| - 1].best)
    ensures i < |clusters| - 1 ==> s.at(clusters[i].best) + gap < s.at(clusters[|clusters| - 1].best)
  {
  }

  // ------------------------------------------------------------------ one more hit keeps it so

  // The new hit is near the last event.
  predicate Near<T>(s: Scale<T>, gap: real, clusters: seq<Cluster<T>>, h: T) {
    clusters != [] && s.at(h) - s.at(clusters[|clusters| - 1].best) <= gap
  }

  // The new hit is not before the last event.
  predicate InOrder<T>(s: Scale<T>, clusters: seq<Cluster<T>>, h: T) {
    clusters != [] ==> s.at(clusters[|clusters| - 1].best) <= s.at(h)
  }

  lemma SpacedSnoc<T>(s: Scale<T>, gap: real, clusters: seq<Cluster<T>>, c: Cluster<T>)
    requires gap >= 0.0 && Spaced(s, gap, clusters)
    requires clusters != [] ==> s.at(clusters[|clusters| - 1].best) + gap < s.at(c.best)
    ensures Spaced(s, gap, clusters + [c])
  {
    var after := clusters + [c];
    forall i, j | 0 <= i < j < |after| ensures s.at(after[i].best) + gap < s.at(after[j].best) {
      if j == |clusters| {
        LastCluster(s, gap, clusters, i);
      }
    }
  }

  lemma AbsorbSpaced<T>(s: Scale<T>, gap: real, clusters: seq<Cluster<T>>, h: T)
    requires gap >= 0.0 && Spaced(s, gap, clusters) && InOrder(s, clusters, h)
    ensures Spaced(s, gap, Absorb(s, gap, clusters, h))
  {
    var after, n := Absorb(s, gap, clusters, h), |clusters|;
    if Near(s, gap, clusters, h) {
      if n > 1 {
        LastCluster(s, gap, clusters, n - 2);
      }
      SpacedSnoc(s, gap, clusters[..n - 1], after[n - 1]);
    } else {
      SpacedSnoc(s, gap, clusters, Cluster(h, 1));
    }
  }

  lemma AbsorbFrom<T>(s: Scale<T>, gap: real, clusters: seq<Cluster<T>>, hits: seq<T>, h: T)
    requires FromHits(clusters, hits)
    ensures FromHits(Absorb(s, gap, clusters, h), hits + [h])
  {
  }

  lemma CoveredAt<T>(s: Scale<T>, gap: real, clusters: seq<Cluster<T>>, h: T, i: nat)
    requires i < |clusters| && Covers(s, gap, clusters[i].best, h)
    ensures Covered(s, gap, clusters, h)
  {
  }

  // What the events accounted for they still do.
  lemma AbsorbCovers<T>(s: Scale<T>, gap: real, clusters: seq<Cluster<T>>, h: T, g: T)
    requires gap >= 0.0 && InOrder(s, clusters, h) && Covered(s, gap, clusters, g)
    ensures Covered(s, gap, Absorb(s, gap, clusters, h), g)
  {
    var after, n := Absorb(s, gap, clusters, h), |clusters|;
    var i: nat :| i < n && Covers(s, gap, clusters[i].best, g);
    if i == n - 1 && after[i].best != clusters[i].best {
      CoversOn(s, gap, clusters[i].best, h, g);
    }
    CoveredAt(s, gap, after, g, i);
  }

  // The last event accounts for the new hit, and the hit does not beat it.
  lemma AbsorbCoversNew<T>(s: Scale<T>, gap: real, clusters: seq<Cluster<T>>, h: T)
    requires gap >= 0.0 && InOrder(s, clusters, h)
    ensures Covered(s, gap, Absorb(s, gap, clusters, h), h)
  {
    var after := Absorb(s, gap, clusters, h);
    CoversLater(s, gap, after[|after| - 1].best, h);
    CoveredAt(s, gap, after, h, |after| - 1);
  }

  lemma AbsorbBeatsNew<T>(s: Scale<T>, gap: real, clusters: seq<Cluster<T>>, h: T, i: nat)
    requires gap >= 0.0 && Spaced(s, gap, clusters) && InOrder(s, clusters, h) && i < |Absorb(s, gap, clusters, h)|
    ensures Beats(s, gap, Absorb(s, gap, clusters, h)[i].best, h)
  {
    if i < |clusters| {
      LastCluster(s, gap, clusters, i);
    }
  }

  lemma AbsorbBeats<T>(s: Scale<T>, gap: real, clusters: seq<Cluster<T>>, h: T, i: nat, g: T)
    requires gap >= 0.0 && Spaced(s, gap, clusters) && InOrder(s, clusters, h) && s.at(g) <= s.at(h)
    requires Covered(s, gap, clusters, g) && forall k :: 0 <= k < |clusters| ==> Beats(s, gap, clusters[k].best, g)
    requires i < |Absorb(s, gap, clusters, h)|
    ensures Beats(s, gap, Absorb(s, gap, clusters, h)[i].best, g)
  {
    var after, n := Absorb(s, gap, clusters, h), |clusters|;
    if i < n && after[i].best == clusters[i].best {
      assert Beats(s, gap, clusters[i].best, g);
    } else if s.at(h) == s.at(g) {
      NewBeats(s, gap, clusters, h, g);
    }
  }

  // A hit that becomes an event is no worse than one in the same place before it.
  lemma NewBeats<T>(s: Scale<T>, gap: real, clusters: seq<Cluster<T>>, h: T, g: T)
    requires gap >= 0.0 && Spaced(s, gap, clusters) && InOrder(s, clusters, h) && s.at(g) == s.at(h)
    requires Covered(s, gap, clusters, g) && forall k :: 0 <= k < |clusters| ==> Beats(s, gap, clusters[k].best, g)
    requires Near(s, gap, clusters, h) ==> s.hamming(h) < s.hamming(clusters[|clusters| - 1].best)
    ensures s.hamming(h) <= s.hamming(g)
  {
    var n := |clusters|;
    var i: nat :| i < n && Covers(s, gap, clusters[i].best, g);
    LastCluster(s, gap, clusters, i);
    assert Near(s, gap, clusters, h);
    assert Beats(s, gap, clusters[n - 1].best, g);
  }

  lemma AbsorbTotal<T>(s: Scale<T>, gap: real, clusters: seq<Cluster<T>>, h: T)
    ensures Total(Absorb(s, gap, clusters, h)) == Total(clusters) + 1
  {
    var after, n := Absorb(s, gap, clusters, h), |clusters|;
    assert after[..|after| - 1] == if Near(s, gap, clusters, h) then clusters[..n - 1] else clusters;
  }

  lemma MergeStepOk<T>(s: Scale<T>, gap: real, clusters: seq<Cluster<T>>, hits: seq<T>, h: T, hits': seq<T>,
                       after: seq<Cluster<T>>)
    requires gap >= 0.0 && Merged(s, gap, clusters, hits) && AtMost(s, hits, s.at(h))
    requires hits' == hits + [h] && after == Absorb(s, gap, clusters, h)
    ensures Merged(s, gap, after, hits')
  {
    assert InOrder(s, clusters, h);
    AbsorbSpaced(s, gap, clusters, h);
    AbsorbFrom(s, gap, clusters, hits, h);
    AbsorbTotal(s, gap, clusters, h);
    AbsorbCoversAll(s, gap, clusters, hits, h);
    AbsorbBeatsAll(s, gap, clusters, hits, h);
  }

  lemma AbsorbCoversAll<T>(s: Scale<T>, gap: real, clusters: seq<Cluster<T>>, hits: seq<T>, h: T)
    requires gap >= 0.0 && InOrder(s, clusters, h) && AllCovered(s, gap, clusters, hits)
    ensures AllCovered(s, gap, Absorb(s, gap, clusters, h), hits + [h])
  {
    var after := Absorb(s, gap, clusters, h);
    AbsorbCoversNew(s, gap, clusters, h);
    forall g | g in hits + [h] ensures Covered(s, gap, after, g) {
      if g in hits {
        AbsorbCovers(s, gap, clusters, h, g);
      }
    }
  }

  lemma AbsorbBeatsAll<T>(s: Scale<T>, gap: real, clusters: seq<Cluster<T>>, hits: seq<T>, h: T)
    requires gap >= 0.0 && Spaced(s, gap, clusters) && InOrder(s, clusters, h) && AtMost(s, hits, s.at(h))
    requires AllCovered(s, gap, clusters, hits) && AllBeaten(s, gap, clusters, hits)
    ensures AllBeaten(s, gap, Absorb(s, gap, clusters, h), hits + [h])
  {
    var after := Absorb(s, gap, clusters, h);
    forall i, g | 0 <= i < |after| && g in hits + [h] ensures Beats(s, gap, after[i].best, g) {
      if g in hits {
        AbsorbBeats(s, gap, clusters, h, i, g);
      } else {
        AbsorbBeatsNew(s, gap, clusters, h, i);
      }
    }
  }

  lemma SortedSnoc<T>(s: Scale<T>, hits: seq<T>)
    requires hits != [] && Sorted(s, hits)
    ensures var before := hits[..|hits| - 1]; Sorted(s, before) && AtMost(s, before, s.at(hits[|hits| - 1]))
  {
  }

  lemma MergeNext<T>(s: Scale<T>, gap: real, before: seq<T>, hits: seq<T>)
    requires gap >= 0.0 && hits != [] && before == hits[..|hits| - 1] && AtMost(s, before, s.at(hits[|hits| - 1]))
    requires Merged(s, gap, Merge(s, gap, before), before)
    ensures Merged(s, gap, Merge(s, gap, hits), hits)
  {
    var h, clusters, after := hits[|hits| - 1], Merge(s, gap, before), Merge(s, gap, hits);
    assert hits == before + [h];
    MergeStepOk(s, gap, clusters, before, h, hits, after);
  }

  // The hits, in order of position, become events that are hits, more than a gap apart, that account
  // for every hit, that no hit up to a gap later beats, and whose counts add up to all the hits.
  lemma {:induction false} MergeMeans<T>(s: Scale<T>, gap: real, hits: seq<T>)
    requires gap >= 0.0 && Sorted(s, hits)
    ensures Merged(s, gap, Merge(s, gap, hits), hits)
  {
    if hits != [] {
      var before := hits[..|hits| - 1];
      SortedSnoc(s, hits);
      MergeMeans(s, gap, before);
      MergeNext(s, gap, before, hits);
    }
  }

  // The drift is real: with a chain of ever better hits an event can be more than a gap after a hit it
  // accounts for.
  lemma DriftsPastTheGap<T>(s: Scale<T>, gap: real, a: T, b: T, c: T)
    requires gap > 0.0 && s.at(b) == s.at(a) + gap && s.at(c) == s.at(b) + gap
    requires s.hamming(c) < s.hamming(b) < s.hamming(a)
    ensures Merge(s, gap, [a, b, c]) == [Cluster(c, 3)] && s.at(c) - s.at(a) > gap
  {
    assert [a, b, c][..2] == [a, b] && [a, b][..1] == [a] && [a][..0] == [];
    assert Merge(s, gap, [a]) == [Cluster(a, 1)];
    assert Merge(s, gap, [a, b]) == [Cluster(b, 2)];
  }

  // ------------------------------------------------------------------ sorting

  // x before the first element that is not before it.
  function Insert<T>(s: Scale<T>, x: T, xs: seq<T>): seq<T> {
    if xs == [] || s.at(x) <= s.at(xs[0]) then [x] + xs else [xs[0]] + Insert(s, x, xs[1..])
  }

  // list.sort by position, which keeps elements in one position in their order.
  function SortAt<T>(s: Scale<T>, xs: seq<T>): seq<T> {
    if xs == [] then [] else Insert(s, xs[0], SortAt(s, xs[1..]))
  }

  // The elements at one position, in order.
  function At<T>(s: Scale<T>, xs: seq<T>, p: real): seq<T> {
    if xs == [] then [] else (if s.at(xs[0]) == p then [xs[0]] else []) + At(s, xs[1..], p)
  }

  lemma {:induction false} InsertHas<T>(s: Scale<T>, x: T, xs: seq<T>, y: T)
    ensures y in Insert(s, x, xs) <==> y == x || y in xs
  {
    if xs != [] && s.at(x) > s.at(xs[0]) {
      InsertHas(s, x, xs[1..], y);
      assert y in xs <==> y == xs[0] || y in xs[1..];
    }
  }

  // Every one of xs is at or after p.
  ghost predicate AtLeast<T>(s: Scale<T>, xs: seq<T>, p: real) {
    forall y :: y in xs ==> p <= s.at(y)
  }

  lemma SortedCons<T>(s: Scale<T>, x: T, xs: seq<T>)
    ensures Sorted(s, [x] + xs) <==> Sorted(s, xs) && AtLeast(s, xs, s.at(x))
  {
    var all := [x] + xs;
    if Sorted(s, all) {
      forall i, j | 0 <= i < j < |xs| ensures s.at(xs[i]) <= s.at(xs[j]) {
        assert all[i + 1] == xs[i] && all[j + 1] == xs[j];
      }
      forall y | y in xs ensures s.at(x) <= s.at(y) {
        var j :| 0 <= j < |xs| && xs[j] == y;
        assert all[0] == x && all[j + 1] == y;
      }
    }
  }

  lemma {:induction false} InsertSorted<T>(s: Scale<T>, x: T, xs: seq<T>)
    requires Sorted(s, xs)
    ensures Sorted(s, Insert(s, x, xs))
  {
    if xs == [] {
    } else {
      var first, rest := xs[0], xs[1..];
      assert xs == [first] + rest;
      SortedCons(s, first, rest);
      if s.at(x) > s.at(first) {
        InsertSorted(s, x, rest);
        forall y | y in Insert(s, x, rest) ensures s.at(first) <= s.at(y) {
          InsertHas(s, x, rest, y);
        }
        SortedCons(s, first, Insert(s, x, rest));
      } else {
        SortedCons(s, x, xs);
      }
    }
  }

  lemma {:induction false} InsertAt<T>(s: Scale<T>, x: T, xs: seq<T>, p: real)
    requires Sorted(s, xs)
    ensures At(s, Insert(s, x, xs), p) == At(s, [x] + xs, p)
  {
    assert ([x] + xs)[1..] == xs;
    if xs != [] && s.at(x) > s.at(xs[0]) {
      InsertAt(s, x, xs[1..], p);
      assert ([x] + xs[1..])[1..] == xs[1..];
      assert ([xs[0]] + Insert(s, x, xs[1..]))[1..] == Insert(s, x, xs[1..]);
    }
  }

  // Sorting puts the elements in order of position and leaves those in one position as they were.
  lemma {:induction false} SortSorts<T>(s: Scale<T>, xs: seq<T>)
    ensures Sorted(s, SortAt(s, xs))
  {
    if xs != [] {
      SortSorts(s, xs[1..]);
      InsertSorted(s, xs[0], SortAt(s, xs[1..]));
    }
  }

  lemma {:induction false} SortHas<T>(s: Scale<T>, xs: seq<T>, y: T)
    ensures y in SortAt(s, xs) <==> y in xs
  {
    if xs != [] {
      SortHas(s, xs[1..], y);
      InsertHas(s, xs[0], SortAt(s, xs[1..]), y);
      assert y in xs <==> y == xs[0] || y in xs[1..];
    }
  }

  lemma {:induction false} SortIsStable<T>(s: Scale<T>, xs: seq<T>, p: real)
    ensures At(s, SortAt(s, xs), p) == At(s, xs, p)
  {
    if xs != [] {
      var rest := SortAt(s, xs[1..]);
      SortIsStable(s, xs[1..], p);
      SortSorts(s, xs[1..]);
      InsertAt(s, xs[0], rest, p);
      assert ([xs[0]] + rest)[1..] == rest;
    }
  }
}
