/** Deflake requests (ops/work-runner.py: pending_deflakes, dispatch_deflakes, launch_deflake).

Another process appends requests; the runner starts at most one run per tick, keeps one claim per
test, and remembers on it the newest request it has consumed. */
module WorkDeflakes {
  import opened Wrappers
  import opened WorkClaims

  datatype Request = Request(slug: string, ts: int)

  function Key(slug: string): Ticket { "DEFLAKE:" + slug }

  predicate IsKey(t: Ticket) { "DEFLAKE:" <= t }

  lemma KeyInjective(a: string, b: string)
    ensures Key(a) == Key(b) <==> a == b
    ensures IsKey(Key(a))
  {
    assert Key(a)[8..] == a && Key(b)[8..] == b;
  }

  // When the claim's last run ended: `ended or started`.
  function EndOf(c: Claim): int { if c.ended.Some? then c.ended.value else c.started }

  // The slug's requests newer than `after`.
  function Newer(reqs: seq<Request>, slug: string, after: Option<int>): (rs: seq<Request>)
    ensures forall r :: r in rs <==> r in reqs && r.slug == slug && (after.Some? ==> r.ts > after.value)
  {
    if reqs == [] then []
    else
      var rest := Newer(reqs[1..], slug, after);
      if reqs[0].slug == slug && (after.Some? ==> reqs[0].ts > after.value) then [reqs[0]] + rest else rest
  }

  // The slug's requests newer than `after` and no newer than `ended`.
  function Stale(rs: seq<Request>, ended: int): (s: seq<Request>)
    ensures forall r :: r in s <==> r in rs && r.ts <= ended
  {
    if rs == [] then []
    else
      var rest := Stale(rs[1..], ended);
      if rs[0].ts <= ended then [rs[0]] + rest else rest
  }

  function MaxTs(rs: seq<Request>): (m: int)
    requires rs != []
    ensures (exists r :: r in rs && r.ts == m) && forall r :: r in rs ==> r.ts <= m
  {
    if |rs| == 1 then rs[0].ts
    else
      var m := MaxTs(rs[1..]);
      assert forall r :: r in rs ==> r == rs[0] || r in rs[1..];
      if rs[0].ts > m then rs[0].ts else m
  }

  function MinTs(rs: seq<Request>): (m: int)
    requires rs != []
    ensures (exists r :: r in rs && r.ts == m) && forall r :: r in rs ==> m <= r.ts
  {
    if |rs| == 1 then rs[0].ts
    else
      var m := MinTs(rs[1..]);
      assert forall r :: r in rs ==> r == rs[0] || r in rs[1..];
      if rs[0].ts < m then rs[0].ts else m
  }

  // The slugs asked for, in order of first appearance.
  function SlugsOf(reqs: seq<Request>): (slugs: seq<string>)
    ensures forall i, j :: 0 <= i < j < |slugs| ==> slugs[i] != slugs[j]
    ensures forall r :: r in reqs ==> r.slug in slugs
  {
    if reqs == [] then []
    else
      var n := |reqs| - 1;
      var before := SlugsOf(reqs[..n]);
      assert forall r :: r in reqs ==> r in reqs[..n] || r == reqs[n];
      if reqs[n].slug in before then before else before + [reqs[n].slug]
  }

  // A slug whose newest request may be dispatched: how long it has waited, and that request.
  datatype Ready = Ready(waiting: int, slug: string, ts: int)

  datatype Pending = Pending(claims: Claims, ready: Option<Ready>)

  function Consumed(claims: Claims, slug: string): Option<int> {
    if Key(slug) in claims then Some(claims[Key(slug)].requestTs) else None
  }

  // pending_deflakes for one slug: nothing new; waiting for its open run; stale requests dropped;
  // deferred; or ready.
  function PendingOne(claims: Claims, reqs: seq<Request>, slug: string, deferred: bool): Pending {
    var unread := Newer(reqs, slug, Consumed(claims, slug));
    var k := Key(slug);
    if unread == [] then Pending(claims, None)
    else if k !in claims then
      Pending(claims, if deferred then None else Some(Ready(MinTs(unread), slug, MaxTs(unread))))
    else
      var c := claims[k];
      if c.state == Running || c.state == Queued then Pending(claims, None)
      else
        var stale := Stale(unread, EndOf(c));
        var claims' := if stale == [] then claims else claims[k := c.(requestTs := MaxTs(stale))];
        var live := Newer(unread, slug, Some(EndOf(c)));
        Pending(claims', if live == [] || deferred then None else Some(Ready(MinTs(live), slug, MaxTs(live))))
  }

  datatype AllPending = AllPending(claims: Claims, ready: seq<Ready>)

  function PendingAll(claims: Claims, reqs: seq<Request>, slugs: seq<string>, deferred: set<string>): AllPending
    decreases |slugs|
  {
    if slugs == [] then AllPending(claims, [])
    else
      var p := PendingOne(claims, reqs, slugs[0], slugs[0] in deferred);
      var rest := PendingAll(p.claims, reqs, slugs[1..], deferred);
      AllPending(rest.claims, (if p.ready.Some? then [p.ready.value] else []) + rest.ready)
  }

  // ready.sort(key waiting), then the first.
  function Oldest(ready: seq<Ready>): (r: Ready)
    requires ready != []
    ensures r in ready && forall s :: s in ready ==> r.waiting <= s.waiting
  {
    if |ready| == 1 then ready[0]
    else
      var r := Oldest(ready[1..]);
      assert forall s :: s in ready ==> s == ready[0] || s in ready[1..];
      if ready[0].waiting <= r.waiting then ready[0] else r
  }

  function DeflakeClaim(ts: int, now: int): Claim {
    Claim(Running, Deflake, None, false, true, true, false, 0, 0, 0, None, {}, now, None, ts)
  }

  // dispatch_deflakes: at most one run per tick, under this Mac's cap, never through a hold.
  function DispatchDeflakes(cfg: Config, b: Book, reqs: seq<Request>, deferred: set<string>, env: Env): Book
    requires cfg.Valid()
  {
    if reqs == [] || env.usageLimited then b
    else
      var p := PendingAll(b.claims, reqs, SlugsOf(reqs), deferred);
      var b' := b.(claims := p.claims);
      if p.ready == [] || env.paused || env.gateHolds || Busy(p.claims, None) >= DispatchCap(cfg, env)
         || !env.diskOk then b'
      else
        var r := Oldest(p.ready);
        Record(cfg, b', Key(r.slug), DeflakeClaim(r.ts, env.now), Some(Deflaking), false, env)
  }

  // ------------------------------------------------------------------ what one slug's pass does

  // A request is consumed without a run only when it is no newer than the end of the last run.
  lemma OnlyStaleDropped(claims: Claims, reqs: seq<Request>, slug: string, deferred: bool, r: Request)
    requires r in reqs && r.slug == slug
    requires Key(slug) in claims ==> r.ts > claims[Key(slug)].requestTs
    ensures var p := PendingOne(claims, reqs, slug, deferred);
            Key(slug) in p.claims && r.ts <= p.claims[Key(slug)].requestTs ==>
              && Key(slug) in claims && claims[Key(slug)].state !in {Running, Queued}
              && var c := claims[Key(slug)]; r.ts <= if c.ended.Some? then c.ended.value else c.started
  {
  }

  // Every request no newer than the end of a run that is over is consumed, and nothing newer than it is.
  lemma StaleConsumed(claims: Claims, reqs: seq<Request>, slug: string, deferred: bool, r: Request)
    requires Key(slug) in claims && claims[Key(slug)].state !in {Running, Queued}
    requires r in reqs && r.slug == slug
    ensures var (c, p) := (claims[Key(slug)], PendingOne(claims, reqs, slug, deferred));
            var end := if c.ended.Some? then c.ended.value else c.started;
            && Key(slug) in p.claims
            && (r.ts <= p.claims[Key(slug)].requestTs <==> r.ts <= end || r.ts <= c.requestTs)
  {
    var c := claims[Key(slug)];
    var unread := Newer(reqs, slug, Consumed(claims, slug));
    if r.ts > c.requestTs {
      assert r in unread;
      assert r in Stale(unread, EndOf(c)) <==> r.ts <= EndOf(c);
    }
  }

  // What is offered for dispatch is the newest request, newer than everything consumed and than the
  // end of the slug's last run, which is over.
  lemma ReadyIsNewest(claims: Claims, reqs: seq<Request>, slug: string, deferred: bool)
    ensures var p := PendingOne(claims, reqs, slug, deferred);
            p.ready.Some? ==>
              && p.ready.value.slug == slug && Request(slug, p.ready.value.ts) in reqs
              && (forall r :: r in reqs && r.slug == slug ==> r.ts <= p.ready.value.ts)
              && (Key(slug) in claims ==>
                    && claims[Key(slug)].state !in {Running, Queued}
                    && p.ready.value.ts > EndOf(claims[Key(slug)])
                    && p.ready.value.ts > claims[Key(slug)].requestTs)
              && (Key(slug) in p.claims ==> p.ready.value.ts > p.claims[Key(slug)].requestTs)
  {
    var unread := Newer(reqs, slug, Consumed(claims, slug));
    if unread != [] && Key(slug) in claims {
      var live := Newer(unread, slug, Some(EndOf(claims[Key(slug)])));
      if live != [] {
        assert forall r :: r in live ==> r in unread;
        assert forall r :: r in unread && r !in live ==> r.ts <= EndOf(claims[Key(slug)]);
      }
    }
  }

  // A request that may be answered now: newer than what its test's claim has consumed and than the end of
  // the test's last run, or its start if it has no end, and that run is over.
  predicate Live(claims: Claims, r: Request) {
    Key(r.slug) in claims ==>
      var c := claims[Key(r.slug)];
      && c.state != Running && c.state != Queued && r.ts > c.requestTs
      && r.ts > if c.ended.Some? then c.ended.value else c.started
  }

  // A live request that is not deferred is offered, itself or through a newer one, and has not waited
  // longer than its offer says; one that is deferred is not.
  lemma LiveRequestOffered(claims: Claims, reqs: seq<Request>, slug: string, r: Request)
    requires r in reqs && r.slug == slug && Live(claims, r)
    ensures var p := PendingOne(claims, reqs, slug, false);
            p.ready.Some? && p.ready.value.slug == slug && p.ready.value.waiting <= r.ts <= p.ready.value.ts
    ensures PendingOne(claims, reqs, slug, true).ready == None
  {
    assert r in Newer(reqs, slug, Consumed(claims, slug));
    if Key(slug) in claims {
      assert r in Newer(Newer(reqs, slug, Consumed(claims, slug)), slug, Some(EndOf(claims[Key(slug)])));
    }
  }

  // How long an offer has waited: since some live request of its test.
  ghost predicate Waits(claims: Claims, reqs: seq<Request>, r: Ready) {
    exists q :: q in reqs && q.slug == r.slug && q.ts == r.waiting && Live(claims, q)
  }

  lemma ReadyWaits(claims: Claims, reqs: seq<Request>, slug: string, deferred: bool)
    ensures var p := PendingOne(claims, reqs, slug, deferred); p.ready.Some? ==> Waits(claims, reqs, p.ready.value)
  {
    var p := PendingOne(claims, reqs, slug, deferred);
    if p.ready.Some? {
      var unread := Newer(reqs, slug, Consumed(claims, slug));
      var offered := if Key(slug) in claims then Newer(unread, slug, Some(EndOf(claims[Key(slug)]))) else unread;
      var q :| q in offered && q.ts == MinTs(offered);
      assert q in unread && q in reqs && q.slug == slug && Live(claims, q);
    }
  }

  // A slug's pass leaves every other claim alone, and its own but for the request mark, which rises.
  predicate OnlyMarks(before: Claims, after: Claims) {
    && before.Keys == after.Keys
    && forall t :: t in before ==>
         after[t] == before[t].(requestTs := after[t].requestTs) && before[t].requestTs <= after[t].requestTs
         && (!IsKey(t) ==> after[t] == before[t])
  }

  lemma PendingOneMarks(claims: Claims, reqs: seq<Request>, slug: string, deferred: bool)
    ensures OnlyMarks(claims, PendingOne(claims, reqs, slug, deferred).claims)
    ensures forall t :: t in claims && t != Key(slug) ==>
               PendingOne(claims, reqs, slug, deferred).claims[t] == claims[t]
  {
    KeyInjective(slug, slug);
    var unread, k := Newer(reqs, slug, Consumed(claims, slug)), Key(slug);
    if unread != [] && k in claims && claims[k].state != Running && claims[k].state != Queued {
      var stale := Stale(unread, EndOf(claims[k]));
      if stale != [] {
        assert forall r :: r in stale ==> r in unread;
        RaiseMark(claims, k, MaxTs(stale));
      }
    }
  }

  lemma RaiseMark(claims: Claims, k: Ticket, ts: int)
    requires k in claims && IsKey(k) && claims[k].requestTs <= ts
    ensures OnlyMarks(claims, claims[k := claims[k].(requestTs := ts)])
  {
  }

  // What a whole pass offers: every entry is as ReadyIsNewest says of the claims before the pass.
  predicate Offer(before: Claims, after: Claims, reqs: seq<Request>, r: Ready) {
    && Request(r.slug, r.ts) in reqs
    && (forall q :: q in reqs && q.slug == r.slug ==> q.ts <= r.ts)
    && (Key(r.slug) in before ==>
          && before[Key(r.slug)].state !in {Running, Queued}
          && r.ts > EndOf(before[Key(r.slug)]))
    && (Key(r.slug) in after ==> r.ts > after[Key(r.slug)].requestTs)
  }

  // What offers for the other slugs say of the claims after one slug's pass holds of those before it.
  lemma OfferCarries(before: Claims, middle: Claims, after: Claims, reqs: seq<Request>, slug: string, r: Ready)
    requires before.Keys == middle.Keys && r.slug != slug && Offer(middle, after, reqs, r)
    requires forall t :: t in before && t != Key(slug) ==> middle[t] == before[t]
    ensures Offer(before, after, reqs, r)
  {
    KeyInjective(slug, r.slug);
  }

  predicate Untouched(before: Claims, after: Claims, slugs: seq<string>) {
    forall t :: t in before && t in after && (forall i :: 0 <= i < |slugs| ==> t != Key(slugs[i])) ==>
      after[t] == before[t]
  }

  lemma {:induction false} PendingAllMarks(claims: Claims, reqs: seq<Request>, slugs: seq<string>,
                                           deferred: set<string>)
    ensures var p := PendingAll(claims, reqs, slugs, deferred);
            OnlyMarks(claims, p.claims) && Untouched(claims, p.claims, slugs)
    decreases |slugs|
  {
    if slugs != [] {
      var one := PendingOne(claims, reqs, slugs[0], slugs[0] in deferred);
      PendingOneMarks(claims, reqs, slugs[0], slugs[0] in deferred);
      PendingAllMarks(one.claims, reqs, slugs[1..], deferred);
      var p := PendingAll(claims, reqs, slugs, deferred);
      forall t | t in claims && (forall i :: 0 <= i < |slugs| ==> t != Key(slugs[i])) ensures p.claims[t] == claims[t] {
        assert t != Key(slugs[0]);
        assert forall i :: 0 <= i < |slugs[1..]| ==> slugs[1..][i] == slugs[i + 1];
      }
    }
  }

  lemma {:induction false} PendingAllOffers(claims: Claims, reqs: seq<Request>, slugs: seq<string>,
                                            deferred: set<string>)
    requires forall i, j :: 0 <= i < j < |slugs| ==> slugs[i] != slugs[j]
    ensures var p := PendingAll(claims, reqs, slugs, deferred);
            forall r :: r in p.ready ==> r.slug in slugs && Offer(claims, p.claims, reqs, r)
    decreases |slugs|
  {
    if slugs != [] {
      var slug, rest := slugs[0], slugs[1..];
      var one := PendingOne(claims, reqs, slug, slug in deferred);
      PendingOneMarks(claims, reqs, slug, slug in deferred);
      PendingAllOffers(one.claims, reqs, rest, deferred);
      var p, q := PendingAll(claims, reqs, slugs, deferred), PendingAll(one.claims, reqs, rest, deferred);
      assert slug !in rest;
      forall r | r in p.ready ensures r.slug in slugs && Offer(claims, p.claims, reqs, r) {
        if r in q.ready {
          OfferCarries(claims, one.claims, q.claims, reqs, slug, r);
          assert r.slug in rest;
        } else {
          FirstOffer(claims, reqs, slugs, deferred);
        }
      }
    }
  }

  lemma FirstOffer(claims: Claims, reqs: seq<Request>, slugs: seq<string>, deferred: set<string>)
    requires slugs != [] && forall i, j :: 0 <= i < j < |slugs| ==> slugs[i] != slugs[j]
    ensures var one := PendingOne(claims, reqs, slugs[0], slugs[0] in deferred);
            one.ready.Some? ==> Offer(claims, PendingAll(claims, reqs, slugs, deferred).claims, reqs, one.ready.value)
  {
    var slug, rest := slugs[0], slugs[1..];
    var one := PendingOne(claims, reqs, slug, slug in deferred);
    ReadyIsNewest(claims, reqs, slug, slug in deferred);
    PendingAllMarks(one.claims, reqs, rest, deferred);
    forall i | 0 <= i < |rest| ensures Key(slug) != Key(rest[i]) {
      KeyInjective(slug, rest[i]);
    }
  }

  // ------------------------------------------------------------------ whose turn it is

  // Another slug's pass does not change whether a request is live.
  lemma LiveCarries(before: Claims, middle: Claims, slug: string, q: Request)
    requires before.Keys == middle.Keys && q.slug != slug
    requires forall t :: t in before && t != Key(slug) ==> middle[t] == before[t]
    ensures Live(before, q) <==> Live(middle, q)
  {
    KeyInjective(slug, q.slug);
  }

  lemma WaitsCarries(before: Claims, middle: Claims, reqs: seq<Request>, slug: string, r: Ready)
    requires before.Keys == middle.Keys && r.slug != slug && Waits(middle, reqs, r)
    requires forall t :: t in before && t != Key(slug) ==> middle[t] == before[t]
    ensures Waits(before, reqs, r)
  {
    var q :| q in reqs && q.slug == r.slug && q.ts == r.waiting && Live(middle, q);
    LiveCarries(before, middle, slug, q);
  }

  lemma {:induction false} PendingAllWaits(claims: Claims, reqs: seq<Request>, slugs: seq<string>,
                                           deferred: set<string>, r: Ready)
    requires forall i, j :: 0 <= i < j < |slugs| ==> slugs[i] != slugs[j]
    requires r in PendingAll(claims, reqs, slugs, deferred).ready
    ensures Waits(claims, reqs, r) && r.slug in slugs
    decreases |slugs|
  {
    var slug, rest := slugs[0], slugs[1..];
    var one := PendingOne(claims, reqs, slug, slug in deferred);
    PendingOneMarks(claims, reqs, slug, slug in deferred);
    if r in PendingAll(one.claims, reqs, rest, deferred).ready {
      PendingAllWaits(one.claims, reqs, rest, deferred, r);
      assert r.slug != slug;
      WaitsCarries(claims, one.claims, reqs, slug, r);
    } else {
      ReadyWaits(claims, reqs, slug, slug in deferred);
      ReadyIsNewest(claims, reqs, slug, slug in deferred);
    }
  }

  // Every live request of a test that is not deferred has an offer that has waited as long.
  lemma {:induction false} PendingAllHas(claims: Claims, reqs: seq<Request>, slugs: seq<string>,
                                         deferred: set<string>, q: Request) returns (r: Ready)
    requires forall i, j :: 0 <= i < j < |slugs| ==> slugs[i] != slugs[j]
    requires q in reqs && q.slug in slugs && q.slug !in deferred && Live(claims, q)
    ensures r in PendingAll(claims, reqs, slugs, deferred).ready && r.slug == q.slug && r.waiting <= q.ts
    decreases |slugs|
  {
    var slug, rest := slugs[0], slugs[1..];
    var one := PendingOne(claims, reqs, slug, slug in deferred);
    if q.slug == slug {
      LiveRequestOffered(claims, reqs, slug, q);
      r := one.ready.value;
    } else {
      PendingOneMarks(claims, reqs, slug, slug in deferred);
      LiveCarries(claims, one.claims, slug, q);
      r := PendingAllHas(one.claims, reqs, rest, deferred, q);
    }
  }

  // The test a deflake run is started for has a live request at least as old as every live request there
  // is of a test that is not deferred.
  lemma OldestFirst(cfg: Config, b: Book, reqs: seq<Request>, deferred: set<string>, env: Env, q: Request)
    returns (r: Request)
    requires cfg.Valid() && |DispatchDeflakes(cfg, b, reqs, deferred, env).log| > |b.log|
    requires q in reqs && q.slug !in deferred && Live(b.claims, q)
    ensures r in reqs && Live(b.claims, r) && r.ts <= q.ts
    ensures DispatchDeflakes(cfg, b, reqs, deferred, env).log[|b.log|].ticket == Key(r.slug)
  {
    var slugs := SlugsOf(reqs);
    var p := PendingAll(b.claims, reqs, slugs, deferred);
    var first := Oldest(p.ready);
    var offer := PendingAllHas(b.claims, reqs, slugs, deferred, q);
    PendingAllWaits(b.claims, reqs, slugs, deferred, first);
    r :| r in reqs && r.slug == first.slug && r.ts == first.waiting && Live(b.claims, r);
  }

  // ------------------------------------------------------------------ where a request goes

  // A slug's pass reads and marks its own claim only.
  lemma PendingOneLocal(claims: Claims, others: Claims, reqs: seq<Request>, slug: string, deferred: bool)
    requires Key(slug) in claims <==> Key(slug) in others
    requires Key(slug) in claims ==> claims[Key(slug)] == others[Key(slug)]
    ensures var p, q := PendingOne(claims, reqs, slug, deferred), PendingOne(others, reqs, slug, deferred);
            (Key(slug) in p.claims <==> Key(slug) in q.claims)
            && (Key(slug) in p.claims ==> p.claims[Key(slug)] == q.claims[Key(slug)])
  {
  }

  lemma {:induction false} PendingAllAt(claims: Claims, reqs: seq<Request>, slugs: seq<string>,
                                        deferred: set<string>, slug: string)
    requires slug in slugs && forall i, j :: 0 <= i < j < |slugs| ==> slugs[i] != slugs[j]
    ensures var all := PendingAll(claims, reqs, slugs, deferred).claims;
            var one := PendingOne(claims, reqs, slug, slug in deferred).claims;
            (Key(slug) in all <==> Key(slug) in one) && (Key(slug) in all ==> all[Key(slug)] == one[Key(slug)])
    decreases |slugs|
  {
    var head, rest := slugs[0], slugs[1..];
    var one := PendingOne(claims, reqs, head, head in deferred).claims;
    PendingOneMarks(claims, reqs, head, head in deferred);
    if slug == head {
      PendingAllMarks(one, reqs, rest, deferred);
      forall i | 0 <= i < |rest| ensures Key(slug) != Key(rest[i]) {
        KeyInjective(slug, rest[i]);
      }
    } else {
      KeyInjective(slug, head);
      PendingAllAt(one, reqs, rest, deferred, slug);
      PendingOneLocal(one, claims, reqs, slug, slug in deferred);
    }
  }
}
