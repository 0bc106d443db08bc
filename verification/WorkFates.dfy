/** What becomes of a deflake request over a run (ops/work-runner.py). */
module WorkFates {
  import opened WorkClaims
  import opened WorkRunner
  import opened WorkDeflakes
  import opened WorkJournal
  import opened WorkSafety
  import opened WorkPasses

  // ------------------------------------------------------------------ one tick

  // A request (slug, ts) is behind the test's mark.
  predicate Spent(b: Book, slug: string, ts: int) {
    Key(slug) in b.claims && ts <= b.claims[Key(slug)].requestTs
  }

  // The test's last run is over and ended no earlier than the request.
  predicate Overtaken(b: Book, slug: string, ts: int) {
    var k := Key(slug);
    k in b.claims && b.claims[k].state !in {Running, Queued} && ts <= EndOf(b.claims[k])
  }

  // A run of the test is started for that request or a newer one.
  predicate Answers(e: Event, slug: string, ts: int) {
    StartsDeflake(e) && e.ticket == Key(slug) && e.requestTs >= ts
  }

  ghost predicate Answered(b: Book, b': Book, slug: string, ts: int) {
    exists i :: |b.log| <= i < |b'.log| && Answers(b'.log[i], slug, ts)
  }

  // The deflake pass: a request it spends was overtaken, or a run was started for it or a newer one.
  lemma DeflakePass(cfg: Config, b: Book, reqs: seq<Request>, deferred: set<string>, env: Env, slug: string, ts: int)
    requires cfg.Valid() && !Spent(b, slug, ts)
    ensures var b' := DispatchDeflakes(cfg, b, reqs, deferred, env);
            && b.log <= b'.log
            && (Spent(b', slug, ts) ==> Overtaken(b', slug, ts) || Answered(b, b', slug, ts))
  {
    var b' := DispatchDeflakes(cfg, b, reqs, deferred, env);
    var slugs, k := SlugsOf(reqs), Key(slug);
    var p := PendingAll(b.claims, reqs, slugs, deferred);
    PendingAllMarks(b.claims, reqs, slugs, deferred);
    if Spent(b', slug, ts) {
      if b'.log == b.log || b'.log[|b.log|].ticket != k {
        assert k in p.claims && b'.claims[k] == p.claims[k];
        MarkedByStale(b.claims, reqs, slugs, deferred, slug, ts);
      } else {
        assert Answers(b'.log[|b.log|], slug, ts);
      }
    }
  }

  // A mark the pass raises is raised to a stale request, and the claim is else as it was.
  lemma MarkedByStale(claims: Claims, reqs: seq<Request>, slugs: seq<string>, deferred: set<string>, slug: string,
                      ts: int)
    requires slugs == SlugsOf(reqs) && Key(slug) in claims && claims[Key(slug)].requestTs < ts
    requires var p := PendingAll(claims, reqs, slugs, deferred).claims; Key(slug) in p && ts <= p[Key(slug)].requestTs
    ensures var c := PendingAll(claims, reqs, slugs, deferred).claims[Key(slug)];
            c.state !in {Running, Queued} && ts <= EndOf(c)
  {
    PendingAllMarks(claims, reqs, slugs, deferred);
    if slug in slugs {
      PendingAllAt(claims, reqs, slugs, deferred, slug);
      OneMarkedByStale(claims, reqs, slug, slug in deferred, ts);
    } else {
      forall i | 0 <= i < |slugs| ensures Key(slug) != Key(slugs[i]) {
        KeyInjective(slug, slugs[i]);
      }
    }
  }

  lemma OneMarkedByStale(claims: Claims, reqs: seq<Request>, slug: string, deferred: bool, ts: int)
    requires Key(slug) in claims && claims[Key(slug)].requestTs < ts
    requires ts <= PendingOne(claims, reqs, slug, deferred).claims[Key(slug)].requestTs
    ensures var c := PendingOne(claims, reqs, slug, deferred).claims[Key(slug)];
            c.state !in {Running, Queued} && ts <= EndOf(c)
  {
    var c := claims[Key(slug)];
    var stale := Stale(Newer(reqs, slug, Consumed(claims, slug)), EndOf(c));
    if stale != [] {
      var r :| r in stale && r.ts == MaxTs(stale);
    }
  }

  lemma TickFate(cfg: Config, b: Book, i: TickInput, slug: string, ts: int)
    requires cfg.Valid() && Inv(cfg, b) && i.Valid()
    requires !Spent(b, slug, ts) && Spent(Tick(cfg, b, i).book, slug, ts)
    ensures var b' := Tick(cfg, b, i).book; Overtaken(b', slug, ts) || Answered(b, b', slug, ts)
  {
    KeyInjective(slug, slug);
    var early, b' := BeforeDeflakes(cfg, b, i), Tick(cfg, b, i).book;
    var mid := DispatchDeflakes(cfg, early, i.requests, i.deferred, i.deflakeEnv);
    EarlyMarks(cfg, b, i);
    DeflakePass(cfg, early, i.requests, i.deferred, i.deflakeEnv, slug, ts);
    DispatchLeaves(cfg, mid, i);
    if !Overtaken(b', slug, ts) {
      AnsweredOn(b, early, mid, b', slug, ts);
    }
  }

  lemma AnsweredOn(b: Book, early: Book, mid: Book, b': Book, slug: string, ts: int)
    requires b.log <= early.log && mid.log <= b'.log && Answered(early, mid, slug, ts)
    ensures Answered(b, b', slug, ts)
  {
    var i :| |early.log| <= i < |mid.log| && Answers(mid.log[i], slug, ts);
    assert b'.log[i] == mid.log[i];
  }

  // ------------------------------------------------------------------ every run

  // A run of the test was started for that request or a newer one, and its claim was saved.
  ghost predicate RunSaved(w: World, w': World, slug: string, ts: int) {
    exists i :: |w.log| <= i < |w'.log| && w'.log[i].Kept? && Answers(w'.log[i].event, slug, ts)
  }

  // A run the tick started is one of the turn's lines.
  lemma AnsweredSaved(w: World, r: Ticked, slug: string, ts: int)
    requires KeptOf(w.log) <= r.book.log && !r.raised && Answered(w.File(), r.book, slug, ts)
    ensures RunSaved(w, After(w, r), slug, ts)
  {
    var j :| |KeptOf(w.log)| <= j < |r.book.log| && Answers(r.book.log[j], slug, ts);
    var p := TurnLine(w, r, j);
  }

  lemma StepFate(cfg: Config, w: World, w': World, slug: string, ts: int)
    requires cfg.Valid() && WorldInv(cfg, w) && Follows(cfg, w, w')
    requires !Spent(w.File(), slug, ts) && Spent(w'.File(), slug, ts)
    ensures Overtaken(w'.File(), slug, ts) || RunSaved(w, w', slug, ts)
  {
    var i, r := TickOf(cfg, w, w');
    assert !r.raised && w'.File() == r.book by { var added := AfterFile(w, r); }
    if !Overtaken(r.book, slug, ts) {
      assert Answered(w.File(), r.book, slug, ts) by { TickFate(cfg, w.File(), i, slug, ts); }
      AnsweredSaved(w, r, slug, ts);
    }
  }

  // The turn at which a request goes from new to spent.
  lemma SpentAt(worlds: seq<World>, n: nat, m: nat, slug: string, ts: int) returns (j: nat)
    requires n < m < |worlds| && !Spent(worlds[n].File(), slug, ts) && Spent(worlds[m].File(), slug, ts)
    ensures n <= j < m && !Spent(worlds[j].File(), slug, ts) && Spent(worlds[j + 1].File(), slug, ts)
  {
    j := n;
    while !Spent(worlds[j + 1].File(), slug, ts)
      invariant n <= j < m && !Spent(worlds[j].File(), slug, ts)
      decreases m - j
    {
      j := j + 1;
    }
  }

  // A request never goes unanswered but as stale evidence: over any stretch of any run in which it goes
  // from new to spent, there is a turn at which either its test's run was over and had ended no earlier,
  // or a run of its test was started for it or for a newer request and saved. Turns that raise spend none.
  lemma RequestFate(cfg: Config, worlds: seq<World>, n: nat, m: nat, slug: string, ts: int) returns (j: nat)
    requires cfg.Valid() && IsRun(cfg, worlds) && n < m < |worlds|
    requires !Spent(worlds[n].File(), slug, ts) && Spent(worlds[m].File(), slug, ts)
    ensures n <= j < m
    ensures Overtaken(worlds[j + 1].File(), slug, ts) || RunSaved(worlds[j], worlds[j + 1], slug, ts)
  {
    j := SpentAt(worlds, n, m, slug, ts);
    RunKeeps(cfg, worlds, j);
    TurnAt(cfg, worlds, j);
    StepFate(cfg, worlds[j], worlds[j + 1], slug, ts);
  }
}
