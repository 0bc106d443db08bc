/** What stands in the merge queue (ops/work-runner.py). */
module WorkQueue {
  import opened Wrappers
  import opened WorkClaims
  import opened WorkRunner
  import opened WorkDeflakes
  import opened WorkOutcomes
  import opened WorkResumes

  // Over every run of the runner a branch waits for the merge gate only when the run it was asked for is
  // over: a passed review, or clean work that asked for none. Only the reap pass puts a claim in the queue.

  // ------------------------------------------------------------------ one tick

  // What a queued claim was judged on: its review passed; or its work ended without limit, error or missing
  // result, was handed back as done with commits and nothing uncommitted, and no review was asked for.
  predicate Earned(c: Claim, o: Observed) {
    if c.kind == Review then o.pass
    else
      && !c.review && !c.deflake
      && !o.limited && !o.noResult && !o.isError && o.outcome == Done && o.ahead && !o.dirty
  }

  predicate InQueue(claims: Claims, t: Ticket) { t in claims && claims[t].state == Queued }

  predicate Active(claims: Claims, t: Ticket) { t in claims && claims[t].state in {Running, SyncError} }

  // t was queued already, as the same run.
  predicate StillQueued(before: Claims, after: Claims, t: Ticket) {
    && InQueue(before, t) && InQueue(after, t)
    && before[t].kind == after[t].kind && before[t].review == after[t].review && before[t].deflake == after[t].deflake
  }

  lemma ReapOneEarns(cfg: Config, b: Book, t: Ticket, o: Observed)
    requires cfg.Valid() && Active(b.claims, t) && InQueue(ReapOne(cfg, b, t, o).claims, t)
    ensures Earned(ReapOne(cfg, b, t, o).claims[t], o)
  {
    var c := b.claims[t];
    if c.state == Running && o.alive && !c.detached {
      GoesOn(cfg, b, t, o);
    } else if !Over(c, o) {
      WaitsForHost(cfg, b, t, o);
    } else if c.deflake {
      DeflakeEnds(cfg, b, t, o);
    } else if c.kind == Review {
      ReviewEnds(cfg, b, t, o);
    } else {
      RunEnds(cfg, b, t, o);
    }
  }

  // The reap pass: t is queued after it as it was before, or was judged in it and earned it.
  ghost predicate Reaped(b: Book, claims: seq<(Ticket, Reaping)>, b': Book, t: Ticket) {
    InQueue(b'.claims, t) ==>
      StillQueued(b.claims, b'.claims, t)
      || (Active(b.claims, t) && exists o :: (t, Judged(o)) in claims && Earned(b'.claims[t], o))
  }

  lemma ReapEntryEarns(cfg: Config, b: Book, t: Ticket, r: Reaping, u: Ticket)
    requires cfg.Valid()
    ensures var b' := ReapEntry(cfg, b, t, r);
            Reaped(b, [(t, r)], b', u) && (Active(b'.claims, u) ==> Active(b.claims, u))
  {
    var b' := ReapEntry(cfg, b, t, r);
    if r.Judged? {
      ReapsItsOwn(cfg, b, t, r.found);
      if u == t && InQueue(b'.claims, t) && Active(b.claims, t) {
        ReapOneEarns(cfg, b, t, r.found);
        assert (t, Judged(r.found)) in [(t, r)];
      }
    }
  }

  lemma ReapedOn(a: Book, first: (Ticket, Reaping), b: Book, rest: seq<(Ticket, Reaping)>, c: Book, t: Ticket)
    requires Reaped(a, [first], b, t) && Reaped(b, rest, c, t) && (Active(b.claims, t) ==> Active(a.claims, t))
    ensures Reaped(a, [first] + rest, c, t)
  {
    if StillQueued(b.claims, c.claims, t) && !StillQueued(a.claims, b.claims, t) {
      var o :| (t, Judged(o)) in [first] && Earned(b.claims[t], o);
      assert (t, Judged(o)) in [first] + rest && Earned(c.claims[t], o);
    } else if InQueue(c.claims, t) && !StillQueued(b.claims, c.claims, t) {
      var o :| (t, Judged(o)) in rest && Earned(c.claims[t], o);
      assert (t, Judged(o)) in [first] + rest;
    }
  }

  lemma {:induction false} ReapEarns(cfg: Config, b: Book, claims: seq<(Ticket, Reaping)>, t: Ticket)
    requires cfg.Valid()
    ensures Reaped(b, claims, Reap(cfg, b, claims), t)
    decreases |claims|
  {
    if claims != [] {
      var b' := ReapEntry(cfg, b, claims[0].0, claims[0].1);
      ReapEntryEarns(cfg, b, claims[0].0, claims[0].1, t);
      ReapEarns(cfg, b', claims[1..], t);
      assert claims == [claims[0]] + claims[1..];
      ReapedOn(b, claims[0], b', claims[1..], Reap(cfg, b', claims[1..]), t);
    }
  }

  // No other pass puts a claim in the queue.
  ghost predicate NoneQueued(b: Book, b': Book) {
    forall t :: InQueue(b'.claims, t) ==> StillQueued(b.claims, b'.claims, t)
  }

  lemma NoneQueuedOn(a: Book, b: Book, c: Book)
    requires NoneQueued(a, b) && NoneQueued(b, c)
    ensures NoneQueued(a, c)
  {
  }

  lemma ResumeQueuesNone(cfg: Config, b: Book, t: Ticket, c: Claim, fail: Failure, look: Look)
    requires cfg.Valid()
    ensures NoneQueued(b, Resume(cfg, b, t, c, fail, look))
  {
    ResumeGives(cfg, b, t, c, fail, look);
  }

  lemma {:induction false} FailedReviewsQueueNone(cfg: Config, b: Book, looks: seq<(Ticket, Look)>)
    requires cfg.Valid()
    ensures NoneQueued(b, ResumeFailedReviews(cfg, b, looks))
    decreases |looks|
  {
    if looks != [] {
      var (t, look) := looks[0];
      if t in b.claims && !b.claims[t].deflake && b.claims[t].state == ReviewFailed && b.claims[t].session
         && b.claims[t].fixAttempts < FIX_ATTEMPTS && look.worktree {
        var b' := Resume(cfg, b, t, b.claims[t].(kind := Work), ReviewFail, look);
        ResumeQueuesNone(cfg, b, t, b.claims[t].(kind := Work), ReviewFail, look);
        FailedReviewsQueueNone(cfg, b', looks[1..]);
        NoneQueuedOn(b, b', ResumeFailedReviews(cfg, b', looks[1..]));
      } else {
        FailedReviewsQueueNone(cfg, b, looks[1..]);
      }
    }
  }

  lemma HandleLineQueuesNone(cfg: Config, b: Book, l: GateLine, conflictRan: bool)
    requires cfg.Valid()
    ensures NoneQueued(b, HandleLine(cfg, b, l, conflictRan).0)
  {
    LineHandled(cfg, b, l, conflictRan);
  }

  lemma {:induction false} HandleLinesQueueNone(cfg: Config, b: Book, lines: seq<GateLine>, conflictRan: bool)
    requires cfg.Valid()
    ensures NoneQueued(b, HandleLines(cfg, b, lines, conflictRan))
    decreases |lines|
  {
    if lines != [] {
      var (b', ran) := HandleLine(cfg, b, lines[0], conflictRan);
      HandleLineQueuesNone(cfg, b, lines[0], conflictRan);
      HandleLinesQueueNone(cfg, b', lines[1..], ran);
      NoneQueuedOn(b, b', HandleLines(cfg, b', lines[1..], ran));
    }
  }

  lemma RelaunchOneQueuesNone(cfg: Config, b: Book, t: Ticket, look: Look)
    requires cfg.Valid()
    ensures NoneQueued(b, RelaunchOne(cfg, b, t, look))
  {
    if t in b.claims {
      var held := Put(b, t, Hold(b.claims[t], KilledRun));
      RelaunchHeldQueuesNone(cfg, b, t, look);
      RelaunchHeldQueuesNone(cfg, held, t, look);
      NoneQueuedOn(b, held, RelaunchHeld(cfg, held, t, look));
    }
  }

  lemma RelaunchHeldQueuesNone(cfg: Config, b: Book, t: Ticket, look: Look)
    requires cfg.Valid() && t in b.claims
    ensures NoneQueued(b, RelaunchHeld(cfg, b, t, look))
  {
    var c := b.claims[t];
    ResumeQueuesNone(cfg, b, t, c.(kind := Work), if c.failLine.Some? then c.failLine.value else HeldFix, look);
  }

  lemma {:induction false} RelaunchEachQueuesNone(cfg: Config, b: Book, looks: seq<(Ticket, Look)>)
    requires cfg.Valid()
    ensures NoneQueued(b, RelaunchEach(cfg, b, looks))
    decreases |looks|
  {
    if looks != [] {
      var b' := RelaunchOne(cfg, b, looks[0].0, looks[0].1);
      RelaunchOneQueuesNone(cfg, b, looks[0].0, looks[0].1);
      RelaunchEachQueuesNone(cfg, b', looks[1..]);
      NoneQueuedOn(b, b', RelaunchEach(cfg, b', looks[1..]));
    }
  }

  lemma {:induction false} ReleasesQueueNone(b: Book, rs: seq<Release>, now: int)
    ensures NoneQueued(b, ReleaseEach(b, rs, now))
    decreases |rs|
  {
    if rs != [] {
      var b' := ReleaseOne(b, rs[0], now);
      ReleasesQueueNone(b', rs[1..], now);
      NoneQueuedOn(b, b', ReleaseEach(b', rs[1..], now));
    }
  }

  lemma DeflakesQueueNone(cfg: Config, b: Book, reqs: seq<Request>, deferred: set<string>, env: Env)
    requires cfg.Valid()
    ensures NoneQueued(b, DispatchDeflakes(cfg, b, reqs, deferred, env))
  {
    PendingAllMarks(b.claims, reqs, SlugsOf(reqs), deferred);
    var p := PendingAll(b.claims, reqs, SlugsOf(reqs), deferred).claims;
    assert NoneQueued(b, b.(claims := p));
  }

  lemma {:induction false} RemoteQueuesNone(cfg: Config, b: Book, cs: seq<Candidate>, launched: set<Host>, env: Env)
    requires cfg.Valid()
    ensures NoneQueued(b, DispatchRemoteEach(cfg, b, cs, launched, env).book)
    decreases |cs|
  {
    if cs != [] {
      var c := cs[0];
      var h := HostFor(cfg, b, c, env);
      if c.ticket in b.claims || h.None? || h.value in launched || c.groupFull || c.launch.NotPrepared? {
        RemoteQueuesNone(cfg, b, cs[1..], launched, env);
      } else if c.launch.Starts? {
        var b' := LaunchWork(cfg, b, c, h, env);
        RemoteQueuesNone(cfg, b', cs[1..], launched + {h.value}, env);
        NoneQueuedOn(b, b', DispatchRemoteEach(cfg, b', cs[1..], launched + {h.value}, env).book);
      }
    }
  }

  lemma {:induction false} LocalQueuesNone(cfg: Config, b: Book, cs: seq<Candidate>, free: nat, env: Env)
    requires cfg.Valid()
    ensures NoneQueued(b, DispatchLocalEach(cfg, b, cs, free, env).book)
    decreases |cs|
  {
    if cs != [] && free > 0 {
      var c := cs[0];
      if c.ticket in b.claims || c.named || c.groupFull {
        LocalQueuesNone(cfg, b, cs[1..], free, env);
      } else if !c.launch.Raises? {
        var b' := LaunchWork(cfg, b, c, None, env);
        LocalQueuesNone(cfg, b', cs[1..], free - 1, env);
        NoneQueuedOn(b, b', DispatchLocalEach(cfg, b', cs[1..], free - 1, env).book);
      }
    }
  }

  lemma DispatchQueuesNone(cfg: Config, b: Book, i: TickInput)
    requires cfg.Valid()
    ensures NoneQueued(b, Dispatch(cfg, b, i).book)
  {
    RemoteQueuesNone(cfg, b, i.remoteCandidates, {}, i.remoteEnv);
    var r := DispatchRemote(cfg, b, i.remoteCandidates, i.remoteEnv);
    if !r.raised {
      LocalQueuesNone(cfg, r.book, i.candidates, FreeSlots(cfg, r.book, i.env), i.env);
      NoneQueuedOn(b, r.book, Dispatch(cfg, b, i).book);
    }
  }

  lemma AfterReap(cfg: Config, b: Book, i: TickInput)
    requires cfg.Valid()
    ensures NoneQueued(Reap(cfg, b, i.reaped), BeforeDeflakes(cfg, b, i))
  {
    var b1 := Reap(cfg, b, i.reaped);
    var b2 := ResumeFailedReviews(cfg, b1, i.failedReviews);
    var b3 := HandleLines(cfg, b2, i.lines, false);
    var b4 := RelaunchAll(cfg, b3, i.heldStart, i.held);
    FailedReviewsQueueNone(cfg, b1, i.failedReviews);
    HandleLinesQueueNone(cfg, b2, i.lines, false);
    RelaunchEachQueuesNone(cfg, b3, i.held);
    ReleasesQueueNone(b4, i.releases, i.releasedAt);
    NoneQueuedOn(b1, b2, b3);
    NoneQueuedOn(b1, b3, b4);
    NoneQueuedOn(b1, b4, ReleaseEach(b4, i.releases, i.releasedAt));
  }

  lemma TickEarns(cfg: Config, b: Book, i: TickInput, t: Ticket)
    requires cfg.Valid()
    ensures Reaped(b, i.reaped, Tick(cfg, b, i).book, t)
  {
    var early := BeforeDeflakes(cfg, b, i);
    var mid := DispatchDeflakes(cfg, early, i.requests, i.deferred, i.deflakeEnv);
    var last := Tick(cfg, b, i).book;
    AfterReap(cfg, b, i);
    DeflakesQueueNone(cfg, early, i.requests, i.deferred, i.deflakeEnv);
    DispatchQueuesNone(cfg, mid, i);
    ReapEarns(cfg, b, i.reaped, t);
    NoneQueuedOn(Reap(cfg, b, i.reaped), early, mid);
    NoneQueuedOn(Reap(cfg, b, i.reaped), mid, last);
    ReapedThen(b, i.reaped, Reap(cfg, b, i.reaped), last, t);
  }

  lemma ReapedThen(a: Book, claims: seq<(Ticket, Reaping)>, b: Book, c: Book, t: Ticket)
    requires Reaped(a, claims, b, t) && NoneQueued(b, c)
    ensures Reaped(a, claims, c, t)
  {
    if InQueue(c.claims, t) && !StillQueued(a.claims, b.claims, t) {
      assert StillQueued(b.claims, c.claims, t);
      var o :| (t, Judged(o)) in claims && Earned(b.claims[t], o);
      assert Earned(c.claims[t], o);
    }
  }

  // ------------------------------------------------------------------ every run

  // One turn put t in the queue: its run was going, and what the turn found of it earned that.
  ghost predicate QueuedBy(cfg: Config, w: World, w': World, t: Ticket)
    requires cfg.Valid()
  {
    exists i: TickInput, o: Observed ::
      && i.Valid() && w' == Turn(cfg, w, i) && (t, Judged(o)) in i.reaped
      && Active(w.claims, t) && t in w'.claims && Earned(w'.claims[t], o)
  }

  ghost predicate Earns(cfg: Config, w: World, w': World, t: Ticket)
    requires cfg.Valid()
  {
    InQueue(w'.claims, t) ==> StillQueued(w.claims, w'.claims, t) || QueuedBy(cfg, w, w', t)
  }

  lemma TurnEarns(cfg: Config, w: World, w': World, t: Ticket)
    requires cfg.Valid() && Follows(cfg, w, w')
    ensures Earns(cfg, w, w', t)
  {
    var i: TickInput :| i.Valid() && w' == Turn(cfg, w, i);
    var r := Tick(cfg, w.File(), i);
    assert w' == After(w, r);
    if !r.raised {
      TickEarns(cfg, w.File(), i, t);
      assert Reaped(w.File(), i.reaped, r.book, t) && w'.claims == r.book.claims;
      if InQueue(w'.claims, t) && !StillQueued(w.claims, w'.claims, t) {
        var o :| (t, Judged(o)) in i.reaped && Earned(w'.claims[t], o);
      }
    }
  }

  // t has been in the queue, as the same run, from world m on.
  ghost predicate QueuedSince(worlds: seq<World>, m: nat, n: nat, t: Ticket)
    requires m <= n < |worlds|
  {
    forall k :: m <= k <= n ==> StillQueued(worlds[k].claims, worlds[n].claims, t)
  }

  ghost predicate QueuedAt(cfg: Config, worlds: seq<World>, j: nat, t: Ticket)
    requires cfg.Valid() && j + 1 < |worlds|
  {
    QueuedBy(cfg, worlds[j], worlds[j + 1], t)
  }

  ghost predicate EarnsAt(cfg: Config, worlds: seq<World>, j: nat, t: Ticket)
    requires cfg.Valid() && j + 1 < |worlds|
  {
    Earns(cfg, worlds[j], worlds[j + 1], t)
  }

  ghost predicate AllEarn(cfg: Config, worlds: seq<World>, t: Ticket)
    requires cfg.Valid()
  {
    worlds != [] && worlds[0] == EMPTY && forall j :: 0 <= j < |worlds| - 1 ==> EarnsAt(cfg, worlds, j, t)
  }

  lemma StepEarns(cfg: Config, worlds: seq<World>, j: nat, t: Ticket)
    requires cfg.Valid() && IsRun(cfg, worlds) && j + 1 < |worlds|
    ensures EarnsAt(cfg, worlds, j, t)
  {
    TurnAt(cfg, worlds, j);
    TurnEarns(cfg, worlds[j], worlds[j + 1], t);
  }

  lemma RunEarns(cfg: Config, worlds: seq<World>, t: Ticket)
    requires cfg.Valid() && IsRun(cfg, worlds)
    ensures AllEarn(cfg, worlds, t)
  {
    forall j | 0 <= j < |worlds| - 1 ensures EarnsAt(cfg, worlds, j, t) {
      StepEarns(cfg, worlds, j, t);
    }
  }

  lemma QueuedFrom(cfg: Config, worlds: seq<World>, n: nat, t: Ticket) returns (j: nat)
    requires cfg.Valid() && AllEarn(cfg, worlds, t) && n < |worlds| && InQueue(worlds[n].claims, t)
    ensures j < n && QueuedAt(cfg, worlds, j, t) && QueuedSince(worlds, j + 1, n, t)
  {
    assert n > 0;
    j := n - 1;
    assert EarnsAt(cfg, worlds, j, t);
    while !QueuedAt(cfg, worlds, j, t)
      invariant j < n && QueuedSince(worlds, j + 1, n, t)
      invariant QueuedAt(cfg, worlds, j, t) || StillQueued(worlds[j].claims, worlds[j + 1].claims, t)
      decreases j
    {
      QueuedBefore(worlds, j, n, t);
      j := j - 1;
      assert EarnsAt(cfg, worlds, j, t);
    }
  }

  // A branch waits in the merge queue only as it earned to: over every run, ticks that raise included, a
  // queued claim was put there by an earlier turn that judged its run, and has stayed there since. If
  // the claim is of a review, that review passed. If not, its work had ended as done, with commits, nothing
  // uncommitted and no error, and neither its ticket nor a deflake asks for a review.
  lemma QueuedEarned(cfg: Config, worlds: seq<World>, n: nat, t: Ticket) returns (j: nat)
    requires cfg.Valid() && IsRun(cfg, worlds) && n < |worlds| && InQueue(worlds[n].claims, t)
    ensures j < n && QueuedAt(cfg, worlds, j, t) && QueuedSince(worlds, j + 1, n, t)
  {
    RunEarns(cfg, worlds, t);
    j := QueuedFrom(cfg, worlds, n, t);
  }

  lemma QueuedBefore(worlds: seq<World>, j: nat, n: nat, t: Ticket)
    requires j < n < |worlds| && QueuedSince(worlds, j + 1, n, t)
    requires StillQueued(worlds[j].claims, worlds[j + 1].claims, t)
    ensures QueuedSince(worlds, j, n, t)
  {
    assert StillQueued(worlds[j + 1].claims, worlds[n].claims, t);
  }

  // So a ticket that asks for a review, and every deflake, is in the queue only with its review passed.
  lemma ReviewedFirst(cfg: Config, worlds: seq<World>, n: nat, t: Ticket) returns (j: nat, i: TickInput, o: Observed)
    requires cfg.Valid() && IsRun(cfg, worlds) && n < |worlds| && t in worlds[n].claims
    requires worlds[n].claims[t].state == Queued && (worlds[n].claims[t].review || worlds[n].claims[t].deflake)
    ensures j < n && i.Valid() && worlds[j + 1] == Turn(cfg, worlds[j], i) && (t, Judged(o)) in i.reaped && o.pass
    ensures forall k :: j < k <= n ==>
              t in worlds[k].claims && worlds[k].claims[t].state == Queued && worlds[k].claims[t].kind == Review
  {
    j := QueuedEarned(cfg, worlds, n, t);
    i, o :| i.Valid() && worlds[j + 1] == Turn(cfg, worlds[j], i) && (t, Judged(o)) in i.reaped
            && Earned(worlds[j + 1].claims[t], o);
    assert StillQueued(worlds[j + 1].claims, worlds[n].claims, t);
    forall k | j < k <= n
      ensures t in worlds[k].claims && worlds[k].claims[t].state == Queued && worlds[k].claims[t].kind == Review
    {
      assert StillQueued(worlds[k].claims, worlds[n].claims, t);
    }
  }
}
