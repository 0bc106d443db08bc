/** What the passes of a tick leave alone (ops/work-runner.py).

Between one deflake pass and the next a tick reaps, resumes, relaunches, releases and dispatches. None
of that takes anything from the log, starts a deflake run or moves the mark up to which a test's deflake
requests are consumed, and a test's claim is never freed. So what becomes of a request is decided in the
deflake pass alone. The passes before it may change the state of a test's claim; those after it leave a
test's claim exactly as it is. */
module WorkPasses {
  import opened Wrappers
  import opened WorkClaims
  import opened WorkRunner
  import opened WorkDeflakes

  // ------------------------------------------------------------------ the other passes

  predicate StartsDeflake(e: Event) { e.Launched? && e.cause == Deflaking }

  predicate StartsWork(e: Event) { e.Launched? && e.cause == NewWork }

  // Nothing is taken from the log, and nothing that makes a claim is added.
  ghost predicate Resumes(log: seq<Event>, after: seq<Event>) {
    log <= after && forall i :: |log| <= i < |after| ==> !StartsDeflake(after[i]) && !StartsWork(after[i])
  }

  // Every deflake claim keeps its request mark.
  ghost predicate Passes(b: Book, b': Book) {
    && Resumes(b.log, b'.log)
    && forall k {:trigger k in b'.claims} {:trigger k in b.claims} :: IsKey(k) ==>
         (k in b.claims <==> k in b'.claims)
         && (k in b.claims ==> b'.claims[k].requestTs == b.claims[k].requestTs)
  }

  lemma PassesOn(a: Book, b: Book, c: Book)
    requires Passes(a, b) && Passes(b, c)
    ensures Passes(a, c)
  {
  }

  // What launch_fix returns: the claim held for `fail`, or running with the cause's counter raised.
  lemma LaunchFixResult(cfg: Config, claims: Claims, t: Ticket, c: Claim, fail: Failure, look: Look)
    requires cfg.Valid()
    ensures var r := LaunchFix(cfg, claims, t, c, fail, look);
            || r == Hold(c, fail)
            || (&& HasRoom(cfg, claims, c.host, t, look.env) && !look.env.usageLimited && !look.env.paused
                && !look.env.gateHolds
                && r.state == Running && r.kind == Fix && r.deflake == c.deflake && r.host == c.host
                && r.requestTs == c.requestTs
                && r.fixAttempts == c.fixAttempts + (if fail.SpendsAttempt() then 1 else 0)
                && r.killResumes == c.killResumes + (if fail.KilledRun? then 1 else 0)
                && r.timeoutResumes == c.timeoutResumes + (if fail.TimedOutRun? then 1 else 0))
  {
  }

  lemma PutPasses(b: Book, t: Ticket, c: Claim)
    requires t in b.claims && c.requestTs == b.claims[t].requestTs
    ensures Passes(b, Put(b, t, c))
  {
  }

  lemma ResumePasses(cfg: Config, b: Book, t: Ticket, c: Claim, fail: Failure, look: Look)
    requires cfg.Valid() && t in b.claims && c.requestTs == b.claims[t].requestTs
    ensures Passes(b, Resume(cfg, b, t, c, fail, look))
  {
    LaunchFixResult(cfg, b.claims, t, c, fail, look);
  }

  lemma ReapWorkPasses(cfg: Config, b: Book, t: Ticket, c: Claim, o: Observed)
    requires cfg.Valid() && t in b.claims && c.requestTs == b.claims[t].requestTs
    ensures Passes(b, ReapWork(cfg, b, t, c, o))
  {
    var s := c.(session := c.session || o.sessionKnown);
    if o.limited {
      LimitPasses(b, t, s.(state := Limited));
    } else if o.noResult {
      if s.session && s.killResumes < KILL_RESUMES && o.look.worktree {
        ResumePasses(cfg, b, t, s.(kind := Work), KilledRun, o.look);
      } else {
        PutPasses(b, t, s.(state := Killed));
      }
    } else if !o.isError && o.outcome == Done && o.dirty && s.session && s.fixAttempts < FIX_ATTEMPTS {
      ResumePasses(cfg, b, t, s.(kind := Work), UncommittedWork, o.look);
    } else {
      WorkEndMark(s, o);
      PutPasses(b, t, WorkEnd(s, o));
    }
  }

  lemma LimitPasses(b: Book, t: Ticket, c: Claim)
    requires t in b.claims && c.requestTs == b.claims[t].requestTs
    ensures Passes(b, Book(b.claims[t := c], b.log + [HitLimit(t)]))
  {
  }

  lemma WorkEndMark(c: Claim, o: Observed)
    ensures WorkEnd(c, o).requestTs == c.requestTs
  {
  }

  lemma JudgePasses(cfg: Config, b: Book, t: Ticket, c: Claim, o: Observed)
    requires cfg.Valid() && t in b.claims && c.requestTs == b.claims[t].requestTs
    ensures Passes(b, Judge(cfg, b, t, c, o))
  {
    var b' := Put(b, t, c);
    PutPasses(b, t, c);
    if !c.deflake && c.kind == Review {
      ResumePasses(cfg, b', t, c.(kind := Work), ReviewFail, o.look);
    } else if !c.deflake {
      ReapWorkPasses(cfg, b', t, c, o);
    }
    PassesOn(b, b', Judge(cfg, b, t, c, o));
  }

  lemma ReapAlivePasses(cfg: Config, b: Book, t: Ticket, o: Observed)
    requires cfg.Valid() && t in b.claims
    ensures Passes(b, ReapAlive(cfg, b, t, o))
  {
    var s := b.claims[t].(state := TimedOut, ended := Some(o.look.env.now));
    PutPasses(b, t, s);
    ResumePasses(cfg, Put(b, t, s), t, s, TimedOutRun, o.look);
    PassesOn(b, Put(b, t, s), Resume(cfg, Put(b, t, s), t, s, TimedOutRun, o.look));
  }

  lemma ReapOnePasses(cfg: Config, b: Book, t: Ticket, o: Observed)
    requires cfg.Valid()
    ensures Passes(b, ReapOne(cfg, b, t, o))
  {
    if t in b.claims && (b.claims[t].state == Running || b.claims[t].state == SyncError) {
      var c := b.claims[t];
      if c.state != SyncError && o.alive && !c.detached {
        ReapAlivePasses(cfg, b, t, o);
      } else if StillAway(c, o) {
        PutPasses(b, t, Waiting(c, o));
      } else {
        JudgePasses(cfg, b, t, Arrived(c), o);
      }
    }
  }

  lemma {:induction false} ReapPasses(cfg: Config, b: Book, claims: seq<(Ticket, Reaping)>)
    requires cfg.Valid()
    ensures Passes(b, Reap(cfg, b, claims))
    decreases |claims|
  {
    if claims != [] {
      var (t, r) := claims[0];
      var b' := ReapEntry(cfg, b, t, r);
      if r.Judged? {
        ReapOnePasses(cfg, b, t, r.found);
      }
      ReapPasses(cfg, b', claims[1..]);
      PassesOn(b, b', Reap(cfg, b', claims[1..]));
    }
  }

  lemma {:induction false} FailedReviewsPass(cfg: Config, b: Book, looks: seq<(Ticket, Look)>)
    requires cfg.Valid()
    ensures Passes(b, ResumeFailedReviews(cfg, b, looks))
    decreases |looks|
  {
    if looks != [] {
      var (t, look) := looks[0];
      if t in b.claims && !b.claims[t].deflake && b.claims[t].state == ReviewFailed && b.claims[t].session
         && b.claims[t].fixAttempts < FIX_ATTEMPTS && look.worktree {
        var b' := Resume(cfg, b, t, b.claims[t].(kind := Work), ReviewFail, look);
        ResumePasses(cfg, b, t, b.claims[t].(kind := Work), ReviewFail, look);
        FailedReviewsPass(cfg, b', looks[1..]);
        PassesOn(b, b', ResumeFailedReviews(cfg, b', looks[1..]));
      } else {
        FailedReviewsPass(cfg, b, looks[1..]);
      }
    }
  }

  lemma HandleLinePasses(cfg: Config, b: Book, l: GateLine, conflictRan: bool)
    requires cfg.Valid()
    ensures Passes(b, HandleLine(cfg, b, l, conflictRan).0)
  {
    var t := l.ticket;
    if t in b.claims && l.text !in b.claims[t].seen && b.claims[t].state == Queued {
      var saw := b.claims[t].(seen := b.claims[t].seen + {l.text});
      var fail := if l.conflict then MergeConflict(l.text) else GateFail(l.text);
      PutPasses(b, t, saw);
      ResumePasses(cfg, Put(b, t, saw), t, saw, fail, l.look);
      PassesOn(b, Put(b, t, saw), Resume(cfg, Put(b, t, saw), t, saw, fail, l.look));
    }
  }

  lemma {:induction false} HandleLinesPass(cfg: Config, b: Book, lines: seq<GateLine>, conflictRan: bool)
    requires cfg.Valid()
    ensures Passes(b, HandleLines(cfg, b, lines, conflictRan))
    decreases |lines|
  {
    if lines != [] {
      var (b', ran) := HandleLine(cfg, b, lines[0], conflictRan);
      HandleLinePasses(cfg, b, lines[0], conflictRan);
      HandleLinesPass(cfg, b', lines[1..], ran);
      PassesOn(b, b', HandleLines(cfg, b', lines[1..], ran));
    }
  }

  lemma RelaunchHeldPasses(cfg: Config, b: Book, t: Ticket, look: Look)
    requires cfg.Valid() && t in b.claims
    ensures Passes(b, RelaunchHeld(cfg, b, t, look))
  {
    var c := b.claims[t];
    ResumePasses(cfg, b, t, c.(kind := Work), if c.failLine.Some? then c.failLine.value else HeldFix, look);
  }

  lemma RelaunchOnePasses(cfg: Config, b: Book, t: Ticket, look: Look)
    requires cfg.Valid()
    ensures Passes(b, RelaunchOne(cfg, b, t, look))
  {
    if t in b.claims {
      var held := Put(b, t, Hold(b.claims[t], KilledRun));
      RelaunchHeldPasses(cfg, b, t, look);
      RelaunchHeldPasses(cfg, held, t, look);
      PutPasses(b, t, Hold(b.claims[t], KilledRun));
      PassesOn(b, held, RelaunchHeld(cfg, held, t, look));
    }
  }

  lemma {:induction false} RelaunchEachPasses(cfg: Config, b: Book, looks: seq<(Ticket, Look)>)
    requires cfg.Valid()
    ensures Passes(b, RelaunchEach(cfg, b, looks))
    decreases |looks|
  {
    if looks != [] {
      var b' := RelaunchOne(cfg, b, looks[0].0, looks[0].1);
      RelaunchOnePasses(cfg, b, looks[0].0, looks[0].1);
      RelaunchEachPasses(cfg, b', looks[1..]);
      PassesOn(b, b', RelaunchEach(cfg, b', looks[1..]));
    }
  }

  // Every claim under a deflake key is a deflake claim, so it is not freed.
  predicate KeysAreDeflakes(b: Book) {
    forall k :: k in b.claims && IsKey(k) ==> b.claims[k].deflake
  }

  lemma ReleaseOnePasses(b: Book, r: Release, now: int)
    requires KeysAreDeflakes(b)
    ensures Passes(b, ReleaseOne(b, r, now)) && KeysAreDeflakes(ReleaseOne(b, r, now))
  {
  }

  lemma {:induction false} ReleasesPass(b: Book, rs: seq<Release>, now: int)
    requires KeysAreDeflakes(b)
    ensures Passes(b, ReleaseEach(b, rs, now))
    decreases |rs|
  {
    if rs != [] {
      var b' := ReleaseOne(b, rs[0], now);
      ReleaseOnePasses(b, rs[0], now);
      ReleasesPass(b', rs[1..], now);
      PassesOn(b, b', ReleaseEach(b', rs[1..], now));
    }
  }

  // ------------------------------------------------------------------ dispatch

  ghost predicate NewRuns(log: seq<Event>, after: seq<Event>) {
    log <= after && forall i :: |log| <= i < |after| ==> StartsWork(after[i])
  }

  // Dispatch adds claims of other tickets: deflake claims stay as they are.
  ghost predicate Leaves(b: Book, b': Book) {
    && NewRuns(b.log, b'.log)
    && forall k {:trigger k in b'.claims} {:trigger k in b.claims} :: IsKey(k) ==>
         (k in b.claims <==> k in b'.claims) && (k in b.claims ==> b'.claims[k] == b.claims[k])
  }

  lemma LeavesOn(a: Book, b: Book, c: Book)
    requires Leaves(a, b) && Leaves(b, c)
    ensures Leaves(a, c)
  {
  }

  lemma {:induction false} RemoteLeaves(cfg: Config, b: Book, cs: seq<Candidate>, launched: set<Host>, env: Env)
    requires cfg.Valid() && forall i :: 0 <= i < |cs| ==> !IsKey(cs[i].ticket)
    ensures Leaves(b, DispatchRemoteEach(cfg, b, cs, launched, env).book)
    decreases |cs|
  {
    if cs != [] {
      var c := cs[0];
      var h := HostFor(cfg, b, c, env);
      if c.ticket in b.claims || h.None? || h.value in launched || c.groupFull || c.launch.NotPrepared? {
        RemoteLeaves(cfg, b, cs[1..], launched, env);
      } else if c.launch.Starts? {
        var b' := LaunchWork(cfg, b, c, h, env);
        RemoteLeaves(cfg, b', cs[1..], launched + {h.value}, env);
        LeavesOn(b, b', DispatchRemoteEach(cfg, b', cs[1..], launched + {h.value}, env).book);
      }
    }
  }

  // A candidate dispatch may start on this Mac.
  predicate Startable(claims: Claims, c: Candidate) { c.ticket !in claims && !c.named && !c.groupFull }

  // The first candidate is passed over, or takes a slot.
  predicate Moves(cfg: Config, b: Book, cs: seq<Candidate>, free: nat, env: Env, b': Book, free': nat)
    requires cfg.Valid()
  {
    && cs != [] && free > 0
    && if Startable(b.claims, cs[0]) then
         cs[0].launch != Raises && b' == LaunchWork(cfg, b, cs[0], None, env) && free' == free - 1
       else b' == b && free' == free
  }

  lemma LocalMoves(cfg: Config, b: Book, cs: seq<Candidate>, free: nat, env: Env) returns (b': Book, free': nat)
    requires cfg.Valid() && cs != [] && free > 0 && !(Startable(b.claims, cs[0]) && cs[0].launch == Raises)
    ensures Moves(cfg, b, cs, free, env, b', free')
    ensures DispatchLocalEach(cfg, b, cs, free, env) == DispatchLocalEach(cfg, b', cs[1..], free', env)
  {
    b', free' := b, free;
    if Startable(b.claims, cs[0]) {
      b', free' := LaunchWork(cfg, b, cs[0], None, env), free - 1;
    }
  }

  lemma {:induction false} LocalLeaves(cfg: Config, b: Book, cs: seq<Candidate>, free: nat, env: Env)
    requires cfg.Valid() && forall i :: 0 <= i < |cs| ==> !IsKey(cs[i].ticket)
    ensures Leaves(b, DispatchLocalEach(cfg, b, cs, free, env).book)
    decreases |cs|
  {
    if cs != [] && free > 0 {
      var c := cs[0];
      if c.ticket in b.claims || c.named || c.groupFull {
        LocalLeaves(cfg, b, cs[1..], free, env);
      } else if !c.launch.Raises? {
        var b' := LaunchWork(cfg, b, c, None, env);
        LocalLeaves(cfg, b', cs[1..], free - 1, env);
        LeavesOn(b, b', DispatchLocalEach(cfg, b', cs[1..], free - 1, env).book);
      }
    }
  }

  lemma DispatchLeaves(cfg: Config, b: Book, i: TickInput)
    requires cfg.Valid() && i.Valid()
    ensures Leaves(b, Dispatch(cfg, b, i).book)
  {
    RemoteLeaves(cfg, b, i.remoteCandidates, {}, i.remoteEnv);
    var r := DispatchRemote(cfg, b, i.remoteCandidates, i.remoteEnv);
    if !r.raised {
      LocalLeaves(cfg, r.book, i.candidates, FreeSlots(cfg, r.book, i.env), i.env);
      LeavesOn(b, r.book, Dispatch(cfg, b, i).book);
    }
  }

  // ------------------------------------------------------------------ up to the deflake pass

  lemma EarlyPasses(cfg: Config, b: Book, i: TickInput)
    requires cfg.Valid()
    ensures var b1 := ResumeFailedReviews(cfg, Reap(cfg, b, i.reaped), i.failedReviews);
            var b2 := HandleLines(cfg, b1, i.lines, false);
            Passes(b, RelaunchAll(cfg, b2, i.heldStart, i.held))
  {
    var b1 := Reap(cfg, b, i.reaped);
    var b2 := ResumeFailedReviews(cfg, b1, i.failedReviews);
    var b3 := HandleLines(cfg, b2, i.lines, false);
    var b4 := RelaunchAll(cfg, b3, i.heldStart, i.held);
    ReapPasses(cfg, b, i.reaped);
    FailedReviewsPass(cfg, b1, i.failedReviews);
    HandleLinesPass(cfg, b2, i.lines, false);
    RelaunchEachPasses(cfg, b3, i.held);
    PassesOn(b, b1, b2);
    PassesOn(b, b2, b3);
    PassesOn(b, b3, b4);
  }

  // ------------------------------------------------------------------ the whole tick

  lemma {:induction false} ReleaseLogs(b: Book, rs: seq<Release>, now: int)
    ensures ReleaseEach(b, rs, now).log == b.log
    decreases |rs|
  {
    if rs != [] {
      ReleaseLogs(ReleaseOne(b, rs[0], now), rs[1..], now);
    }
  }

  ghost predicate OneDeflake(log: seq<Event>, after: seq<Event>) {
    log <= after && |after| <= |log| + 1 && forall i :: |log| <= i < |after| ==> StartsDeflake(after[i])
  }

  // A tick takes nothing from the log: it adds resumes, then at most one deflake run, then new work.
  lemma TickLogs(cfg: Config, b: Book, i: TickInput)
    requires cfg.Valid() && i.Valid()
    ensures var early := BeforeDeflakes(cfg, b, i);
            var mid := DispatchDeflakes(cfg, early, i.requests, i.deferred, i.deflakeEnv);
            && Resumes(b.log, early.log)
            && OneDeflake(early.log, mid.log)
            && NewRuns(mid.log, Tick(cfg, b, i).book.log)
  {
    var early := BeforeDeflakes(cfg, b, i);
    var mid := DispatchDeflakes(cfg, early, i.requests, i.deferred, i.deflakeEnv);
    assert Resumes(b.log, early.log) by {
      EarlyPasses(cfg, b, i);
      var b1 := HandleLines(cfg, ResumeFailedReviews(cfg, Reap(cfg, b, i.reaped), i.failedReviews), i.lines, false);
      ReleaseLogs(RelaunchAll(cfg, b1, i.heldStart, i.held), i.releases, i.releasedAt);
    }
    assert OneDeflake(early.log, mid.log) by { DeflakeLogs(cfg, early, i.requests, i.deferred, i.deflakeEnv); }
    assert NewRuns(mid.log, Tick(cfg, b, i).book.log) by { DispatchLeaves(cfg, mid, i); }
  }

  lemma DeflakeLogs(cfg: Config, b: Book, reqs: seq<Request>, deferred: set<string>, env: Env)
    requires cfg.Valid()
    ensures OneDeflake(b.log, DispatchDeflakes(cfg, b, reqs, deferred, env).log)
  {
  }

  // Which part of a tick wrote line m, by what it says.
  lemma Segments(before: seq<Event>, early: seq<Event>, mid: seq<Event>, log: seq<Event>, m: nat)
    requires Resumes(before, early) && OneDeflake(early, mid) && NewRuns(mid, log) && |before| <= m < |log|
    ensures m < |early| <==> !StartsDeflake(log[m]) && !StartsWork(log[m])
    ensures |early| <= m < |mid| <==> StartsDeflake(log[m])
    ensures m < |mid| ==> log[m] == mid[m]
    ensures StartsDeflake(log[m]) ==> m == |early|
  {
    if m < |early| {
      assert log[m] == early[m];
    } else if m < |mid| {
      assert log[m] == mid[m];
    }
  }
}
