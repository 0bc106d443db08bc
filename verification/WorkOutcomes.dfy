/** Where a run goes when it ends (ops/work-runner.py). */
module WorkOutcomes {
  import opened Wrappers
  import opened WorkClaims

  // `_reap_one` read as decision tables over what it observes: which run is queued for the merge gate, which
  // is reviewed, resumed, parked or stopped, and what that costs its claim.

  // ------------------------------------------------------------------ one claim

  // The claim's run is over and its results are here: a remote run's were synced, and of one held for a
  // sync error only the sync is asked for.
  predicate Over(c: Claim, o: Observed) {
    && (c.state == Running || c.state == SyncError)
    && (c.state == Running ==> !o.alive || c.detached)
    && (c.host.Some? && c.kind != Review ==> o.remote.Synced? || (c.state == SyncError && !o.remote.SyncFailed?))
  }

  // What no run's end changes.
  predicate SameRequest(c: Claim, r: Claim) {
    r.host == c.host && r.review == c.review && r.deflake == c.deflake && r.seen == c.seen && r.requestTs == c.requestTs
  }

  predicate SameCounters(c: Claim, r: Claim) {
    r.fixAttempts == c.fixAttempts && r.killResumes == c.killResumes && r.timeoutResumes == c.timeoutResumes
  }

  // The run is resumed: held, or started again.
  predicate Resuming(state: State, kind: Kind) { state == FixHeld || (state == Running && kind == Fix) }

  // What resuming for `fail` costs: nothing while it is held, else one of the claim's counters.
  predicate ResumedFor(c: Claim, r: Claim, fail: Failure) {
    if r.state == FixHeld then r.failLine == Some(fail) && SameCounters(c, r)
    else
      && r.killResumes == c.killResumes + (if fail == KilledRun then 1 else 0)
      && r.timeoutResumes == c.timeoutResumes + (if fail == TimedOutRun then 1 else 0)
      && r.fixAttempts == c.fixAttempts + (if fail == KilledRun || fail == TimedOutRun then 0 else 1)
  }

  // The rest of a claim after its run's end: only a resume costs anything.
  predicate Costs(c: Claim, r: Claim, fail: Failure) {
    SameRequest(c, r) && if Resuming(r.state, r.kind) then ResumedFor(c, r, fail) else SameCounters(c, r)
  }

  // Where a ticket's work or fix run goes: decided, in this order, by the account limit, a missing result, an
  // error, the outcome handed back, files left uncommitted, missing commits and whether the ticket asks for a
  // review.
  predicate RunTable(c: Claim, o: Observed, state: State, kind: Kind) {
    var session := c.session || o.sessionKnown;
    var reported := !o.limited && !o.noResult && !o.isError;
    var wakes := session && c.killResumes < 2 && o.look.worktree;
    var fixes := session && c.fixAttempts < 2;
    && (state == Limited <==> o.limited)
    && (state == Killed <==> !o.limited && o.noResult && !wakes)
    && (state == Error <==> !o.limited && !o.noResult && o.isError)
    && (state == Blocked <==> reported && o.outcome == BlockedOut)
    && (state == CancelProposed <==> reported && o.outcome == Cancel && (o.dirty || !o.ahead))
    && (state == Uncommitted <==> reported && o.outcome == Done && o.dirty && !fixes)
    && (state == NoWork <==> reported && o.outcome == Done && !o.dirty && !o.ahead)
    && (state == Queued <==> reported && o.outcome == Done && !o.dirty && o.ahead && !c.review)
    && (state == Running && kind == Review <==>
          reported && !o.dirty && o.ahead && (o.outcome == Cancel || (o.outcome == Done && c.review)))
    && (Resuming(state, kind) <==>
          (!o.limited && o.noResult && wakes) || (reported && o.outcome == Done && o.dirty && fixes))
    && (state == Queued ==> kind == c.kind)
  }

  // Where a ticket's review goes: a pass queues the branch, and a failed one is fixed while the worker can be
  // resumed.
  predicate ReviewTable(c: Claim, o: Observed, state: State, kind: Kind) {
    var fixes := c.session && c.fixAttempts < 2 && o.look.worktree;
    && (state == Queued <==> o.pass)
    && (state == ReviewFailed <==> !o.pass && !fixes)
    && (Resuming(state, kind) <==> !o.pass && fixes)
    && (o.pass ==> kind == Review)
  }

  // Where a deflaker goes: it is never resumed, and always reviewed before it is queued.
  predicate DeflakeTable(c: Claim, o: Observed, state: State, kind: Kind) {
    var reported := c.kind != Review && !o.isError;
    && (state == Queued <==> c.kind == Review && o.pass)
    && (state == ReviewFailed <==> c.kind == Review && !o.pass)
    && (state == Error <==> c.kind != Review && o.isError)
    && (state == Blocked <==> reported && o.outcome != Done)
    && (state == Uncommitted <==> reported && o.outcome == Done && o.dirty)
    && (state == NoWork <==> reported && o.outcome == Done && !o.dirty && !o.ahead)
    && (state == Running && kind == Review <==> reported && o.outcome == Done && !o.dirty && o.ahead)
    && (c.kind == Review ==> kind == Review)
  }

  // A run that goes on is left alone until its time limit. Then it is stopped, and a work run with a session
  // and a worktree whose processes are all gone is resumed once, to wrap up.
  predicate AliveTable(c: Claim, o: Observed, r: Claim) {
    var wraps := c.kind == Work && c.session && c.timeoutResumes < 1 && o.look.worktree && o.gone;
    && (!o.overLimit ==> r == c)
    && (r.state == TimedOut <==> o.overLimit && !wraps)
    && (o.overLimit ==> (Resuming(r.state, r.kind) <==> wraps) && r.ended == Some(o.look.env.now))
    && (o.overLimit ==> Costs(c, r, TimedOutRun) && r.session == c.session)
  }

  // A remote run whose results are not here: it is detached exactly while its host does not answer, and held
  // for the sync exactly when the copies have diverged.
  predicate WaitTable(c: Claim, o: Observed, r: Claim) {
    && r == c.(state := r.state, detached := r.detached)
    && (r.state == SyncError <==> c.state == SyncError || o.remote == SyncFailed(true))
    && (r.state == Running || r.state == SyncError)
    && (r.detached <==> o.remote.Unreachable? || (o.remote.SyncFailed? && c.detached))
  }

  lemma FixGives(cfg: Config, claims: Claims, t: Ticket, c: Claim, fail: Failure, look: Look)
    requires cfg.Valid()
    ensures var r := LaunchFix(cfg, claims, t, c, fail, look);
            Resuming(r.state, r.kind) && ResumedFor(c, r, fail) && Stays(c, r)
            && (r.state == Running ==> r.started == look.env.now)
  {
    if LaunchFix(cfg, claims, t, c, fail, look) != Hold(c, fail) {
      RunFixGives(c, if fail.SpendsAttempt() then c.fixAttempts + 1 else c.fixAttempts, fail, look);
    }
  }

  // What no resume changes either.
  predicate Stays(c: Claim, r: Claim) { SameRequest(c, r) && r.session == c.session && r.ended == c.ended }

  lemma RunFixGives(c: Claim, attempts: nat, fail: Failure, look: Look)
    ensures var r := RunFix(c, attempts, fail, look);
            || r == Hold(c, fail)
            || (&& r.state == Running && r.kind == Fix && r.started == look.env.now && Stays(c, r)
                && r.fixAttempts == attempts && r.killResumes == c.killResumes && r.timeoutResumes == c.timeoutResumes)
  {
  }

  lemma ResumeGives(cfg: Config, b: Book, t: Ticket, c: Claim, fail: Failure, look: Look)
    requires cfg.Valid()
    ensures var r := Resume(cfg, b, t, c, fail, look).claims[t];
            Resuming(r.state, r.kind) && ResumedFor(c, r, fail) && Stays(c, r)
  {
    FixGives(cfg, b.claims, t, c, fail, look);
  }

  // A claim whose results have come is judged.
  lemma OverIsJudged(cfg: Config, b: Book, t: Ticket, o: Observed)
    requires cfg.Valid() && t in b.claims && Over(b.claims[t], o)
    ensures ReapOne(cfg, b, t, o) == Judge(cfg, b, t, Arrived(b.claims[t]), o)
  {
  }

  lemma WorkEndTable(c: Claim, o: Observed)
    requires c.kind != Review && !o.limited && !o.noResult
    requires !(!o.isError && o.outcome == Done && o.dirty && (c.session || o.sessionKnown) && c.fixAttempts < 2)
    ensures var r := WorkEnd(c, o); RunTable(c, o, r.state, r.kind)
  {
    var r := WorkEnd(c, o);
    if o.isError {
      assert r.state == Error;
    } else if o.outcome == BlockedOut {
      assert r.state == Blocked;
    } else if o.ahead && !o.dirty && (o.outcome == Cancel || c.review) {
      assert r.state == Running && r.kind == Review;
    } else if o.outcome == Cancel {
      assert r.state == CancelProposed;
    } else if o.dirty {
      assert r.state == Uncommitted;
    } else if !o.ahead {
      assert r.state == NoWork;
    } else {
      assert r.state == Queued && r.kind == c.kind;
    }
  }

  // What a run's end changes: the state, and when and with which session it ended.
  lemma StateStays(c: Claim, ended: Option<int>, session: bool, state: State)
    ensures var r := c.(ended := ended, session := session, state := state); SameRequest(c, r) && SameCounters(c, r)
    ensures forall now ::
              var r := StartReview(c.(ended := ended, session := session), now); SameRequest(c, r) && SameCounters(c, r)
  {
  }

  lemma WorkEndStays(c: Claim, o: Observed)
    ensures var r := WorkEnd(c, o); SameRequest(c, r) && SameCounters(c, r) && r.session == c.session
  {
    if o.isError {
      StateStays(c, c.ended, c.session, Error);
    } else if o.outcome == BlockedOut {
      StateStays(c, c.ended, c.session, Blocked);
    } else if o.outcome == Cancel {
      StateStays(c, c.ended, c.session, CancelProposed);
    } else if o.dirty {
      StateStays(c, c.ended, c.session, Uncommitted);
    } else if !o.ahead {
      StateStays(c, c.ended, c.session, NoWork);
    } else {
      StateStays(c, c.ended, c.session, Queued);
    }
  }

  lemma DeflakeEndStays(c: Claim, o: Observed)
    ensures var r := DeflakeEnd(c, o); SameRequest(c, r) && SameCounters(c, r) && r.ended == Some(o.look.env.now)
  {
    var ended, session := Some(o.look.env.now), c.session || o.sessionKnown;
    if c.kind == Review {
      StateStays(c, ended, c.session, if o.pass then Queued else ReviewFailed);
    } else if o.isError {
      StateStays(c, ended, session, Error);
    } else if o.outcome != Done {
      StateStays(c, ended, session, Blocked);
    } else if o.dirty {
      StateStays(c, ended, session, Uncommitted);
    } else {
      StateStays(c, ended, session, NoWork);
    }
  }

  lemma DeflakeEndTable(c: Claim, o: Observed)
    ensures var r := DeflakeEnd(c, o); DeflakeTable(c, o, r.state, r.kind)
  {
    var r := DeflakeEnd(c, o);
    if c.kind == Review {
      assert r.state == if o.pass then Queued else ReviewFailed;
    } else if o.isError {
      assert r.state == Error;
    } else if o.outcome != Done {
      assert r.state == Blocked;
    } else if o.dirty {
      assert r.state == Uncommitted;
    } else if !o.ahead {
      assert r.state == NoWork;
    } else {
      assert r.state == Running && r.kind == Review;
    }
  }

  // Which resume a ticket's run ends in, if any.
  function RunFailure(o: Observed): Failure { if o.noResult then KilledRun else UncommittedWork }

  // The rows decided before the run's outcome is read, and the one that resumes it.
  lemma EarlyRows(c: Claim, o: Observed, state: State, kind: Kind)
    requires var wakes := (c.session || o.sessionKnown) && c.killResumes < 2 && o.look.worktree;
             || (o.limited && state == Limited)
             || (!o.limited && o.noResult && if wakes then Resuming(state, kind) else state == Killed)
             || (&& !o.limited && !o.noResult && !o.isError && o.outcome == Done && o.dirty
                 && (c.session || o.sessionKnown) && c.fixAttempts < 2 && Resuming(state, kind))
    ensures RunTable(c, o, state, kind)
  {
  }

  lemma ReapWorkTable(cfg: Config, b: Book, t: Ticket, c: Claim, o: Observed)
    requires cfg.Valid() && c.kind != Review
    ensures var r := ReapWork(cfg, b, t, c, o).claims[t]; RunTable(c, o, r.state, r.kind)
  {
    var s := c.(session := c.session || o.sessionKnown);
    var r := ReapWork(cfg, b, t, c, o).claims[t];
    if !o.limited && o.noResult {
      ResumeGives(cfg, b, t, s.(kind := Work), KilledRun, o.look);
      EarlyRows(c, o, r.state, r.kind);
    } else if o.limited || (!o.isError && o.outcome == Done && o.dirty && s.session && s.fixAttempts < FIX_ATTEMPTS) {
      ResumeGives(cfg, b, t, s.(kind := Work), UncommittedWork, o.look);
      EarlyRows(c, o, r.state, r.kind);
    } else {
      WorkEndTable(s, o);
      assert r == WorkEnd(s, o);
    }
  }

  lemma ReapWorkCosts(cfg: Config, b: Book, t: Ticket, c: Claim, o: Observed)
    requires cfg.Valid() && c.kind != Review
    ensures var r := ReapWork(cfg, b, t, c, o).claims[t];
            Costs(c, r, RunFailure(o)) && r.session == (c.session || o.sessionKnown)
  {
    var s := c.(session := c.session || o.sessionKnown);
    if o.limited {
      StateStays(c, c.ended, s.session, Limited);
    } else if o.noResult {
      ResumeGives(cfg, b, t, s.(kind := Work), KilledRun, o.look);
      StateStays(c, c.ended, s.session, Killed);
    } else if !o.isError && o.outcome == Done && o.dirty && s.session && s.fixAttempts < FIX_ATTEMPTS {
      ResumeGives(cfg, b, t, s.(kind := Work), UncommittedWork, o.look);
    } else {
      WorkEndTable(s, o);
      WorkEndStays(s, o);
    }
  }

  // A ticket's work or fix run has ended.
  lemma RunEnds(cfg: Config, b: Book, t: Ticket, o: Observed)
    requires cfg.Valid() && t in b.claims
    requires var c := b.claims[t]; !c.deflake && c.kind != Review && Over(c, o)
    ensures var (c, r) := (b.claims[t], ReapOne(cfg, b, t, o).claims[t]);
            RunTable(c, o, r.state, r.kind) && Costs(c, r, RunFailure(o)) && r.session == (c.session || o.sessionKnown)
    ensures o.limited ==> ReapOne(cfg, b, t, o).log == b.log + [HitLimit(t)]
  {
    var c := b.claims[t];
    var a := Arrived(c);
    OverIsJudged(cfg, b, t, o);
    ReapWorkTable(cfg, Put(b, t, a), t, a, o);
    ReapWorkCosts(cfg, Put(b, t, a), t, a, o);
    Elsewhere(c, a, o, ReapOne(cfg, b, t, o).claims[t]);
  }

  // What is said of a claim as it arrives holds of it as it was.
  lemma Elsewhere(c: Claim, a: Claim, o: Observed, r: Claim)
    requires a == Arrived(c) && RunTable(a, o, r.state, r.kind) && Costs(a, r, RunFailure(o))
    ensures RunTable(c, o, r.state, r.kind) && Costs(c, r, RunFailure(o))
  {
  }

  // The run is not resumed: r is c but for the state, or for a review that starts its own clock.
  predicate Parks(c: Claim, r: Claim, now: int) {
    r == if r.state == Running then c.(state := Running, kind := Review, started := now) else c.(state := r.state)
  }

  // A run that is not resumed keeps everything else of its claim.
  lemma RunParks(cfg: Config, b: Book, t: Ticket, o: Observed)
    requires cfg.Valid() && t in b.claims
    requires var c := b.claims[t]; !c.deflake && c.kind != Review && Over(c, o)
    ensures var (c, r) := (b.claims[t], ReapOne(cfg, b, t, o).claims[t]);
            !Resuming(r.state, r.kind) ==>
              Parks(c.(session := c.session || o.sessionKnown, detached := if c.host.Some? then false else c.detached),
                    r, o.look.env.now)
  {
    var c := b.claims[t];
    var a := Arrived(c);
    OverIsJudged(cfg, b, t, o);
    WorkParks(cfg, Put(b, t, a), t, a, o, a.(session := a.session || o.sessionKnown));
  }

  lemma WorkParks(cfg: Config, b: Book, t: Ticket, c: Claim, o: Observed, s: Claim)
    requires cfg.Valid() && c.kind != Review && s == c.(session := c.session || o.sessionKnown)
    ensures var r := ReapWork(cfg, b, t, c, o).claims[t];
            !Resuming(r.state, r.kind) ==> Parks(s, r, o.look.env.now)
  {
    var r := ReapWork(cfg, b, t, c, o).claims[t];
    if o.limited {
      assert r == s.(state := Limited);
    } else if o.noResult && s.session && s.killResumes < KILL_RESUMES && o.look.worktree {
      ResumeGives(cfg, b, t, s.(kind := Work), KilledRun, o.look);
    } else if o.noResult {
      assert r == s.(state := Killed);
    } else if !o.isError && o.outcome == Done && o.dirty && s.session && s.fixAttempts < FIX_ATTEMPTS {
      ResumeGives(cfg, b, t, s.(kind := Work), UncommittedWork, o.look);
    } else {
      assert r == WorkEnd(s, o);
      EndParks(s, o);
    }
  }

  lemma EndParks(c: Claim, o: Observed)
    ensures Parks(c, WorkEnd(c, o), o.look.env.now)
  {
    var r := WorkEnd(c, o);
    if o.isError || o.outcome == BlockedOut || o.dirty || !o.ahead {
      assert r == c.(state := r.state);
    } else if o.outcome == Cancel || c.review {
      assert r == StartReview(c, o.look.env.now);
    } else {
      assert r == c.(state := Queued);
    }
  }

  // A ticket's review has ended.
  lemma ReviewEnds(cfg: Config, b: Book, t: Ticket, o: Observed)
    requires cfg.Valid() && t in b.claims
    requires var c := b.claims[t]; !c.deflake && c.kind == Review && Over(c, o)
    ensures var (c, r) := (b.claims[t], ReapOne(cfg, b, t, o).claims[t]);
            ReviewTable(c, o, r.state, r.kind) && Costs(c, r, ReviewFail) && r.session == c.session
  {
    var c := b.claims[t];
    OverIsJudged(cfg, b, t, o);
    ReapReviewTable(cfg, Put(b, t, c), t, c, o);
  }

  lemma ReapReviewTable(cfg: Config, b: Book, t: Ticket, c: Claim, o: Observed)
    requires cfg.Valid() && c.kind == Review
    ensures var r := ReapReview(cfg, b, t, c, o).claims[t];
            ReviewTable(c, o, r.state, r.kind) && Costs(c, r, ReviewFail) && r.session == c.session
  {
    if o.pass {
      StateStays(c, c.ended, c.session, Queued);
    } else if c.session && c.fixAttempts < FIX_ATTEMPTS && o.look.worktree {
      ResumeGives(cfg, b, t, c.(kind := Work), ReviewFail, o.look);
    } else {
      StateStays(c, c.ended, c.session, ReviewFailed);
    }
  }

  // A deflaker's run or review has ended.
  lemma DeflakeEnds(cfg: Config, b: Book, t: Ticket, o: Observed)
    requires cfg.Valid() && t in b.claims && b.claims[t].deflake && Over(b.claims[t], o)
    ensures var (c, r) := (b.claims[t], ReapOne(cfg, b, t, o).claims[t]);
            DeflakeTable(c, o, r.state, r.kind) && SameRequest(c, r) && SameCounters(c, r)
            && r.ended == Some(o.look.env.now)
  {
    var c := b.claims[t];
    var a := Arrived(c);
    OverIsJudged(cfg, b, t, o);
    DeflakeEndTable(a, o);
    DeflakeEndStays(a, o);
    assert ReapOne(cfg, b, t, o).claims[t] == DeflakeEnd(a, o);
  }

  // A run that goes on.
  lemma GoesOn(cfg: Config, b: Book, t: Ticket, o: Observed)
    requires cfg.Valid() && t in b.claims
    requires var c := b.claims[t]; c.state == Running && o.alive && !c.detached
    ensures AliveTable(b.claims[t], o, ReapOne(cfg, b, t, o).claims[t])
    ensures !o.overLimit ==> ReapOne(cfg, b, t, o) == b
  {
    assert ReapOne(cfg, b, t, o) == ReapAlive(cfg, b, t, o);
    AliveGoes(cfg, b, t, o);
  }

  lemma AliveGoes(cfg: Config, b: Book, t: Ticket, o: Observed)
    requires cfg.Valid() && t in b.claims && b.claims[t].state == Running
    ensures AliveTable(b.claims[t], o, ReapAlive(cfg, b, t, o).claims[t])
  {
    var c := b.claims[t];
    var s := c.(state := TimedOut, ended := Some(o.look.env.now));
    StateStays(c, s.ended, c.session, TimedOut);
    ResumeGives(cfg, Put(b, t, s), t, s, TimedOutRun, o.look);
  }

  // A remote run whose results are not here.
  lemma WaitsForHost(cfg: Config, b: Book, t: Ticket, o: Observed)
    requires cfg.Valid() && t in b.claims
    requires var c := b.claims[t];
             && (c.state == SyncError || (c.state == Running && (!o.alive || c.detached)))
             && c.host.Some? && c.kind != Review && !Over(c, o)
    ensures WaitTable(b.claims[t], o, ReapOne(cfg, b, t, o).claims[t]) && ReapOne(cfg, b, t, o).log == b.log
  {
    assert ReapOne(cfg, b, t, o) == Put(b, t, Waiting(b.claims[t], o));
  }

  // From b to b' only t's claim changes, and at most one line, of t's, is logged.
  predicate Only(b: Book, t: Ticket, b': Book) {
    && b'.claims.Keys == b.claims.Keys + {t} && (forall u :: u in b.claims && u != t ==> b'.claims[u] == b.claims[u])
    && b.log <= b'.log && |b'.log| <= |b.log| + 1
    && (|b'.log| > |b.log| ==> b'.log[|b.log|].ticket == t)
  }

  lemma ResumeOnly(cfg: Config, b: Book, b0: Book, t: Ticket, c: Claim, fail: Failure, look: Look)
    requires cfg.Valid() && Only(b, t, b0) && b0.log == b.log
    ensures Only(b, t, Resume(cfg, b0, t, c, fail, look))
  {
  }

  lemma PutOnly(b: Book, b0: Book, t: Ticket, c: Claim)
    requires Only(b, t, b0)
    ensures Only(b, t, Put(b0, t, c))
  {
  }

  lemma ReapWorkOnly(cfg: Config, b: Book, b0: Book, t: Ticket, c: Claim, o: Observed)
    requires cfg.Valid() && Only(b, t, b0) && b0.log == b.log
    ensures Only(b, t, ReapWork(cfg, b0, t, c, o))
  {
    var s := c.(session := c.session || o.sessionKnown);
    if o.limited {
      LimitOnly(b, b0, t, s.(state := Limited));
    } else if o.noResult {
      ResumeOnly(cfg, b, b0, t, s.(kind := Work), KilledRun, o.look);
      PutOnly(b, b0, t, s.(state := Killed));
    } else if !o.isError && o.outcome == Done && o.dirty && s.session && s.fixAttempts < FIX_ATTEMPTS {
      ResumeOnly(cfg, b, b0, t, s.(kind := Work), UncommittedWork, o.look);
    } else {
      PutOnly(b, b0, t, WorkEnd(s, o));
    }
  }

  lemma LimitOnly(b: Book, b0: Book, t: Ticket, c: Claim)
    requires Only(b, t, b0) && b0.log == b.log
    ensures Only(b, t, Book(b0.claims[t := c], b0.log + [HitLimit(t)]))
  {
  }

  lemma JudgeOnly(cfg: Config, b: Book, t: Ticket, c: Claim, o: Observed)
    requires cfg.Valid() && t in b.claims
    ensures Only(b, t, Judge(cfg, b, t, c, o))
  {
    var b0 := Put(b, t, c);
    PutOnly(b, b, t, c);
    if c.deflake {
      PutOnly(b, b0, t, DeflakeEnd(c, o));
    } else if c.kind == Review {
      ResumeOnly(cfg, b, b0, t, c.(kind := Work), ReviewFail, o.look);
    } else {
      ReapWorkOnly(cfg, b, b0, t, c, o);
    }
  }

  lemma AliveOnly(cfg: Config, b: Book, t: Ticket, o: Observed)
    requires cfg.Valid() && t in b.claims
    ensures Only(b, t, ReapAlive(cfg, b, t, o))
  {
    var s := b.claims[t].(state := TimedOut, ended := Some(o.look.env.now));
    PutOnly(b, b, t, s);
    ResumeOnly(cfg, b, Put(b, t, s), t, s, TimedOutRun, o.look);
  }

  // Only a running claim, or one held for a sync error, is judged, and judging it touches no other.
  lemma ReapsItsOwn(cfg: Config, b: Book, t: Ticket, o: Observed)
    requires cfg.Valid()
    ensures if t in b.claims && b.claims[t].state in {Running, SyncError} then Only(b, t, ReapOne(cfg, b, t, o))
            else ReapOne(cfg, b, t, o) == b
  {
    if t in b.claims && b.claims[t].state in {Running, SyncError} {
      var c := b.claims[t];
      AliveOnly(cfg, b, t, o);
      PutOnly(b, b, t, Waiting(c, o));
      JudgeOnly(cfg, b, t, Arrived(c), o);
    }
  }
}
