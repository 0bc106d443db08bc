/** What every run of the work runner keeps (ops/work-runner.py).

One invariant over the claims and the log carries everything: it holds of the empty book, every pass
of a tick keeps it whatever the inputs, and so it holds after any sequence of ticks. A tick that raises
leaves the saved claims, and the part of the log they account for, as they were. The log makes the
invariant inductive: a held fix was checked against its budget when it was held, many ticks before it
runs, and the invariant says that nothing spends that budget while it waits. The counters on a claim are
tied to the launches in the log, so the bounds are about what was launched and not about what was
counted. */
module WorkSafety {
  import opened Wrappers
  import opened WorkClaims
  import opened WorkRunner
  import opened WorkDeflakes
  import opened WorkJournal
  import opened WorkPasses

  // ------------------------------------------------------------------ reading the log

  // Launches of one cause for t since its claim was made.
  function Since(log: seq<Event>, t: Ticket, w: Cause): nat
    decreases |log|
  {
    if log == [] then 0
    else
      var e, before := log[|log| - 1], log[..|log| - 1];
      if !e.Launched? || e.ticket != t then Since(before, t, w)
      else if e.cause == NewWork || e.cause == Deflaking then 0
      else Since(before, t, w) + (if e.cause == w then 1 else 0)
  }

  // Times the account limit stopped t's run since its claim was made.
  function LimitsSince(log: seq<Event>, t: Ticket): nat
    decreases |log|
  {
    if log == [] then 0
    else
      var e, before := log[|log| - 1], log[..|log| - 1];
      if e.ticket != t then LimitsSince(before, t)
      else if e.HitLimit? then LimitsSince(before, t) + 1
      else if e.cause == NewWork || e.cause == Deflaking then 0
      else LimitsSince(before, t)
  }

  // The last thing that happened to t's run is that the account limit stopped it.
  function LastIsLimit(log: seq<Event>, t: Ticket): bool
    decreases |log|
  {
    log != [] &&
      var e := log[|log| - 1];
      if e.ticket != t then LastIsLimit(log[..|log| - 1], t) else e.HitLimit?
  }

  // Two deflake runs of one test.
  predicate BothDeflaking(e: Event, f: Event) {
    e.Launched? && e.cause == Deflaking && f.Launched? && f.cause == Deflaking && e.ticket == f.ticket
  }

  // ------------------------------------------------------------------ the invariant

  // The counters on a claim are the launches in the log.
  predicate Counted(log: seq<Event>, t: Ticket, c: Claim) {
    && c.fixAttempts == Since(log, t, FixAttempt)
    && c.killResumes == Since(log, t, KillResume)
    && c.timeoutResumes == Since(log, t, WrapUp)
  }

  predicate Bounded(log: seq<Event>, t: Ticket, c: Claim) {
    && c.fixAttempts <= FIX_ATTEMPTS
    && c.timeoutResumes <= TIMEOUT_RESUMES
    && c.killResumes <= KILL_RESUMES + LimitsSince(log, t)
  }

  // What resuming for `fail` will spend is still there.
  predicate Affords(log: seq<Event>, t: Ticket, c: Claim, fail: Failure) {
    && (fail.SpendsAttempt() ==> c.fixAttempts < FIX_ATTEMPTS)
    && (fail.TimedOutRun? ==> c.timeoutResumes < TIMEOUT_RESUMES)
    && (fail.KilledRun? ==> c.killResumes < KILL_RESUMES + LimitsSince(log, t)
                            && (c.killResumes < KILL_RESUMES || LastIsLimit(log, t)))
  }

  // A held claim was checked when it was held; nothing spends its budget while it waits.
  predicate HeldAffords(log: seq<Event>, t: Ticket, c: Claim) {
    && (c.state == FixHeld ==> c.failLine.Some? && Affords(log, t, c, c.failLine.value))
    && (c.state == Limited ==> Affords(log, t, c, KilledRun))
  }

  // A deflake claim is its own kind: never resumed, never limited.
  predicate DeflakeKept(t: Ticket, c: Claim) {
    && (c.deflake <==> IsKey(t))
    && (c.deflake ==> c.kind in {Deflake, Review} && c.state !in {FixHeld, Limited})
    && (!c.deflake ==> c.kind != Deflake)
  }

  predicate ClaimInv(log: seq<Event>, t: Ticket, c: Claim) {
    Counted(log, t, c) && Bounded(log, t, c) && HeldAffords(log, t, c) && DeflakeKept(t, c)
  }

  predicate Unheld(env: Env) { !env.usageLimited && !env.paused && !env.gateHolds }

  // The host's own bounds: a remote host answers its probe and is fit; this Mac's load is within its bound,
  // and for new work and deflake runs there is disk left.
  predicate HostFit(env: Env, h: Option<Host>, w: Cause) {
    match h
    case Some(r) => r in env.ready && r in env.fit
    case None => (w != Deflaking ==> env.loadOk) && (w in {NewWork, Deflaking} ==> env.diskOk)
  }

  // A launched worker is one of those on its host. No hold was in force. A launch not named by hand left its
  // host within its cap, and the host was fit for it.
  predicate EventInv(cfg: Config, e: Event)
    requires cfg.Valid()
  {
    e.Launched? ==>
      && e.ticket in e.claims && IsWorker(e.claims[e.ticket], e.host) && Unheld(e.env)
      && (e.named ==> e.host.Some?)
      && (!e.named ==> Busy(e.claims, e.host) <= SlotCap(cfg, e.env, e.host) && HostFit(e.env, e.host, e.cause))
  }

  // Deflake requests: each launch's request is newer than the launches before it, and consumed.
  predicate RequestsKept(b: Book) {
    && (forall i :: 0 <= i < |b.log| && b.log[i].Launched? && b.log[i].cause == Deflaking ==>
          var k := b.log[i].ticket; k in b.claims && b.claims[k].deflake && b.log[i].requestTs <= b.claims[k].requestTs)
    && (forall i, j :: 0 <= i < j < |b.log| && BothDeflaking(b.log[i], b.log[j]) ==>
          b.log[i].requestTs < b.log[j].requestTs)
  }

  // At every moment of the run, for every ticket, claimed or not.
  ghost predicate SpendingKept(log: seq<Event>) {
    forall n, t :: 0 <= n <= |log| ==>
      Since(log[..n], t, FixAttempt) <= FIX_ATTEMPTS && Since(log[..n], t, WrapUp) <= TIMEOUT_RESUMES
  }

  // A kill resume was checked against KILL_RESUMES, or it resumes a run the account limit stopped.
  predicate Guarded(log: seq<Event>, e: Event) {
    e.Launched? && e.cause == KillResume ==>
      Since(log, e.ticket, KillResume) < KILL_RESUMES || LastIsLimit(log, e.ticket)
  }

  ghost predicate ResumesGuarded(log: seq<Event>) {
    forall i :: 0 <= i < |log| ==> Guarded(log[..i], log[i])
  }

  ghost predicate Inv(cfg: Config, b: Book)
    requires cfg.Valid()
  {
    && SpendingKept(b.log)
    && ResumesGuarded(b.log)
    && (forall t :: t in b.claims ==> ClaimInv(b.log, t, b.claims[t]))
    && (forall i :: 0 <= i < |b.log| ==> EventInv(cfg, b.log[i]))
    && RequestsKept(b)
    && Busy(b.claims, None) <= cfg.cap
  }

  // ------------------------------------------------------------------ primitive moves

  lemma SinceAppend(log: seq<Event>, e: Event, t: Ticket, w: Cause)
    ensures Since(log + [e], t, w) ==
            if !e.Launched? || e.ticket != t then Since(log, t, w)
            else if e.cause == NewWork || e.cause == Deflaking then 0
            else Since(log, t, w) + (if e.cause == w then 1 else 0)
  {
    assert (log + [e])[..|log|] == log;
  }

  lemma LimitsAppend(log: seq<Event>, e: Event, t: Ticket)
    ensures LimitsSince(log + [e], t) ==
            if e.ticket != t then LimitsSince(log, t)
            else if e.HitLimit? then LimitsSince(log, t) + 1
            else if e.cause == NewWork || e.cause == Deflaking then 0
            else LimitsSince(log, t)
  {
    assert (log + [e])[..|log|] == log;
  }

  lemma LastAppend(log: seq<Event>, e: Event, t: Ticket)
    ensures LastIsLimit(log + [e], t) == if e.ticket != t then LastIsLimit(log, t) else e.HitLimit?
  {
    assert (log + [e])[..|log|] == log;
  }

  lemma GuardedAppend(log: seq<Event>, e: Event)
    requires ResumesGuarded(log) && Guarded(log, e)
    ensures ResumesGuarded(log + [e])
  {
    var after := log + [e];
    forall i | 0 <= i < |after| ensures Guarded(after[..i], after[i]) {
      if i < |log| {
        assert after[..i] == log[..i] && after[i] == log[i];
      } else {
        assert after[..i] == log;
      }
    }
  }

  // An event about another ticket changes nothing a claim's invariant reads.
  lemma OtherClaims(log: seq<Event>, e: Event, t: Ticket, c: Claim)
    requires ClaimInv(log, t, c) && e.ticket != t
    ensures ClaimInv(log + [e], t, c)
  {
    SinceAppend(log, e, t, FixAttempt);
    SinceAppend(log, e, t, KillResume);
    SinceAppend(log, e, t, WrapUp);
    LimitsAppend(log, e, t);
    LastAppend(log, e, t);
  }

  lemma SpendingAppend(log: seq<Event>, e: Event)
    requires SpendingKept(log)
    requires Since(log + [e], e.ticket, FixAttempt) <= FIX_ATTEMPTS
             && Since(log + [e], e.ticket, WrapUp) <= TIMEOUT_RESUMES
    ensures SpendingKept(log + [e])
  {
    forall n, t | 0 <= n <= |log| + 1
      ensures Since((log + [e])[..n], t, FixAttempt) <= FIX_ATTEMPTS
               && Since((log + [e])[..n], t, WrapUp) <= TIMEOUT_RESUMES
    {
      if n <= |log| {
        assert (log + [e])[..n] == log[..n];
      } else {
        assert (log + [e])[..n] == log + [e] && log[..|log|] == log;
        SinceAppend(log, e, t, FixAttempt);
        SinceAppend(log, e, t, WrapUp);
      }
    }
  }

  lemma PutKeeps(cfg: Config, b: Book, t: Ticket, c: Claim)
    requires cfg.Valid() && Inv(cfg, b) && ClaimInv(b.log, t, c)
    requires t in b.claims ==> b.claims[t].deflake == c.deflake && b.claims[t].requestTs <= c.requestTs
    requires IsWorker(c, None) ==> t in b.claims && IsWorker(b.claims[t], None)
    ensures Inv(cfg, Put(b, t, c))
  {
    NoMoreWorkers(b.claims, t, c);
  }

  // Replacing a claim by one that is no new worker on this Mac.
  lemma NoMoreWorkers(claims: Claims, t: Ticket, c: Claim)
    requires IsWorker(c, None) ==> t in claims && IsWorker(claims[t], None)
    ensures Busy(claims[t := c], None) <= Busy(claims, None)
  {
    SetBound(Workers(claims[t := c], None), Workers(claims, None));
  }

  // c differs from o in state, kind or marks only, and is neither held nor limited.
  predicate SameSpending(o: Claim, c: Claim) {
    && c.fixAttempts == o.fixAttempts && c.killResumes == o.killResumes && c.timeoutResumes == o.timeoutResumes
    && c.deflake == o.deflake && c.requestTs == o.requestTs
    && c.state !in {FixHeld, Limited} && (c.kind == o.kind || c.kind == Review || (c.kind == Work && !c.deflake))
    && (IsWorker(c, None) ==> IsWorker(o, None))
  }

  lemma SameClaim(log: seq<Event>, t: Ticket, o: Claim, c: Claim)
    requires ClaimInv(log, t, o) && SameSpending(o, c)
    ensures ClaimInv(log, t, c)
  {
  }

  lemma PutSame(cfg: Config, b: Book, t: Ticket, c: Claim)
    requires cfg.Valid() && Inv(cfg, b) && t in b.claims && SameSpending(b.claims[t], c)
    ensures Inv(cfg, Put(b, t, c))
  {
    SameClaim(b.log, t, b.claims[t], c);
    PutKeeps(cfg, b, t, c);
  }

  lemma WorkEndSame(c: Claim, o: Observed)
    ensures SameSpending(c, WorkEnd(c, o))
  {
    if o.isError {
      StateSame(c, c.ended, c.session, Error);
    } else if o.outcome == BlockedOut {
      StateSame(c, c.ended, c.session, Blocked);
    } else if o.outcome == Cancel {
      StateSame(c, c.ended, c.session, CancelProposed);
    } else if o.dirty {
      StateSame(c, c.ended, c.session, Uncommitted);
    } else if !o.ahead {
      StateSame(c, c.ended, c.session, NoWork);
    } else {
      StateSame(c, c.ended, c.session, Queued);
    }
  }

  // What a claim's end changes: the state, and when and with which session it ended.
  lemma StateSame(c: Claim, ended: Option<int>, session: bool, state: State)
    requires state !in {FixHeld, Limited, Running}
    ensures SameSpending(c, c.(ended := ended, session := session, state := state))
    ensures forall now :: SameSpending(c, StartReview(c.(ended := ended, session := session), now))
  {
  }

  lemma DeflakeEndSame(c: Claim, o: Observed)
    ensures SameSpending(c, DeflakeEnd(c, o))
  {
    var ended, session := Some(o.look.env.now), c.session || o.sessionKnown;
    if c.kind == Review {
      StateSame(c, ended, c.session, if o.pass then Queued else ReviewFailed);
    } else if o.isError {
      StateSame(c, ended, session, Error);
    } else if o.outcome != Done {
      StateSame(c, ended, session, Blocked);
    } else if o.dirty {
      StateSame(c, ended, session, Uncommitted);
    } else {
      StateSame(c, ended, session, NoWork);
    }
  }

  // A worker under t changes the count on its host by at most one.
  lemma BusyAfter(claims: Claims, t: Ticket, c: Claim, h: Option<Host>)
    ensures Busy(claims[t := c], h) <= Busy(claims - {t}, h) + 1
    ensures IsWorker(c, h) ==> 1 <= Busy(claims[t := c], h)
    ensures Busy(claims - {t}, h) <= Busy(claims, h)
  {
    var now, others, all := Workers(claims[t := c], h), Workers(claims - {t}, h), Workers(claims, h);
    assert now <= others + {t};
    SetBound(now, others + {t});
    if IsWorker(c, h) {
      SetBound({t}, now);
    }
    SetBound(others, all);
  }

  lemma SetBound<T>(a: set<T>, b: set<T>)
    requires a <= b
    ensures |a| <= |b|
  {
    assert b == a + (b - a);
  }

  // Starting a worker keeps the invariant when its claim does and there was room for it.
  lemma LaunchKeeps(cfg: Config, b: Book, t: Ticket, c: Claim, w: Cause, named: bool, env: Env)
    requires cfg.Valid() && Inv(cfg, b) && w != Deflaking && Unheld(env)
    requires named ==> c.host.Some?
    requires !named ==> Busy(b.claims - {t}, c.host) < SlotCap(cfg, env, c.host) && HostFit(env, c.host, w)
    requires t in b.claims ==> !b.claims[t].deflake
    requires !IsKey(t) && IsWorker(c, c.host)
    requires w == KillResume ==> Since(b.log, t, KillResume) < KILL_RESUMES || LastIsLimit(b.log, t)
    requires ClaimInv(b.log + [LaunchEvent(b.claims[t := c], t, w, named, env)], t, c)
    ensures Inv(cfg, Record(cfg, b, t, c, Some(w), named, env))
  {
    var e := LaunchEvent(b.claims[t := c], t, w, named, env);
    var b' := Record(cfg, b, t, c, Some(w), named, env);
    assert EventInv(cfg, e) && Busy(b'.claims, None) <= cfg.cap by {
      LaunchedWithin(cfg, b.claims, t, c, w, named, env);
    }
    assert SpendingKept(b'.log) by { SpendingAppend(b.log, e); }
    assert ResumesGuarded(b'.log) by { GuardedAppend(b.log, e); }
    OthersKeep(b, b', t, c, e);
    EventsAppend(cfg, b.log, e);
    assert RequestsKept(b') by { RequestsUnmoved(b, b', e); }
  }

  lemma LaunchedWithin(cfg: Config, claims: Claims, t: Ticket, c: Claim, w: Cause, named: bool, env: Env)
    requires cfg.Valid() && Unheld(env) && IsWorker(c, c.host) && (named ==> c.host.Some?)
    requires !named ==> Busy(claims - {t}, c.host) < SlotCap(cfg, env, c.host) && HostFit(env, c.host, w)
    requires Busy(claims, None) <= cfg.cap
    ensures EventInv(cfg, LaunchEvent(claims[t := c], t, w, named, env)) && Busy(claims[t := c], None) <= cfg.cap
  {
    BusyAfter(claims, t, c, c.host);
    MacAfter(claims, t, c);
  }

  // A line about t leaves the claims of others as the invariant says.
  lemma OthersKeep(b: Book, b': Book, t: Ticket, c: Claim, e: Event)
    requires (forall u :: u in b.claims ==> ClaimInv(b.log, u, b.claims[u])) && ClaimInv(b'.log, t, c)
    requires b'.claims == b.claims[t := c] && b'.log == b.log + [e] && e.ticket == t
    ensures forall u :: u in b'.claims ==> ClaimInv(b'.log, u, b'.claims[u])
  {
    forall u | u in b'.claims ensures ClaimInv(b'.log, u, b'.claims[u]) {
      if u != t {
        OtherClaims(b.log, e, u, b.claims[u]);
      }
    }
  }

  // A worker started under the cap leaves this Mac within it; one elsewhere changes nothing here.
  lemma MacAfter(claims: Claims, t: Ticket, c: Claim)
    ensures c.host.Some? ==> Busy(claims[t := c], None) <= Busy(claims, None)
    ensures Busy(claims[t := c], None) <= Busy(claims - {t}, None) + 1
  {
    BusyAfter(claims, t, c, None);
    if c.host.Some? {
      SetBound(Workers(claims[t := c], None), Workers(claims, None));
    }
  }

  lemma EventsAppend(cfg: Config, log: seq<Event>, e: Event)
    requires cfg.Valid() && EventInv(cfg, e) && forall i :: 0 <= i < |log| ==> EventInv(cfg, log[i])
    ensures forall i :: 0 <= i < |log + [e]| ==> EventInv(cfg, (log + [e])[i])
  {
  }

  // An event that starts no deflake run, about a claim that is no deflake's, moves no request.
  lemma RequestsUnmoved(b: Book, b': Book, e: Event)
    requires RequestsKept(b) && b'.log == b.log + [e] && !(e.Launched? && e.cause == Deflaking)
    requires forall t :: t in b.claims && b.claims[t].deflake ==> t in b'.claims && b'.claims[t] == b.claims[t]
    ensures RequestsKept(b')
  {
    assert forall i :: 0 <= i < |b'.log| && b'.log[i].Launched? && b'.log[i].cause == Deflaking ==>
                         i < |b.log| && b'.log[i] == b.log[i];
  }

  // A started fix run has spent what its cause spends, and no more.
  lemma StartedClaim(log: seq<Event>, e: Event, t: Ticket, c: Claim, r: Claim, fail: Failure)
    requires Counted(log, t, c) && Bounded(log, t, c) && Affords(log, t, c, fail) && !c.deflake && !IsKey(t)
    requires e.Launched? && e.ticket == t && e.cause == FixCause(fail)
    requires r.state == Running && r.kind == Fix && !r.deflake
    requires r.fixAttempts == c.fixAttempts + (if fail.SpendsAttempt() then 1 else 0)
    requires r.killResumes == c.killResumes + (if fail.KilledRun? then 1 else 0)
    requires r.timeoutResumes == c.timeoutResumes + (if fail.TimedOutRun? then 1 else 0)
    ensures ClaimInv(log + [e], t, r)
  {
    SinceAppend(log, e, t, FixAttempt);
    SinceAppend(log, e, t, KillResume);
    SinceAppend(log, e, t, WrapUp);
    LimitsAppend(log, e, t);
  }

  // launch_fix, from any caller that checked the budget: a held run keeps it, a started one spends it.
  lemma ResumeKeeps(cfg: Config, b: Book, t: Ticket, c: Claim, fail: Failure, look: Look)
    requires cfg.Valid() && Inv(cfg, b) && t in b.claims && !c.deflake && !IsKey(t) && c.kind != Deflake
    requires c.requestTs == b.claims[t].requestTs && !b.claims[t].deflake
    requires Counted(b.log, t, c) && Bounded(b.log, t, c) && Affords(b.log, t, c, fail)
    ensures Inv(cfg, Resume(cfg, b, t, c, fail, look))
  {
    var r := LaunchFix(cfg, b.claims, t, c, fail, look);
    LaunchFixResult(cfg, b.claims, t, c, fail, look);
    if r.state == FixHeld {
      HeldClaim(b.log, t, c, fail);
      PutKeeps(cfg, b, t, r);
    } else {
      StartedClaim(b.log, LaunchEvent(b.claims[t := r], t, FixCause(fail), false, look.env), t, c, r, fail);
      LaunchKeeps(cfg, b, t, r, FixCause(fail), false, look.env);
    }
  }

  lemma HeldClaim(log: seq<Event>, t: Ticket, c: Claim, fail: Failure)
    requires Counted(log, t, c) && Bounded(log, t, c) && Affords(log, t, c, fail)
    requires !c.deflake && !IsKey(t) && c.kind != Deflake
    ensures ClaimInv(log, t, Hold(c, fail))
  {
  }

  // A claim of the book as its own starting point for a resume: its own counters and budget.
  lemma ResumeSame(cfg: Config, b: Book, t: Ticket, c: Claim, fail: Failure, look: Look)
    requires cfg.Valid() && Inv(cfg, b) && t in b.claims && !b.claims[t].deflake && c.kind != Deflake
    requires var o := b.claims[t];
             && c.fixAttempts == o.fixAttempts && c.killResumes == o.killResumes && c.timeoutResumes == o.timeoutResumes
             && c.deflake == o.deflake && c.requestTs == o.requestTs
    requires Affords(b.log, t, c, fail)
    ensures Inv(cfg, Resume(cfg, b, t, c, fail, look))
  {
    assert ClaimInv(b.log, t, b.claims[t]);
    ResumeKeeps(cfg, b, t, c, fail, look);
  }

  // ------------------------------------------------------------------ the passes

  lemma LimitKeeps(cfg: Config, b: Book, t: Ticket, c: Claim)
    requires cfg.Valid() && Inv(cfg, b) && t in b.claims && !b.claims[t].deflake
    requires c == b.claims[t].(state := Limited, session := c.session) && c.kind != Review
    ensures Inv(cfg, Book(b.claims[t := c], b.log + [HitLimit(t)]))
  {
    var e, b' := HitLimit(t), Book(b.claims[t := c], b.log + [HitLimit(t)]);
    SinceAppend(b.log, e, t, FixAttempt);
    SinceAppend(b.log, e, t, KillResume);
    SinceAppend(b.log, e, t, WrapUp);
    LimitsAppend(b.log, e, t);
    LastAppend(b.log, e, t);
    SpendingAppend(b.log, e);
    GuardedAppend(b.log, e);
    forall u | u in b'.claims ensures ClaimInv(b'.log, u, b'.claims[u]) {
      if u != t {
        OtherClaims(b.log, e, u, b.claims[u]);
      }
    }
    EventsAppend(cfg, b.log, e);
    RequestsUnmoved(b, b', e);
    NoMoreWorkers(b.claims, t, c);
  }

  lemma ReapWorkKeeps(cfg: Config, b: Book, t: Ticket, c: Claim, o: Observed)
    requires cfg.Valid() && Inv(cfg, b) && t in b.claims && b.claims[t] == c && c.state !in {FixHeld, Limited}
    requires !c.deflake && c.kind != Review
    ensures Inv(cfg, ReapWork(cfg, b, t, c, o))
  {
    var s := c.(session := c.session || o.sessionKnown);
    assert c.kind != Deflake;
    if o.limited {
      LimitKeeps(cfg, b, t, s.(state := Limited));
    } else if o.noResult {
      if s.session && s.killResumes < KILL_RESUMES && o.look.worktree {
        ResumeSame(cfg, b, t, s.(kind := Work), KilledRun, o.look);
      } else {
        PutSame(cfg, b, t, s.(state := Killed));
      }
    } else if !o.isError && o.outcome == Done && o.dirty && s.session && s.fixAttempts < FIX_ATTEMPTS {
      ResumeSame(cfg, b, t, s.(kind := Work), UncommittedWork, o.look);
    } else {
      WorkEndSame(s, o);
      PutSame(cfg, b, t, WorkEnd(s, o));
    }
  }

  lemma ReapReviewKeeps(cfg: Config, b: Book, t: Ticket, c: Claim, o: Observed)
    requires cfg.Valid() && Inv(cfg, b) && t in b.claims && b.claims[t] == c && !c.deflake && c.kind == Review
    ensures Inv(cfg, ReapReview(cfg, b, t, c, o))
  {
    if !o.pass && c.session && c.fixAttempts < FIX_ATTEMPTS && o.look.worktree {
      ResumeSame(cfg, b, t, c.(kind := Work), ReviewFail, o.look);
    } else {
      PutSame(cfg, b, t, c.(state := if o.pass then Queued else ReviewFailed));
    }
  }

  lemma JudgeKeeps(cfg: Config, b: Book, t: Ticket, c: Claim, o: Observed)
    requires cfg.Valid() && Inv(cfg, b) && t in b.claims && c.state !in {FixHeld, Limited}
    requires c == b.claims[t].(state := c.state, detached := c.detached)
    requires IsWorker(c, None) ==> IsWorker(b.claims[t], None)
    ensures Inv(cfg, Judge(cfg, b, t, c, o))
  {
    var b' := Put(b, t, c);
    assert b'.claims[t] == c;
    PutSame(cfg, b, t, c);
    if c.deflake {
      DeflakeEndSame(c, o);
      PutSame(cfg, b', t, DeflakeEnd(c, o));
    } else if c.kind == Review {
      ReapReviewKeeps(cfg, b', t, c, o);
    } else {
      ReapWorkKeeps(cfg, b', t, c, o);
    }
  }

  lemma ReapAliveKeeps(cfg: Config, b: Book, t: Ticket, o: Observed)
    requires cfg.Valid() && Inv(cfg, b) && t in b.claims
    ensures Inv(cfg, ReapAlive(cfg, b, t, o))
  {
    var c := b.claims[t];
    var s := c.(state := TimedOut, ended := Some(o.look.env.now));
    StateSame(c, Some(o.look.env.now), c.session, TimedOut);
    PutSame(cfg, b, t, s);
    if c.kind == Work && c.timeoutResumes < TIMEOUT_RESUMES {
      assert ClaimInv(b.log, t, c);
      ResumeSame(cfg, Put(b, t, s), t, s, TimedOutRun, o.look);
    }
  }

  lemma WaitingSame(c: Claim, o: Observed)
    requires c.state !in {FixHeld, Limited}
    ensures SameSpending(c, Waiting(c, o))
  {
  }

  lemma ReapOneKeeps(cfg: Config, b: Book, t: Ticket, o: Observed)
    requires cfg.Valid() && Inv(cfg, b)
    ensures Inv(cfg, ReapOne(cfg, b, t, o))
  {
    if t in b.claims && (b.claims[t].state == Running || b.claims[t].state == SyncError) {
      var c := b.claims[t];
      if c.state != SyncError && o.alive && !c.detached {
        ReapAliveKeeps(cfg, b, t, o);
      } else if StillAway(c, o) {
        WaitingSame(c, o);
        PutSame(cfg, b, t, Waiting(c, o));
      } else {
        JudgeKeeps(cfg, b, t, Arrived(c), o);
      }
    }
  }

  lemma {:induction false} ReapKeeps(cfg: Config, b: Book, claims: seq<(Ticket, Reaping)>)
    requires cfg.Valid() && Inv(cfg, b)
    ensures Inv(cfg, Reap(cfg, b, claims))
    decreases |claims|
  {
    if claims != [] {
      var (t, r) := claims[0];
      match r {
        case Judged(o) => ReapOneKeeps(cfg, b, t, o);
        case Raised(last) =>
          if last && t in b.claims {
            PutSame(cfg, b, t, b.claims[t].(state := ReapError));
          }
      }
      ReapKeeps(cfg, ReapEntry(cfg, b, t, r), claims[1..]);
    }
  }

  lemma {:induction false} FailedReviewsKeep(cfg: Config, b: Book, looks: seq<(Ticket, Look)>)
    requires cfg.Valid() && Inv(cfg, b)
    ensures Inv(cfg, ResumeFailedReviews(cfg, b, looks))
    decreases |looks|
  {
    if looks != [] {
      var (t, look) := looks[0];
      if t in b.claims && !b.claims[t].deflake && b.claims[t].state == ReviewFailed && b.claims[t].session
         && b.claims[t].fixAttempts < FIX_ATTEMPTS && look.worktree {
        var c := b.claims[t].(kind := Work);
        ResumeSame(cfg, b, t, c, ReviewFail, look);
        FailedReviewsKeep(cfg, Resume(cfg, b, t, c, ReviewFail, look), looks[1..]);
      } else {
        FailedReviewsKeep(cfg, b, looks[1..]);
      }
    }
  }

  lemma HandleLineKeeps(cfg: Config, b: Book, l: GateLine, conflictRan: bool)
    requires cfg.Valid() && Inv(cfg, b)
    ensures Inv(cfg, HandleLine(cfg, b, l, conflictRan).0)
  {
    var t := l.ticket;
    if t in b.claims && l.text !in b.claims[t].seen && b.claims[t].state == Queued {
      var c := b.claims[t];
      var saw := c.(seen := c.seen + {l.text});
      var now := Some(l.look.env.now);
      SawKeeps(cfg, b, t, l.text, Queued, c.ended);
      SawKeeps(cfg, b, t, l.text, GateFailed, now);
      SawKeeps(cfg, b, t, l.text, GateFailed, c.ended);
      SawKeeps(cfg, b, t, l.text, Conflicted, now);
      if !c.deflake && c.fixAttempts < FIX_ATTEMPTS {
        var fail := if l.conflict then MergeConflict(l.text) else GateFail(l.text);
        assert Inv(cfg, Resume(cfg, Put(b, t, saw), t, saw, fail, l.look)) by {
          ResumeSame(cfg, Put(b, t, saw), t, saw, fail, l.look);
        }
      }
    }
  }

  // A line remembered, and the state it leads to.
  lemma SawKeeps(cfg: Config, b: Book, t: Ticket, text: Line, state: State, ended: Option<int>)
    requires cfg.Valid() && Inv(cfg, b) && t in b.claims && state !in {FixHeld, Limited, Running}
    ensures Inv(cfg, Put(b, t, b.claims[t].(seen := b.claims[t].seen + {text}, state := state, ended := ended)))
  {
    PutSame(cfg, b, t, b.claims[t].(seen := b.claims[t].seen + {text}, state := state, ended := ended));
  }

  lemma {:induction false} HandleLinesKeep(cfg: Config, b: Book, lines: seq<GateLine>, conflictRan: bool)
    requires cfg.Valid() && Inv(cfg, b)
    ensures Inv(cfg, HandleLines(cfg, b, lines, conflictRan))
    decreases |lines|
  {
    if lines != [] {
      HandleLineKeeps(cfg, b, lines[0], conflictRan);
      var (b', ran) := HandleLine(cfg, b, lines[0], conflictRan);
      HandleLinesKeep(cfg, b', lines[1..], ran);
    }
  }

  lemma RelaunchHeldKeeps(cfg: Config, b: Book, t: Ticket, look: Look)
    requires cfg.Valid() && Inv(cfg, b) && t in b.claims && b.claims[t].state == FixHeld
    ensures Inv(cfg, RelaunchHeld(cfg, b, t, look))
  {
    var c := b.claims[t];
    assert ClaimInv(b.log, t, c);
    PutSame(cfg, b, t, c.(state := GateFailed));
    ResumeSame(cfg, b, t, c.(kind := Work), c.failLine.value, look);
  }

  lemma RelaunchOneKeeps(cfg: Config, b: Book, t: Ticket, look: Look)
    requires cfg.Valid() && Inv(cfg, b)
    ensures Inv(cfg, RelaunchOne(cfg, b, t, look))
  {
    if t in b.claims {
      var c := b.claims[t];
      assert ClaimInv(b.log, t, c);
      if c.state == Limited && !c.session {
        PutSame(cfg, b, t, c.(state := Killed));
      } else if c.state == Limited {
        PutKeeps(cfg, b, t, Hold(c, KilledRun));
        RelaunchHeldKeeps(cfg, Put(b, t, Hold(c, KilledRun)), t, look);
      } else if c.state == FixHeld {
        RelaunchHeldKeeps(cfg, b, t, look);
      }
    }
  }

  lemma {:induction false} RelaunchEachKeeps(cfg: Config, b: Book, looks: seq<(Ticket, Look)>)
    requires cfg.Valid() && Inv(cfg, b)
    ensures Inv(cfg, RelaunchEach(cfg, b, looks))
    decreases |looks|
  {
    if looks != [] {
      RelaunchOneKeeps(cfg, b, looks[0].0, looks[0].1);
      RelaunchEachKeeps(cfg, RelaunchOne(cfg, b, looks[0].0, looks[0].1), looks[1..]);
    }
  }

  lemma {:induction false} ReleaseKeeps(cfg: Config, b: Book, rs: seq<Release>, now: int)
    requires cfg.Valid() && Inv(cfg, b)
    ensures Inv(cfg, ReleaseEach(b, rs, now))
    decreases |rs|
  {
    if rs != [] {
      ReleaseOneKeeps(cfg, b, rs[0], now);
      ReleaseKeeps(cfg, ReleaseOne(b, rs[0], now), rs[1..], now);
    }
  }

  lemma ReleaseOneKeeps(cfg: Config, b: Book, r: Release, now: int)
    requires cfg.Valid() && Inv(cfg, b)
    ensures Inv(cfg, ReleaseOne(b, r, now))
  {
    var t := r.ticket;
    if t in b.claims {
      PutSame(cfg, b, t, b.claims[t].(state := Merged, ended := Some(now)));
      if !b.claims[t].deflake {
        FreeKeeps(cfg, b, t);
      }
    }
  }

  lemma FreeKeeps(cfg: Config, b: Book, t: Ticket)
    requires cfg.Valid() && Inv(cfg, b) && t in b.claims && !b.claims[t].deflake
    ensures Inv(cfg, b.(claims := b.claims - {t}))
  {
    SetBound(Workers(b.claims - {t}, None), Workers(b.claims, None));
  }

  // A new ticket's work run, for which there is room or a hand-given name.
  lemma LaunchWorkKeeps(cfg: Config, b: Book, c: Candidate, h: Option<Host>, env: Env)
    requires cfg.Valid() && Inv(cfg, b) && c.ticket !in b.claims && !IsKey(c.ticket) && Unheld(env)
    requires c.named ==> h.Some?
    requires !c.named ==> Busy(b.claims, h) < SlotCap(cfg, env, h) && HostFit(env, h, NewWork)
    ensures Inv(cfg, LaunchWork(cfg, b, c, h, env))
  {
    var t, n := c.ticket, NewClaim(c, h, env.now);
    var e := LaunchEvent(b.claims[t := n], t, NewWork, c.named, env);
    SinceAppend(b.log, e, t, FixAttempt);
    SinceAppend(b.log, e, t, KillResume);
    SinceAppend(b.log, e, t, WrapUp);
    LimitsAppend(b.log, e, t);
    assert b.claims - {t} == b.claims;
    LaunchKeeps(cfg, b, t, n, NewWork, c.named, env);
  }

  lemma {:induction false} FirstWithRoomHasRoom(cfg: Config, b: Book, t: Ticket, env: Env, hosts: seq<Host>)
    requires cfg.Valid()
    ensures var h := FirstWithRoom(cfg, b, t, env, hosts); h.Some? ==> HasRoom(cfg, b.claims, h, t, env)
  {
    if hosts != [] {
      FirstWithRoomHasRoom(cfg, b, t, env, hosts[1..]);
    }
  }

  // Candidates are board tickets, which no deflake key is.
  predicate BoardTickets(cs: seq<Candidate>) { forall i :: 0 <= i < |cs| ==> !IsKey(cs[i].ticket) }

  lemma BoardRest(cs: seq<Candidate>)
    requires BoardTickets(cs) && cs != []
    ensures BoardTickets(cs[1..]) && !IsKey(cs[0].ticket)
  {
  }

  lemma HostHasRoom(cfg: Config, b: Book, c: Candidate, env: Env)
    requires cfg.Valid() && c.ticket !in b.claims
    ensures var h := HostFor(cfg, b, c, env);
            h.Some? && !c.named ==> Busy(b.claims, h) < SlotCap(cfg, env, h) && HostFit(env, h, NewWork)
  {
    FirstWithRoomHasRoom(cfg, b, c.ticket, env, env.hosts);
    assert b.claims - {c.ticket} == b.claims;
  }

  lemma {:induction false} DispatchRemoteKeeps(cfg: Config, b: Book, cs: seq<Candidate>, launched: set<Host>, env: Env)
    requires cfg.Valid() && Inv(cfg, b) && Unheld(env) && BoardTickets(cs)
    ensures Inv(cfg, DispatchRemoteEach(cfg, b, cs, launched, env).book)
    decreases |cs|
  {
    if cs != [] {
      var c := cs[0];
      BoardRest(cs);
      var h := HostFor(cfg, b, c, env);
      if c.ticket in b.claims || h.None? || h.value in launched || c.groupFull || c.launch.NotPrepared? {
        DispatchRemoteKeeps(cfg, b, cs[1..], launched, env);
      } else if c.launch.Starts? {
        HostHasRoom(cfg, b, c, env);
        var b', more := LaunchWork(cfg, b, c, h, env), launched + {h.value};
        assert Inv(cfg, b') by { LaunchWorkKeeps(cfg, b, c, h, env); }
        DispatchRemoteKeeps(cfg, b', cs[1..], more, env);
      }
    }
  }

  // `free` more workers may start here.
  predicate SlotsLeft(cfg: Config, claims: Claims, free: nat, env: Env)
    requires cfg.Valid()
  {
    Busy(claims, None) + free <= DispatchCap(cfg, env) && Unheld(env) && HostFit(env, None, NewWork)
  }

  lemma MovesKeep(cfg: Config, b: Book, cs: seq<Candidate>, free: nat, env: Env, b': Book, free': nat)
    requires cfg.Valid() && Inv(cfg, b) && BoardTickets(cs) && SlotsLeft(cfg, b.claims, free, env)
    requires Moves(cfg, b, cs, free, env, b', free')
    ensures Inv(cfg, b') && SlotsLeft(cfg, b'.claims, free', env)
  {
    if Startable(b.claims, cs[0]) {
      BoardRest(cs);
      LocalLaunchKeeps(cfg, b, cs[0], free, env);
    }
  }

  lemma {:induction false} DispatchLocalKeeps(cfg: Config, b: Book, cs: seq<Candidate>, free: nat, env: Env)
    requires cfg.Valid() && Inv(cfg, b) && BoardTickets(cs)
    requires free > 0 ==> SlotsLeft(cfg, b.claims, free, env)
    ensures Inv(cfg, DispatchLocalEach(cfg, b, cs, free, env).book)
    decreases |cs|
  {
    if cs != [] && free > 0 {
      if !(Startable(b.claims, cs[0]) && cs[0].launch == Raises) {
        var b', free' := LocalMoves(cfg, b, cs, free, env);
        MovesKeep(cfg, b, cs, free, env, b', free');
        BoardRest(cs);
        DispatchLocalKeeps(cfg, b', cs[1..], free', env);
      }
    }
  }

  lemma LocalLaunchKeeps(cfg: Config, b: Book, c: Candidate, free: nat, env: Env)
    requires cfg.Valid() && Inv(cfg, b) && c.ticket !in b.claims && !IsKey(c.ticket) && !c.named
    requires free > 0 && SlotsLeft(cfg, b.claims, free, env)
    ensures var b' := LaunchWork(cfg, b, c, None, env); Inv(cfg, b') && SlotsLeft(cfg, b'.claims, free - 1, env)
  {
    LaunchWorkKeeps(cfg, b, c, None, env);
    OneMore(b.claims, c.ticket, NewClaim(c, None, env.now));
  }

  lemma OneMore(claims: Claims, t: Ticket, c: Claim)
    requires t !in claims
    ensures Busy(claims[t := c], None) <= Busy(claims, None) + 1
  {
    assert claims - {t} == claims;
    BusyAfter(claims, t, c, None);
  }

  // ------------------------------------------------------------------ deflake runs

  lemma MarksKeep(cfg: Config, b: Book, claims: Claims)
    requires cfg.Valid() && Inv(cfg, b) && OnlyMarks(b.claims, claims)
    ensures Inv(cfg, b.(claims := claims))
  {
    forall t | t in claims ensures ClaimInv(b.log, t, claims[t]) {
      assert ClaimInv(b.log, t, b.claims[t]);
    }
    assert Workers(claims, None) == Workers(b.claims, None);
  }

  lemma LaunchDeflakeKeeps(cfg: Config, b: Book, slug: string, ts: int, env: Env)
    requires cfg.Valid() && Inv(cfg, b) && Busy(b.claims, None) < DispatchCap(cfg, env) && Unheld(env) && env.diskOk
    requires Key(slug) in b.claims ==> ts > b.claims[Key(slug)].requestTs
    ensures Inv(cfg, Record(cfg, b, Key(slug), DeflakeClaim(ts, env.now), Some(Deflaking), false, env))
  {
    var k, c := Key(slug), DeflakeClaim(ts, env.now);
    KeyInjective(slug, slug);
    var e := LaunchEvent(b.claims[k := c], k, Deflaking, false, env);
    var b' := Record(cfg, b, k, c, Some(Deflaking), false, env);
    SinceAppend(b.log, e, k, FixAttempt);
    SinceAppend(b.log, e, k, KillResume);
    SinceAppend(b.log, e, k, WrapUp);
    LimitsAppend(b.log, e, k);
    SpendingAppend(b.log, e);
    GuardedAppend(b.log, e);
    BusyAfter(b.claims, k, c, None);
    forall u | u in b'.claims ensures ClaimInv(b'.log, u, b'.claims[u]) {
      if u != k {
        OtherClaims(b.log, e, u, b.claims[u]);
      }
    }
    EventsAppend(cfg, b.log, e);
    RequestsAppend(b, b', k, e);
  }

  lemma RequestsAppend(b: Book, b': Book, k: Ticket, e: Event)
    requires RequestsKept(b) && b'.log == b.log + [e] && e.Launched? && e.cause == Deflaking && e.ticket == k
    requires k in b'.claims && b'.claims == b.claims[k := b'.claims[k]]
    requires b'.claims[k].deflake && b'.claims[k].requestTs == e.requestTs
    requires k in b.claims ==> b.claims[k].requestTs < e.requestTs
    ensures RequestsKept(b')
  {
    forall i | 0 <= i < |b'.log| && b'.log[i].Launched? && b'.log[i].cause == Deflaking
      ensures var u := b'.log[i].ticket;
              u in b'.claims && b'.claims[u].deflake && b'.log[i].requestTs <= b'.claims[u].requestTs
    {
      if i < |b.log| {
        assert b'.log[i] == b.log[i];
      }
    }
    forall i, j | 0 <= i < j < |b'.log| && BothDeflaking(b'.log[i], b'.log[j])
      ensures b'.log[i].requestTs < b'.log[j].requestTs
    {
      assert b'.log[i] == b.log[i];
      if j < |b.log| {
        assert b'.log[j] == b.log[j];
      }
    }
  }

  lemma DeflakesKeep(cfg: Config, b: Book, reqs: seq<Request>, deferred: set<string>, env: Env)
    requires cfg.Valid() && Inv(cfg, b)
    ensures Inv(cfg, DispatchDeflakes(cfg, b, reqs, deferred, env))
  {
    var p := PendingAll(b.claims, reqs, SlugsOf(reqs), deferred);
    PendingAllOffers(b.claims, reqs, SlugsOf(reqs), deferred);
    PendingAllMarks(b.claims, reqs, SlugsOf(reqs), deferred);
    MarksKeep(cfg, b, p.claims);
    if p.ready != [] && Busy(p.claims, None) < DispatchCap(cfg, env) && Unheld(env) && env.diskOk {
      var r := Oldest(p.ready);
      LaunchDeflakeKeeps(cfg, b.(claims := p.claims), r.slug, r.ts, env);
    }
  }

  // ------------------------------------------------------------------ every run

  lemma ReapAndResumeKeep(cfg: Config, b: Book, i: TickInput)
    requires cfg.Valid() && Inv(cfg, b)
    ensures var b1 := ResumeFailedReviews(cfg, Reap(cfg, b, i.reaped), i.failedReviews);
            Inv(cfg, HandleLines(cfg, b1, i.lines, false))
  {
    ReapKeeps(cfg, b, i.reaped);
    FailedReviewsKeep(cfg, Reap(cfg, b, i.reaped), i.failedReviews);
    HandleLinesKeep(cfg, ResumeFailedReviews(cfg, Reap(cfg, b, i.reaped), i.failedReviews), i.lines, false);
  }

  lemma RelaunchAllKeeps(cfg: Config, b: Book, start: Env, held: seq<(Ticket, Look)>)
    requires cfg.Valid() && Inv(cfg, b)
    ensures Inv(cfg, RelaunchAll(cfg, b, start, held))
  {
    RelaunchEachKeeps(cfg, b, held);
  }

  lemma DispatchKeeps(cfg: Config, b: Book, i: TickInput)
    requires cfg.Valid() && Inv(cfg, b) && i.Valid()
    ensures Inv(cfg, Dispatch(cfg, b, i).book)
  {
    if Unheld(i.remoteEnv) {
      DispatchRemoteKeeps(cfg, b, i.remoteCandidates, {}, i.remoteEnv);
    }
    var b' := DispatchRemote(cfg, b, i.remoteCandidates, i.remoteEnv).book;
    DispatchLocalKeeps(cfg, b', i.candidates, FreeSlots(cfg, b', i.env), i.env);
  }

  lemma EarlyKeeps(cfg: Config, b: Book, i: TickInput)
    requires cfg.Valid() && Inv(cfg, b)
    ensures Inv(cfg, BeforeDeflakes(cfg, b, i))
  {
    ReapAndResumeKeep(cfg, b, i);
    var b2 := HandleLines(cfg, ResumeFailedReviews(cfg, Reap(cfg, b, i.reaped), i.failedReviews), i.lines, false);
    RelaunchAllKeeps(cfg, b2, i.heldStart, i.held);
    ReleaseKeeps(cfg, RelaunchAll(cfg, b2, i.heldStart, i.held), i.releases, i.releasedAt);
  }

  // A tick keeps the invariant, as far as it gets.
  lemma TickKeeps(cfg: Config, b: Book, i: TickInput)
    requires cfg.Valid() && Inv(cfg, b) && i.Valid()
    ensures Inv(cfg, Tick(cfg, b, i).book)
  {
    EarlyKeeps(cfg, b, i);
    var early := BeforeDeflakes(cfg, b, i);
    DeflakesKeep(cfg, early, i.requests, i.deferred, i.deflakeEnv);
    DispatchKeeps(cfg, DispatchDeflakes(cfg, early, i.requests, i.deferred, i.deflakeEnv), i);
  }

  // Up to the deflake pass a tick leaves every test's request mark alone.
  lemma EarlyMarks(cfg: Config, b: Book, i: TickInput)
    requires cfg.Valid() && Inv(cfg, b)
    ensures Passes(b, BeforeDeflakes(cfg, b, i))
  {
    var b1 := HandleLines(cfg, ResumeFailedReviews(cfg, Reap(cfg, b, i.reaped), i.failedReviews), i.lines, false);
    var b2 := RelaunchAll(cfg, b1, i.heldStart, i.held);
    EarlyPasses(cfg, b, i);
    assert KeysAreDeflakes(b2) by {
      ReapAndResumeKeep(cfg, b, i);
      RelaunchAllKeeps(cfg, b1, i.heldStart, i.held);
      InvKeys(cfg, b2);
    }
    ReleasesPass(b2, i.releases, i.releasedAt);
    PassesOn(b, b2, BeforeDeflakes(cfg, b, i));
  }

  lemma InvKeys(cfg: Config, b: Book)
    requires cfg.Valid() && Inv(cfg, b)
    ensures KeysAreDeflakes(b)
  {
    forall k | k in b.claims && IsKey(k) ensures b.claims[k].deflake {
      assert ClaimInv(b.log, k, b.claims[k]);
    }
  }

  // ------------------------------------------------------------------ runs with ticks that raise

  predicate AllWithinCaps(cfg: Config, log: seq<Entry>)
    requires cfg.Valid()
  {
    forall i :: 0 <= i < |log| ==> EventInv(cfg, log[i].event)
  }

  ghost predicate NeverAgain(log: seq<Entry>) {
    forall i, j :: 0 <= i < j < |log| && log[i].Kept? && BothDeflaking(log[i].event, log[j].event) ==>
      log[i].event.requestTs < log[j].event.requestTs
  }

  // The claims file with the part of the log it accounts for keeps the invariant. Every launch, lost ones
  // too, was within its cap; and a request whose run was saved is never answered again.
  ghost predicate WorldInv(cfg: Config, w: World)
    requires cfg.Valid()
  {
    Inv(cfg, w.File()) && AllWithinCaps(cfg, w.log) && NeverAgain(w.log)
  }

  // What a turn leaves: the log with the tick's own lines, and the file of the tick that saved last.
  lemma AfterFile(w: World, r: Ticked) returns (added: seq<Event>)
    requires KeptOf(w.log) <= r.book.log
    ensures r.book.log == KeptOf(w.log) + added && After(w, r).log == w.log + Marked(added, !r.raised)
    ensures After(w, r).File() == if r.raised then w.File() else r.book
  {
    added := Added(KeptOf(w.log), r.book.log);
    KeptMarked(w.log, added, !r.raised);
  }

  // The line of the turn's log that is line j of the tick's, and back.
  lemma TurnLine(w: World, r: Ticked, j: nat) returns (p: nat)
    requires |KeptOf(w.log)| <= j < |r.book.log| && KeptOf(w.log) <= r.book.log
    ensures |w.log| <= p < |After(w, r).log| && After(w, r).log[p].event == r.book.log[j]
    ensures After(w, r).log[p].Kept? <==> !r.raised
  {
    var n := |KeptOf(w.log)|;
    var added := Added(KeptOf(w.log), r.book.log);
    assert r.book.log[j] == added[j - n];
    p := |w.log| + (j - n);
  }

  lemma TickLine(w: World, r: Ticked, p: nat) returns (j: nat)
    requires KeptOf(w.log) <= r.book.log && |w.log| <= p < |After(w, r).log|
    ensures |KeptOf(w.log)| <= j < |r.book.log| && r.book.log[j] == After(w, r).log[p].event
    ensures After(w, r).log[p].Kept? <==> !r.raised
  {
    var added := Added(KeptOf(w.log), r.book.log);
    j := |KeptOf(w.log)| + (p - |w.log|);
    assert r.book.log[j] == added[p - |w.log|];
  }

  // The tick of one turn.
  lemma TickOf(cfg: Config, w: World, w': World) returns (i: TickInput, r: Ticked)
    requires cfg.Valid() && Follows(cfg, w, w')
    ensures i.Valid() && r == Tick(cfg, w.File(), i) && w' == After(w, r) && KeptOf(w.log) <= r.book.log
  {
    i :| i.Valid() && w' == Turn(cfg, w, i);
    r := Tick(cfg, w.File(), i);
    TickLogs(cfg, w.File(), i);
  }

  lemma AfterKeeps(cfg: Config, w: World, r: Ticked)
    requires cfg.Valid() && WorldInv(cfg, w) && KeptOf(w.log) <= r.book.log && Inv(cfg, r.book)
    ensures WorldInv(cfg, After(w, r))
  {
    var w' := After(w, r);
    var added := AfterFile(w, r);
    assert Inv(cfg, w'.File());
    assert AllWithinCaps(cfg, w'.log) by { CapsOn(cfg, w.log, r.book, added, w'.log, !r.raised); }
    assert NeverAgain(w'.log) by { NeverAgainOn(w.log, r.book, added, w'.log, !r.raised); }
  }

  lemma CapsOn(cfg: Config, log: seq<Entry>, b: Book, added: seq<Event>, after: seq<Entry>, kept: bool)
    requires cfg.Valid() && b.log == KeptOf(log) + added && after == log + Marked(added, kept)
    requires AllWithinCaps(cfg, log) && forall i :: 0 <= i < |b.log| ==> EventInv(cfg, b.log[i])
    ensures AllWithinCaps(cfg, after)
  {
    forall i | 0 <= i < |after| ensures EventInv(cfg, after[i].event) {
      if i >= |log| {
        assert b.log[|KeptOf(log)| + (i - |log|)] == after[i].event;
      }
    }
  }

  lemma NeverAgainOn(log: seq<Entry>, b: Book, added: seq<Event>, after: seq<Entry>, kept: bool)
    requires NeverAgain(log) && RequestsKept(b) && b.log == KeptOf(log) + added && after == log + Marked(added, kept)
    ensures NeverAgain(after)
  {
    var n := |KeptOf(log)|;
    forall i, j | 0 <= i < j < |after| && after[i].Kept? && BothDeflaking(after[i].event, after[j].event)
      ensures after[i].event.requestTs < after[j].event.requestTs
    {
      if j >= |log| {
        assert b.log[n + (j - |log|)] == after[j].event;
        if i >= |log| {
          assert b.log[n + (i - |log|)] == after[i].event;
        } else {
          KeptIn(log, i);
          var m :| 0 <= m < n && KeptOf(log)[m] == after[i].event;
          assert b.log[m] == after[i].event;
        }
      }
    }
  }

  lemma FollowsKeeps(cfg: Config, w: World, w': World)
    requires cfg.Valid() && WorldInv(cfg, w) && Follows(cfg, w, w')
    ensures WorldInv(cfg, w')
  {
    var i, r := TickOf(cfg, w, w');
    assert Inv(cfg, r.book) by { TickKeeps(cfg, w.File(), i); }
    AfterKeeps(cfg, w, r);
  }

  lemma StartKeeps(cfg: Config)
    requires cfg.Valid()
    ensures WorldInv(cfg, EMPTY)
  {
    assert forall k, t, w :: 0 <= k <= 0 ==> Since([][..k], t, w) == 0;
  }

  lemma NextKeeps(cfg: Config, worlds: seq<World>, n: nat)
    requires cfg.Valid() && IsRun(cfg, worlds) && n + 1 < |worlds| && WorldInv(cfg, worlds[n])
    ensures WorldInv(cfg, worlds[n + 1])
  {
    TurnAt(cfg, worlds, n);
    FollowsKeeps(cfg, worlds[n], worlds[n + 1]);
  }

  // Every moment of a run is as the invariant says.
  lemma RunKeeps(cfg: Config, worlds: seq<World>, n: nat)
    requires cfg.Valid() && IsRun(cfg, worlds) && n < |worlds|
    ensures WorldInv(cfg, worlds[n])
  {
    StartKeeps(cfg);
    for i := 0 to n
      invariant WorldInv(cfg, worlds[i])
    {
      NextKeeps(cfg, worlds, i);
    }
  }
}
