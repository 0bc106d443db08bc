/** When a run that failed is started again (ops/work-runner.py).

Which resumes start and which are held, what one line of the merge gate does and does only once, what
becomes of a held fix and which claims are released: each read off the claims and what the runner sees,
with the bounds on workers as they are on the cores. */
module WorkResumes {
  import opened Wrappers
  import opened WorkClaims
  import opened WorkRunner
  import opened WorkOutcomes
  import opened Division

  // ------------------------------------------------------------------ room for one more

  // n workers on h are within its bounds: on this Mac the cap, and beside a gate one worker, or as many as
  // leave the gate its cores; on a remote host its own cap, or 2 when it has none.
  predicate Within(cfg: Config, env: Env, h: Option<Host>, n: nat) {
    match h
    case None =>
      && n <= cfg.cap
      && (env.gateSeen && !cfg.gateAlone ==> n <= 1 || n * cfg.workerCores + cfg.gateReserve <= cfg.cores)
    case Some(r) => n <= if r in env.hostCaps then env.hostCaps[r] else 2
  }

  // Running work, fix and deflake runs on h, but for t's.
  function Others(claims: Claims, h: Option<Host>, t: Ticket): set<Ticket> {
    set u | u in claims && u != t && claims[u].state == Running && claims[u].kind != Review && claims[u].host == h
  }

  // One more worker may run on h beside those others, and h is fit for it.
  predicate RoomBeside(cfg: Config, claims: Claims, h: Option<Host>, t: Ticket, env: Env) {
    && Within(cfg, env, h, |Others(claims, h, t)| + 1)
    && match h
       case None => env.loadOk
       case Some(r) => r in env.ready && r in env.fit
  }

  // The runner's cap on a host is the largest number of workers within its bounds.
  lemma CapExact(cfg: Config, env: Env, h: Option<Host>, n: nat)
    requires cfg.Valid()
    ensures n <= SlotCap(cfg, env, h) <==> Within(cfg, env, h, n)
  {
    if h == None && env.gateSeen && !cfg.gateAlone {
      FloorFits(cfg.cores - cfg.gateReserve, cfg.workerCores, n);
      FloorFits(cfg.cores - cfg.gateReserve, cfg.workerCores, 1);
    }
  }

  lemma RoomExact(cfg: Config, claims: Claims, h: Option<Host>, t: Ticket, env: Env)
    requires cfg.Valid()
    ensures HasRoom(cfg, claims, h, t, env) <==> RoomBeside(cfg, claims, h, t, env)
  {
    assert Workers(claims - {t}, h) == Others(claims, h, t);
    CapExact(cfg, env, h, |Others(claims, h, t)| + 1);
  }

  // ------------------------------------------------------------------ one resume

  // No hold is in force, there is room beside the others, and a remote launch gets through.
  predicate Starts(cfg: Config, claims: Claims, t: Ticket, h: Option<Host>, look: Look) {
    && !look.env.usageLimited && !look.env.paused && !look.env.gateHolds
    && RoomBeside(cfg, claims, h, t, look.env)
    && (h.Some? ==> look.remoteOk)
  }

  lemma LaunchFixExact(cfg: Config, claims: Claims, t: Ticket, c: Claim, fail: Failure, look: Look)
    requires cfg.Valid()
    ensures var r := LaunchFix(cfg, claims, t, c, fail, look);
            r.state == (if Starts(cfg, claims, t, c.host, look) then Running else FixHeld)
  {
    RoomExact(cfg, claims, c.host, t, look.env);
    LaunchFixState(cfg, claims, t, c, fail, look);
  }

  lemma LaunchFixState(cfg: Config, claims: Claims, t: Ticket, c: Claim, fail: Failure, look: Look)
    requires cfg.Valid()
    ensures var free := HasRoom(cfg, claims, c.host, t, look.env);
            var held := look.env.usageLimited || look.env.paused || look.env.gateHolds;
            LaunchFix(cfg, claims, t, c, fail, look).state ==
            if !held && free && (c.host.Some? ==> look.remoteOk) then Running else FixHeld
  {
    RunFixExact(c, if fail.SpendsAttempt() then c.fixAttempts + 1 else c.fixAttempts, fail, look);
  }

  lemma RunFixExact(c: Claim, attempts: nat, fail: Failure, look: Look)
    ensures RunFix(c, attempts, fail, look).state == if c.host.Some? && !look.remoteOk then FixHeld else Running
  {
  }

  // A resume starts a fix run and logs it, or is held and logs nothing.
  lemma ResumeExact(cfg: Config, b: Book, t: Ticket, c: Claim, fail: Failure, look: Look)
    requires cfg.Valid()
    ensures var b' := Resume(cfg, b, t, c, fail, look);
            && b'.claims == b.claims[t := b'.claims[t]]
            && ResumedFor(c, b'.claims[t], fail)
            && if Starts(cfg, b.claims, t, c.host, look) then
                 && b'.claims[t].state == Running && b'.claims[t].kind == Fix && b'.claims[t].started == look.env.now
                 && b'.log == b.log + [Launched(t, c.host, CauseOf(fail), b'.claims, look.env, false, c.requestTs)]
               else b'.claims[t].state == FixHeld && b'.log == b.log
  {
    LaunchFixExact(cfg, b.claims, t, c, fail, look);
    FixGives(cfg, b.claims, t, c, fail, look);
  }

  function CauseOf(fail: Failure): Cause {
    match fail
    case KilledRun => KillResume
    case TimedOutRun => WrapUp
    case _ => FixAttempt
  }

  // ------------------------------------------------------------------ one line of the merge gate

  // A queued claim that has not seen the line.
  predicate Unseen(b: Book, l: GateLine) {
    l.ticket in b.claims && b.claims[l.ticket].state == Queued && l.text !in b.claims[l.ticket].seen
  }

  // A conflict is left for another turn: the board cannot be read, the branch is being merged, or a fix that
  // is needed cannot start yet - one has started in this pass, its host is full, or a hold is on.
  predicate Postponed(cfg: Config, b: Book, l: GateLine, conflictRan: bool)
    requires l.ticket in b.claims
  {
    var c := b.claims[l.ticket];
    && l.conflict
    && (l.skip.BoardUnreadable? || l.skip.BeingMerged?
        || (&& l.skip.NeedsFix? && !c.deflake
            && (conflictRan || l.look.env.paused || l.look.env.gateHolds
                || !Within(cfg, l.look.env, c.host, |Others(b.claims, c.host, l.ticket)| + 1))))
  }

  predicate Fixable(c: Claim, look: Look) { !c.deflake && c.session && look.worktree && c.fixAttempts < 2 }

  // A line is acted on once: the claim remembers it, and where the claim goes.
  predicate LineTable(c: Claim, l: GateLine, r: Claim) {
    var needsFix := l.conflict && l.skip.NeedsFix?;
    && r.seen == c.seen + {l.text}
    && (r.state == Queued <==> l.conflict && (l.skip.NoFixNeeded? || (needsFix && !c.deflake && !Fixable(c, l.look))))
    && (r.state == GateFailed <==> !l.conflict && !Fixable(c, l.look))
    && (r.state == Conflicted <==> needsFix && c.deflake)
    && (Resuming(r.state, r.kind) <==> Fixable(c, l.look) && (!l.conflict || needsFix))
    && (Resuming(r.state, r.kind) ==> ResumedFor(c, r, if l.conflict then MergeConflict(l.text) else GateFail(l.text)))
    && (!Resuming(r.state, r.kind) ==> r == c.(seen := r.seen, state := r.state, ended := r.ended))
  }

  lemma ResumeLine(cfg: Config, b: Book, l: GateLine, c: Claim, saw: Claim)
    requires cfg.Valid() && Fixable(c, l.look) && saw == c.(seen := c.seen + {l.text})
    requires l.conflict ==> l.skip.NeedsFix?
    ensures var fail := if l.conflict then MergeConflict(l.text) else GateFail(l.text);
            LineTable(c, l, Resume(cfg, b, l.ticket, saw, fail, l.look).claims[l.ticket])
  {
    ResumeGives(cfg, b, l.ticket, saw, if l.conflict then MergeConflict(l.text) else GateFail(l.text), l.look);
  }

  lemma FullExact(cfg: Config, b: Book, t: Ticket, env: Env)
    requires cfg.Valid() && t in b.claims && b.claims[t].state == Queued
    ensures var h := b.claims[t].host;
            Busy(b.claims, h) >= SlotCap(cfg, env, h) <==> !Within(cfg, env, h, |Others(b.claims, h, t)| + 1)
  {
    var h := b.claims[t].host;
    assert Workers(b.claims, h) == Others(b.claims, h, t);
    CapExact(cfg, env, h, Busy(b.claims, h) + 1);
  }

  lemma LineLeft(cfg: Config, b: Book, l: GateLine, conflictRan: bool)
    requires cfg.Valid() && (!Unseen(b, l) || Postponed(cfg, b, l, conflictRan))
    ensures HandleLine(cfg, b, l, conflictRan) == (b, conflictRan)
  {
    if Unseen(b, l) {
      FullExact(cfg, b, l.ticket, l.look.env);
    }
  }

  lemma LineResumes(cfg: Config, b: Book, l: GateLine, conflictRan: bool)
    requires cfg.Valid() && Unseen(b, l) && !Postponed(cfg, b, l, conflictRan)
    requires Fixable(b.claims[l.ticket], l.look) && (l.conflict ==> l.skip.NeedsFix?)
    ensures var saw := b.claims[l.ticket].(seen := b.claims[l.ticket].seen + {l.text});
            var fail := if l.conflict then MergeConflict(l.text) else GateFail(l.text);
            HandleLine(cfg, b, l, conflictRan) ==
            (Resume(cfg, Put(b, l.ticket, saw), l.ticket, saw, fail, l.look), conflictRan || l.conflict)
  {
    FullExact(cfg, b, l.ticket, l.look.env);
  }

  // What a line does that is acted on.
  ghost predicate LineActs(b: Book, l: GateLine, b': Book)
    requires l.ticket in b.claims
  {
    && l.ticket in b'.claims && LineTable(b.claims[l.ticket], l, b'.claims[l.ticket])
    && b'.claims == b.claims[l.ticket := b'.claims[l.ticket]]
  }

  lemma LineParks(cfg: Config, b: Book, l: GateLine, conflictRan: bool)
    requires cfg.Valid() && Unseen(b, l) && !Postponed(cfg, b, l, conflictRan)
    requires !(Fixable(b.claims[l.ticket], l.look) && (l.conflict ==> l.skip.NeedsFix?))
    ensures var (b', ran) := HandleLine(cfg, b, l, conflictRan);
            LineActs(b, l, b') && ran == conflictRan && b'.log == b.log
  {
    FullExact(cfg, b, l.ticket, l.look.env);
  }

  // What one line of merge-needs-attention.txt does.
  lemma LineHandled(cfg: Config, b: Book, l: GateLine, conflictRan: bool)
    requires cfg.Valid()
    ensures var (b', ran) := HandleLine(cfg, b, l, conflictRan);
            if !Unseen(b, l) || Postponed(cfg, b, l, conflictRan) then b' == b && ran == conflictRan
            else
              && LineActs(b, l, b')
              && (ran <==> conflictRan || (l.conflict && l.skip.NeedsFix? && Fixable(b.claims[l.ticket], l.look)))
  {
    if !Unseen(b, l) || Postponed(cfg, b, l, conflictRan) {
      LineLeft(cfg, b, l, conflictRan);
    } else {
      var c := b.claims[l.ticket];
      if Fixable(c, l.look) && (l.conflict ==> l.skip.NeedsFix?) {
        var saw := c.(seen := c.seen + {l.text});
        LineResumes(cfg, b, l, conflictRan);
        ResumeLine(cfg, Put(b, l.ticket, saw), l, c, saw);
      } else {
        LineParks(cfg, b, l, conflictRan);
      }
    }
  }

  // A line acted on is not acted on again.
  lemma LineOnce(cfg: Config, b: Book, l: GateLine, conflictRan: bool, later: bool)
    requires cfg.Valid() && HandleLine(cfg, b, l, conflictRan).0 != b
    ensures var b' := HandleLine(cfg, b, l, conflictRan).0; HandleLine(cfg, b', l, later) == (b', later)
  {
    var b' := HandleLine(cfg, b, l, conflictRan).0;
    LineHandled(cfg, b, l, conflictRan);
    assert l.text in b'.claims[l.ticket].seen;
    LineLeft(cfg, b', l, later);
  }

  // A pass over conflicts alone starts one run at most.
  lemma {:induction false} OneConflictRun(cfg: Config, b: Book, lines: seq<GateLine>, conflictRan: bool)
    requires cfg.Valid() && forall i :: 0 <= i < |lines| ==> lines[i].conflict
    ensures |HandleLines(cfg, b, lines, conflictRan).log| <= |b.log| + if conflictRan then 0 else 1
    decreases |lines|
  {
    if lines != [] {
      var (b', ran) := HandleLine(cfg, b, lines[0], conflictRan);
      ConflictLogs(cfg, b, lines[0], conflictRan);
      OneConflictRun(cfg, b', lines[1..], ran);
    }
  }

  lemma ConflictLogs(cfg: Config, b: Book, l: GateLine, conflictRan: bool)
    requires cfg.Valid() && l.conflict
    ensures var (b', ran) := HandleLine(cfg, b, l, conflictRan);
            if ran == conflictRan then b'.log == b.log else ran && |b'.log| <= |b.log| + 1
  {
  }

  // ------------------------------------------------------------------ held fixes

  // A claim waiting to be resumed: a held fix, or a run the account limit stopped that has a session.
  predicate Held(c: Claim) { c.state == FixHeld || (c.state == Limited && c.session) }

  function HeldFor(c: Claim): Failure {
    if c.state == Limited then KilledRun else if c.failLine == None then HeldFix else c.failLine.value
  }

  // What a held claim becomes: it waits while there is no room beside the others, is given up when its
  // worktree on this Mac is gone, and is else resumed for what it was held for.
  ghost predicate Relaunched(cfg: Config, b: Book, t: Ticket, c: Claim, fail: Failure, look: Look, b': Book)
    requires cfg.Valid() && t in b'.claims
  {
    var r := b'.claims[t];
    if !RoomBeside(cfg, b.claims, c.host, t, look.env) then r.state == FixHeld && SameCounters(c, r) && b'.log == b.log
    else if c.host == None && !look.worktree then r.state == GateFailed && SameCounters(c, r) && b'.log == b.log
    else
      && ResumedFor(c, r, fail)
      && if Starts(cfg, b.claims, t, c.host, look) then
           r.state == Running && b'.log == b.log + [Launched(t, c.host, CauseOf(fail), b'.claims, look.env, false,
                                                             c.requestTs)]
         else r.state == FixHeld && b'.log == b.log
  }

  lemma RelaunchHeldExact(cfg: Config, b: Book, t: Ticket, look: Look)
    requires cfg.Valid() && t in b.claims && b.claims[t].state == FixHeld
    ensures var (c, b') := (b.claims[t], RelaunchHeld(cfg, b, t, look));
            && b'.claims.Keys == b.claims.Keys && b'.claims == b.claims[t := b'.claims[t]]
            && Relaunched(cfg, b, t, c, HeldFor(c), look, b')
  {
    var c := b.claims[t];
    var b' := RelaunchHeld(cfg, b, t, look);
    RoomExact(cfg, b.claims, c.host, t, look.env);
    if !RoomBeside(cfg, b.claims, c.host, t, look.env) {
      assert b' == b && b.claims == b.claims[t := c];
    } else if c.host == None && !look.worktree {
      assert b' == Put(b, t, c.(state := GateFailed));
    } else {
      assert b' == Resume(cfg, b, t, c.(kind := Work), HeldFor(c), look);
      HeldResumes(cfg, b, t, c, c.(kind := Work), look);
    }
  }

  lemma HeldResumes(cfg: Config, b: Book, t: Ticket, c: Claim, w: Claim, look: Look)
    requires cfg.Valid() && t in b.claims && c.state == FixHeld && w == c.(kind := Work)
    requires RoomBeside(cfg, b.claims, c.host, t, look.env) && (c.host == None ==> look.worktree)
    ensures var b' := Resume(cfg, b, t, w, HeldFor(c), look);
            && b'.claims.Keys == b.claims.Keys && b'.claims == b.claims[t := b'.claims[t]]
            && Relaunched(cfg, b, t, c, HeldFor(c), look, b')
  {
    ResumeExact(cfg, b, t, w, HeldFor(c), look);
  }

  lemma RelaunchedAs(cfg: Config, b: Book, held: Book, t: Ticket, c: Claim, h: Claim, look: Look, b': Book)
    requires cfg.Valid() && t in b.claims && t in b'.claims && b.claims[t] == c && c.state != Running
    requires h == Hold(c, KilledRun) && held == Put(b, t, h) && Relaunched(cfg, held, t, h, KilledRun, look, b')
    ensures Relaunched(cfg, b, t, c, KilledRun, look, b')
  {
    assert Others(held.claims, c.host, t) == Others(b.claims, c.host, t);
  }

  // relaunch_held_fixes, for one claim.
  lemma RelaunchExact(cfg: Config, b: Book, t: Ticket, look: Look)
    requires cfg.Valid() && t in b.claims
    ensures var (c, b') := (b.claims[t], RelaunchOne(cfg, b, t, look));
            && b'.claims.Keys == b.claims.Keys && b'.claims == b.claims[t := b'.claims[t]]
            && if Held(c) then Relaunched(cfg, b, t, c, HeldFor(c), look, b')
               else b' == if c.state == Limited then Put(b, t, c.(state := Killed)) else b
  {
    var c := b.claims[t];
    assert b.claims == b.claims[t := c];
    if c.state == FixHeld {
      RelaunchHeldExact(cfg, b, t, look);
    } else if Held(c) {
      LimitedExact(cfg, b, t, look);
    }
  }

  lemma LimitedExact(cfg: Config, b: Book, t: Ticket, look: Look)
    requires cfg.Valid() && t in b.claims && b.claims[t].state == Limited && b.claims[t].session
    ensures var (c, b') := (b.claims[t], RelaunchOne(cfg, b, t, look));
            && b'.claims.Keys == b.claims.Keys && b'.claims == b.claims[t := b'.claims[t]]
            && Relaunched(cfg, b, t, c, KilledRun, look, b')
  {
    var c := b.claims[t];
    var h := Hold(c, KilledRun);
    assert RelaunchOne(cfg, b, t, look) == RelaunchHeld(cfg, Put(b, t, h), t, look);
    RelaunchHeldExact(cfg, Put(b, t, h), t, look);
    RelaunchedAs(cfg, b, Put(b, t, h), t, c, h, look, RelaunchHeld(cfg, Put(b, t, h), t, look));
  }

  // Nothing held is resumed through a hold.
  lemma HoldsStopRelaunch(cfg: Config, b: Book, start: Env, looks: seq<(Ticket, Look)>)
    requires cfg.Valid() && (start.paused || start.gateHolds || start.usageLimited)
    ensures RelaunchAll(cfg, b, start, looks) == b
  {
  }

  // ------------------------------------------------------------------ released claims

  // A claim is removed exactly when it is freed, is no deflake and its run came to nothing; it is closed
  // exactly when it is queued and its branch has landed. Nothing else changes.
  lemma ReleaseExact(b: Book, r: Release, now: int)
    requires r.ticket in b.claims
    ensures var (t, c, b') := (r.ticket, b.claims[r.ticket], ReleaseOne(b, r, now));
            && b'.log == b.log && (forall u :: u != t ==> (u in b'.claims <==> u in b.claims))
            && (forall u :: u != t && u in b.claims ==> b'.claims[u] == b.claims[u])
            && (t !in b'.claims <==>
                  r == Free(t) && !c.deflake && (c.state == NoWork || c.state == Error || c.state == TimedOut
                                                 || c.state == Killed || c.state == ReapError))
            && (t in b'.claims ==>
                  b'.claims[t] ==
                  if r == Close(t) && c.state == Queued then c.(state := Merged, ended := Some(now)) else c)
  {
  }
}
