/** The work runner's claims and the decisions made about one of them (ops/work-runner.py).

A claim is the runner's record of one ticket's run. What the runner reads from outside - process
tables, git, result files, holds, clocks, probes - arrives as inputs: `Env` for the holds and caps in
force at a decision, `Observed` for what reaping one claim found, `Look` for what a resume needs. */
module WorkClaims {
  import opened Wrappers

  type Ticket = string
  type Host = string
  type Line = string

  const FIX_ATTEMPTS: nat := 2
  const KILL_RESUMES: nat := 2
  const TIMEOUT_RESUMES: nat := 1
  const REMOTE_DEFAULT_CAP: nat := 2

  datatype Kind = Work | Fix | Review | Deflake

  datatype State =
    | Running | TimedOut | SyncError | Limited | FixHeld | Queued | ReviewFailed | GateFailed | Killed | Error
    | Blocked | CancelProposed | Uncommitted | NoWork | Conflicted | Merged | ReapError

  // Why a fix run is wanted: the fail line, by the prefix launch_fix tells apart.
  datatype Failure =
    | KilledRun | TimedOutRun | ReviewFail | UncommittedWork | GateFail(line: Line) | MergeConflict(line: Line)
    | HeldFix
  {
    // A resume of a killed or timed-out run is not a fix attempt: nothing failed.
    predicate SpendsAttempt() { !KilledRun? && !TimedOutRun? }
  }

  datatype Claim = Claim(
    state: State, kind: Kind, host: Option<Host>, session: bool, review: bool, deflake: bool, detached: bool,
    fixAttempts: nat, killResumes: nat, timeoutResumes: nat, failLine: Option<Failure>, seen: set<Line>,
    started: int, ended: Option<int>, requestTs: int)

  type Claims = map<Ticket, Claim>

  // ------------------------------------------------------------------ holds and caps

  datatype Config = Config(cores: nat, gateReserve: nat, workerCores: nat, cap: nat, perTick: nat, gateAlone: bool)
  {
    predicate Valid() { workerCores > 0 }

    // max(1, (CORES - GATE_RESERVE) // WORKER_CORES), Python's floor division.
    function ReserveCap(): (n: nat)
      requires Valid()
    {
      var n := (cores - gateReserve) / workerCores;
      if n < 1 then 1 else n
    }
  }

  // What the runner sees of the box and its hosts at one decision. `gateSeen` says that a gate is
  // running or was seen within RESERVE_GRACE_S; `fit` names the hosts whose load and disk bounds hold.
  datatype Env = Env(
    now: int, usageLimited: bool, paused: bool, gateHolds: bool, gateSeen: bool, loadOk: bool, diskOk: bool,
    queueDepth: nat, hosts: seq<Host>, hostCaps: map<Host, nat>, ready: set<Host>, fit: set<Host>)

  // dispatch_cap
  function DispatchCap(cfg: Config, env: Env): nat
    requires cfg.Valid()
  {
    if cfg.gateAlone then cfg.cap
    else if env.gateSeen && cfg.ReserveCap() < cfg.cap then cfg.ReserveCap()
    else cfg.cap
  }

  // slot_cap
  function SlotCap(cfg: Config, env: Env, h: Option<Host>): nat
    requires cfg.Valid()
  {
    match h
    case None => DispatchCap(cfg, env)
    case Some(r) => if r in env.hostCaps then env.hostCaps[r] else REMOTE_DEFAULT_CAP
  }

  predicate IsWorker(c: Claim, h: Option<Host>) {
    c.state == Running && c.kind != Review && c.host == h
  }

  function Workers(claims: Claims, h: Option<Host>): set<Ticket> {
    set t | t in claims && IsWorker(claims[t], h)
  }

  // busy_workers: running work, fix and deflake runs on one host.
  function Busy(claims: Claims, h: Option<Host>): nat { |Workers(claims, h)| }

  // host_room with `exclude`: may one more worker start on h?
  predicate HasRoom(cfg: Config, claims: Claims, h: Option<Host>, exclude: Ticket, env: Env)
    requires cfg.Valid()
  {
    && Busy(claims - {exclude}, h) < SlotCap(cfg, env, h)
    && match h
       case None => env.loadOk
       case Some(r) => r in env.ready && r in env.fit
  }

  // ------------------------------------------------------------------ what is recorded

  datatype Cause = NewWork | FixAttempt | WrapUp | KillResume | Deflaking

  // One line of the runner's log. A worker launch carries the claims right after it and what the runner
  // saw when it decided on it.
  datatype Event =
    | Launched(ticket: Ticket, host: Option<Host>, cause: Cause, claims: Claims, env: Env, named: bool, requestTs: int)
    | HitLimit(ticket: Ticket)

  // The claims and the log written so far.
  datatype Book = Book(claims: Claims, log: seq<Event>)

  function LaunchEvent(claims: Claims, t: Ticket, cause: Cause, named: bool, env: Env): Event
    requires t in claims
  {
    Launched(t, claims[t].host, cause, claims, env, named, claims[t].requestTs)
  }

  // Put claim c under t and, when that started a worker, log it.
  function Record(cfg: Config, b: Book, t: Ticket, c: Claim, cause: Option<Cause>, named: bool, env: Env): Book
    requires cfg.Valid()
  {
    var claims := b.claims[t := c];
    Book(claims, match cause case None => b.log case Some(w) => b.log + [LaunchEvent(claims, t, w, named, env)])
  }

  // ------------------------------------------------------------------ fix runs

  // What a resume depends on outside the claim: its worktree, the remote side of the launch, and the
  // holds in force.
  datatype Look = Look(worktree: bool, remoteOk: bool, env: Env)

  function Hold(c: Claim, fail: Failure): Claim { c.(state := FixHeld, failLine := Some(fail)) }

  // _run_fix: a remote launch can fail, and then the fix is held.
  function RunFix(c: Claim, attempts: nat, fail: Failure, look: Look): Claim {
    if c.host.Some? && !look.remoteOk then Hold(c, fail)
    else c.(state := Running, kind := Fix, started := look.env.now, fixAttempts := attempts,
            detached := if c.host.Some? then false else c.detached,
            failLine := if c.host.Some? then None else c.failLine)
  }

  // launch_fix: held while a hold is in force or its host is full, else run.
  function LaunchFix(cfg: Config, claims: Claims, t: Ticket, c: Claim, fail: Failure, look: Look): Claim
    requires cfg.Valid()
  {
    if look.env.usageLimited || look.env.paused || look.env.gateHolds then Hold(c, fail)
    else if !HasRoom(cfg, claims, c.host, t, look.env) then Hold(c, fail)
    else if fail.SpendsAttempt() then RunFix(c, c.fixAttempts + 1, fail, look)
    else
      var r := RunFix(c, c.fixAttempts, fail, look);
      if r.state == FixHeld then r
      else if fail.KilledRun? then r.(killResumes := c.killResumes + 1)
      else r.(timeoutResumes := c.timeoutResumes + 1)
  }

  function FixCause(fail: Failure): Cause {
    if fail.KilledRun? then KillResume else if fail.TimedOutRun? then WrapUp else FixAttempt
  }

  // claims[tid] = launch_fix(c, ...)
  function Resume(cfg: Config, b: Book, t: Ticket, c: Claim, fail: Failure, look: Look): Book
    requires cfg.Valid()
  {
    var r := LaunchFix(cfg, b.claims, t, c, fail, look);
    Record(cfg, b, t, r, if r.state == Running then Some(FixCause(fail)) else None, false, look.env)
  }

  function Put(b: Book, t: Ticket, c: Claim): Book { b.(claims := b.claims[t := c]) }

  // ------------------------------------------------------------------ reaping one claim

  datatype RemoteRun = RunGoesOn | Unreachable | SyncFailed(diverged: bool) | Synced

  datatype Outcome = Done | BlockedOut | Cancel

  // What _reap_one finds for one claim. `gone` says the stopped run's whole group exited;
  // `sessionKnown` that the result names a session; `noResult` that the run left neither result
  // nor hand-back.
  datatype Observed = Observed(
    alive: bool, overLimit: bool, gone: bool, remote: RemoteRun, pass: bool, sessionKnown: bool, limited: bool,
    noResult: bool, isError: bool, outcome: Outcome, ahead: bool, dirty: bool, look: Look)

  // reap_deflake: a finished deflaker goes to review, a finished review to the queue.
  function DeflakeEnd(c: Claim, o: Observed): Claim {
    var e := c.(ended := Some(o.look.env.now));
    if c.kind == Review then e.(state := if o.pass then Queued else ReviewFailed)
    else
      var s := e.(session := c.session || o.sessionKnown);
      if o.isError then s.(state := Error)
      else if o.outcome != Done then s.(state := Blocked)
      else if o.dirty then s.(state := Uncommitted)
      else if !o.ahead then s.(state := NoWork)
      else StartReview(s, o.look.env.now)
  }

  // A ticket's review has ended.
  function ReapReview(cfg: Config, b: Book, t: Ticket, c: Claim, o: Observed): Book
    requires cfg.Valid()
  {
    if o.pass then Put(b, t, c.(state := Queued))
    else if c.session && c.fixAttempts < FIX_ATTEMPTS && o.look.worktree then
      Resume(cfg, b, t, c.(kind := Work), ReviewFail, o.look)
    else Put(b, t, c.(state := ReviewFailed))
  }

  // Where a judged work or fix run goes when nothing is resumed.
  function WorkEnd(c: Claim, o: Observed): Claim {
    if o.isError then c.(state := Error)
    else if o.outcome == BlockedOut then c.(state := Blocked)
    else if o.outcome == Cancel then
      if o.ahead && !o.dirty then StartReview(c, o.look.env.now) else c.(state := CancelProposed)
    else if o.dirty then c.(state := Uncommitted)
    else if !o.ahead then c.(state := NoWork)
    else if c.review then StartReview(c, o.look.env.now)
    else c.(state := Queued)
  }

  // A work or fix run has ended.
  function ReapWork(cfg: Config, b: Book, t: Ticket, c0: Claim, o: Observed): Book
    requires cfg.Valid()
  {
    var c := c0.(session := c0.session || o.sessionKnown);
    if o.limited then Book(b.claims[t := c.(state := Limited)], b.log + [HitLimit(t)])
    else if o.noResult then
      if c.session && c.killResumes < KILL_RESUMES && o.look.worktree then
        Resume(cfg, b, t, c.(kind := Work), KilledRun, o.look)
      else Put(b, t, c.(state := Killed))
    else if !o.isError && o.outcome == Done && o.dirty && c.session && c.fixAttempts < FIX_ATTEMPTS then
      Resume(cfg, b, t, c.(kind := Work), UncommittedWork, o.look)
    else Put(b, t, WorkEnd(c, o))
  }

  // launch_review: a review is not a worker.
  function StartReview(c: Claim, now: int): Claim { c.(state := Running, kind := Review, started := now) }

  // A run that goes on: left alone, or stopped at its time limit and once wrapped up.
  function ReapAlive(cfg: Config, b: Book, t: Ticket, o: Observed): Book
    requires cfg.Valid() && t in b.claims
  {
    var c := b.claims[t];
    if !o.overLimit then b
    else
      var s := c.(state := TimedOut, ended := Some(o.look.env.now));
      if c.kind == Work && c.session && c.timeoutResumes < TIMEOUT_RESUMES && o.look.worktree && o.gone then
        Resume(cfg, Put(b, t, s), t, s, TimedOutRun, o.look)
      else Put(b, t, s)
  }

  // A worker on a remote host.
  predicate Away(c: Claim) { c.host.Some? && c.kind != Review }

  // Its results are not here yet. A claim held for a sync error only waits for the sync.
  predicate StillAway(c: Claim, o: Observed) {
    Away(c) && (o.remote.SyncFailed? || (c.state != SyncError && (o.remote.RunGoesOn? || o.remote.Unreachable?)))
  }

  function Waiting(c: Claim, o: Observed): Claim {
    match o.remote
    case SyncFailed(diverged) => if diverged then c.(state := SyncError) else c
    case _ => c.(detached := o.remote.Unreachable?)
  }

  // Its results are here, from whichever host.
  function Arrived(c: Claim): Claim { if Away(c) then c.(detached := false, state := Running) else c }

  // _reap_one
  function ReapOne(cfg: Config, b: Book, t: Ticket, o: Observed): Book
    requires cfg.Valid()
  {
    if t !in b.claims || (b.claims[t].state != Running && b.claims[t].state != SyncError) then b
    else
      var c := b.claims[t];
      if c.state != SyncError && o.alive && !c.detached then ReapAlive(cfg, b, t, o)
      else if StillAway(c, o) then Put(b, t, Waiting(c, o))
      else Judge(cfg, b, t, Arrived(c), o)
  }

  // The run is over and its results are here. The claim reads `running` until it is judged, so a
  // resume finds its own slot free only because host_room excludes it.
  function Judge(cfg: Config, b: Book, t: Ticket, c: Claim, o: Observed): Book
    requires cfg.Valid()
  {
    var b' := Put(b, t, c);
    if c.deflake then Put(b', t, DeflakeEnd(c, o))
    else if c.kind == Review then ReapReview(cfg, b', t, c, o)
    else ReapWork(cfg, b', t, c, o)
  }
}
