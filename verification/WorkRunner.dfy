/** The work runner's tick (ops/work-runner.py): the passes over the claims, each first as a function of
the book, then as a method of `Runner` that updates the claims and the log in place. A tick that raises
loses its claims: the next one starts from the file the last whole tick saved. */
module WorkRunner {
  import opened Wrappers
  import opened Chains
  import opened WorkClaims
  import opened WorkDeflakes
  import opened WorkJournal

  // ------------------------------------------------------------------ reaping

  // One claim's reap: judged, or it raised - and the last of REAP_ERRORS in a row stops the claim.
  datatype Reaping = Judged(found: Observed) | Raised(last: bool)

  function ReapEntry(cfg: Config, b: Book, t: Ticket, r: Reaping): Book
    requires cfg.Valid()
  {
    match r
    case Judged(o) => ReapOne(cfg, b, t, o)
    case Raised(last) => if last && t in b.claims then Put(b, t, b.claims[t].(state := ReapError)) else b
  }

  function Reap(cfg: Config, b: Book, claims: seq<(Ticket, Reaping)>): Book
    requires cfg.Valid()
    decreases |claims|
  {
    if claims == [] then b else Reap(cfg, ReapEntry(cfg, b, claims[0].0, claims[0].1), claims[1..])
  }

  // ------------------------------------------------------------------ gate failures

  // Claims left in review-failed get their fix run.
  function ResumeFailedReviews(cfg: Config, b: Book, looks: seq<(Ticket, Look)>): Book
    requires cfg.Valid()
    decreases |looks|
  {
    if looks == [] then b
    else
      var (t, look) := looks[0];
      var b' := if t in b.claims && !b.claims[t].deflake && b.claims[t].state == ReviewFailed && b.claims[t].session
                   && b.claims[t].fixAttempts < FIX_ATTEMPTS && look.worktree
                then Resume(cfg, b, t, b.claims[t].(kind := Work), ReviewFail, look)
                else b;
      ResumeFailedReviews(cfg, b', looks[1..])
  }

  // What conflict_skip answers about a conflict line.
  datatype Skip = BoardUnreadable | BeingMerged | NoFixNeeded | NeedsFix

  // One line of merge-needs-attention.txt, resolved to the claim whose branch it names.
  datatype GateLine = GateLine(text: Line, ticket: Ticket, conflict: bool, skip: Skip, look: Look)

  // One line; the flag says whether it took the tick's one conflict run.
  function HandleLine(cfg: Config, b: Book, l: GateLine, conflictRan: bool): (Book, bool)
    requires cfg.Valid()
  {
    var t := l.ticket;
    if t !in b.claims || l.text in b.claims[t].seen || b.claims[t].state != Queued then (b, conflictRan)
    else
      var c := b.claims[t];
      var saw := c.(seen := c.seen + {l.text});
      var now := Some(l.look.env.now);
      if c.deflake && !l.conflict then (Put(b, t, saw.(state := GateFailed, ended := now)), conflictRan)
      else if l.conflict && (l.skip.BoardUnreadable? || l.skip.BeingMerged?) then (b, conflictRan)
      else if l.conflict && l.skip.NoFixNeeded? then (Put(b, t, saw), conflictRan)
      else if l.conflict && c.deflake then (Put(b, t, saw.(state := Conflicted, ended := now)), conflictRan)
      else if l.conflict && (conflictRan || Busy(b.claims, c.host) >= SlotCap(cfg, l.look.env, c.host)
                             || l.look.env.paused || l.look.env.gateHolds) then (b, conflictRan)
      else if !c.session || !l.look.worktree || c.fixAttempts >= FIX_ATTEMPTS then
        (Put(b, t, if l.conflict then saw else saw.(state := GateFailed)), conflictRan)
      else
        (Resume(cfg, Put(b, t, saw), t, saw, if l.conflict then MergeConflict(l.text) else GateFail(l.text), l.look),
         conflictRan || l.conflict)
  }

  function HandleLines(cfg: Config, b: Book, lines: seq<GateLine>, conflictRan: bool): Book
    requires cfg.Valid()
    decreases |lines|
  {
    if lines == [] then b
    else
      var (b', ran) := HandleLine(cfg, b, lines[0], conflictRan);
      HandleLines(cfg, b', lines[1..], ran)
  }

  // ------------------------------------------------------------------ held fixes

  function RelaunchOne(cfg: Config, b: Book, t: Ticket, look: Look): Book
    requires cfg.Valid()
  {
    if t !in b.claims then b
    else
      var c := b.claims[t];
      if c.state == Limited && !c.session then Put(b, t, c.(state := Killed))
      else if c.state == Limited then RelaunchHeld(cfg, Put(b, t, Hold(c, KilledRun)), t, look)
      else if c.state == FixHeld then RelaunchHeld(cfg, b, t, look)
      else b
  }

  function RelaunchHeld(cfg: Config, b: Book, t: Ticket, look: Look): Book
    requires cfg.Valid() && t in b.claims
  {
    var c := b.claims[t];
    if !HasRoom(cfg, b.claims, c.host, t, look.env) then b
    else if c.host == None && !look.worktree then Put(b, t, c.(state := GateFailed))
    else Resume(cfg, b, t, c.(kind := Work), if c.failLine.Some? then c.failLine.value else HeldFix, look)
  }

  // relaunch_held_fixes; `start` is what the pass sees before its loop.
  function RelaunchAll(cfg: Config, b: Book, start: Env, looks: seq<(Ticket, Look)>): Book
    requires cfg.Valid()
  {
    if start.paused || start.gateHolds || start.usageLimited then b else RelaunchEach(cfg, b, looks)
  }

  function RelaunchEach(cfg: Config, b: Book, looks: seq<(Ticket, Look)>): Book
    requires cfg.Valid()
    decreases |looks|
  {
    if looks == [] then b else RelaunchEach(cfg, RelaunchOne(cfg, b, looks[0].0, looks[0].1), looks[1..])
  }

  // ------------------------------------------------------------------ releasing

  // release_stale_claims: landed branches close their claims, and a dead run's ticket is freed. A
  // deflake claim is no board ticket, so it is never freed.
  datatype Release = Close(ticket: Ticket) | Free(ticket: Ticket)

  function ReleaseOne(b: Book, r: Release, now: int): Book {
    if r.ticket !in b.claims then b
    else
      var c := b.claims[r.ticket];
      if r.Close? then
        if c.state == Queued then Put(b, r.ticket, c.(state := Merged, ended := Some(now))) else b
      else if !c.deflake && c.state in {NoWork, Error, TimedOut, Killed, ReapError} then
        b.(claims := b.claims - {r.ticket})
      else b
  }

  function ReleaseEach(b: Book, rs: seq<Release>, now: int): Book
    decreases |rs|
  {
    if rs == [] then b else ReleaseEach(ReleaseOne(b, rs[0], now), rs[1..], now)
  }

  // ------------------------------------------------------------------ dispatch

  // What launch does: it starts the run; its remote host could not be prepared; or it raises, as when
  // `git worktree add` fails.
  datatype Launch = Starts | NotPrepared | Raises

  // A ticket `candidates` lists. `named` by hand for a remote host; `groupFull` once its parallel
  // group has GROUP_CAP runs.
  datatype Candidate = Candidate(
    ticket: Ticket, named: bool, eligible: bool, groupFull: bool, review: bool, launch: Launch)

  // The book a tick has got to, and whether it raised there.
  datatype Ticked = Ticked(book: Book, raised: bool)

  function NewClaim(c: Candidate, h: Option<Host>, now: int): Claim {
    Claim(Running, Work, h, true, c.review, false, false, 0, 0, 0, None, {}, now, None, 0)
  }

  function LaunchWork(cfg: Config, b: Book, c: Candidate, h: Option<Host>, env: Env): Book
    requires cfg.Valid()
  {
    Record(cfg, b, c.ticket, NewClaim(c, h, env.now), Some(NewWork), c.named, env)
  }

  // host_for: hand-named tickets go to the first host whatever its cap, others to the first with room.
  function HostFor(cfg: Config, b: Book, c: Candidate, env: Env): Option<Host>
    requires cfg.Valid()
  {
    if env.hosts == [] then None
    else if c.named then Some(env.hosts[0])
    else if !c.eligible then None
    else FirstWithRoom(cfg, b, c.ticket, env, env.hosts)
  }

  function FirstWithRoom(cfg: Config, b: Book, t: Ticket, env: Env, hosts: seq<Host>): Option<Host>
    requires cfg.Valid()
  {
    if hosts == [] then None
    else if HasRoom(cfg, b.claims, Some(hosts[0]), t, env) then Some(hosts[0])
    else FirstWithRoom(cfg, b, t, env, hosts[1..])
  }

  // dispatch_remote's loop: at most one launch per host.
  function DispatchRemoteEach(cfg: Config, b: Book, cs: seq<Candidate>, launched: set<Host>, env: Env): Ticked
    requires cfg.Valid()
    decreases |cs|
  {
    if cs == [] then Ticked(b, false)
    else
      var c := cs[0];
      var h := HostFor(cfg, b, c, env);
      if c.ticket in b.claims || h.None? || h.value in launched || c.groupFull || c.launch.NotPrepared? then
        DispatchRemoteEach(cfg, b, cs[1..], launched, env)
      else if c.launch.Raises? then Ticked(b, true)
      else DispatchRemoteEach(cfg, LaunchWork(cfg, b, c, h, env), cs[1..], launched + {h.value}, env)
  }

  function DispatchRemote(cfg: Config, b: Book, cs: seq<Candidate>, env: Env): Ticked
    requires cfg.Valid()
  {
    if env.hosts == [] || env.paused || env.gateHolds || env.usageLimited then Ticked(b, false)
    else DispatchRemoteEach(cfg, b, cs, {}, env)
  }

  // dispatch's loop on this Mac, `free` slots left. There is no host to prepare: a launch starts or raises.
  function DispatchLocalEach(cfg: Config, b: Book, cs: seq<Candidate>, free: nat, env: Env): Ticked
    requires cfg.Valid()
    decreases |cs|
  {
    if cs == [] || free == 0 then Ticked(b, false)
    else
      var c := cs[0];
      if c.ticket in b.claims || c.named || c.groupFull then DispatchLocalEach(cfg, b, cs[1..], free, env)
      else if c.launch.Raises? then Ticked(b, true)
      else DispatchLocalEach(cfg, LaunchWork(cfg, b, c, None, env), cs[1..], free - 1, env)
  }

  // Work runs started here and not on a remote host.
  function LocalWork(claims: Claims): set<Ticket> {
    set t | t in claims && claims[t].state == Running && claims[t].kind == Work && claims[t].host == None
  }

  const QUEUE_PAUSE: nat := 6

  // How many runs dispatch may start on this Mac now.
  function FreeSlots(cfg: Config, b: Book, env: Env): nat
    requires cfg.Valid()
  {
    var cap, busy := DispatchCap(cfg, env), Busy(b.claims, None);
    if busy >= cap || env.usageLimited || !env.diskOk || !env.loadOk || env.paused || env.gateHolds
       || (cfg.gateAlone && env.queueDepth >= QUEUE_PAUSE)
       || (cfg.gateAlone && env.queueDepth > 0 && LocalWork(b.claims) == {}) then 0
    else if cap - busy < cfg.perTick then cap - busy else cfg.perTick
  }

  // dispatch's own part, after dispatch_remote.
  function DispatchLocal(cfg: Config, b: Book, cs: seq<Candidate>, env: Env): Ticked
    requires cfg.Valid()
  {
    DispatchLocalEach(cfg, b, cs, FreeSlots(cfg, b, env), env)
  }

  // ------------------------------------------------------------------ a tick

  // Everything one tick reads from outside, pass by pass. `saves` is false when the tick raises somewhere
  // else before it saves its claims, or is stopped there; the lists then hold what it got through.
  datatype TickInput = TickInput(
    reaped: seq<(Ticket, Reaping)>, failedReviews: seq<(Ticket, Look)>, lines: seq<GateLine>,
    heldStart: Env, held: seq<(Ticket, Look)>, releases: seq<Release>, releasedAt: int,
    requests: seq<Request>, deferred: set<string>, deflakeEnv: Env,
    remoteCandidates: seq<Candidate>, remoteEnv: Env, candidates: seq<Candidate>, env: Env, saves: bool)
  {
    // Candidates are board tickets, which no deflake key is.
    predicate Valid() {
      && (forall i :: 0 <= i < |remoteCandidates| ==> !IsKey(remoteCandidates[i].ticket))
      && (forall i :: 0 <= i < |candidates| ==> !IsKey(candidates[i].ticket))
    }
  }

  // A tick up to its deflake pass.
  function BeforeDeflakes(cfg: Config, b: Book, i: TickInput): Book
    requires cfg.Valid()
  {
    var b1 := Reap(cfg, b, i.reaped);
    var b2 := HandleLines(cfg, ResumeFailedReviews(cfg, b1, i.failedReviews), i.lines, false);
    ReleaseEach(RelaunchAll(cfg, b2, i.heldStart, i.held), i.releases, i.releasedAt)
  }

  // dispatch: the remote hosts, then this Mac.
  function Dispatch(cfg: Config, b: Book, i: TickInput): Ticked
    requires cfg.Valid()
  {
    var r := DispatchRemote(cfg, b, i.remoteCandidates, i.remoteEnv);
    if r.raised then r else DispatchLocal(cfg, r.book, i.candidates, i.env)
  }

  // tick
  function Tick(cfg: Config, b: Book, i: TickInput): Ticked
    requires cfg.Valid()
  {
    var b' := DispatchDeflakes(cfg, BeforeDeflakes(cfg, b, i), i.requests, i.deferred, i.deflakeEnv);
    var r := Dispatch(cfg, b', i);
    r.(raised := r.raised || !i.saves)
  }

  // ------------------------------------------------------------------ a run

  // What lasts from tick to tick: the claims file, and the log of everything that was done.
  datatype World = World(claims: Claims, log: seq<Entry>)
  {
    // The claims, and the part of the log they account for.
    function File(): Book { Book(claims, KeptOf(log)) }

    // The claims beside everything that was done.
    function Done(): Book { Book(claims, Events(log)) }
  }

  // A tick that raises before it saves leaves the claims file as it was; what it started runs.
  function After(w: World, r: Ticked): World {
    World(if r.raised then w.claims else r.book.claims,
          w.log + Marked(Added(KeptOf(w.log), r.book.log), !r.raised))
  }

  // One turn of main's loop.
  function Turn(cfg: Config, w: World, i: TickInput): World
    requires cfg.Valid()
  {
    After(w, Tick(cfg, w.File(), i))
  }

  // What a runner starts from.
  const EMPTY: World := World(map[], [])

  // One turn leads from w to w', with some inputs.
  ghost predicate Follows(cfg: Config, w: World, w': World)
    requires cfg.Valid()
  {
    exists i: TickInput :: i.Valid() && w' == Turn(cfg, w, i)
  }

  ghost function Turns(cfg: Config): (World, World) -> bool
    requires cfg.Valid()
  {
    (w, w') => Follows(cfg, w, w')
  }

  // A run, turn after turn, from an empty start. Any turn of it may raise.
  ghost predicate IsRun(cfg: Config, worlds: seq<World>)
    requires cfg.Valid()
  {
    worlds != [] && worlds[0] == EMPTY && Linked(Turns(cfg), worlds)
  }

  lemma TurnAt(cfg: Config, worlds: seq<World>, n: nat)
    requires cfg.Valid() && IsRun(cfg, worlds) && n + 1 < |worlds|
    ensures Follows(cfg, worlds[n], worlds[n + 1])
  {
    assert LinkAt(Turns(cfg), worlds, n);
  }

  // ------------------------------------------------------------------ the runner

  // pending_deflakes part way: `ready` so far, `slugs` to go.
  function PendingFrom(claims: Claims, ready: seq<Ready>, requests: seq<Request>, slugs: seq<string>,
                       deferred: set<string>)
    : AllPending
  {
    var rest := PendingAll(claims, requests, slugs, deferred);
    AllPending(rest.claims, ready + rest.ready)
  }

  lemma PendingFromStep(claims: Claims, ready: seq<Ready>, requests: seq<Request>, slugs: seq<string>,
                        deferred: set<string>)
    requires slugs != []
    ensures var p := PendingOne(claims, requests, slugs[0], slugs[0] in deferred);
            PendingFrom(claims, ready, requests, slugs, deferred) ==
            PendingFrom(p.claims, if p.ready.Some? then ready + [p.ready.value] else ready, requests, slugs[1..],
                        deferred)
  {
    var p := PendingOne(claims, requests, slugs[0], slugs[0] in deferred);
    var rest := PendingAll(p.claims, requests, slugs[1..], deferred).ready;
    if p.ready.Some? {
      assert ready + ([p.ready.value] + rest) == (ready + [p.ready.value]) + rest;
    } else {
      assert ready + ([] + rest) == ready + rest;
    }
  }

  lemma PutTwice(b: Book, t: Ticket, c: Claim)
    ensures Put(Put(b, t, c), t, c) == Put(b, t, c)
    ensures t in b.claims && b.claims[t] == c ==> Put(b, t, c) == b
  {
    assert b.claims[t := c][t := c] == b.claims[t := c];
    if t in b.claims && b.claims[t] == c {
      assert b.claims[t := c] == b.claims;
    }
  }

  // The runner process: the claims file and the log of everything done; and, during a tick, the claims
  // dictionary it changes in place and the log that goes with it.
  class Runner {
    const cfg: Config
    var saved: Claims
    var done: seq<Entry>
    var claims: Claims
    var log: seq<Event>

    function Lasting(): World
      reads this
    {
      World(saved, done)
    }

    function State(): Book
      reads this
    {
      Book(claims, log)
    }

    constructor (cfg: Config)
      requires cfg.Valid()
      ensures this.cfg == cfg && Lasting() == EMPTY
    {
      this.cfg := cfg;
      saved, done := map[], [];
      claims, log := map[], [];
    }

    method PutClaim(t: Ticket, c: Claim)
      modifies `claims, `log
      ensures State() == Put(old(State()), t, c)
    {
      claims := claims[t := c];
    }

    method StartWorker(t: Ticket, c: Claim, cause: Cause, named: bool, env: Env)
      requires cfg.Valid()
      modifies `claims, `log
      ensures State() == Record(cfg, old(State()), t, c, Some(cause), named, env)
    {
      claims := claims[t := c];
      log := log + [LaunchEvent(claims, t, cause, named, env)];
    }

    // _run_fix and the counters launch_fix raises around it.
    method StartFix(c: Claim, fail: Failure, look: Look) returns (r: Claim)
      ensures r == (if c.host.Some? && !look.remoteOk then Hold(c, fail)
                    else if fail.SpendsAttempt() then RunFix(c, c.fixAttempts + 1, fail, look)
                    else if fail.KilledRun? then RunFix(c, c.fixAttempts, fail, look).(killResumes := c.killResumes + 1)
                    else RunFix(c, c.fixAttempts, fail, look).(timeoutResumes := c.timeoutResumes + 1))
    {
      if c.host.Some? && !look.remoteOk {
        return Hold(c, fail);
      }
      r := c.(state := Running, kind := Fix, started := look.env.now);
      if c.host.Some? {
        r := r.(detached := false, failLine := None);
      }
      if fail.KilledRun? {
        r := r.(killResumes := r.killResumes + 1);
      } else if fail.TimedOutRun? {
        r := r.(timeoutResumes := r.timeoutResumes + 1);
      } else {
        r := r.(fixAttempts := r.fixAttempts + 1);
      }
    }

    // launch_fix
    method FixRun(t: Ticket, c: Claim, fail: Failure, look: Look) returns (r: Claim)
      requires cfg.Valid()
      ensures r == LaunchFix(cfg, claims, t, c, fail, look)
    {
      var env := look.env;
      if env.usageLimited || env.paused || env.gateHolds || !HasRoom(cfg, claims, c.host, t, env) {
        return Hold(c, fail);
      }
      r := StartFix(c, fail, look);
    }

    // claims[tid] = launch_fix(...)
    method ResumeClaim(t: Ticket, c: Claim, fail: Failure, look: Look)
      requires cfg.Valid()
      modifies `claims, `log
      ensures State() == Resume(cfg, old(State()), t, c, fail, look)
    {
      var r := FixRun(t, c, fail, look);
      if r.state == Running {
        StartWorker(t, r, FixCause(fail), false, look.env);
      } else {
        PutClaim(t, r);
      }
    }

    method JudgeWork(t: Ticket, o: Observed)
      requires cfg.Valid() && t in claims
      modifies `claims, `log
      ensures State() == ReapWork(cfg, old(State()), t, old(claims[t]), o)
    {
      var c := claims[t];
      if o.sessionKnown {
        c := c.(session := true);
      }
      if o.limited {
        claims := claims[t := c.(state := Limited)];
        log := log + [HitLimit(t)];
      } else if o.noResult {
        if c.session && c.killResumes < KILL_RESUMES && o.look.worktree {
          ResumeClaim(t, c.(kind := Work), KilledRun, o.look);
        } else {
          PutClaim(t, c.(state := Killed));
        }
      } else if o.isError {
        PutClaim(t, c.(state := Error));
      } else if o.outcome == BlockedOut {
        PutClaim(t, c.(state := Blocked));
      } else if o.outcome == Cancel {
        PutClaim(t, if o.ahead && !o.dirty then StartReview(c, o.look.env.now) else c.(state := CancelProposed));
      } else if o.dirty {
        if c.session && c.fixAttempts < FIX_ATTEMPTS {
          ResumeClaim(t, c.(kind := Work), UncommittedWork, o.look);
        } else {
          PutClaim(t, c.(state := Uncommitted));
        }
      } else if !o.ahead {
        PutClaim(t, c.(state := NoWork));
      } else if c.review {
        PutClaim(t, StartReview(c, o.look.env.now));
      } else {
        PutClaim(t, c.(state := Queued));
      }
    }

    method JudgeClaim(t: Ticket, o: Observed)
      requires cfg.Valid() && t in claims
      modifies `claims, `log
      ensures State() == Judge(cfg, old(State()), t, old(claims[t]), o)
    {
      var c := claims[t];
      assert claims[t := c] == claims;
      if c.deflake {
        PutClaim(t, DeflakeEnd(c, o));
      } else if c.kind != Review {
        JudgeWork(t, o);
      } else if o.pass {
        PutClaim(t, c.(state := Queued));
      } else if c.session && c.fixAttempts < FIX_ATTEMPTS && o.look.worktree {
        ResumeClaim(t, c.(kind := Work), ReviewFail, o.look);
      } else {
        PutClaim(t, c.(state := ReviewFailed));
      }
    }

    // A run that goes on.
    method ReapRunning(t: Ticket, o: Observed)
      requires cfg.Valid() && t in claims
      modifies `claims, `log
      ensures State() == ReapAlive(cfg, old(State()), t, o)
    {
      if o.overLimit {
        var c := claims[t].(state := TimedOut, ended := Some(o.look.env.now));
        PutClaim(t, c);
        if c.kind == Work && c.session && c.timeoutResumes < TIMEOUT_RESUMES && o.look.worktree && o.gone {
          ResumeClaim(t, c, TimedOutRun, o.look);
        }
      }
    }

    // The results of a remote run: here, or waited for.
    method FetchRemote(t: Ticket, o: Observed) returns (here: bool)
      requires t in claims && Away(claims[t])
      modifies `claims, `log
      ensures here == !StillAway(old(claims[t]), o)
      ensures State() == Put(old(State()), t, if here then Arrived(old(claims[t])) else Waiting(old(claims[t]), o))
    {
      var c := claims[t];
      var held := c.state == SyncError;
      here := false;
      if !held && o.remote.RunGoesOn? {
        PutClaim(t, c.(detached := false));
      } else if !held && o.remote.Unreachable? {
        PutClaim(t, c.(detached := true));
      } else if o.remote.SyncFailed? {
        PutClaim(t, if o.remote.diverged then c.(state := SyncError) else c);
      } else {
        PutClaim(t, c.(detached := false, state := Running));
        here := true;
      }
    }

    // _reap_one
    method ReapClaim(t: Ticket, o: Observed)
      requires cfg.Valid()
      modifies `claims, `log
      ensures State() == ReapOne(cfg, old(State()), t, o)
    {
      if t !in claims || (claims[t].state != Running && claims[t].state != SyncError) {
        return;
      }
      var c := claims[t];
      if c.state != SyncError && o.alive && !c.detached {
        ReapRunning(t, o);
        return;
      }
      if Away(c) {
        var here := FetchRemote(t, o);
        if !here {
          return;
        }
      }
      PutTwice(Book(old(claims), log), t, Arrived(c));
      assert State() == Put(old(State()), t, Arrived(c));
      JudgeClaim(t, o);
    }

    // reap, before the gate failures
    method ReapPass(found: seq<(Ticket, Reaping)>)
      requires cfg.Valid()
      modifies `claims, `log
      ensures State() == Reap(cfg, old(State()), found)
    {
      var todo := found;
      while todo != []
        invariant Reap(cfg, State(), todo) == Reap(cfg, old(State()), found)
        decreases |todo|
      {
        var (t, r) := todo[0];
        match r {
          case Judged(o) => ReapClaim(t, o);
          case Raised(last) =>
            if last && t in claims {
              PutClaim(t, claims[t].(state := ReapError));
            }
        }
        todo := todo[1..];
      }
    }

    // handle_gate_failures
    method HandleGateFailures(failedReviews: seq<(Ticket, Look)>, lines: seq<GateLine>)
      requires cfg.Valid()
      modifies `claims, `log
      ensures State() == HandleLines(cfg, ResumeFailedReviews(cfg, old(State()), failedReviews), lines, false)
    {
      var todo := failedReviews;
      while todo != []
        invariant ResumeFailedReviews(cfg, State(), todo) == ResumeFailedReviews(cfg, old(State()), failedReviews)
        decreases |todo|
      {
        var (t, look) := todo[0];
        if t in claims && !claims[t].deflake && claims[t].state == ReviewFailed && claims[t].session
           && claims[t].fixAttempts < FIX_ATTEMPTS && look.worktree {
          ResumeClaim(t, claims[t].(kind := Work), ReviewFail, look);
        }
        todo := todo[1..];
      }
      ghost var start := State();
      var unread, conflictRan := lines, false;
      while unread != []
        invariant HandleLines(cfg, State(), unread, conflictRan) == HandleLines(cfg, start, lines, false)
        decreases |unread|
      {
        conflictRan := HandleGateLine(unread[0], conflictRan);
        unread := unread[1..];
      }
    }

    // One line of merge-needs-attention.txt.
    method HandleGateLine(l: GateLine, conflictRan: bool) returns (ran: bool)
      requires cfg.Valid()
      modifies `claims, `log
      ensures (State(), ran) == HandleLine(cfg, old(State()), l, conflictRan)
    {
      ran := conflictRan;
      var t := l.ticket;
      if t !in claims || l.text in claims[t].seen || claims[t].state != Queued {
        return;
      }
      var c := claims[t];
      var saw := c.(seen := c.seen + {l.text});
      var ended := Some(l.look.env.now);
      if !l.conflict && c.deflake {
        PutClaim(t, saw.(state := GateFailed, ended := ended));
        return;
      }
      if l.conflict {
        if l.skip.BoardUnreadable? || l.skip.BeingMerged? {
          return;
        }
        if l.skip.NoFixNeeded? {
          PutClaim(t, saw);
          return;
        }
        if c.deflake {
          PutClaim(t, saw.(state := Conflicted, ended := ended));
          return;
        }
        if conflictRan || Busy(claims, c.host) >= SlotCap(cfg, l.look.env, c.host) || l.look.env.paused
           || l.look.env.gateHolds {
          return;
        }
      }
      if !c.session || !l.look.worktree || c.fixAttempts >= FIX_ATTEMPTS {
        PutClaim(t, if l.conflict then saw else saw.(state := GateFailed));
      } else {
        ran := conflictRan || l.conflict;
        PutClaim(t, saw);
        ResumeClaim(t, saw, if l.conflict then MergeConflict(l.text) else GateFail(l.text), l.look);
      }
    }

    // relaunch_held_fixes
    method RelaunchHeldFixes(start: Env, held: seq<(Ticket, Look)>)
      requires cfg.Valid()
      modifies `claims, `log
      ensures State() == RelaunchAll(cfg, old(State()), start, held)
    {
      if start.paused || start.gateHolds || start.usageLimited {
        return;
      }
      var todo := held;
      while todo != []
        invariant RelaunchEach(cfg, State(), todo) == RelaunchEach(cfg, old(State()), held)
        decreases |todo|
      {
        RelaunchClaim(todo[0].0, todo[0].1);
        todo := todo[1..];
      }
    }

    method RelaunchClaim(t: Ticket, look: Look)
      requires cfg.Valid()
      modifies `claims, `log
      ensures State() == RelaunchOne(cfg, old(State()), t, look)
    {
      if t !in claims {
        return;
      }
      if claims[t].state == Limited && !claims[t].session {
        PutClaim(t, claims[t].(state := Killed));
        return;
      }
      if claims[t].state == Limited {
        PutClaim(t, Hold(claims[t], KilledRun));
      }
      var c := claims[t];
      if c.state == FixHeld && HasRoom(cfg, claims, c.host, t, look.env) {
        if c.host == None && !look.worktree {
          PutClaim(t, c.(state := GateFailed));
        } else {
          ResumeClaim(t, c.(kind := Work), if c.failLine.Some? then c.failLine.value else HeldFix, look);
        }
      }
    }

    // release_stale_claims
    method ReleaseStaleClaims(releases: seq<Release>, now: int)
      modifies `claims, `log
      ensures State() == ReleaseEach(old(State()), releases, now)
    {
      var todo := releases;
      while todo != []
        invariant ReleaseEach(State(), todo, now) == ReleaseEach(old(State()), releases, now)
        decreases |todo|
      {
        var r := todo[0];
        if r.ticket in claims {
          var c := claims[r.ticket];
          if r.Close? {
            if c.state == Queued {
              PutClaim(r.ticket, c.(state := Merged, ended := Some(now)));
            }
          } else if !c.deflake && c.state in {NoWork, Error, TimedOut, Killed, ReapError} {
            claims := claims - {r.ticket};
          }
        }
        todo := todo[1..];
      }
    }

    // One test of pending_deflakes.
    method PendingTest(requests: seq<Request>, slug: string, deferred: bool) returns (one: Option<Ready>)
      modifies `claims
      ensures Pending(claims, one) == PendingOne(old(claims), requests, slug, deferred)
    {
      var p := PendingOne(claims, requests, slug, deferred);
      claims := p.claims;
      one := p.ready;
    }

    // pending_deflakes: marks dropped requests on the claims and lists what may run.
    method PendingDeflakes(requests: seq<Request>, deferred: set<string>) returns (ready: seq<Ready>)
      modifies `claims
      ensures AllPending(claims, ready) == PendingAll(old(claims), requests, SlugsOf(requests), deferred)
    {
      var slugs := SlugsOf(requests);
      ghost var all := PendingAll(claims, requests, slugs, deferred);
      ready := [];
      while slugs != []
        invariant PendingFrom(claims, ready, requests, slugs, deferred) == all
        decreases |slugs|
      {
        PendingFromStep(claims, ready, requests, slugs, deferred);
        var one := PendingTest(requests, slugs[0], slugs[0] in deferred);
        if one.Some? {
          ready := ready + [one.value];
        }
        slugs := slugs[1..];
      }
      assert ready + [] == ready;
    }

    // dispatch_deflakes
    method DispatchDeflakeRun(requests: seq<Request>, deferred: set<string>, env: Env)
      requires cfg.Valid()
      modifies `claims, `log
      ensures State() == DispatchDeflakes(cfg, old(State()), requests, deferred, env)
    {
      if requests == [] || env.usageLimited {
        return;
      }
      var ready := PendingDeflakes(requests, deferred);
      if ready == [] || env.paused || env.gateHolds || Busy(claims, None) >= DispatchCap(cfg, env) || !env.diskOk {
        return;
      }
      var r := Oldest(ready);
      StartWorker(Key(r.slug), DeflakeClaim(r.ts, env.now), Deflaking, false, env);
    }

    // dispatch_remote
    method DispatchToHosts(candidates: seq<Candidate>, env: Env) returns (raised: bool)
      requires cfg.Valid()
      modifies `claims, `log
      ensures Ticked(State(), raised) == DispatchRemote(cfg, old(State()), candidates, env)
    {
      if env.hosts == [] || env.paused || env.gateHolds || env.usageLimited {
        return false;
      }
      var todo := candidates;
      var launched: set<Host> := {};
      while todo != []
        invariant DispatchRemoteEach(cfg, State(), todo, launched, env) ==
                  DispatchRemoteEach(cfg, old(State()), candidates, {}, env)
        decreases |todo|
      {
        var c := todo[0];
        var h := HostFor(cfg, Book(claims, log), c, env);
        if c.ticket !in claims && h.Some? && h.value !in launched && !c.groupFull && !c.launch.NotPrepared? {
          if c.launch.Raises? {
            return true;
          }
          StartWorker(c.ticket, NewClaim(c, h, env.now), NewWork, c.named, env);
          launched := launched + {h.value};
        }
        todo := todo[1..];
      }
      return false;
    }

    // dispatch, after dispatch_remote
    method DispatchHere(candidates: seq<Candidate>, env: Env) returns (raised: bool)
      requires cfg.Valid()
      modifies `claims, `log
      ensures Ticked(State(), raised) == DispatchLocal(cfg, old(State()), candidates, env)
    {
      var todo, free := candidates, FreeSlots(cfg, Book(claims, log), env);
      while todo != [] && free > 0
        invariant DispatchLocalEach(cfg, State(), todo, free, env) == DispatchLocal(cfg, old(State()), candidates, env)
        decreases |todo|
      {
        var c := todo[0];
        if c.ticket !in claims && !c.named && !c.groupFull {
          if c.launch.Raises? {
            return true;
          }
          StartWorker(c.ticket, NewClaim(c, None, env.now), NewWork, c.named, env);
          free := free - 1;
        }
        todo := todo[1..];
      }
      return false;
    }

    // tick, from the claims it loaded to where it would save them.
    method DoTick(i: TickInput) returns (raised: bool)
      requires cfg.Valid()
      modifies `claims, `log
      ensures Ticked(State(), raised) == Tick(cfg, old(State()), i)
    {
      ReapPass(i.reaped);
      HandleGateFailures(i.failedReviews, i.lines);
      RelaunchHeldFixes(i.heldStart, i.held);
      ReleaseStaleClaims(i.releases, i.releasedAt);
      DispatchDeflakeRun(i.requests, i.deferred, i.deflakeEnv);
      raised := DispatchToHosts(i.remoteCandidates, i.remoteEnv);
      if !raised {
        raised := DispatchHere(i.candidates, i.env);
      }
      raised := raised || !i.saves;
    }

    // One turn of main's loop: load_claims, the tick, and save_claims unless it raised.
    method DoTurn(i: TickInput)
      requires cfg.Valid()
      modifies this
      ensures Lasting() == Turn(cfg, old(Lasting()), i)
    {
      claims, log := saved, KeptOf(done);
      var raised := DoTick(i);
      done := done + Marked(Added(KeptOf(done), log), !raised);
      if !raised {
        saved := claims;
      }
    }
  }
}
