/** Runs of the work runner made to order (ops/work-runner.py).

One ticket runs on this Mac, with nothing else to do. Each tick of its run is chosen: the run is killed
by a signal and resumed, or stopped by the account limit and resumed, or killed when no resume is left.
The ticks are those of the model, with inputs written out, so the books they lead to are reachable ones.
They show what a bound over all runs cannot rule out. In a kill tick only the reap has anything to do;
in a limit tick the reap and the relaunch of held claims do. None of these ticks raises. */
module WorkWitness {
  import opened Wrappers
  import opened Chains
  import opened WorkClaims
  import opened WorkRunner
  import opened WorkDeflakes
  import opened WorkJournal
  import opened WorkPasses
  import opened WorkSafety

  // Event i resumes t's run after the account limit stopped it.
  predicate LimitResume(log: seq<Event>, i: nat, t: Ticket)
    requires i < |log|
  {
    log[i].Launched? && log[i].ticket == t && log[i].cause == KillResume && LastIsLimit(log[..i], t)
  }

  // ------------------------------------------------------------------ runs that reach it

  // One ticket on this Mac, running, and `spent` kill resumes.
  function One(): Ticket { "T-1" }

  predicate Solo(b: Book, spent: nat) {
    && b.claims.Keys == {One()}
    && var c := b.claims[One()];
       && c.state == Running && c.kind in {Work, Fix} && c.host == None && c.session && !c.deflake && !c.detached
       && c.killResumes == spent
  }

  // A box at rest: no holds, no gate, no hosts.
  function Calm(): Env { Env(0, false, false, false, false, true, true, 0, [], map[], {}, {}) }

  function CalmLook(): Look { Look(true, true, Calm()) }

  // The run ended; by the account limit, or with nothing to show for it.
  function Ended(limited: bool): Observed {
    Observed(false, false, true, Synced, false, true, limited, true, false, Done, false, false, CalmLook())
  }

  // A tick in which only the ticket's reap and its relaunch have anything to do.
  function ReapInput(reaped: seq<(Ticket, Reaping)>, held: seq<(Ticket, Look)>): TickInput {
    TickInput(reaped, [], [], Calm(), held, [], 0, [], {}, Calm(), [], Calm(), [], Calm(), true)
  }

  // A tick in which only dispatch on this Mac has.
  function StartInput(env: Env): TickInput {
    TickInput([], [], [], Calm(), [], [], 0, [], {}, Calm(), [], Calm(), [Listed()], env, true)
  }

  function Listed(): Candidate { Candidate(One(), false, false, false, false, Starts) }

  function KillInput(): TickInput { ReapInput([(One(), Judged(Ended(false)))], []) }

  function LimitInput(): TickInput { ReapInput([(One(), Judged(Ended(true)))], [(One(), CalmLook())]) }

  lemma QuietPasses(cfg: Config, b: Book, reaped: seq<(Ticket, Reaping)>, held: seq<(Ticket, Look)>)
    requires cfg.Valid() && |reaped| <= 1 && |held| <= 1
    ensures Tick(cfg, b, ReapInput(reaped, held)) ==
            var b1 := if reaped == [] then b else ReapEntry(cfg, b, reaped[0].0, reaped[0].1);
            Ticked(if held == [] then b1 else RelaunchOne(cfg, b1, held[0].0, held[0].1), false)
  {
    var b1 := if reaped == [] then b else ReapEntry(cfg, b, reaped[0].0, reaped[0].1);
    assert Reap(cfg, b, reaped) == b1 by {
      if reaped != [] {
        assert reaped[1..] == [];
      }
    }
    assert RelaunchEach(cfg, b1, held) == if held == [] then b1 else RelaunchOne(cfg, b1, held[0].0, held[0].1) by {
      if held != [] {
        assert held[1..] == [];
      }
    }
  }

  // The only worker leaves its host empty while it is resumed.
  lemma SoloHasRoom(cfg: Config, claims: Claims)
    requires cfg.Valid() && cfg.cap > 0 && claims.Keys == {One()}
    ensures HasRoom(cfg, claims, None, One(), Calm())
  {
    assert Workers(claims - {One()}, None) == {};
  }

  // The reap of a killed run: it is resumed.
  lemma KillRun(cfg: Config, b: Book, spent: nat) returns (b': Book)
    requires cfg.Valid() && cfg.cap > 0 && Solo(b, spent) && spent < KILL_RESUMES
    ensures b' == ReapEntry(cfg, b, One(), Judged(Ended(false))) && Solo(b', spent + 1) && |b'.log| == |b.log| + 1
    ensures var e := b'.log[|b.log|]; b'.log == b.log + [e] && e.Launched? && e.ticket == One() && e.cause == KillResume
  {
    var c := b.claims[One()];
    assert Put(b, One(), c) == b;
    SoloHasRoom(cfg, b.claims);
    b' := Resume(cfg, b, One(), c.(kind := Work), KilledRun, CalmLook());
  }

  // A kill tick: the run is resumed and a kill resume spent.
  lemma KillTick(cfg: Config, b: Book, spent: nat) returns (b': Book)
    requires cfg.Valid() && cfg.cap > 0 && Solo(b, spent) && spent < KILL_RESUMES
    ensures Saves(cfg, b, b') && Solo(b', spent + 1)
    ensures LimitsSince(b'.log, One()) == LimitsSince(b.log, One())
  {
    b' := KillRun(cfg, b, spent);
    var i := KillInput();
    assert Tick(cfg, b, i) == Ticked(b', false) && i.Valid() by {
      QuietPasses(cfg, b, i.reaped, i.held);
    }
    LimitsAppend(b.log, b'.log[|b.log|], One());
  }

  // The account limit stops the run.
  lemma StopRun(cfg: Config, b: Book, spent: nat) returns (m: Book)
    requires cfg.Valid() && Solo(b, spent)
    ensures m == ReapEntry(cfg, b, One(), Judged(Ended(true))) && m.log == b.log + [HitLimit(One())]
    ensures m.claims.Keys == {One()} && m.claims[One()] == b.claims[One()].(state := Limited)
  {
    m := ReapWork(cfg, Put(b, One(), b.claims[One()]), One(), b.claims[One()], Ended(true));
  }

  // The limit has reset: the run goes on.
  lemma ResumeRun(cfg: Config, m: Book, c: Claim, spent: nat) returns (b': Book)
    requires cfg.Valid() && cfg.cap > 0 && m.claims.Keys == {One()} && m.claims[One()] == c.(state := Limited)
    requires Solo(Book(map[One() := c], []), spent)
    ensures b' == RelaunchOne(cfg, m, One(), CalmLook()) && Solo(b', spent + 1) && |b'.log| == |m.log| + 1
    ensures var e := b'.log[|m.log|]; b'.log == m.log + [e] && e.Launched? && e.ticket == One() && e.cause == KillResume
  {
    var h := m.claims[One() := Hold(m.claims[One()], KilledRun)];
    SoloHasRoom(cfg, h);
    b' := RelaunchHeld(cfg, Book(h, m.log), One(), CalmLook());
  }

  // A limit tick: the run is stopped, the limit resets, the run is resumed, a kill resume is spent.
  lemma LimitTick(cfg: Config, b: Book, spent: nat) returns (b': Book)
    requires cfg.Valid() && cfg.cap > 0 && Solo(b, spent)
    ensures Saves(cfg, b, b') && Solo(b', spent + 1)
    ensures LimitsSince(b'.log, One()) == LimitsSince(b.log, One()) + 1
    ensures |b'.log| == |b.log| + 2
    ensures var e := b'.log[|b.log| + 1];
            b'.log == b.log + [HitLimit(One()), e] && e.Launched? && e.ticket == One() && e.cause == KillResume
  {
    var m := StopRun(cfg, b, spent);
    b' := ResumeRun(cfg, m, b.claims[One()], spent);
    var i := LimitInput();
    assert Tick(cfg, b, i) == Ticked(b', false) && i.Valid() by {
      QuietPasses(cfg, b, i.reaped, i.held);
    }
    LimitCounted(b.log, b'.log, b'.log[|m.log|]);
  }

  lemma LimitCounted(log: seq<Event>, after: seq<Event>, e: Event)
    requires after == log + [HitLimit(One())] + [e] && e.Launched? && e.ticket == One() && e.cause == KillResume
    ensures LimitsSince(after, One()) == LimitsSince(log, One()) + 1 && after == log + [HitLimit(One()), e]
  {
    LimitsAppend(log, HitLimit(One()), One());
    LimitsAppend(log + [HitLimit(One())], e, One());
  }

  // A first tick that starts the ticket, beside a gate or not.
  lemma StartTick(cfg: Config, env: Env) returns (b: Book)
    requires cfg.Valid() && cfg.cap > 0 && cfg.perTick > 0 && env == Calm().(gateSeen := env.gateSeen)
    ensures Saves(cfg, EMPTY.File(), b) && Solo(b, 0) && |b.log| == 1
    ensures b.log[0] == LaunchEvent(b.claims, One(), NewWork, false, env) && b.claims[One()].fixAttempts == 0
  {
    var i := StartInput(env);
    b := LaunchWork(cfg, EMPTY.File(), Listed(), None, env);
    assert i.Valid() && Tick(cfg, EMPTY.File(), i) == Ticked(b, false) by {
      FirstDispatch(cfg, env);
    }
  }

  lemma FirstDispatch(cfg: Config, env: Env)
    requires cfg.Valid() && cfg.cap > 0 && cfg.perTick > 0 && env == Calm().(gateSeen := env.gateSeen)
    ensures !IsKey(One())
    ensures DispatchLocal(cfg, EMPTY.File(), [Listed()], env) ==
            Ticked(LaunchWork(cfg, EMPTY.File(), Listed(), None, env), false)
  {
    assert Workers(EMPTY.claims, None) == {};
    var free, b := FreeSlots(cfg, EMPTY.File(), env), LaunchWork(cfg, EMPTY.File(), Listed(), None, env);
    assert free > 0 && [Listed()][1..] == [];
    assert One()[0] == 'T' && !IsKey(One());
    assert DispatchLocalEach(cfg, EMPTY.File(), [Listed()], free, env)
        == DispatchLocalEach(cfg, b, [], free - 1, env) == Ticked(b, false);
  }

  // ------------------------------------------------------------------ runs of saved ticks

  // A tick that saves leads from b to b'.
  ghost predicate Saves(cfg: Config, b: Book, b': Book)
    requires cfg.Valid()
  {
    exists i: TickInput :: i.Valid() && Tick(cfg, b, i) == Ticked(b', false)
  }

  predicate AllKept(log: seq<Entry>) { forall i :: 0 <= i < |log| ==> log[i].Kept? }

  lemma SavedTurn(cfg: Config, w: World, b: Book) returns (w': World)
    requires cfg.Valid() && Saves(cfg, w.File(), b)
    ensures Follows(cfg, w, w') && w'.File() == b && (AllKept(w.log) ==> AllKept(w'.log))
  {
    var i: TickInput :| i.Valid() && Tick(cfg, w.File(), i) == Ticked(b, false);
    w' := Turn(cfg, w, i);
    TickLogs(cfg, w.File(), i);
    assert w' == After(w, Ticked(b, false));
    AfterSaved(w, b);
  }

  lemma AfterSaved(w: World, b: Book)
    requires KeptOf(w.log) <= b.log
    ensures var w' := After(w, Ticked(b, false)); w'.File() == b && (AllKept(w.log) ==> AllKept(w'.log))
  {
    var added := AfterFile(w, Ticked(b, false));
  }

  lemma RunOn(cfg: Config, worlds: seq<World>, b: Book) returns (longer: seq<World>)
    requires cfg.Valid() && IsRun(cfg, worlds)
    requires Saves(cfg, worlds[|worlds| - 1].File(), b) && AllKept(worlds[|worlds| - 1].log)
    ensures IsRun(cfg, longer) && longer[|longer| - 1].File() == b && AllKept(longer[|longer| - 1].log)
  {
    var w := SavedTurn(cfg, worlds[|worlds| - 1], b);
    Longer(cfg, worlds, w);
    longer := worlds + [w];
  }

  lemma Longer(cfg: Config, worlds: seq<World>, w: World)
    requires cfg.Valid() && IsRun(cfg, worlds) && Follows(cfg, worlds[|worlds| - 1], w)
    ensures IsRun(cfg, worlds + [w])
  {
    Extend(Turns(cfg), worlds, w);
  }

  // A run of one ticket that only the account limit has stopped, and how often.
  ghost predicate LimitedOnly(cfg: Config, worlds: seq<World>, limits: nat)
    requires cfg.Valid()
  {
    && IsRun(cfg, worlds)
    && var w := worlds[|worlds| - 1];
       && Solo(w.File(), limits) && LimitsSince(KeptOf(w.log), One()) == limits && OnlyLimitResumes(KeptOf(w.log))
       && AllKept(w.log)
  }

  ghost predicate OnlyLimitResumes(log: seq<Event>) {
    forall i :: 0 <= i < |log| && log[i].Launched? && log[i].cause == KillResume ==> LimitResume(log, i, One())
  }

  lemma OnlyLimitsOn(log: seq<Event>, after: seq<Event>, e: Event)
    requires OnlyLimitResumes(log) && after == log + [HitLimit(One()), e] && e.Launched? && e.ticket == One()
    requires e.cause == KillResume
    ensures OnlyLimitResumes(after)
  {
    forall i | 0 <= i < |after| && after[i].Launched? && after[i].cause == KillResume
      ensures LimitResume(after, i, One())
    {
      if i < |log| {
        assert after[..i] == log[..i] && LimitResume(log, i, One());
      } else {
        assert i == |log| + 1 && after[..i] == log + [HitLimit(One())];
        LastAppend(log, HitLimit(One()), One());
      }
    }
  }

  lemma FreshStart(cfg: Config) returns (b: Book)
    requires cfg.Valid() && cfg.cap > 0 && cfg.perTick > 0
    ensures Saves(cfg, EMPTY.File(), b)
    ensures Solo(b, 0) && LimitsSince(b.log, One()) == 0 && OnlyLimitResumes(b.log)
  {
    b := StartTick(cfg, Calm());
    assert b.log == [] + [b.log[0]];
    LimitsAppend([], b.log[0], One());
  }

  lemma LimitRun(cfg: Config, limits: nat) returns (worlds: seq<World>)
    requires cfg.Valid() && cfg.cap > 0 && cfg.perTick > 0
    ensures LimitedOnly(cfg, worlds, limits)
  {
    var b := FreshStart(cfg);
    worlds := RunOn(cfg, [EMPTY], b);
    for i := 0 to limits
      invariant LimitedOnly(cfg, worlds, i)
    {
      worlds := LimitRunOn(cfg, worlds, i);
    }
  }

  lemma LimitRunOn(cfg: Config, worlds: seq<World>, limits: nat) returns (longer: seq<World>)
    requires cfg.Valid() && cfg.cap > 0 && LimitedOnly(cfg, worlds, limits)
    ensures LimitedOnly(cfg, longer, limits + 1)
  {
    var b := LimitedAgain(cfg, worlds[|worlds| - 1].File(), limits);
    longer := RunOn(cfg, worlds, b);
  }

  lemma LimitedAgain(cfg: Config, b: Book, limits: nat) returns (b': Book)
    requires cfg.Valid() && cfg.cap > 0
    requires Solo(b, limits) && LimitsSince(b.log, One()) == limits && OnlyLimitResumes(b.log)
    ensures Saves(cfg, b, b')
    ensures Solo(b', limits + 1) && LimitsSince(b'.log, One()) == limits + 1 && OnlyLimitResumes(b'.log)
  {
    b' := LimitTick(cfg, b, limits);
    OnlyLimitsOn(b.log, b'.log, b'.log[|b.log| + 1]);
  }

  // A run of one ticket, killed KILL_RESUMES times and then only stopped by the account limit.
  ghost predicate KilledFirst(cfg: Config, worlds: seq<World>, limits: nat)
    requires cfg.Valid()
  {
    && IsRun(cfg, worlds)
    && var w := worlds[|worlds| - 1];
       Solo(w.File(), KILL_RESUMES + limits) && LimitsSince(KeptOf(w.log), One()) == limits && AllKept(w.log)
  }

  lemma KilledTwice(cfg: Config) returns (worlds: seq<World>)
    requires cfg.Valid() && cfg.cap > 0 && cfg.perTick > 0
    ensures KilledFirst(cfg, worlds, 0)
  {
    var b := FreshStart(cfg);
    worlds := RunOn(cfg, [EMPTY], b);
    b := KillTick(cfg, b, 0);
    worlds := RunOn(cfg, worlds, b);
    b := KillTick(cfg, b, 1);
    worlds := RunOn(cfg, worlds, b);
  }

  lemma LimitedOnceMore(cfg: Config, worlds: seq<World>, limits: nat) returns (longer: seq<World>)
    requires cfg.Valid() && cfg.cap > 0 && KilledFirst(cfg, worlds, limits)
    ensures KilledFirst(cfg, longer, limits + 1)
  {
    var b := LimitTick(cfg, worlds[|worlds| - 1].File(), KILL_RESUMES + limits);
    longer := RunOn(cfg, worlds, b);
  }

  lemma KilledThenLimited(cfg: Config, limits: nat) returns (worlds: seq<World>)
    requires cfg.Valid() && cfg.cap > 0 && cfg.perTick > 0
    ensures KilledFirst(cfg, worlds, limits)
  {
    worlds := KilledTwice(cfg);
    for i := 0 to limits
      invariant KilledFirst(cfg, worlds, i)
    {
      worlds := LimitedOnceMore(cfg, worlds, i);
    }
  }

  lemma RefusedTick(cfg: Config, b: Book) returns (b': Book)
    requires cfg.Valid() && Solo(b, KILL_RESUMES)
    ensures Saves(cfg, b, b') && b'.log == b.log && One() in b'.claims && b'.claims[One()].state == Killed
  {
    var c := b.claims[One()];
    b' := ReapWork(cfg, Put(b, One(), c), One(), c, Ended(false));
    var i := KillInput();
    QuietPasses(cfg, b, i.reaped, i.held);
    assert Tick(cfg, b, i) == Ticked(b', false) && i.Valid();
  }
}
