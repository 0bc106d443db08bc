/** Runs with ticks that raise (ops/work-runner.py). */
module WorkRaises {
  import opened Wrappers
  import opened WorkClaims
  import opened WorkRunner
  import opened WorkDeflakes
  import opened WorkJournal
  import opened WorkPasses
  import opened WorkSafety
  import opened WorkLoss
  import opened WorkWitness

  // A ticket whose branch has no commits and whose worktree was deleted without a prune is listed, and adding
  // its worktree fails: every tick that reaches it raises. What the tick did before is done again by the next
  // one, and again, for as long as the ticket is listed.

  const HOST: Host := "h"

  // A ticket named for a remote host; its launch raises.
  function Stuck(): Candidate { Candidate("T-2", true, false, false, false, Raises) }

  function Remote(): Env { Calm().(hosts := [HOST]) }

  lemma StuckRaises(cfg: Config, b: Book)
    requires cfg.Valid() && "T-2" !in b.claims
    ensures DispatchRemote(cfg, b, [Stuck()], Remote()) == Ticked(b, true) && !IsKey("T-2")
  {
    assert HostFor(cfg, b, Stuck(), Remote()) == Some(HOST);
    assert "T-2"[0] == 'T';
  }

  // A turn whose tick raises once it has started one worker.
  lemma RaisedTurn(cfg: Config, w: World, i: TickInput, b': Book) returns (w': World)
    requires cfg.Valid() && i.Valid() && Tick(cfg, w.File(), i) == Ticked(b', true)
    requires |b'.log| == |KeptOf(w.log)| + 1 && KeptOf(w.log) <= b'.log
    ensures Follows(cfg, w, w') && w' == World(w.claims, w.log + [Lost(b'.log[|KeptOf(w.log)|])])
    ensures w'.File() == w.File()
  {
    w' := Turn(cfg, w, i);
    OneLost(w, b');
  }

  lemma OneLost(w: World, b': Book)
    requires |b'.log| == |KeptOf(w.log)| + 1 && KeptOf(w.log) <= b'.log
    ensures After(w, Ticked(b', true)) == World(w.claims, w.log + [Lost(b'.log[|KeptOf(w.log)|])])
    ensures After(w, Ticked(b', true)).File() == w.File()
  {
    var added := AfterFile(w, Ticked(b', true));
    assert Marked(added, false) == [Lost(b'.log[|KeptOf(w.log)|])];
  }

  // ------------------------------------------------------------------ one request, started over and over

  function Asked(): Request { Request("x", 5) }

  function AskInput(): TickInput {
    TickInput([], [], [], Calm(), [], [], 0, [Asked()], {}, Calm(), [Stuck()], Remote(), [], Calm(), true)
  }

  // A deflake run for that request, started as the only worker.
  predicate AskedRun(x: Entry) {
    x.Lost? && StartsDeflake(x.event) && x.event.ticket == Key("x") && x.event.requestTs == 5
    && x.event.claims.Keys == {Key("x")}
  }

  lemma AskPass(cfg: Config, b: Book) returns (b': Book)
    requires cfg.Valid() && cfg.cap > 0 && b.claims == map[]
    ensures b' == DispatchDeflakes(cfg, b, [Asked()], {}, Calm()) && "T-2" !in b'.claims
    ensures |b'.log| == |b.log| + 1 && b.log <= b'.log && AskedRun(Lost(b'.log[|b.log|]))
  {
    var k, c := Key("x"), DeflakeClaim(5, 0);
    var reqs := [Asked()];
    assert reqs[..0] == [] && reqs[1..] == [];
    assert SlugsOf(reqs) == ["x"];
    assert Newer(reqs, "x", None) == reqs;
    var one := PendingOne(b.claims, reqs, "x", false);
    assert one == Pending(b.claims, Some(Ready(5, "x", 5)));
    assert ["x"][1..] == [];
    assert PendingAll(b.claims, reqs, ["x"], {}) == AllPending(b.claims, [Ready(5, "x", 5)]);
    assert Workers(b.claims, None) == {};
    b' := Record(cfg, b, k, c, Some(Deflaking), false, Calm());
    assert Workers(b'.claims, None) == {k};
    assert k[0] == 'D' && "T-2"[0] == 'T';
  }

  lemma AskTick(cfg: Config, b: Book) returns (b': Book)
    requires cfg.Valid() && cfg.cap > 0 && b.claims == map[]
    ensures AskInput().Valid() && Tick(cfg, b, AskInput()) == Ticked(b', true)
    ensures |b'.log| == |b.log| + 1 && b.log <= b'.log && AskedRun(Lost(b'.log[|b.log|]))
  {
    b' := AskPass(cfg, b);
    StuckRaises(cfg, b');
  }

  lemma AskedAgain(cfg: Config, w: World) returns (w': World)
    requires cfg.Valid() && cfg.cap > 0 && w.claims == map[]
    ensures Follows(cfg, w, w') && w'.claims == map[] && w.log <= w'.log && |w'.log| == |w.log| + 1
    ensures AskedRun(w'.log[|w.log|])
  {
    var b' := AskTick(cfg, w.File());
    w' := RaisedTurn(cfg, w, AskInput(), b');
  }

  // For every k there is a run in which one deflake request is started k times, each time as if it were
  // the only worker, and no claim knows of any of them.
  lemma {:induction false} RequestStartedAgain(cfg: Config, k: nat) returns (worlds: seq<World>)
    requires cfg.Valid() && cfg.cap > 0
    ensures IsRun(cfg, worlds)
    ensures var w := worlds[|worlds| - 1];
            w.claims == map[] && |w.log| == k && forall i :: 0 <= i < k ==> AskedRun(w.log[i])
  {
    if k == 0 {
      worlds := [EMPTY];
    } else {
      worlds := RequestStartedAgain(cfg, k - 1);
      var w := AskedAgain(cfg, worlds[|worlds| - 1]);
      Longer(cfg, worlds, w);
      worlds := worlds + [w];
    }
  }

  // ------------------------------------------------------------------ one fix, started over and over

  // The ticket's run ended with files left uncommitted.
  function Dirty(): Observed {
    Observed(false, false, true, Synced, false, true, false, false, false, Done, false, true, CalmLook())
  }

  function DirtyInput(): TickInput {
    TickInput([(One(), Judged(Dirty()))], [], [], Calm(), [], [], 0, [], {}, Calm(), [Stuck()], Remote(), [], Calm(),
              true)
  }

  lemma DirtyTick(cfg: Config, b: Book) returns (b': Book)
    requires cfg.Valid() && cfg.cap > 0 && Solo(b, 0) && b.claims[One()].fixAttempts < FIX_ATTEMPTS
    ensures DirtyInput().Valid() && Tick(cfg, b, DirtyInput()) == Ticked(b', true)
    ensures |b'.log| == |b.log| + 1 && b.log <= b'.log && Spends(b'.log[|b.log|], One(), FixAttempt)
  {
    var c, reaped := b.claims[One()], DirtyInput().reaped;
    assert Put(b, One(), c) == b;
    SoloHasRoom(cfg, b.claims);
    b' := Resume(cfg, b, One(), c.(kind := Work), UncommittedWork, CalmLook());
    assert reaped[1..] == [] && Reap(cfg, b, reaped) == b';
    assert "T-2" !in b'.claims;
    StuckRaises(cfg, b');
  }

  // k fix attempts were made and the claim counts none.
  predicate Uncounted(w: World, k: nat) {
    Solo(w.File(), 0) && w.claims[One()].fixAttempts == 0 && Made(w.log, One(), FixAttempt) == k
  }

  lemma Started(cfg: Config) returns (w: World)
    requires cfg.Valid() && cfg.cap > 0 && cfg.perTick > 0
    ensures Follows(cfg, EMPTY, w) && Uncounted(w, 0)
  {
    var b := StartTick(cfg, Calm());
    w := SavedTurn(cfg, EMPTY, b);
    assert Made(w.log, One(), FixAttempt) == 0 by {
      MadeSplits(w.log, One(), FixAttempt);
      NoneLostOf(w.log, One(), FixAttempt);
      SinceAppend([], b.log[0], One(), FixAttempt);
    }
  }

  lemma FixLost(cfg: Config, w: World, k: nat) returns (w': World)
    requires cfg.Valid() && cfg.cap > 0 && Uncounted(w, k)
    ensures Follows(cfg, w, w') && Uncounted(w', k + 1)
  {
    var b' := DirtyTick(cfg, w.File());
    w' := RaisedTurn(cfg, w, DirtyInput(), b');
    LostMade(w.log, w'.log, b'.log[|KeptOf(w.log)|]);
  }

  lemma LostMade(log: seq<Entry>, after: seq<Entry>, e: Event)
    requires after == log + [Lost(e)] && Spends(e, One(), FixAttempt)
    ensures Made(after, One(), FixAttempt) == Made(log, One(), FixAttempt) + 1
  {
    assert after[..|log|] == log;
  }

  // For every k there is a run in which a ticket is given k fix attempts and its claim counts none.
  lemma FixStartedAgain(cfg: Config, k: nat) returns (worlds: seq<World>)
    requires cfg.Valid() && cfg.cap > 0 && cfg.perTick > 0
    ensures IsRun(cfg, worlds) && Uncounted(worlds[|worlds| - 1], k)
  {
    var w := Started(cfg);
    Longer(cfg, [EMPTY], w);
    worlds := [EMPTY] + [w];
    for i := 0 to k
      invariant IsRun(cfg, worlds) && w == worlds[|worlds| - 1] && Uncounted(w, i)
    {
      w := FixLost(cfg, w, i);
      Longer(cfg, worlds, w);
      worlds := worlds + [w];
    }
  }

  lemma {:induction false} NoneLostOf(log: seq<Entry>, t: Ticket, w: Cause)
    requires AllKept(log)
    ensures LostOf(log, t, w) == 0
    decreases |log|
  {
    if log != [] {
      NoneLostOf(log[..|log| - 1], t, w);
    }
  }

  // ------------------------------------------------------------------ a reserve that is not kept

  // A reachable run with a launch beside a gate that leaves it less than its reserve.
  lemma ReserveBroken(cfg: Config) returns (worlds: seq<World>)
    requires cfg.Valid() && cfg.cap > 0 && cfg.perTick > 0 && !cfg.gateAlone
    requires cfg.workerCores + cfg.gateReserve > cfg.cores
    ensures IsRun(cfg, worlds)
    ensures var log := worlds[|worlds| - 1].log;
            && |log| == 1 && log[0].Kept? && BesideGate(cfg, log[0].event)
  {
    var b := StartTick(cfg, Calm().(gateSeen := true));
    worlds := RunOn(cfg, [EMPTY], b);
    var log := worlds[|worlds| - 1].log;
    assert KeptOf(log) == Events(log) by { AllOfKept(log); }
    assert log[0].event == Events(log)[0] == b.log[0];
    Alone(cfg, log[0].event, b.claims);
  }

  // A launch beside a gate after which the workers here and the reserve are more than the cores.
  ghost predicate BesideGate(cfg: Config, e: Event) {
    && e.Launched? && e.host == None && e.env.gateSeen
    && var there := set u | u in e.claims && e.claims[u].state == Running && e.claims[u].kind != Review
                            && e.claims[u].host == None;
       |there| * cfg.workerCores + cfg.gateReserve > cfg.cores
  }

  lemma Alone(cfg: Config, e: Event, claims: Claims)
    requires Solo(Book(claims, []), 0) && cfg.workerCores + cfg.gateReserve > cfg.cores
    requires e == LaunchEvent(claims, One(), NewWork, false, Calm().(gateSeen := true))
    ensures BesideGate(cfg, e)
  {
    var there := set u | u in e.claims && e.claims[u].state == Running && e.claims[u].kind != Review
                         && e.claims[u].host == None;
    assert there == {One()};
  }

  lemma {:induction false} AllOfKept(log: seq<Entry>)
    requires AllKept(log)
    ensures KeptOf(log) == Events(log)
    decreases |log|
  {
    if log != [] {
      AllOfKept(log[..|log| - 1]);
    }
  }
}
