/** What holds over every run of the work runner (ops/work-runner.py). */
module WorkBounds {
  import opened Wrappers
  import opened WorkClaims
  import opened WorkRunner
  import opened WorkDeflakes
  import opened WorkJournal
  import opened WorkPasses
  import opened WorkSafety
  import opened Division
  import opened WorkLoss

  // A run may have ticks that raise. What they started is in the log, marked as lost.

  // Between being claimed and any later moment a ticket gets at most FIX_ATTEMPTS fix attempts and at
  // most one wrap-up, and those of ticks that raised; however often its fixes are held, limited, re-held
  // and relaunched.
  lemma AttemptsBounded(cfg: Config, worlds: seq<World>, n: nat, t: Ticket, moment: nat)
    requires cfg.Valid() && IsRun(cfg, worlds) && n < |worlds| && moment <= |worlds[n].log|
    ensures var log := worlds[n].log[..moment];
            && Made(log, t, FixAttempt) <= FIX_ATTEMPTS + LostOf(log, t, FixAttempt)
            && Made(log, t, WrapUp) <= TIMEOUT_RESUMES + LostOf(log, t, WrapUp)
  {
    RunKeeps(cfg, worlds, n);
    var log, kept := worlds[n].log[..moment], KeptOf(worlds[n].log);
    KeptPrefix(worlds[n].log, moment);
    assert kept[..|KeptOf(log)|] == KeptOf(log);
    MadeSplits(log, t, FixAttempt);
    MadeSplits(log, t, WrapUp);
  }

  ghost predicate WithinBudget(log: seq<Entry>, t: Ticket, w: Cause) {
    forall m :: 0 <= m <= |log| ==> Made(log[..m], t, w) <= Budget(w)
  }

  // The check a lost attempt escapes: none is made after one once the budget is launched.
  ghost predicate LostChecked(log: seq<Entry>, t: Ticket, w: Cause) {
    forall i :: 0 <= i < |log| && Spends(log[i].event, t, w) && LostOf(log[..i], t, w) > 0 ==>
      Made(log[..i], t, w) < Budget(w)
  }

  // The budget bounds what is launched, at every moment, if and only if no attempt after a lost one
  // exceeds it.
  lemma AttemptsExact(cfg: Config, worlds: seq<World>, n: nat, t: Ticket, w: Cause)
    requires cfg.Valid() && IsRun(cfg, worlds) && n < |worlds| && w in {FixAttempt, WrapUp}
    ensures WithinBudget(worlds[n].log, t, w) <==> LostChecked(worlds[n].log, t, w)
  {
    var log := worlds[n].log;
    SparesRun(cfg, worlds, n, t, w);
    if WithinBudget(log, t, w) {
      forall i | 0 <= i < |log| && Spends(log[i].event, t, w) && LostOf(log[..i], t, w) > 0
        ensures Made(log[..i], t, w) < Budget(w)
      {
        MadeStep(log, i, t, w);
        assert Made(log[..i + 1], t, w) <= Budget(w);
      }
    }
    if LostChecked(log, t, w) {
      forall m | 0 <= m <= |log| ensures Made(log[..m], t, w) <= Budget(w) {
        CheckedBudget(log, t, w, m);
      }
    }
  }

  lemma {:induction false} CheckedBudget(log: seq<Entry>, t: Ticket, w: Cause, m: nat)
    requires Spares(log, t, w) && LostChecked(log, t, w) && m <= |log|
    ensures Made(log[..m], t, w) <= Budget(w)
  {
    if m > 0 {
      var i := m - 1;
      CheckedBudget(log, t, w, i);
      MadeStep(log, i, t, w);
      assert SparesAt(log, i, t, w);
      assert Spends(log[i].event, t, w) ==> Made(log[..i], t, w) < Budget(w);
    }
  }

  // What was launched since a claim was made is what its counters say and what ticks that raised
  // launched. So the counters are the launches if and only if no raising tick resumed the ticket.
  lemma CountersAreLaunches(cfg: Config, worlds: seq<World>, n: nat, t: Ticket)
    requires cfg.Valid() && IsRun(cfg, worlds) && n < |worlds| && t in worlds[n].claims
    ensures var (log, c) := (worlds[n].log, worlds[n].claims[t]);
            && Made(log, t, FixAttempt) == c.fixAttempts + LostOf(log, t, FixAttempt)
            && Made(log, t, WrapUp) == c.timeoutResumes + LostOf(log, t, WrapUp)
            && Made(log, t, KillResume) == c.killResumes + LostOf(log, t, KillResume)
    ensures var (log, c) := (worlds[n].log, worlds[n].claims[t]);
            (c.fixAttempts == Made(log, t, FixAttempt) && c.timeoutResumes == Made(log, t, WrapUp)
             && c.killResumes == Made(log, t, KillResume)) <==> NoneLost(log, t)
  {
    RunKeeps(cfg, worlds, n);
    var log := worlds[n].log;
    assert ClaimInv(KeptOf(log), t, worlds[n].claims[t]);
    MadeSplits(log, t, FixAttempt);
    MadeSplits(log, t, WrapUp);
    MadeSplits(log, t, KillResume);
    LostZero(log, t);
  }

  // Whatever raises, the counters themselves stay within their budgets.
  lemma CountersBounded(cfg: Config, worlds: seq<World>, n: nat, t: Ticket)
    requires cfg.Valid() && IsRun(cfg, worlds) && n < |worlds| && t in worlds[n].claims
    ensures var c := worlds[n].claims[t]; c.fixAttempts <= FIX_ATTEMPTS && c.timeoutResumes <= TIMEOUT_RESUMES
  {
    RunKeeps(cfg, worlds, n);
    assert ClaimInv(KeptOf(worlds[n].log), t, worlds[n].claims[t]);
  }

  // Every worker launch of a run - work, fix, held fix, deflake - leaves its host's recorded workers at or
  // under its bound, hand-named remote tickets aside: on this Mac the cap, and beside a gate what the cores
  // hold besides the reserve, but at least one; on a remote host its own cap, or 2 when it has none.
  lemma CapsHeld(cfg: Config, worlds: seq<World>, n: nat, i: nat)
    requires cfg.Valid() && IsRun(cfg, worlds) && n < |worlds| && i < |worlds[n].log|
    ensures var e := worlds[n].log[i].event;
            e.Launched? ==>
              var there := set u | u in e.claims && e.claims[u].state == Running && e.claims[u].kind != Review
                                   && e.claims[u].host == e.host;
              && e.ticket in there
              && (e.host == None ==> |there| <= cfg.cap)
              && (e.host == None && e.env.gateSeen && !cfg.gateAlone ==>
                    var fit := (cfg.cores - cfg.gateReserve) / cfg.workerCores;
                    |there| <= if fit < 1 then 1 else fit)
              && (e.host.Some? && !e.named ==>
                    |there| <= if e.host.value in e.env.hostCaps then e.env.hostCaps[e.host.value] else 2)
  {
    RunKeeps(cfg, worlds, n);
    var e := worlds[n].log[i].event;
    assert EventInv(cfg, e);
    if e.Launched? {
      var there := set u | u in e.claims && e.claims[u].state == Running && e.claims[u].kind != Review
                           && e.claims[u].host == e.host;
      assert there == Workers(e.claims, e.host);
    }
  }

  // So at the end of every turn of every run no more workers run on this Mac than the cap.
  lemma MacWithinCap(cfg: Config, worlds: seq<World>, n: nat)
    requires cfg.Valid() && IsRun(cfg, worlds) && n < |worlds|
    ensures var claims := worlds[n].claims;
            |set t | t in claims && claims[t].state == Running && claims[t].kind != Review && claims[t].host == None|
            <= cfg.cap
  {
    RunKeeps(cfg, worlds, n);
    var claims := worlds[n].claims;
    assert Workers(claims, None) ==
           set t | t in claims && claims[t].state == Running && claims[t].kind != Review && claims[t].host == None;
  }

  // No launch of any run is made through a hold, nor on a host that is not fit for it: a remote host must be
  // ready and within its bounds unless the ticket names it; this Mac's load must be within its bound for all
  // but deflake runs, and its disk for all but fixes.
  lemma HoldsRespected(cfg: Config, worlds: seq<World>, n: nat, i: nat)
    requires cfg.Valid() && IsRun(cfg, worlds) && n < |worlds| && i < |worlds[n].log|
    ensures var e := worlds[n].log[i].event;
            e.Launched? ==>
              && !e.env.usageLimited && !e.env.paused && !e.env.gateHolds
              && (e.host.Some? && !e.named ==> e.host.value in e.env.ready && e.host.value in e.env.fit)
              && (e.host == None ==> e.env.loadOk || e.cause == Deflaking)
              && (e.host == None ==> e.env.diskOk || e.cause !in {NewWork, Deflaking})
  {
    RunKeeps(cfg, worlds, n);
    assert EventInv(cfg, worlds[n].log[i].event);
  }

  // Beside a gate, a launch on this Mac leaves the gate its reserve if and only if one worker fits the
  // rest. When none does the cap is still 1.
  lemma ReserveHeld(cfg: Config, worlds: seq<World>, n: nat, i: nat)
    requires cfg.Valid() && IsRun(cfg, worlds) && n < |worlds| && i < |worlds[n].log|
    ensures var e := worlds[n].log[i].event;
            e.Launched? && e.host == None && e.env.gateSeen && !cfg.gateAlone ==>
              var there := set u | u in e.claims && e.claims[u].state == Running && e.claims[u].kind != Review
                                   && e.claims[u].host == None;
              (|there| * cfg.workerCores + cfg.gateReserve <= cfg.cores <==>
               cfg.workerCores + cfg.gateReserve <= cfg.cores)
  {
    RunKeeps(cfg, worlds, n);
    var e := worlds[n].log[i].event;
    assert EventInv(cfg, e);
    if e.Launched? && e.host == None && e.env.gateSeen && !cfg.gateAlone {
      var there := set u | u in e.claims && e.claims[u].state == Running && e.claims[u].kind != Review
                           && e.claims[u].host == None;
      assert there == Workers(e.claims, None);
      assert e.ticket in there && |there| >= 1;
      WorkersFit(cfg.cores - cfg.gateReserve, cfg.workerCores, |there|, cfg.ReserveCap());
    }
  }

  // The largest whole number of workers of w cores in `rest` cores, at least one: any number of them up
  // to that fits just when one does.
  lemma WorkersFit(rest: int, w: nat, busy: nat, cap: nat)
    requires w > 0 && 1 <= busy <= cap && cap == if rest / w < 1 then 1 else rest / w
    ensures busy * w <= rest <==> w <= rest
  {
    FloorFits(rest, w, 1);
    FloorFits(rest, w, busy);
  }

  // A deflake run whose tick was saved is never repeated: every later run for that test, saved or lost,
  // answers a strictly newer request, and the claim has consumed it.
  lemma DeflakesAdvance(cfg: Config, worlds: seq<World>, n: nat, i: nat, j: nat)
    requires cfg.Valid() && IsRun(cfg, worlds) && n < |worlds| && i < j < |worlds[n].log|
    requires worlds[n].log[i].Kept? && BothDeflaking(worlds[n].log[i].event, worlds[n].log[j].event)
    ensures var (e, f, claims) := (worlds[n].log[i].event, worlds[n].log[j].event, worlds[n].claims);
            e.requestTs < f.requestTs && e.ticket in claims && e.requestTs <= claims[e.ticket].requestTs
  {
    RunKeeps(cfg, worlds, n);
    var log := worlds[n].log;
    KeptIn(log, i);
    var m :| 0 <= m < |KeptOf(log)| && KeptOf(log)[m] == log[i].event;
  }

  // At every moment of a run each deflake run is newer than those before it for its test and consumed by
  // its claim, if and only if no tick that raised had started one.
  lemma DeflakesExact(cfg: Config, worlds: seq<World>, n: nat)
    requires cfg.Valid() && IsRun(cfg, worlds) && n < |worlds|
    ensures (forall m :: 0 <= m <= n ==> RequestsKept(worlds[m].Done())) <==> NoDeflakeLost(worlds[n].log)
  {
    if NoDeflakeLost(worlds[n].log) {
      forall m | 0 <= m <= n ensures RequestsKept(worlds[m].Done()) {
        UnlostKeeps(cfg, worlds, m, n);
      }
    } else {
      var p :| 0 <= p < |worlds[n].log| && worlds[n].log[p].Lost? && StartsDeflake(worlds[n].log[p].event);
      var m := LossBreaks(cfg, worlds, n, p);
    }
  }

  lemma UnlostKeeps(cfg: Config, worlds: seq<World>, m: nat, n: nat)
    requires cfg.Valid() && IsRun(cfg, worlds) && m <= n < |worlds| && NoDeflakeLost(worlds[n].log)
    ensures RequestsKept(worlds[m].Done())
  {
    RunKeeps(cfg, worlds, m);
    RunGrows(cfg, worlds, m, n);
    assert forall i :: 0 <= i < |worlds[m].log| ==> worlds[m].log[i] == worlds[n].log[i];
    AllAccounted(cfg, worlds[m]);
  }

  lemma LossBreaks(cfg: Config, worlds: seq<World>, n: nat, p: nat) returns (m: nat)
    requires cfg.Valid() && IsRun(cfg, worlds) && n < |worlds| && p < |worlds[n].log|
    requires worlds[n].log[p].Lost? && StartsDeflake(worlds[n].log[p].event)
    ensures m <= n && !RequestsKept(worlds[m].Done())
  {
    var k := WrittenAt(worlds, n, p);
    m := k + 1;
    assert worlds[m].log[p] == worlds[n].log[p] by { RunGrows(cfg, worlds, m, n); }
    assert WorldInv(cfg, worlds[k]) by { RunKeeps(cfg, worlds, k); }
    TurnAt(cfg, worlds, k);
    LostDeflake(cfg, worlds[k], worlds[m], p);
  }

  // From any book: a deflake run starts only when its test has no open run, for the newest request
  // there is, newer than the end of the test's previous run.
  lemma DeflakeStart(cfg: Config, b: Book, reqs: seq<Request>, deferred: set<string>, env: Env)
    requires cfg.Valid()
    ensures var b' := DispatchDeflakes(cfg, b, reqs, deferred, env);
            || b'.log == b.log
            || exists slug, ts ::
                 && |b'.log| == |b.log| + 1 && b.log <= b'.log
                 && BothDeflaking(b'.log[|b.log|], b'.log[|b.log|])
                 && b'.log[|b.log|].ticket == Key(slug) && b'.log[|b.log|].requestTs == ts
                 && Request(slug, ts) in reqs && (forall r :: r in reqs && r.slug == slug ==> r.ts <= ts)
                 && (Key(slug) in b.claims ==> b.claims[Key(slug)].state !in {Running, Queued}
                                               && ts > EndOf(b.claims[Key(slug)]))
  {
    var b' := DispatchDeflakes(cfg, b, reqs, deferred, env);
    if b'.log != b.log {
      var p := PendingAll(b.claims, reqs, SlugsOf(reqs), deferred);
      PendingAllOffers(b.claims, reqs, SlugsOf(reqs), deferred);
      var r := Oldest(p.ready);
      assert Offer(b.claims, p.claims, reqs, r);
      assert b'.log[|b.log|].ticket == Key(r.slug) && b'.log[|b.log|].requestTs == r.ts;
    }
  }
}
