/** Kill resumes and the account limit (ops/work-runner.py). */
module WorkLimits {
  import opened WorkClaims
  import opened WorkRunner
  import opened WorkJournal
  import opened WorkSafety
  import opened WorkWitness

  // KILL_RESUMES is checked when a killed run is reaped and not when a run that the account limit
  // stopped is resumed, which spends the same counter. Resumes are those the claims account for; what
  // ticks that raised add to them is WorkBounds.CountersAreLaunches.

  // ------------------------------------------------------------------ when the bound holds

  // t's run is never resumed more than KILL_RESUMES times without a failure.
  ghost predicate WithinKillResumes(log: seq<Event>, t: Ticket) {
    forall m :: 0 <= m <= |log| ==> Since(log[..m], t, KillResume) <= KILL_RESUMES
  }

  // The check the source does not make: no resume after a limit once KILL_RESUMES are spent.
  ghost predicate LimitResumesChecked(log: seq<Event>, t: Ticket) {
    forall i :: 0 <= i < |log| && LimitResume(log, i, t) ==> Since(log[..i], t, KillResume) < KILL_RESUMES
  }

  // Over every run KILL_RESUMES bounds a ticket's kill resumes if and only if no resume after an account
  // limit exceeds it: every other pass checks the counter before it spends it, however long the fix is
  // held in between.
  lemma KillResumesExact(cfg: Config, worlds: seq<World>, n: nat, t: Ticket)
    requires cfg.Valid() && IsRun(cfg, worlds) && n < |worlds|
    ensures WithinKillResumes(KeptOf(worlds[n].log), t) <==> LimitResumesChecked(KeptOf(worlds[n].log), t)
  {
    RunKeeps(cfg, worlds, n);
    var log := KeptOf(worlds[n].log);
    if WithinKillResumes(log, t) {
      forall i | 0 <= i < |log| && LimitResume(log, i, t) ensures Since(log[..i], t, KillResume) < KILL_RESUMES {
        SincePrefix(log, i, t);
        assert Since(log[..i + 1], t, KillResume) <= KILL_RESUMES;
      }
    }
    if LimitResumesChecked(log, t) {
      forall m | 0 <= m <= |log| ensures Since(log[..m], t, KillResume) <= KILL_RESUMES {
        CheckedBounds(log, t, m);
      }
    }
  }

  // What one more event does to the count.
  lemma SincePrefix(log: seq<Event>, i: nat, t: Ticket)
    requires i < |log|
    ensures Since(log[..i + 1], t, KillResume) ==
            if !log[i].Launched? || log[i].ticket != t then Since(log[..i], t, KillResume)
            else if log[i].cause == NewWork || log[i].cause == Deflaking then 0
            else Since(log[..i], t, KillResume) + (if log[i].cause == KillResume then 1 else 0)
  {
    assert log[..i + 1] == log[..i] + [log[i]];
    SinceAppend(log[..i], log[i], t, KillResume);
  }

  lemma {:induction false} CheckedBounds(log: seq<Event>, t: Ticket, m: nat)
    requires ResumesGuarded(log) && LimitResumesChecked(log, t) && m <= |log|
    ensures Since(log[..m], t, KillResume) <= KILL_RESUMES
  {
    if m > 0 {
      var i := m - 1;
      CheckedBounds(log, t, i);
      SincePrefix(log, i, t);
      assert Guarded(log[..i], log[i]);
      assert LimitResume(log, i, t) ==> Since(log[..i], t, KillResume) < KILL_RESUMES;
    }
  }

  // Without that check the account limits met are added to the bound.
  lemma KillResumesBounded(cfg: Config, worlds: seq<World>, n: nat, t: Ticket)
    requires cfg.Valid() && IsRun(cfg, worlds) && n < |worlds| && t in worlds[n].claims
    ensures worlds[n].claims[t].killResumes <= KILL_RESUMES + LimitsSince(KeptOf(worlds[n].log), t)
  {
    RunKeeps(cfg, worlds, n);
    assert ClaimInv(KeptOf(worlds[n].log), t, worlds[n].claims[t]);
  }

  // One resume of a limited claim: it spends a kill resume whatever was spent before, so it leaves the
  // claim within KILL_RESUMES if and only if the claim had one left.
  lemma LimitSpendsKillResume(cfg: Config, b: Book, t: Ticket, look: Look)
    requires cfg.Valid() && t in b.claims && b.claims[t].state == Limited && b.claims[t].session
    requires HasRoom(cfg, b.claims, b.claims[t].host, t, look.env) && look.worktree && look.remoteOk
    requires !look.env.usageLimited && !look.env.paused && !look.env.gateHolds
    ensures var before, c := b.claims[t].killResumes, RelaunchOne(cfg, b, t, look).claims[t];
            && c.state == Running && c.killResumes == before + 1
            && (c.killResumes <= KILL_RESUMES <==> before < KILL_RESUMES)
  {
    var h := Put(b, t, Hold(b.claims[t], KilledRun));
    assert h.claims - {t} == b.claims - {t};
  }

  // ------------------------------------------------------------------ runs that reach it

  // KILL_RESUMES is passed: for any number of limits there is a run, never killed by a signal and with no
  // tick that raises, whose claim has that many kill resumes.
  lemma KillResumesUnbounded(cfg: Config, k: nat) returns (worlds: seq<World>)
    requires cfg.Valid() && cfg.cap > 0 && cfg.perTick > 0
    ensures IsRun(cfg, worlds)
    ensures var w := worlds[|worlds| - 1];
            && One() in w.claims && w.claims[One()].killResumes == k
            && OnlyLimitResumes(KeptOf(w.log)) && AllKept(w.log)
  {
    worlds := LimitRun(cfg, k);
  }

  // The bound with the limits added is reached: for any number of them there is a run that meets that
  // many and whose claim has KILL_RESUMES kill resumes more.
  lemma BoundReached(cfg: Config, limits: nat) returns (worlds: seq<World>)
    requires cfg.Valid() && cfg.cap > 0 && cfg.perTick > 0
    ensures IsRun(cfg, worlds)
    ensures var w := worlds[|worlds| - 1];
            && One() in w.claims && LimitsSince(KeptOf(w.log), One()) == limits
            && w.claims[One()].killResumes == KILL_RESUMES + limits && AllKept(w.log)
  {
    worlds := KilledThenLimited(cfg, limits);
  }

  // A run that only the account limit ever stopped, KILL_RESUMES times, is parked the first time a
  // signal kills it.
  lemma FirstKillParked(cfg: Config) returns (worlds: seq<World>)
    requires cfg.Valid() && cfg.cap > 0 && cfg.perTick > 0
    ensures IsRun(cfg, worlds)
    ensures var w := worlds[|worlds| - 1];
            && One() in w.claims && w.claims[One()].state == Killed
            && LimitsSince(KeptOf(w.log), One()) == KILL_RESUMES && OnlyLimitResumes(KeptOf(w.log)) && AllKept(w.log)
  {
    worlds := LimitRun(cfg, KILL_RESUMES);
    var b := RefusedTick(cfg, worlds[|worlds| - 1].File());
    worlds := RunOn(cfg, worlds, b);
  }
}
