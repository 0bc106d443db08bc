/** What every run of the watchdog keeps about its kills (ops/watchdog.py). */
module WatchdogSafety {
  import opened Wrappers
  import opened WatchdogClocks

  // A run: its ticks, the clocks before each and after its first rules, and what was killed.
  datatype Trace = Trace(ticks: seq<Tick>, states: seq<Since>, middles: seq<Since>, kills: seq<set<Pid>>,
                         sent: seq<map<Pid, Signal>>)
  {
    ghost predicate Valid() {
      && |states| == |ticks| + 1 && |middles| == |kills| == |sent| == |ticks|
      && states[0] == map[]
      && forall i :: 0 <= i < |ticks| ==> Ticked(states[i], ticks[i], middles[i], states[i + 1], kills[i], sent[i])
    }

    // The clock on the wall never goes back.
    predicate Monotone() {
      forall i, j :: 0 <= i <= j < |ticks| ==> ticks[i].now <= ticks[j].now
    }

    // pid was an orphan at every tick from s up to and not including n.
    predicate OrphanThrough(pid: Pid, s: nat, n: nat) {
      n <= |ticks| && forall k :: s <= k < n ==> pid in ticks[k].orphans
    }

    // pid was unowned at every tick from s up to n, and hot whenever it carried the signature.
    predicate ZombieThrough(pid: Pid, s: nat, n: nat) {
      n <= |ticks| && forall k :: s <= k < n ==>
        pid in ticks[k].unowned && (ticks[k].unowned[pid].signature ==> ticks[k].unowned[pid].hot)
    }

    // pid was unowned and hot at every tick from s to n, whatever its command line.
    predicate HotThrough(pid: Pid, s: nat, n: nat) {
      n < |ticks| && forall k :: s <= k <= n ==> pid in ticks[k].unowned && ticks[k].unowned[pid].hot
    }

    // At no tick from s up to n did pid lack the signature and idle.
    predicate NeverIdle(pid: Pid, s: nat, n: nat) {
      n <= |ticks| && forall k :: s <= k < n && pid in ticks[k].unowned ==>
        ticks[k].unowned[pid].signature || ticks[k].unowned[pid].hot
    }

    // pid carried the signature at every tick from s up to n at which it was unowned.
    predicate Signed(pid: Pid, s: nat, n: nat) {
      n <= |ticks| && forall k :: s <= k < n && pid in ticks[k].unowned ==> ticks[k].unowned[pid].signature
    }

    // A stretch for which ZombieKillExact kills pid at n.
    predicate KillStretch(pid: Pid, s: nat, n: nat) {
      s <= n < |ticks| && HotShell(pid, s) && ZombieThrough(pid, s, n) && ticks[n].now - ticks[s].now >= ZOMBIE_FOR
    }

    // From a hot shell at s to n is a stretch that long, hot throughout.
    predicate HotStretch(pid: Pid, s: nat, n: nat) {
      s <= n < |ticks| && HotShell(pid, s) && HotThrough(pid, s, n) && ticks[n].now - ticks[s].now >= ZOMBIE_FOR
    }

    // pid was unowned and over UNOWNED_CPU at every tick from s up to n.
    predicate BusyThrough(pid: Pid, s: nat, n: nat) {
      n <= |ticks| && forall k :: s <= k < n ==> pid in ticks[k].unowned && ticks[k].unowned[pid].busy
    }

    predicate HotShell(pid: Pid, n: nat) {
      n < |ticks| && pid in ticks[n].unowned && ticks[n].unowned[pid].signature && ticks[n].unowned[pid].hot
    }
  }

  // What the keys of one pid mean at tick n.
  lemma StepKeys(tr: Trace, n: nat, pid: Pid)
    requires tr.Valid() && n < |tr.ticks|
    ensures Get(tr.states[n + 1], Zombie(pid)) == EvaluateKey(Get(tr.states[n], Zombie(pid)), tr.ticks[n], Zombie(pid))
    ensures Get(tr.states[n + 1], Orphan(pid)) == OrphanKey(Get(tr.states[n], Orphan(pid)), tr.ticks[n], Orphan(pid))
    ensures Get(tr.states[n + 1], OrphanTerm(pid)) ==
            if pid in tr.sent[n] then Some(tr.ticks[n].now)
            else OrphanKey(Get(tr.states[n], OrphanTerm(pid)), tr.ticks[n], OrphanTerm(pid))
    ensures pid in tr.sent[n] <==> Acted(tr.middles[n], tr.ticks[n], pid)
    ensures Get(tr.middles[n], Orphan(pid)) == Get(tr.states[n], Orphan(pid))
    ensures OrphanTerm(pid) in tr.middles[n] <==> OrphanTerm(pid) in tr.states[n]
  {
    var t := tr.ticks[n];
    assert Ticked(tr.states[n], t, tr.middles[n], tr.states[n + 1], tr.kills[n], tr.sent[n]);
    assert Get(tr.middles[n], Zombie(pid)) == EvaluateKey(Get(tr.states[n], Zombie(pid)), t, Zombie(pid));
    assert Get(tr.middles[n], Orphan(pid)) == EvaluateKey(Get(tr.states[n], Orphan(pid)), t, Orphan(pid));
    assert Get(tr.middles[n], OrphanTerm(pid)) == EvaluateKey(Get(tr.states[n], OrphanTerm(pid)), t, OrphanTerm(pid));
  }

  // ------------------------------------------------------------------ alarms

  // A running unowned clock was started at a tick from which the process was busy and unowned throughout.
  lemma {:induction false} BusyClock(tr: Trace, n: nat, pid: Pid)
    requires tr.Valid() && n <= |tr.ticks| && Unowned(pid) in tr.states[n]
    ensures exists s: nat :: s < n && tr.states[n][Unowned(pid)] == tr.ticks[s].now && tr.BusyThrough(pid, s, n)
  {
    var m := n - 1;
    BusyKey(tr, m, pid);
    if Unowned(pid) in tr.states[m] {
      BusyClock(tr, m, pid);
      var s: nat :| s < m && tr.states[m][Unowned(pid)] == tr.ticks[s].now && tr.BusyThrough(pid, s, m);
      assert tr.BusyThrough(pid, s, n);
    } else {
      assert tr.BusyThrough(pid, m, n);
    }
  }

  lemma BusyKey(tr: Trace, n: nat, pid: Pid)
    requires tr.Valid() && n < |tr.ticks|
    ensures Get(tr.states[n + 1], Unowned(pid)) ==
            EvaluateKey(Get(tr.states[n], Unowned(pid)), tr.ticks[n], Unowned(pid))
  {
    var t := tr.ticks[n];
    assert Ticked(tr.states[n], t, tr.middles[n], tr.states[n + 1], tr.kills[n], tr.sent[n]);
    assert Get(tr.middles[n], Unowned(pid)) == EvaluateKey(Get(tr.states[n], Unowned(pid)), t, Unowned(pid));
  }

  // A process busy and unowned since s has a clock at least that old.
  lemma {:induction false} BusyClockKept(tr: Trace, s: nat, n: nat, pid: Pid)
    requires tr.Valid() && tr.Monotone() && s < n <= |tr.ticks| && tr.BusyThrough(pid, s, n)
    ensures Unowned(pid) in tr.states[n] && tr.states[n][Unowned(pid)] <= tr.ticks[s].now
  {
    BusyKey(tr, n - 1, pid);
    if s < n - 1 {
      BusyClockKept(tr, s, n - 1, pid);
    } else if Unowned(pid) in tr.states[s] {
      BusyClock(tr, s, pid);
    }
  }

  // When a process is reported, exactly: it is busy and unowned now, and was at every tick over the last
  // UNOWNED_FOR or longer.
  lemma AlarmExact(tr: Trace, n: nat, pid: Pid)
    requires tr.Valid() && tr.Monotone() && n < |tr.ticks|
    ensures Alarmed(tr.states[n], tr.ticks[n], pid) <==>
            exists s: nat :: s <= n && tr.BusyThrough(pid, s, n + 1) && tr.ticks[n].now - tr.ticks[s].now >= UNOWNED_FOR
  {
    var t, clock := tr.ticks[n], Unowned(pid) in tr.states[n];
    if Alarmed(tr.states[n], t, pid) {
      if clock {
        BusyClock(tr, n, pid);
        var s: nat :| s < n && tr.states[n][Unowned(pid)] == tr.ticks[s].now && tr.BusyThrough(pid, s, n);
        assert tr.BusyThrough(pid, s, n + 1);
      }
    }
    if s: nat :| s <= n && tr.BusyThrough(pid, s, n + 1) && t.now - tr.ticks[s].now >= UNOWNED_FOR {
      if s < n {
        assert tr.BusyThrough(pid, s, n);
        BusyClockKept(tr, s, n, pid);
      }
      assert pid in t.unowned;
    }
  }

  // ------------------------------------------------------------------ zombie shells

  // A running zombie clock was started by a hot shell with the signature, and nothing reset it since.
  lemma {:induction false} ZombieClock(tr: Trace, n: nat, pid: Pid)
    requires tr.Valid() && n <= |tr.ticks| && Zombie(pid) in tr.states[n]
    ensures exists s: nat :: s < n && tr.HotShell(pid, s) && tr.states[n][Zombie(pid)] == tr.ticks[s].now
                             && tr.ZombieThrough(pid, s, n)
  {
    var m := n - 1;
    StepKeys(tr, m, pid);
    if Zombie(pid) in tr.states[m] {
      ZombieClock(tr, m, pid);
      var s: nat :| s < m && tr.HotShell(pid, s) && tr.states[m][Zombie(pid)] == tr.ticks[s].now
                    && tr.ZombieThrough(pid, s, m);
      assert tr.ZombieThrough(pid, s, n);
    } else {
      assert tr.HotShell(pid, m) && tr.ZombieThrough(pid, m, n);
    }
  }

  // A hot shell keeps a clock at least that old while nothing resets it.
  lemma {:induction false} ZombieClockKept(tr: Trace, s: nat, n: nat, pid: Pid)
    requires tr.Valid() && tr.Monotone() && s < n <= |tr.ticks| && tr.HotShell(pid, s) && tr.ZombieThrough(pid, s, n)
    ensures Zombie(pid) in tr.states[n] && tr.states[n][Zombie(pid)] <= tr.ticks[s].now
  {
    StepKeys(tr, n - 1, pid);
    if s < n - 1 {
      ZombieClockKept(tr, s, n - 1, pid);
    } else if Zombie(pid) in tr.states[s] {
      ZombieClock(tr, s, pid);
    }
  }

  // When a shell is killed, exactly: the signal goes through, it is a hot unowned shell now, it was one
  // ZOMBIE_FOR ago or longer, and at every tick between it was unowned and, whenever it carried the
  // signature, hot.
  lemma ZombieKillExact(tr: Trace, n: nat, pid: Pid)
    requires tr.Valid() && tr.Monotone() && n < |tr.ticks|
    ensures pid in tr.kills[n] <==>
            !tr.ticks[n].dry && pid in tr.ticks[n].killable && tr.HotShell(pid, n) &&
            exists s: nat :: tr.KillStretch(pid, s, n)
  {
    var t := tr.ticks[n];
    assert Ticked(tr.states[n], t, tr.middles[n], tr.states[n + 1], tr.kills[n], tr.sent[n]);
    if pid in tr.kills[n] {
      ZombieClock(tr, n, pid);
      var s: nat :| s < n && tr.HotShell(pid, s) && tr.states[n][Zombie(pid)] == tr.ticks[s].now
                    && tr.ZombieThrough(pid, s, n);
      assert tr.KillStretch(pid, s, n);
    }
    if tr.HotShell(pid, n) && exists s: nat :: tr.KillStretch(pid, s, n) {
      var s: nat :| tr.KillStretch(pid, s, n);
      ZombieClockKept(tr, s, n, pid);
    }
  }

  // So a killed shell had been hot throughout a stretch of ZOMBIE_FOR if and only if in some stretch that
  // kills it there is no tick at which it lacked the signature and idled. It had been a hot shell with the
  // signature throughout if and only if in some such stretch it always carried the signature.
  lemma ZombieKillSafe(tr: Trace, n: nat, pid: Pid)
    requires tr.Valid() && tr.Monotone() && n < |tr.ticks| && pid in tr.kills[n]
    ensures (exists s: nat :: tr.HotStretch(pid, s, n)) <==>
            exists s: nat :: tr.KillStretch(pid, s, n) && tr.NeverIdle(pid, s, n)
    ensures (exists s: nat :: tr.HotStretch(pid, s, n) && tr.Signed(pid, s, n)) <==>
            exists s: nat :: tr.KillStretch(pid, s, n) && tr.Signed(pid, s, n)
  {
    ZombieKillExact(tr, n, pid);
    forall s: nat | tr.HotStretch(pid, s, n) ensures tr.KillStretch(pid, s, n) && tr.NeverIdle(pid, s, n) {
    }
    forall s: nat | tr.KillStretch(pid, s, n) && tr.NeverIdle(pid, s, n) ensures tr.HotStretch(pid, s, n) {
    }
    forall s: nat | tr.KillStretch(pid, s, n) && tr.Signed(pid, s, n) ensures tr.HotStretch(pid, s, n) {
    }
  }

  // A tick that sees these unowned processes, all of which can be killed, and no orphans.
  function Shells(now: int, unowned: map<Pid, Shell>): Tick {
    Tick(now, unowned, {}, unowned.Keys, {}, {}, false)
  }

  // Without that it need not have been: a process that lost the signature, and idled, at the tick
  // between is killed all the same, its clock having run on.
  lemma IdleShellKilled(pid: Pid) returns (tr: Trace)
    ensures tr.Valid() && tr.Monotone() && |tr.ticks| == 3 && pid in tr.kills[2]
    ensures pid in tr.ticks[1].unowned && !tr.ticks[1].unowned[pid].hot
  {
    var hot, idle := Shell(false, true, true), Shell(false, false, false);
    var t0, t1, t2 := Shells(0, map[pid := hot]), Shells(300, map[pid := idle]), Shells(600, map[pid := hot]);
    var clock: Since := map[Zombie(pid) := 0];
    assert Ticked(map[], t0, clock, clock, {}, map[]) by { ShellTick(pid, map[], 0, hot, {}); }
    assert Ticked(clock, t1, clock, clock, {}, map[]) by { ShellTick(pid, clock, 300, idle, {}); }
    assert Ticked(clock, t2, clock, clock, {pid}, map[]) by { ShellTick(pid, clock, 600, hot, {pid}); }
    tr := Trace([t0, t1, t2], [map[], clock, clock, clock], [clock, clock, clock], [{}, {}, {pid}],
                [map[], map[], map[]]);
  }

  // One process alone on the box, its clock started at 0 and never dropped.
  lemma ShellTick(pid: Pid, since: Since, now: int, shell: Shell, kills: set<Pid>)
    requires shell.signature == shell.hot && !shell.busy
    requires (since == map[] && shell.hot && now == 0) || since == map[Zombie(pid) := 0]
    requires kills == if shell.hot && now >= ZOMBIE_FOR then {pid} else {}
    ensures var clock: Since := map[Zombie(pid) := 0];
            Ticked(since, Shells(now, map[pid := shell]), clock, clock, kills, map[])
  {
    QuietTick(since, Shells(now, map[pid := shell]), map[Zombie(pid) := 0], kills);
  }

  // A tick without orphans, from clocks of none.
  lemma QuietTick(since: Since, t: Tick, after: Since, kills: set<Pid>)
    requires t.orphans == {} && forall k: Key :: Get(after, k) == EvaluateKey(Get(since, k), t, k)
    requires forall k: Key :: k in after ==> k.Unowned? || k.Zombie?
    requires forall pid :: pid in kills <==> Killed(since, t, pid)
    ensures Ticked(since, t, after, after, kills, map[])
  {
  }

  // ------------------------------------------------------------------ worktree orphans

  // A running orphan clock started at a tick from which the pid has been an orphan throughout.
  lemma {:induction false} OrphanClock(tr: Trace, n: nat, pid: Pid)
    requires tr.Valid() && n <= |tr.ticks| && Orphan(pid) in tr.states[n]
    ensures exists s: nat :: s < n && tr.states[n][Orphan(pid)] == tr.ticks[s].now && tr.OrphanThrough(pid, s, n)
                             && (s == 0 || pid !in tr.ticks[s - 1].orphans)
  {
    var m := n - 1;
    StepKeys(tr, m, pid);
    if Orphan(pid) in tr.states[m] {
      OrphanClock(tr, m, pid);
      var s: nat :| s < m && tr.states[m][Orphan(pid)] == tr.ticks[s].now && tr.OrphanThrough(pid, s, m)
                    && (s == 0 || pid !in tr.ticks[s - 1].orphans);
      assert tr.OrphanThrough(pid, s, n);
    } else {
      assert tr.OrphanThrough(pid, m, n);
      if m > 0 {
        StepKeys(tr, m - 1, pid);
      }
    }
  }

  // An orphan at the last tick has a clock, no younger than any tick it has been one since.
  lemma {:induction false} OrphanClockKept(tr: Trace, s: nat, n: nat, pid: Pid)
    requires tr.Valid() && tr.Monotone() && s < n <= |tr.ticks| && tr.OrphanThrough(pid, s, n)
    ensures Orphan(pid) in tr.states[n] && tr.states[n][Orphan(pid)] <= tr.ticks[s].now
  {
    StepKeys(tr, n - 1, pid);
    if s < n - 1 {
      OrphanClockKept(tr, s, n - 1, pid);
    } else if Orphan(pid) in tr.states[s] {
      OrphanClock(tr, s, pid);
    }
  }

  // A remembered SIGTERM was sent at some tick of the present, unbroken orphanhood.
  lemma {:induction false} TermRemembered(tr: Trace, n: nat, pid: Pid)
    requires tr.Valid() && n <= |tr.ticks| && OrphanTerm(pid) in tr.states[n]
    ensures exists j: nat :: j < n && pid in tr.sent[j] && tr.sent[j][pid] == Term && tr.OrphanThrough(pid, j, n)
  {
    var m := n - 1;
    StepKeys(tr, m, pid);
    assert Ticked(tr.states[m], tr.ticks[m], tr.middles[m], tr.states[n], tr.kills[m], tr.sent[m]);
    assert pid in tr.ticks[m].orphans;
    if OrphanTerm(pid) in tr.states[m] {
      TermRemembered(tr, m, pid);
      var j: nat :| j < m && pid in tr.sent[j] && tr.sent[j][pid] == Term && tr.OrphanThrough(pid, j, m);
      assert tr.OrphanThrough(pid, j, n);
    } else {
      assert pid in tr.sent[m] && tr.sent[m][pid] == Term && tr.OrphanThrough(pid, m, n);
    }
  }

  // When an orphan is signalled, exactly: it has been an orphan at every tick over ORPHAN_FOR or
  // longer, this one included, and it was confirmed and could be signalled.
  lemma OrphanSignalExact(tr: Trace, n: nat, pid: Pid)
    requires tr.Valid() && tr.Monotone() && n < |tr.ticks|
    ensures pid in tr.sent[n] <==>
            && !tr.ticks[n].dry && pid in tr.ticks[n].confirmed && pid in tr.ticks[n].reachable
            && exists s: nat :: s <= n && tr.OrphanThrough(pid, s, n + 1)
                                && tr.ticks[n].now - tr.ticks[s].now >= ORPHAN_FOR
  {
    StepKeys(tr, n, pid);
    var t := tr.ticks[n];
    if pid in tr.sent[n] {
      OrphanClock(tr, n + 1, pid);
      var s: nat :| s < n + 1 && tr.states[n + 1][Orphan(pid)] == tr.ticks[s].now && tr.OrphanThrough(pid, s, n + 1);
    }
    if exists s: nat :: s <= n && tr.OrphanThrough(pid, s, n + 1) && t.now - tr.ticks[s].now >= ORPHAN_FOR {
      var s: nat :| s <= n && tr.OrphanThrough(pid, s, n + 1) && t.now - tr.ticks[s].now >= ORPHAN_FOR;
      OrphanClockKept(tr, s, n + 1, pid);
    }
  }

  // A SIGKILL follows a SIGTERM sent at an earlier tick of the same unbroken orphanhood, and both came
  // only after ORPHAN_FOR of it.
  lemma OrphanKillSafe(tr: Trace, n: nat, pid: Pid)
    requires tr.Valid() && tr.Monotone() && n < |tr.ticks| && pid in tr.sent[n] && tr.sent[n][pid] == Kill
    ensures exists s: nat, j: nat ::
              && s <= j < n && tr.OrphanThrough(pid, s, n + 1)
              && pid in tr.sent[j] && tr.sent[j][pid] == Term
              && tr.ticks[j].now - tr.ticks[s].now >= ORPHAN_FOR
              && pid in tr.ticks[n].confirmed
  {
    StepKeys(tr, n, pid);
    assert Ticked(tr.states[n], tr.ticks[n], tr.middles[n], tr.states[n + 1], tr.kills[n], tr.sent[n]);
    TermRemembered(tr, n, pid);
    var j: nat :| j < n && pid in tr.sent[j] && tr.sent[j][pid] == Term && tr.OrphanThrough(pid, j, n);
    OrphanSignalExact(tr, j, pid);
    var s: nat :| s <= j && tr.OrphanThrough(pid, s, j + 1) && tr.ticks[j].now - tr.ticks[s].now >= ORPHAN_FOR;
    OrphanSignalExact(tr, n, pid);
    assert forall k :: s <= k < n + 1 ==> pid in tr.ticks[k].orphans;
    assert tr.OrphanThrough(pid, s, n + 1);
  }
}
