/** The watchdog's carried clocks and the two rules that kill (ops/watchdog.py: _held, evaluate's zombie
rule, wt_orphans, kill_orphans).

`since` is a dictionary that lives across ticks; a rule fires when its condition has held for long
enough. Process tables, re-reads and the outcome of each signal are inputs of a tick. */
module WatchdogClocks {
  import opened Wrappers

  type Pid = int

  const UNOWNED_FOR: int := 120
  const ZOMBIE_FOR: int := 600
  const ORPHAN_FOR: int := 1800

  // The keys of `since` these rules use.
  datatype Key = Unowned(pid: Pid) | Zombie(pid: Pid) | Orphan(pid: Pid) | OrphanTerm(pid: Pid)

  type Since = map<Key, int>

  // ------------------------------------------------------------------ _held

  function HeldSince(since: Since, key: Key, cond: bool, now: int): Since {
    if !cond then since - {key} else if key in since then since else since[key := now]
  }

  function HeldFor(since: Since, key: Key, cond: bool, now: int, seconds: int): bool {
    cond && now - (if key in since then since[key] else now) >= seconds
  }

  // ------------------------------------------------------------------ one tick's inputs

  // An unowned process: over UNOWNED_CPU, over ZOMBIE_CPU, and whether its command line carries the
  // dead agent's shell signature.
  datatype Shell = Shell(busy: bool, hot: bool, signature: bool)

  // What one tick sees. `orphans` are the build processes in unprotected, inactive worktrees that no
  // live owner accounts for; `confirmed` passed the re-read of ps and claims. A SIGKILL to `killable`
  // succeeds when the zombie shells are killed, and a signal to `reachable` when the orphans are.
  datatype Tick = Tick(now: int, unowned: map<Pid, Shell>, orphans: set<Pid>, killable: set<Pid>, confirmed: set<Pid>,
                       reachable: set<Pid>, dry: bool)

  datatype Signal = Term | Kill

  // ------------------------------------------------------------------ evaluate

  predicate ZombieDue(since: Since, pid: Pid, p: Shell, now: int) {
    p.signature && HeldFor(since, Zombie(pid), p.hot, now, ZOMBIE_FOR)
  }

  // The shells killed: due, and the signal went through.
  predicate Killed(since: Since, t: Tick, pid: Pid) {
    pid in t.unowned && ZombieDue(since, pid, t.unowned[pid], t.now) && !t.dry && pid in t.killable
  }

  predicate BusyDue(since: Since, pid: Pid, p: Shell, now: int) {
    HeldFor(since, Unowned(pid), p.busy, now, UNOWNED_FOR)
  }

  // The processes reported as busy and owned by no one.
  predicate Alarmed(since: Since, t: Tick, pid: Pid) {
    pid in t.unowned && BusyDue(since, pid, t.unowned[pid], t.now)
  }

  function Get(since: Since, k: Key): Option<int> { if k in since then Some(since[k]) else None }

  // A clock that runs while `on`.
  function Running(was: Option<int>, on: bool, now: int): Option<int> {
    if !on then None else if was.Some? then was else Some(now)
  }

  // Each clock after the rules ran over the whole table and gone processes were forgotten. A process
  // without the signature keeps its zombie clock, whatever it holds.
  function EvaluateKey(was: Option<int>, t: Tick, k: Key): Option<int> {
    match k
    case Unowned(pid) => Running(was, pid in t.unowned && t.unowned[pid].busy, t.now)
    case Zombie(pid) =>
      if pid in t.unowned && !t.unowned[pid].signature then was
      else Running(was, pid in t.unowned && t.unowned[pid].hot, t.now)
    case _ => was
  }

  ghost predicate Evaluated(since: Since, t: Tick, after: Since) {
    forall k: Key :: Get(after, k) == EvaluateKey(Get(since, k), t, k)
  }

  // ------------------------------------------------------------------ wt_orphans

  // Each clock once the orphan clocks have run and those of pids no longer orphans are dropped.
  function OrphanKey(was: Option<int>, t: Tick, k: Key): Option<int> {
    match k
    case Orphan(pid) => Running(was, pid in t.orphans, t.now)
    case OrphanTerm(pid) => if pid in t.orphans then was else None
    case _ => was
  }

  predicate DueFor(clock: Option<int>, t: Tick, pid: Pid) {
    pid in t.orphans && clock.Some? && t.now - clock.value >= ORPHAN_FOR
  }

  // The orphans signalled: due, confirmed by the re-read, and the signal went through.
  predicate Acted(since: Since, t: Tick, pid: Pid) {
    DueFor(OrphanKey(Get(since, Orphan(pid)), t, Orphan(pid)), t, pid)
    && !t.dry && pid in t.confirmed && pid in t.reachable
  }

  function SignalFor(since: Since, pid: Pid): Signal { if OrphanTerm(pid) in since then Kill else Term }

  ghost predicate Stopped(since: Since, t: Tick, after: Since, sent: map<Pid, Signal>) {
    && (forall pid :: pid in sent <==> Acted(since, t, pid))
    && (forall pid :: pid in sent ==> sent[pid] == SignalFor(since, pid))
    && (forall k: Key :: Get(after, k) ==
                         if k.OrphanTerm? && k.pid in sent then Some(t.now) else OrphanKey(Get(since, k), t, k))
  }

  // One tick: evaluate, then the zombie shells, then the orphans; `kills` are the shells killed.
  ghost predicate Ticked(since: Since, t: Tick, middle: Since, after: Since, kills: set<Pid>, sent: map<Pid, Signal>) {
    && Evaluated(since, t, middle)
    && (forall pid :: pid in kills <==> Killed(since, t, pid))
    && Stopped(middle, t, after, sent)
  }

  // ------------------------------------------------------------------ the process

  lemma SomeIn(pids: set<Pid>)
    ensures pids == {} || exists pid :: pid in pids
  {
    if forall pid :: pid !in pids {
      assert pids == {};
    }
  }

  // The table's rows come in no particular order.
  method Next(pids: set<Pid>) returns (pid: Pid)
    requires pids != {}
    ensures pid in pids
  {
    SomeIn(pids);
    pid :| pid in pids;
  }

  class Watchdog {
    var since: Since

    constructor ()
      ensures since == map[]
    {
      since := map[];
    }

    // _held
    method Held(key: Key, cond: bool, now: int, seconds: int) returns (held: bool)
      modifies this
      ensures since == HeldSince(old(since), key, cond, now)
      ensures held == HeldFor(old(since), key, cond, now, seconds)
    {
      if !cond {
        since := since - {key};
        return false;
      }
      if key !in since {
        since := since[key := now];
      }
      held := now - since[key] >= seconds;
    }

    // The killing passes of one tick, in order.
    method DoTick(t: Tick) returns (alarms: set<Pid>, kills: set<Pid>, sent: map<Pid, Signal>, ghost middle: Since)
      modifies this
      ensures Ticked(old(since), t, middle, since, kills, sent)
      ensures forall pid :: pid in alarms <==> Alarmed(old(since), t, pid)
    {
      var due;
      alarms, due := Evaluate(t);
      middle := since;
      kills := {};
      if !t.dry {
        kills := KillNow(t, due);
      }
      sent := StopOrphans(t);
    }

    // kill_now
    method KillNow(t: Tick, due: set<Pid>) returns (done: set<Pid>)
      ensures forall pid :: pid in done <==> pid in due && pid in t.killable
    {
      done := {};
      var todo := due;
      while todo != {}
        invariant todo <= due
        invariant forall pid :: pid in done <==> pid in due && pid !in todo && pid in t.killable
        decreases |todo|
      {
        var pid := Next(todo);
        if pid in t.killable {
          done := done + {pid};
        }
        todo := todo - {pid};
      }
    }

    // The two rules for one unowned process.
    method EvaluateRow(t: Tick, pid: Pid) returns (busy: bool, due: bool)
      requires pid in t.unowned
      modifies this
      ensures RowEvaluated(old(since), t, pid, since)
      ensures busy == BusyDue(old(since), pid, t.unowned[pid], t.now)
      ensures due == ZombieDue(old(since), pid, t.unowned[pid], t.now)
    {
      var p := t.unowned[pid];
      busy := Held(Unowned(pid), p.busy, t.now, UNOWNED_FOR);
      due := false;
      if p.signature {
        due := Held(Zombie(pid), p.hot, t.now, ZOMBIE_FOR);
      }
    }

    // evaluate: the unowned-CPU and zombie rules.
    method Evaluate(t: Tick) returns (alarms: set<Pid>, kills: set<Pid>)
      modifies this
      ensures Evaluated(old(since), t, since)
      ensures forall pid :: pid in kills <==> pid in t.unowned && ZombieDue(old(since), pid, t.unowned[pid], t.now)
      ensures forall pid :: pid in alarms <==> pid in t.unowned && BusyDue(old(since), pid, t.unowned[pid], t.now)
    {
      alarms, kills := {}, {};
      var todo := t.unowned.Keys;
      while todo != {}
        invariant todo <= t.unowned.Keys
        invariant PartEvaluated(old(since), t, todo, since)
        invariant forall pid :: pid in kills <==>
                    pid in t.unowned && pid !in todo && ZombieDue(old(since), pid, t.unowned[pid], t.now)
        invariant forall pid :: pid in alarms <==>
                    pid in t.unowned && pid !in todo && BusyDue(old(since), pid, t.unowned[pid], t.now)
        decreases |todo|
      {
        var pid := Next(todo);
        ghost var before := since;
        assert Get(before, Unowned(pid)) == Get(old(since), Unowned(pid));
        assert Get(before, Zombie(pid)) == Get(old(since), Zombie(pid));
        var busy, due := EvaluateRow(t, pid);
        PartEvaluatedStep(old(since), t, todo, before, pid, since);
        if busy {
          alarms := alarms + {pid};
        }
        if due {
          kills := kills + {pid};
        }
        todo := todo - {pid};
      }
      Forget(t);
    }

    // The process is gone or owned; forget its clocks.
    method Forget(t: Tick)
      modifies this
      ensures forall k :: k in since <==> k in old(since) && !((k.Unowned? || k.Zombie?) && k.pid !in t.unowned)
      ensures forall k :: k in since ==> since[k] == old(since)[k]
    {
      since := map k | k in since && !((k.Unowned? || k.Zombie?) && k.pid !in t.unowned) :: since[k];
    }

    // The orphan clocks: which pids are due.
    method ClockOrphans(t: Tick) returns (due: set<Pid>)
      modifies this
      ensures forall k: Key :: Get(since, k) == OrphanKey(Get(old(since), k), t, k)
      ensures forall pid :: pid in due <==> DueFor(Get(since, Orphan(pid)), t, pid)
    {
      due := {};
      var todo := t.orphans;
      while todo != {}
        invariant todo <= t.orphans
        invariant PartClocked(old(since), t, todo, since)
        invariant forall pid :: pid in due <==> pid !in todo && DueFor(Get(since, Orphan(pid)), t, pid)
        decreases |todo|
      {
        var pid := Next(todo);
        ghost var before := since;
        var held := Held(Orphan(pid), true, t.now, ORPHAN_FOR);
        assert forall k: Key :: k != Orphan(pid) ==> Get(since, k) == Get(before, k);
        if held {
          due := due + {pid};
        }
        todo := todo - {pid};
      }
      since := map k | k in since && !((k.Orphan? || k.OrphanTerm?) && k.pid !in t.orphans) :: since[k];
    }

    // wt_orphans and kill_orphans
    method StopOrphans(t: Tick) returns (sent: map<Pid, Signal>)
      modifies this
      ensures Stopped(old(since), t, since, sent)
    {
      var due := ClockOrphans(t);
      ghost var clocked := since;
      sent := map[];
      if !t.dry {
        sent := KillOrphans(t, due);
      }
      StoppedFrom(old(since), t, clocked, since, sent);
    }

    // SIGTERM, and SIGKILL on a later tick.
    method KillOrphans(t: Tick, due: set<Pid>) returns (sent: map<Pid, Signal>)
      modifies this
      ensures forall pid :: pid in sent <==> pid in due && pid in t.confirmed && pid in t.reachable
      ensures forall pid :: pid in sent ==> sent[pid] == SignalFor(old(since), pid)
      ensures Marked(old(since), t, since, sent)
    {
      sent := map[];
      var todo := due;
      while todo != {}
        invariant todo <= due
        invariant forall pid :: pid in sent <==> pid in due && pid !in todo && pid in t.confirmed && pid in t.reachable
        invariant forall pid :: pid in sent ==> sent[pid] == SignalFor(old(since), pid)
        invariant Marked(old(since), t, since, sent)
        decreases |todo|
      {
        var pid := Next(todo);
        if pid in t.confirmed && pid in t.reachable {
          assert Get(since, OrphanTerm(pid)) == Get(old(since), OrphanTerm(pid));
          sent := sent[pid := if OrphanTerm(pid) in since then Kill else Term];
          since := since[OrphanTerm(pid) := t.now];
        }
        todo := todo - {pid};
      }
    }
  }

  ghost predicate RowEvaluated(since: Since, t: Tick, pid: Pid, after: Since) {
    forall k: Key :: Get(after, k) == if k.pid == pid then EvaluateKey(Get(since, k), t, k) else Get(since, k)
  }

  lemma PartEvaluatedStep(since: Since, t: Tick, todo: set<Pid>, before: Since, pid: Pid, after: Since)
    requires PartEvaluated(since, t, todo, before) && RowEvaluated(before, t, pid, after) && pid in todo
             && pid in t.unowned
    ensures PartEvaluated(since, t, todo - {pid}, after)
  {
  }

  lemma StoppedFrom(since: Since, t: Tick, clocked: Since, after: Since, sent: map<Pid, Signal>)
    requires forall k: Key :: Get(clocked, k) == OrphanKey(Get(since, k), t, k)
    requires Marked(clocked, t, after, sent)
    requires forall pid :: pid in sent <==> Acted(since, t, pid)
    requires forall pid :: pid in sent ==> sent[pid] == SignalFor(clocked, pid)
    ensures Stopped(since, t, after, sent)
  {
    forall pid | pid in sent ensures sent[pid] == SignalFor(since, pid) {
      assert Get(clocked, OrphanTerm(pid)) == Get(since, OrphanTerm(pid));
    }
  }

  // The rules run over all but `todo`.
  ghost predicate PartEvaluated(since: Since, t: Tick, todo: set<Pid>, after: Since) {
    forall k: Key :: Get(after, k) ==
                     if k.pid in t.unowned && k.pid !in todo then EvaluateKey(Get(since, k), t, k) else Get(since, k)
  }

  ghost predicate PartClocked(since: Since, t: Tick, todo: set<Pid>, after: Since) {
    forall k: Key :: Get(after, k) ==
                     if k.Orphan? && k.pid in t.orphans && k.pid !in todo then Running(Get(since, k), true, t.now)
                     else Get(since, k)
  }

  // The signalled pids are remembered; nothing else moves.
  ghost predicate Marked(since: Since, t: Tick, after: Since, sent: map<Pid, Signal>) {
    forall k: Key :: Get(after, k) == if k.OrphanTerm? && k.pid in sent then Some(t.now) else Get(since, k)
  }
}
