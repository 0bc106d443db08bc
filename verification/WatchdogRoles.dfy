/** Role-session liveness (ops/watchdog.py: liveness): dead sessions are relaunched, within bounds. */
module WatchdogRoles {
  import opened Wrappers

  // What the checks of tmux and the process table answer is an input.

  type Role = string

  const LIVENESS_EVERY: int := 60
  const LIVENESS_MISSES: nat := 2
  const RELAUNCH_GAP: int := 600
  const RELAUNCH_TRIES: nat := 3

  // session_missing's answer; only NoSession needs no kill before a relaunch.
  datatype Health = Unknown | Healthy | NoSession | NoClaude

  // What `since` holds for one role.
  datatype RoleState = RoleState(misses: nat, launchedAt: Option<int>, verify: bool, failed: nat)

  const FRESH: RoleState := RoleState(0, None, false, 0)

  // One check of one role: its health, what a second look before a kill would say, and whether a
  // stop marker exists.
  datatype Check = Check(now: int, stopped: bool, health: Health, again: Health)

  datatype Outcome = Skipped | Up | Missed | Reread | Relaunched

  // A missed check is counted, and a relaunch it follows has come back dead.
  function Miss(s: RoleState): RoleState {
    RoleState(s.misses + 1, s.launchedAt, false, if s.verify then s.failed + 1 else s.failed)
  }

  predicate MayRelaunch(s: RoleState, c: Check) {
    && s.misses >= LIVENESS_MISSES && !c.stopped && s.failed < RELAUNCH_TRIES
    && (s.launchedAt.Some? ==> c.now - s.launchedAt.value >= RELAUNCH_GAP)
  }

  function CheckRole(s: RoleState, c: Check): (RoleState, Outcome) {
    match c.health
    case Unknown => (s, Skipped)
    case Healthy => (RoleState(0, s.launchedAt, false, 0), Up)
    case _ =>
      var m := Miss(s);
      if !MayRelaunch(m, c) then (m, Missed)
      else if c.health == NoClaude && (c.again == Healthy || c.again == Unknown) then (m.(misses := 0), Reread)
      else (RoleState(0, Some(c.now), true, m.failed), Relaunched)
  }

  // ------------------------------------------------------------------ the process

  // The liveness entries of `since`, one map or set per key family.
  class RoleWatch {
    var checkedAt: Option<int>
    var misses: map<Role, nat>
    var launchedAt: map<Role, int>
    var verify: set<Role>
    var failed: map<Role, nat>

    constructor ()
      ensures checkedAt == None && forall r :: StateOf(r) == FRESH
    {
      checkedAt, misses, launchedAt, verify, failed := None, map[], map[], {}, map[];
    }

    function StateOf(r: Role): RoleState
      reads this
    {
      RoleState(if r in misses then misses[r] else 0, if r in launchedAt then Some(launchedAt[r]) else None,
                r in verify, if r in failed then failed[r] else 0)
    }

    // A dead session: count the miss, and a relaunch that came back dead.
    method CountMiss(r: Role)
      modifies this
      ensures StateOf(r) == Miss(old(StateOf(r))) && r in misses
      ensures forall q :: q != r ==> StateOf(q) == old(StateOf(q))
      ensures checkedAt == old(checkedAt)
    {
      if r in verify {
        verify := verify - {r};
        failed := failed[r := (if r in failed then failed[r] else 0) + 1];
      }
      misses := misses[r := (if r in misses then misses[r] else 0) + 1];
    }

    // The body of the loop over roles.
    method CheckOne(r: Role, c: Check) returns (o: Outcome)
      modifies this
      ensures (StateOf(r), o) == CheckRole(old(StateOf(r)), c)
      ensures forall q :: q != r ==> StateOf(q) == old(StateOf(q))
      ensures checkedAt == old(checkedAt)
    {
      if c.health == Unknown {
        return Skipped;
      }
      if c.health == Healthy {
        misses, verify, failed := misses - {r}, verify - {r}, failed - {r};
        return Up;
      }
      CountMiss(r);
      if misses[r] < LIVENESS_MISSES || c.stopped || (r in failed && failed[r] >= RELAUNCH_TRIES)
         || (r in launchedAt && c.now - launchedAt[r] < RELAUNCH_GAP) {
        return Missed;
      }
      if c.health == NoClaude && (c.again == Healthy || c.again == Unknown) {
        misses := misses - {r};
        return Reread;
      }
      launchedAt, verify, misses := launchedAt[r := c.now], verify + {r}, misses - {r};
      o := Relaunched;
    }

    // liveness: at most one pass a minute, never without a process table.
    method Liveness(now: int, tableRead: bool, roles: seq<Role>, checks: map<Role, Check>)
      returns (done: map<Role, Outcome>)
      requires forall i :: 0 <= i < |roles| ==> roles[i] in checks && checks[roles[i]].now == now
      requires forall i, j :: 0 <= i < j < |roles| ==> roles[i] != roles[j]
      modifies this
      ensures var runs := tableRead && (old(checkedAt).Some? ==> now - old(checkedAt).value >= LIVENESS_EVERY);
              && checkedAt == (if runs then Some(now) else old(checkedAt))
              && forall r :: if runs && r in roles
                             then r in done && (StateOf(r), done[r]) == CheckRole(old(StateOf(r)), checks[r])
                             else r !in done && StateOf(r) == old(StateOf(r))
    {
      done := map[];
      if !tableRead || (checkedAt.Some? && now - checkedAt.value < LIVENESS_EVERY) {
        return;
      }
      checkedAt := Some(now);
      for i := 0 to |roles|
        invariant checkedAt == Some(now)
        invariant forall r :: if r in roles[..i]
                              then r in done && (StateOf(r), done[r]) == CheckRole(old(StateOf(r)), checks[r])
                              else r !in done && StateOf(r) == old(StateOf(r))
      {
        var r := roles[i];
        assert r !in roles[..i] && roles[..i + 1] == roles[..i] + [r];
        var o := CheckOne(r, checks[r]);
        done := done[r := o];
      }
      assert roles[..|roles|] == roles;
    }
  }

  // ------------------------------------------------------------------ every run of one role

  // The state after a run of checks, and what each did.
  function StateAfter(checks: seq<Check>): RoleState
    decreases |checks|
  {
    if checks == [] then FRESH else CheckRole(StateAfter(checks[..|checks| - 1]), checks[|checks| - 1]).0
  }

  function OutcomeAt(checks: seq<Check>, n: nat): Outcome
    requires n < |checks|
  {
    CheckRole(StateAfter(checks[..n]), checks[n]).1
  }

  lemma StateStep(checks: seq<Check>, n: nat)
    requires n < |checks|
    ensures StateAfter(checks[..n + 1]) == CheckRole(StateAfter(checks[..n]), checks[n]).0
  {
    assert checks[..n + 1][..n] == checks[..n];
  }

  // Relaunches among the first n checks since the last healthy one.
  function RelaunchesSinceUp(checks: seq<Check>, n: nat): nat
    requires n <= |checks|
  {
    if n == 0 then 0
    else
      match OutcomeAt(checks, n - 1)
      case Up => 0
      case Relaunched => RelaunchesSinceUp(checks, n - 1) + 1
      case _ => RelaunchesSinceUp(checks, n - 1)
  }

  // The state counts them: those that came back dead, and the one not verified yet.
  lemma {:induction false} RelaunchesCounted(checks: seq<Check>, n: nat)
    requires n <= |checks|
    ensures var s := StateAfter(checks[..n]);
            RelaunchesSinceUp(checks, n) == s.failed + (if s.verify then 1 else 0) && s.failed <= RELAUNCH_TRIES
            && (s.verify ==> s.failed < RELAUNCH_TRIES)
  {
    if n != 0 {
      RelaunchesCounted(checks, n - 1);
      StateStep(checks, n - 1);
    }
  }

  // Between two healthy checks a role is relaunched at most RELAUNCH_TRIES times.
  lemma RelaunchBound(checks: seq<Check>, n: nat)
    requires n <= |checks|
    ensures RelaunchesSinceUp(checks, n) <= RELAUNCH_TRIES
  {
    RelaunchesCounted(checks, n);
  }

  // The last relaunch is remembered for good: neither health nor failure forgets it.
  lemma {:induction false} LaunchRemembered(checks: seq<Check>, i: nat, n: nat)
    requires i < n <= |checks| && OutcomeAt(checks, i) == Relaunched
    ensures var at := StateAfter(checks[..n]).launchedAt; at.Some? && at.value >= checks[i].now
    decreases n
  {
    StateStep(checks, n - 1);
    if i < n - 1 {
      LaunchRemembered(checks, i, n - 1);
    }
  }

  // Any two relaunches of a role are at least RELAUNCH_GAP apart.
  lemma RelaunchGap(checks: seq<Check>, i: nat, j: nat)
    requires i < j < |checks| && OutcomeAt(checks, i) == Relaunched && OutcomeAt(checks, j) == Relaunched
    ensures checks[j].now - checks[i].now >= RELAUNCH_GAP
  {
    LaunchRemembered(checks, i, j);
  }

  // Every check strictly between m and n said dead or nothing.
  predicate DeadBetween(checks: seq<Check>, m: nat, n: nat)
    requires n <= |checks|
  {
    forall k :: m < k < n ==> OutcomeAt(checks, k) in {Skipped, Missed}
  }

  lemma {:induction false} MissBefore(checks: seq<Check>, n: nat)
    requires n <= |checks| && StateAfter(checks[..n]).misses > 0
    ensures exists m: nat :: m < n && OutcomeAt(checks, m) == Missed && DeadBetween(checks, m, n)
    decreases n
  {
    if n > 0 {
      StateStep(checks, n - 1);
      if OutcomeAt(checks, n - 1) == Missed {
        assert DeadBetween(checks, n - 1, n);
      } else {
        MissBefore(checks, n - 1);
        var m: nat :| m < n - 1 && OutcomeAt(checks, m) == Missed && DeadBetween(checks, m, n - 1);
        assert DeadBetween(checks, m, n);
      }
    }
  }

  // A relaunch is made at a missed check that follows another, with no healthy check, relaunch or
  // second look in between, and never while a stop marker exists.
  lemma RelaunchAfterMisses(checks: seq<Check>, n: nat)
    requires n < |checks| && OutcomeAt(checks, n) == Relaunched
    ensures checks[n].health in {NoSession, NoClaude} && !checks[n].stopped
    ensures exists m: nat :: m < n && OutcomeAt(checks, m) == Missed && DeadBetween(checks, m, n)
  {
    MissBefore(checks, n);
  }

  // ------------------------------------------------------------------ exactly when

  // A miss that nothing has reset is counted.
  lemma {:induction false} MissKept(checks: seq<Check>, m: nat, n: nat)
    requires m < n <= |checks| && OutcomeAt(checks, m) == Missed && DeadBetween(checks, m, n)
    ensures StateAfter(checks[..n]).misses > 0
    decreases n
  {
    StateStep(checks, n - 1);
    if m < n - 1 {
      assert DeadBetween(checks, m, n - 1);
      assert OutcomeAt(checks, n - 1) in {Skipped, Missed};
      MissKept(checks, m, n - 1);
    }
  }

  // What is remembered is a relaunch that was made.
  lemma {:induction false} LaunchWasMade(checks: seq<Check>, n: nat)
    requires n <= |checks| && StateAfter(checks[..n]).launchedAt.Some?
    ensures exists j: nat :: j < n && OutcomeAt(checks, j) == Relaunched
                             && checks[j].now == StateAfter(checks[..n]).launchedAt.value
    decreases n
  {
    if n > 0 {
      StateStep(checks, n - 1);
      if OutcomeAt(checks, n - 1) != Relaunched {
        LaunchWasMade(checks, n - 1);
      }
    }
  }

  // The role was missed before check n, with nothing that resets the count since.
  ghost predicate MissedBefore(checks: seq<Check>, n: nat)
    requires n < |checks|
  {
    exists m: nat :: m < n && OutcomeAt(checks, m) == Missed && DeadBetween(checks, m, n)
  }

  // Every relaunch before check n was RELAUNCH_GAP ago or longer.
  ghost predicate Rested(checks: seq<Check>, n: nat)
    requires n < |checks|
  {
    forall j :: 0 <= j < n && OutcomeAt(checks, j) == Relaunched ==> checks[n].now - checks[j].now >= RELAUNCH_GAP
  }

  lemma MissesMean(checks: seq<Check>, n: nat)
    requires n < |checks|
    ensures StateAfter(checks[..n]).misses > 0 <==> MissedBefore(checks, n)
  {
    if StateAfter(checks[..n]).misses > 0 {
      MissBefore(checks, n);
    }
    if m: nat :| m < n && OutcomeAt(checks, m) == Missed && DeadBetween(checks, m, n) {
      MissKept(checks, m, n);
    }
  }

  // The gap from the relaunch remembered is the gap from them all.
  lemma GapKept(checks: seq<Check>, n: nat)
    requires n < |checks|
    ensures var at := StateAfter(checks[..n]).launchedAt;
            (at.Some? ==> checks[n].now - at.value >= RELAUNCH_GAP) <==> Rested(checks, n)
  {
    var at := StateAfter(checks[..n]).launchedAt;
    if at.Some? {
      LaunchWasMade(checks, n);
    }
    forall j | 0 <= j < n && OutcomeAt(checks, j) == Relaunched ensures at.Some? && at.value >= checks[j].now {
      LaunchRemembered(checks, j, n);
    }
  }

  // Dead now, and at the second look before a kill.
  predicate Dead(c: Check) {
    c.health == NoSession || (c.health == NoClaude && (c.again == NoSession || c.again == NoClaude))
  }

  lemma RelaunchFrom(s: RoleState, c: Check)
    ensures CheckRole(s, c).1 == Relaunched <==>
            && !c.stopped && Dead(c) && s.misses > 0 && s.failed + (if s.verify then 1 else 0) < RELAUNCH_TRIES
            && (s.launchedAt.Some? ==> c.now - s.launchedAt.value >= RELAUNCH_GAP)
  {
  }

  // A role is relaunched at a check if and only if it is dead there, no stop marker exists, the second look
  // before a kill agrees, it was missed before with nothing healthy between, fewer than RELAUNCH_TRIES
  // relaunches were made since it was last healthy, and all of them RELAUNCH_GAP ago or longer.
  lemma RelaunchExact(checks: seq<Check>, n: nat)
    requires n < |checks|
    ensures OutcomeAt(checks, n) == Relaunched <==>
            && !checks[n].stopped && Dead(checks[n])
            && MissedBefore(checks, n) && RelaunchesSinceUp(checks, n) < RELAUNCH_TRIES && Rested(checks, n)
  {
    RelaunchFrom(StateAfter(checks[..n]), checks[n]);
    MissesMean(checks, n);
    RelaunchesCounted(checks, n);
    GapKept(checks, n);
  }

  // A relaunch that came back dead is not forgotten by one that is tried, and health forgets them all: after
  // RELAUNCH_TRIES of them nothing is tried until a healthy check.
  lemma GivenUp(checks: seq<Check>, n: nat)
    requires n < |checks| && RelaunchesSinceUp(checks, n) >= RELAUNCH_TRIES
    ensures OutcomeAt(checks, n) != Relaunched
    ensures RelaunchesSinceUp(checks, n + 1) == if checks[n].health == Healthy then 0 else RelaunchesSinceUp(checks, n)
  {
    RelaunchExact(checks, n);
  }
}
