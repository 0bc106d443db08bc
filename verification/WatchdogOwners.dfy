/** Who owns a process (ops/watchdog.py: attribute, owner_of).

owner_of is a memoised recursion over parent and group links with a depth limit. Here it is related
to its unmemoised definition, which depends on the process table only. */
module WatchdogOwners {
  import opened Wrappers

  type Pid = int
  type Owner = string

  const DEPTH_LIMIT: nat := 64

  // A process row: its links, the worker whose worktree its command line names, and its fallback label.
  datatype Row = Row(ppid: Pid, pgid: Pid, worktree: Option<Owner>, fallback: Option<Owner>)

  // The table, and the owners declared by anchors, claims and gate roots.
  datatype Table = Table(rows: map<Pid, Row>, direct: map<Pid, Owner>)
  {
    predicate Known(pid: Pid) { pid > 1 && pid in rows }

    // Parent and group links of unanchored processes lead to smaller ranks, none above the limit.
    ghost predicate Ranked(rank: Pid -> nat) {
      forall p :: Known(p) ==>
        && rank(p) <= DEPTH_LIMIT
        && (p !in direct && Known(rows[p].ppid) ==> rank(rows[p].ppid) < rank(p))
        && (p !in direct && rows[p].pgid != p && Known(rows[p].pgid) ==> rank(rows[p].pgid) < rank(p))
    }
  }

  function OrElse(a: Option<Owner>, b: Option<Owner>): Option<Owner> { if a.Some? then a else b }

  // The owner of a process: its own anchor, else its parent's owner, else its group's, else the
  // worker whose worktree it runs from, else a fallback label.
  ghost function OwnerOf(t: Table, pid: Pid, rank: Pid -> nat): Option<Owner>
    requires t.Ranked(rank)
    decreases if t.Known(pid) then rank(pid) + 1 else 0
  {
    if !t.Known(pid) then None
    else if pid in t.direct then Some(t.direct[pid])
    else
      var row := t.rows[pid];
      var up := OwnerOf(t, row.ppid, rank);
      var group := if row.pgid != pid then OwnerOf(t, row.pgid, rank) else None;
      OrElse(OrElse(OrElse(up, group), row.worktree), row.fallback)
  }

  type Resolved = map<Pid, Owner>

  ghost predicate MemoOk(t: Table, resolved: Resolved, rank: Pid -> nat)
    requires t.Ranked(rank)
  {
    forall p :: p in resolved ==> OwnerOf(t, p, rank) == Some(resolved[p])
  }

  // owner_of
  method Resolve(t: Table, pid: Pid, depth: nat, resolved: Resolved, ghost rank: Pid -> nat)
    returns (owner: Option<Owner>, resolved': Resolved)
    requires t.Ranked(rank) && MemoOk(t, resolved, rank)
    requires t.Known(pid) ==> depth + rank(pid) <= DEPTH_LIMIT
    ensures owner == OwnerOf(t, pid, rank)
    ensures MemoOk(t, resolved', rank) && resolved.Keys <= resolved'.Keys
    ensures owner.Some? ==> pid in resolved'
    decreases if t.Known(pid) then rank(pid) + 1 else 0
  {
    resolved' := resolved;
    if pid in resolved {
      return Some(resolved[pid]), resolved;
    }
    if pid <= 1 || depth > DEPTH_LIMIT || pid !in t.rows {
      return None, resolved;
    }
    if pid in t.direct {
      return Some(t.direct[pid]), resolved[pid := t.direct[pid]];
    }
    var row := t.rows[pid];
    owner, resolved' := Resolve(t, row.ppid, depth + 1, resolved', rank);
    if owner.None? && row.pgid != pid {
      owner, resolved' := Resolve(t, row.pgid, depth + 1, resolved', rank);
    }
    if owner.None? {
      owner := row.worktree;
    }
    if owner.None? {
      owner := row.fallback;
    }
    if owner.Some? {
      resolved' := resolved'[pid := owner.value];
    }
  }

  // attribute: whatever the order of the rows, exactly the processes with an owner, each with the one
  // its links define.
  method Attribute(t: Table, order: seq<Pid>, ghost rank: Pid -> nat) returns (resolved: Resolved)
    requires t.Ranked(rank) && forall p :: p in order <==> p in t.rows
    ensures forall p :: p in resolved <==> OwnerOf(t, p, rank).Some?
    ensures forall p :: p in resolved ==> OwnerOf(t, p, rank) == Some(resolved[p])
  {
    resolved := map[];
    for i := 0 to |order|
      invariant MemoOk(t, resolved, rank)
      invariant forall j :: 0 <= j < i && OwnerOf(t, order[j], rank).Some? ==> order[j] in resolved
    {
      var owner;
      owner, resolved := Resolve(t, order[i], 0, resolved, rank);
    }
    forall p | OwnerOf(t, p, rank).Some? ensures p in resolved {
      assert p in order;
    }
  }

  // Two orders of the rows give one attribution, whichever ranks show that the links end: what it says
  // is fixed by the table.
  lemma OrderFree(t: Table, a: Resolved, b: Resolved, r: Pid -> nat, s: Pid -> nat)
    requires t.Ranked(r) && t.Ranked(s)
    requires (forall p :: p in a <==> OwnerOf(t, p, r).Some?) && (forall p :: p in a ==> OwnerOf(t, p, r) == Some(a[p]))
    requires (forall p :: p in b <==> OwnerOf(t, p, s).Some?) && (forall p :: p in b ==> OwnerOf(t, p, s) == Some(b[p]))
    ensures a == b
  {
    forall p ensures OwnerOf(t, p, r) == OwnerOf(t, p, s) {
      RankFree(t, p, r, s);
    }
    assert forall p :: p in a <==> p in b;
    assert forall p :: p in a ==> Some(a[p]) == Some(b[p]);
  }

  // chain leads from a process to its nearest anchored ancestor: the last is anchored, those before
  // it are not.
  predicate AnchoredChain(t: Table, chain: seq<Pid>)
  {
    && chain != [] && (forall i :: 0 <= i < |chain| ==> t.Known(chain[i]))
    && (forall i :: 0 <= i < |chain| - 1 ==> chain[i] !in t.direct && t.rows[chain[i]].ppid == chain[i + 1])
    && chain[|chain| - 1] in t.direct
  }

  // A process with an anchored ancestor has the nearest one's owner, whatever its group, worktree or
  // fallback would say.
  lemma {:induction false} NearestAnchorOwns(t: Table, chain: seq<Pid>, rank: Pid -> nat)
    requires t.Ranked(rank) && AnchoredChain(t, chain)
    ensures OwnerOf(t, chain[0], rank) == Some(t.direct[chain[|chain| - 1]])
    decreases |chain|
  {
    if |chain| > 1 {
      assert AnchoredChain(t, chain[1..]);
      NearestAnchorOwns(t, chain[1..], rank);
    }
  }

  // A process that lost its parent belongs to its group's nearest anchor, whatever its worktree or fallback
  // would say.
  lemma OrphanOfGroup(t: Table, pid: Pid, chain: seq<Pid>, rank: Pid -> nat)
    requires t.Ranked(rank) && t.Known(pid) && pid !in t.direct && !t.Known(t.rows[pid].ppid)
    requires AnchoredChain(t, chain) && chain[0] == t.rows[pid].pgid && chain[0] != pid
    ensures OwnerOf(t, pid, rank) == Some(t.direct[chain[|chain| - 1]])
  {
    NearestAnchorOwns(t, chain, rank);
  }

  // One that lost its group too belongs to the worker whose worktree it runs from, and only without one to
  // its fallback.
  lemma OrphanAlone(t: Table, pid: Pid, rank: Pid -> nat)
    requires t.Ranked(rank) && t.Known(pid) && pid !in t.direct && !t.Known(t.rows[pid].ppid)
    requires t.rows[pid].pgid == pid || !t.Known(t.rows[pid].pgid)
    ensures var row := t.rows[pid];
            OwnerOf(t, pid, rank) == if row.worktree.Some? then row.worktree else row.fallback
  {
  }

  // chain follows parent and group links of unanchored processes.
  predicate Links(t: Table, chain: seq<Pid>) {
    && chain != [] && (forall i :: 0 <= i < |chain| ==> t.Known(chain[i]))
    && forall i :: 0 <= i < |chain| - 1 ==> LinkedTo(t, chain[i], chain[i + 1])
  }

  predicate LinkedTo(t: Table, p: Pid, q: Pid)
    requires t.Known(p)
  {
    p !in t.direct && (q == t.rows[p].ppid || (q == t.rows[p].pgid && q != p))
  }

  predicate Marked(t: Table, p: Pid)
    requires t.Known(p)
  {
    p in t.direct || t.rows[p].worktree.Some? || t.rows[p].fallback.Some?
  }

  // A process is unowned if and only if nothing its links lead to, itself included, has an anchor, a worktree
  // or a fallback.
  lemma OwnedIff(t: Table, pid: Pid, rank: Pid -> nat)
    requires t.Ranked(rank)
    ensures OwnerOf(t, pid, rank).Some? <==>
            exists chain :: Links(t, chain) && chain[0] == pid && Marked(t, chain[|chain| - 1])
  {
    if OwnerOf(t, pid, rank).Some? {
      var chain := OwnedChain(t, pid, rank);
    }
    if chain :| Links(t, chain) && chain[0] == pid && Marked(t, chain[|chain| - 1]) {
      MarkedOwned(t, chain, rank);
    }
  }

  lemma {:induction false} OwnedChain(t: Table, pid: Pid, rank: Pid -> nat) returns (chain: seq<Pid>)
    requires t.Ranked(rank) && OwnerOf(t, pid, rank).Some?
    ensures Links(t, chain) && chain[0] == pid && Marked(t, chain[|chain| - 1])
    decreases if t.Known(pid) then rank(pid) + 1 else 0
  {
    chain := [pid];
    if !Marked(t, pid) {
      var row := t.rows[pid];
      var next := if OwnerOf(t, row.ppid, rank).Some? then row.ppid else row.pgid;
      var rest := OwnedChain(t, next, rank);
      chain := [pid] + rest;
    }
  }

  lemma {:induction false} MarkedOwned(t: Table, chain: seq<Pid>, rank: Pid -> nat)
    requires t.Ranked(rank) && Links(t, chain) && Marked(t, chain[|chain| - 1])
    ensures OwnerOf(t, chain[0], rank).Some?
    decreases |chain|
  {
    if |chain| > 1 {
      assert LinkedTo(t, chain[0], chain[1]);
      assert Links(t, chain[1..]);
      MarkedOwned(t, chain[1..], rank);
    }
  }

  // The rank is only a witness that the links end: any two give the same owners.
  lemma {:induction false} RankFree(t: Table, pid: Pid, r: Pid -> nat, s: Pid -> nat)
    requires t.Ranked(r) && t.Ranked(s)
    ensures OwnerOf(t, pid, r) == OwnerOf(t, pid, s)
    decreases if t.Known(pid) then r(pid) + 1 else 0
  {
    if t.Known(pid) && pid !in t.direct {
      RankFree(t, t.rows[pid].ppid, r, s);
      if t.rows[pid].pgid != pid {
        RankFree(t, t.rows[pid].pgid, r, s);
      }
    }
  }
}
