/** Burndown history with its per-commit cache (ops/burndown.py: build, _summarise).

A snapshot of the board is a function of the commit; git's first-parent log only grows. The cache is a
dictionary that outlives a build, keyed by commit, and each entry also records what changed since the
commit before. */
module Burndown {
  import opened Wrappers

  type Hash = string
  type Ticket = string
  type Milestone = string

  // How build tells statuses apart: OPEN, "done", PLANNED, or none of them.
  datatype Status = OpenStatus | DoneStatus | PlannedStatus | OtherStatus

  // One board row, as scan reads it.
  datatype Row = Row(milestone: Milestone, status: Status)

  type Snapshot = map<Ticket, Row>

  datatype Commit = Commit(hash: Hash, t: int)

  // ------------------------------------------------------------------ _summarise

  function Tickets(s: Snapshot, m: Milestone, st: Status): set<Ticket> {
    set id | id in s && s[id] == Row(m, st)
  }

  function Milestones(s: Snapshot, st: Status): set<Milestone> {
    set id | id in s && s[id].status == st :: s[id].milestone
  }

  // How many tickets of each milestone have the status; milestones with none are absent.
  function CountBy(s: Snapshot, st: Status): map<Milestone, nat> {
    map m | m in Milestones(s, st) :: |Tickets(s, m, st)|
  }

  // One more in m's count.
  function Bump(counts: map<Milestone, nat>, m: Milestone): map<Milestone, nat> {
    counts[m := (if m in counts then counts[m] else 0) + 1]
  }

  lemma TicketsAdd(s: Snapshot, id: Ticket, row: Row, m: Milestone, st: Status)
    requires id !in s
    ensures Tickets(s[id := row], m, st) == Tickets(s, m, st) + (if row == Row(m, st) then {id} else {})
  {
  }

  lemma MilestonesAdd(s: Snapshot, id: Ticket, row: Row, st: Status)
    requires id !in s
    ensures Milestones(s[id := row], st) == Milestones(s, st) + (if row.status == st then {row.milestone} else {})
  {
    var s' := s[id := row];
    if row.status == st {
      assert id in s' && s'[id].milestone == row.milestone;
    }
    forall m | m in Milestones(s, st) ensures m in Milestones(s', st) {
      var x :| x in s && s[x].status == st && s[x].milestone == m;
      assert x in s' && s'[x] == s[x];
    }
  }

  lemma NoTickets(s: Snapshot, m: Milestone, st: Status)
    ensures m in Milestones(s, st) || Tickets(s, m, st) == {}
  {
    if Tickets(s, m, st) != {} {
      var x :| x in Tickets(s, m, st);
      assert s[x].status == st && s[x].milestone == m;
    }
  }

  // How often m is counted, 0 where it is absent.
  function CountOf(counts: map<Milestone, nat>, m: Milestone): nat {
    if m in counts then counts[m] else 0
  }

  // A milestone is listed iff it has a ticket of the status, with the number of them.
  ghost predicate CountsStatus(s: Snapshot, st: Status, counts: map<Milestone, nat>) {
    counts.Keys == Milestones(s, st) && forall m :: CountOf(counts, m) == |Tickets(s, m, st)|
  }

  lemma CountByCounts(s: Snapshot, st: Status)
    ensures CountsStatus(s, st, CountBy(s, st))
  {
    forall m ensures CountOf(CountBy(s, st), m) == |Tickets(s, m, st)| {
      NoTickets(s, m, st);
    }
  }

  lemma CountsUnique(s: Snapshot, st: Status, counts: map<Milestone, nat>)
    requires CountsStatus(s, st, counts)
    ensures counts == CountBy(s, st)
  {
    forall m | m in counts ensures counts[m] == CountBy(s, st)[m] {
      assert CountOf(counts, m) == counts[m];
    }
  }

  lemma TicketsCount(s: Snapshot, id: Ticket, row: Row, m: Milestone, st: Status)
    requires id !in s
    ensures |Tickets(s[id := row], m, st)| == |Tickets(s, m, st)| + (if row == Row(m, st) then 1 else 0)
  {
    TicketsAdd(s, id, row, m, st);
  }

  lemma CountByAdds(s: Snapshot, id: Ticket, row: Row, st: Status)
    requires id !in s
    ensures CountBy(s[id := row], st) == Counted(CountBy(s, st), row, st)
  {
    var counts := CountBy(s, st);
    CountByCounts(s, st);
    MilestonesAdd(s, id, row, st);
    forall m ensures CountOf(Counted(counts, row, st), m) == |Tickets(s[id := row], m, st)| {
      TicketsCount(s, id, row, m, st);
    }
    CountsUnique(s[id := row], st, Counted(counts, row, st));
  }

  // One ticket counted.
  function Counted(counts: map<Milestone, nat>, row: Row, st: Status): map<Milestone, nat> {
    if row.status == st then Bump(counts, row.milestone) else counts
  }

  // The three counts of a snapshot.
  ghost predicate Counts(s: Snapshot, open: map<Milestone, nat>, done: map<Milestone, nat>, planned: map<Milestone,
                         nat>) {
    open == CountBy(s, OpenStatus) && done == CountBy(s, DoneStatus) && planned == CountBy(s, PlannedStatus)
  }

  lemma CountsAdd(s: Snapshot, id: Ticket, row: Row, open: map<Milestone, nat>, done: map<Milestone, nat>,
                  planned: map<Milestone, nat>)
    requires id !in s && Counts(s, open, done, planned)
    ensures Counts(s[id := row], Counted(open, row, OpenStatus), Counted(done, row, DoneStatus),
                   Counted(planned, row, PlannedStatus))
  {
    CountByAdds(s, id, row, OpenStatus);
    CountByAdds(s, id, row, DoneStatus);
    CountByAdds(s, id, row, PlannedStatus);
  }

  // _summarise
  method Summarise(s: Snapshot)
    returns (open: map<Milestone, nat>, done: map<Milestone, nat>, planned: map<Milestone, nat>)
    ensures Counts(s, open, done, planned)
  {
    open, done, planned := map[], map[], map[];
    ghost var seen: Snapshot := map[];
    var todo := s.Keys;
    while todo != {}
      invariant todo <= s.Keys && seen.Keys == s.Keys - todo && forall id :: id in seen ==> seen[id] == s[id]
      invariant Counts(seen, open, done, planned)
      decreases |todo|
    {
      var id :| id in todo;
      CountsAdd(seen, id, s[id], open, done, planned);
      var m := s[id].milestone;
      match s[id].status {
        case OpenStatus => open := Bump(open, m);
        case DoneStatus => done := Bump(done, m);
        case PlannedStatus => planned := Bump(planned, m);
        case OtherStatus =>
      }
      seen := seen[id := s[id]];
      todo := todo - {id};
    }
    assert seen == s;
  }

  // ------------------------------------------------------------------ history

  // The cache entry of a commit.
  datatype Entry = Entry(open: map<Milestone, nat>, done: map<Milestone, nat>, planned: map<Milestone, nat>,
                         filed: set<Ticket>, closed: set<Ticket>, ids: set<Ticket>, idsDone: set<Ticket>)

  type Cache = map<Hash, Entry>

  datatype HistoryRow = HistoryRow(hash: Hash, t: int, open: map<Milestone, nat>, done: map<Milestone, nat>,
                                   planned: map<Milestone, nat>, filed: nat, closed: nat)

  // All that build takes from a snapshot.
  datatype Facts = Facts(open: map<Milestone, nat>, done: map<Milestone, nat>, planned: map<Milestone, nat>,
                         ids: set<Ticket>, idsDone: set<Ticket>)

  function FactsOf(s: Snapshot): Facts {
    Facts(CountBy(s, OpenStatus), CountBy(s, DoneStatus), CountBy(s, PlannedStatus), s.Keys,
          set id | id in s && s[id].status == DoneStatus)
  }

  function FactsBy(show: Hash -> Snapshot): Hash -> Facts {
    h => FactsOf(show(h))
  }

  // The entry of a snapshot, `prev` being the ids and done ids before it; with none nothing is new.
  function EntryAfter(f: Facts, prev: Option<(set<Ticket>, set<Ticket>)>): Entry {
    Entry(f.open, f.done, f.planned, if prev.Some? then f.ids - prev.value.0 else {},
          if prev.Some? then f.idsDone - prev.value.1 else {}, f.ids, f.idsDone)
  }

  function Seen(f: Facts): Option<(set<Ticket>, set<Ticket>)> { Some((f.ids, f.idsDone)) }

  // The right entry of commit i of a log: what changed since commit i - 1.
  function EntryAt(facts: Hash -> Facts, log: seq<Commit>, i: nat): Entry
    requires i < |log|
  {
    EntryAfter(facts(log[i].hash), if i == 0 then None else Seen(facts(log[i - 1].hash)))
  }

  function RowOf(c: Commit, e: Entry): HistoryRow {
    HistoryRow(if |c.hash| <= 8 then c.hash else c.hash[..8], c.t, e.open, e.done, e.planned, |e.filed|, |e.closed|)
  }

  // The history a build without any cache gives.
  function FreshRows(facts: Hash -> Facts, log: seq<Commit>): seq<HistoryRow> {
    seq(|log|, i requires 0 <= i < |log| => RowOf(log[i], EntryAt(facts, log, i)))
  }

  // A log names each commit once.
  predicate Distinct(log: seq<Commit>) {
    forall i, j :: 0 <= i < j < |log| ==> log[i].hash != log[j].hash
  }

  // Commit i has its right entry, if it has one.
  predicate RightAt(facts: Hash -> Facts, log: seq<Commit>, cache: Cache, i: nat)
    requires i < |log|
  {
    log[i].hash in cache ==> cache[log[i].hash] == EntryAt(facts, log, i)
  }

  // Every cached commit of the log has its right entry.
  ghost predicate CacheOk(facts: Hash -> Facts, log: seq<Commit>, cache: Cache) {
    forall i :: 0 <= i < |log| ==> RightAt(facts, log, cache, i)
  }

  // Nothing is cached that is not in the log.
  ghost predicate CachedFrom(log: seq<Commit>, cache: Cache) {
    forall h :: h in cache ==> exists i :: 0 <= i < |log| && log[i].hash == h
  }

  // The commits a build with a limit looks at.
  function WindowStart(log: seq<Commit>, limit: nat): (m: nat)
    ensures m <= |log|
  {
    if 0 < limit < |log| then |log| - limit else 0
  }

  // The cache after one commit, `prev` being what is known of the one before.
  function BuildStep(facts: Hash -> Facts, cache: Cache, h: Hash, prev: Option<(set<Ticket>, set<Ticket>)>): Cache {
    if h in cache then cache else cache[h := EntryAfter(facts(h), prev)]
  }

  function PrevOf(facts: Hash -> Facts, log: seq<Commit>, m: nat, n: nat): Option<(set<Ticket>, set<Ticket>)>
    requires n <= |log|
  {
    if n <= m then None else Seen(facts(log[n - 1].hash))
  }

  // The cache after building commits m to n - 1 of the log.
  function Built(facts: Hash -> Facts, log: seq<Commit>, cache: Cache, m: nat, n: nat): Cache
    requires m <= n <= |log|
  {
    if n == m then cache
    else BuildStep(facts, Built(facts, log, cache, m, n - 1), log[n - 1].hash, PrevOf(facts, log, m, n - 1))
  }

  // Entries remember their own snapshot's ids, whatever was known before it.
  ghost predicate IdsOk(facts: Hash -> Facts, cache: Cache) {
    forall h :: h in cache ==> Some((cache[h].ids, cache[h].idsDone)) == Seen(facts(h))
  }

  lemma EntryIds(f: Facts, prev: Option<(set<Ticket>, set<Ticket>)>)
    ensures Some((EntryAfter(f, prev).ids, EntryAfter(f, prev).idsDone)) == Seen(f)
  {
  }

  lemma StepIds(facts: Hash -> Facts, cache: Cache, h: Hash, prev: Option<(set<Ticket>, set<Ticket>)>)
    requires IdsOk(facts, cache)
    ensures IdsOk(facts, BuildStep(facts, cache, h, prev)) && h in BuildStep(facts, cache, h, prev)
    ensures cache.Keys <= BuildStep(facts, cache, h, prev).Keys
  {
    EntryIds(facts(h), prev);
  }

  lemma {:induction false} BuiltHas(facts: Hash -> Facts, log: seq<Commit>, cache: Cache, m: nat, n: nat)
    requires m <= n <= |log|
    ensures forall i :: m <= i < n ==> log[i].hash in Built(facts, log, cache, m, n)
  {
    if n > m {
      BuiltHas(facts, log, cache, m, n - 1);
    }
  }

  // The rows of commits m onwards.
  function RowsFrom(log: seq<Commit>, cache: Cache, m: nat): (rows: seq<HistoryRow>)
    requires m <= |log| && forall i :: m <= i < |log| ==> log[i].hash in cache
    ensures |rows| == |log| - m && forall i :: m <= i < |log| ==> rows[i - m] == RowOf(log[i], cache[log[i].hash])
    decreases |log| - m
  {
    if m == |log| then [] else [RowOf(log[m], cache[log[m].hash])] + RowsFrom(log, cache, m + 1)
  }

  // The rows of a build are of the last `limit` commits, or of all, in order.
  lemma WindowRows(log: seq<Commit>, cache: Cache, limit: nat, k: nat)
    requires forall i :: WindowStart(log, limit) <= i < |log| ==> log[i].hash in cache
    requires k < |RowsFrom(log, cache, WindowStart(log, limit))|
    ensures var rows := RowsFrom(log, cache, WindowStart(log, limit));
            && |rows| == (if 0 < limit < |log| then limit else |log|)
            && rows[k].t == log[|log| - |rows| + k].t
  {
    var m := WindowStart(log, limit);
    assert RowsFrom(log, cache, m)[m + k - m] == RowOf(log[m + k], cache[log[m + k].hash]);
  }

  class History {
    const show: Hash -> Snapshot
    var cache: Cache

    constructor (show: Hash -> Snapshot)
      ensures this.show == show && cache == map[]
    {
      this.show := show;
      cache := map[];
    }

    // build: 0 is no limit.
    method Build(log: seq<Commit>, limit: nat) returns (rows: seq<HistoryRow>)
      requires IdsOk(FactsBy(show), cache)
      modifies this
      ensures var m := WindowStart(log, limit);
              && cache == Built(FactsBy(show), log, old(cache), m, |log|) && IdsOk(FactsBy(show), cache)
              && (forall i :: m <= i < |log| ==> log[i].hash in cache) && rows == RowsFrom(log, cache, m)
    {
      var m := WindowStart(log, limit);
      var prev: Option<(set<Ticket>, set<Ticket>)> := None;
      for i := m to |log|
        invariant cache == Built(FactsBy(show), log, old(cache), m, i) && IdsOk(FactsBy(show), cache)
        invariant prev == PrevOf(FactsBy(show), log, m, i)
      {
        var h := log[i].hash;
        StepIds(FactsBy(show), cache, h, prev);
        if h !in cache {
          var e := Scan(h, prev);
          cache := cache[h := e];
        }
        prev := Some((cache[h].ids, cache[h].idsDone));
      }
      BuiltHas(FactsBy(show), log, old(cache), m, |log|);
      rows := RowsFrom(log, cache, m);
    }

    // The entry of a commit not cached yet.
    method Scan(h: Hash, prev: Option<(set<Ticket>, set<Ticket>)>) returns (e: Entry)
      ensures e == EntryAfter(FactsOf(show(h)), prev)
    {
      var recs := show(h);
      var open, done, planned := Summarise(recs);
      var ids, idsDone := recs.Keys, set id | id in recs && recs[id].status == DoneStatus;
      e := Entry(open, done, planned, if prev.Some? then ids - prev.value.0 else {},
                 if prev.Some? then idsDone - prev.value.1 else {}, ids, idsDone);
    }
  }

  // ------------------------------------------------------------------ cached equals fresh

  // Building without a limit keeps every entry right.
  lemma {:induction false} BuiltOk(facts: Hash -> Facts, log: seq<Commit>, cache: Cache, n: nat)
    requires n <= |log| && Distinct(log) && CacheOk(facts, log, cache)
    ensures CacheOk(facts, log, Built(facts, log, cache, 0, n))
  {
    if n > 0 {
      BuiltOk(facts, log, cache, n - 1);
      var c := Built(facts, log, cache, 0, n - 1);
      if log[n - 1].hash !in c {
        AddRight(facts, log, c, n - 1, EntryAfter(facts(log[n - 1].hash), PrevOf(facts, log, 0, n - 1)));
      }
    }
  }

  lemma {:induction false} BuiltFrom(facts: Hash -> Facts, log: seq<Commit>, cache: Cache, m: nat, n: nat)
    requires m <= n <= |log| && CachedFrom(log, cache)
    ensures CachedFrom(log, Built(facts, log, cache, m, n))
  {
    if n > m {
      BuiltFrom(facts, log, cache, m, n - 1);
      assert log[n - 1].hash == log[n - 1].hash;
    }
  }

  // The entries of an earlier log are right for a longer one: its commits keep their predecessors.
  lemma GrownOk(facts: Hash -> Facts, log: seq<Commit>, longer: seq<Commit>, cache: Cache)
    requires log <= longer && Distinct(longer) && CacheOk(facts, log, cache) && CachedFrom(log, cache)
    ensures CacheOk(facts, longer, cache) && CachedFrom(longer, cache)
  {
    forall i | 0 <= i < |longer| ensures RightAt(facts, longer, cache, i) {
      if longer[i].hash in cache {
        var j :| 0 <= j < |log| && log[j].hash == longer[i].hash;
        assert longer[j] == log[j];
        assert i == j && RightAt(facts, log, cache, i);
      }
    }
    forall h | h in cache ensures exists i :: 0 <= i < |longer| && longer[i].hash == h {
      var j :| 0 <= j < |log| && log[j].hash == h;
      assert longer[j].hash == h;
    }
  }

  // The cache after builds of ever longer logs, without a limit.
  function AfterBuilds(facts: Hash -> Facts, logs: seq<seq<Commit>>): Cache
    decreases |logs|
  {
    if logs == [] then map[]
    else Built(facts, logs[|logs| - 1], AfterBuilds(facts, logs[..|logs| - 1]), 0, |logs[|logs| - 1]|)
  }

  ghost predicate Growing(logs: seq<seq<Commit>>) {
    && (forall i :: 0 <= i < |logs| ==> Distinct(logs[i]))
    && (forall i, j :: 0 <= i <= j < |logs| ==> logs[i] <= logs[j])
  }

  lemma {:induction false} BuildsOk(facts: Hash -> Facts, logs: seq<seq<Commit>>)
    requires logs != [] && Growing(logs)
    ensures var log, cache := logs[|logs| - 1], AfterBuilds(facts, logs);
            CacheOk(facts, log, cache) && CachedFrom(log, cache) && forall i :: 0 <= i < |log| ==> log[i].hash in cache
    decreases |logs|
  {
    var log, before := logs[|logs| - 1], logs[..|logs| - 1];
    var cache := AfterBuilds(facts, before);
    if before != [] {
      BuildsOk(facts, before);
      GrownOk(facts, before[|before| - 1], log, cache);
    }
    BuiltOk(facts, log, cache, |log|);
    BuiltFrom(facts, log, cache, 0, |log|);
    BuiltHas(facts, log, cache, 0, |log|);
  }

  lemma RowsRight(facts: Hash -> Facts, log: seq<Commit>, cache: Cache)
    requires CacheOk(facts, log, cache) && forall i :: 0 <= i < |log| ==> log[i].hash in cache
    ensures RowsFrom(log, cache, 0) == FreshRows(facts, log)
  {
    var rows := RowsFrom(log, cache, 0);
    forall i | 0 <= i < |log| ensures rows[i] == RowOf(log[i], EntryAt(facts, log, i)) {
      assert RightAt(facts, log, cache, i);
      assert rows[i - 0] == RowOf(log[i], cache[log[i].hash]);
    }
  }

  // Whatever earlier runs cached on shorter logs, a build's rows are those of a build from nothing.
  lemma CachedEqualsFresh(facts: Hash -> Facts, logs: seq<seq<Commit>>)
    requires logs != [] && Growing(logs)
    ensures var log, cache := logs[|logs| - 1], AfterBuilds(facts, logs);
            (forall i :: 0 <= i < |log| ==> log[i].hash in cache) && RowsFrom(log, cache, 0) == FreshRows(facts, log)
  {
    BuildsOk(facts, logs);
    RowsRight(facts, logs[|logs| - 1], AfterBuilds(facts, logs));
  }

  // ------------------------------------------------------------------ what a row says

  // The tickets of `now` that `before` does not have.
  function FiledBetween(before: Snapshot, now: Snapshot): set<Ticket> {
    set id | id in now && id !in before
  }

  // The tickets done in `now` and not done in `before`.
  function ClosedBetween(before: Snapshot, now: Snapshot): set<Ticket> {
    set id | id in now && now[id].status == DoneStatus && !(id in before && before[id].status == DoneStatus)
  }

  // The row of commit i says how many tickets each milestone has open, done and planned there, and how many
  // were filed and closed since the commit before; of the first commit nothing is said to be either.
  lemma RowMeans(show: Hash -> Snapshot, log: seq<Commit>, i: nat)
    requires i < |log|
    ensures var (row, now) := (FreshRows(FactsBy(show), log)[i], show(log[i].hash));
            && row.t == log[i].t && row.hash == (if |log[i].hash| <= 8 then log[i].hash else log[i].hash[..8])
            && (forall m :: CountOf(row.open, m) == |Tickets(now, m, OpenStatus)|)
            && (forall m :: CountOf(row.done, m) == |Tickets(now, m, DoneStatus)|)
            && (forall m :: CountOf(row.planned, m) == |Tickets(now, m, PlannedStatus)|)
            && (i == 0 ==> row.filed == 0 && row.closed == 0)
            && (i > 0 ==> row.filed == |FiledBetween(show(log[i - 1].hash), now)|
                          && row.closed == |ClosedBetween(show(log[i - 1].hash), now)|)
  {
    var now := show(log[i].hash);
    CountByCounts(now, OpenStatus);
    CountByCounts(now, DoneStatus);
    CountByCounts(now, PlannedStatus);
    var e := EntryAt(FactsBy(show), log, i);
    assert FreshRows(FactsBy(show), log)[i] == RowOf(log[i], e);
    if i > 0 {
      NewSince(show(log[i - 1].hash), now);
    }
  }

  lemma NewSince(before: Snapshot, now: Snapshot)
    ensures var e := EntryAfter(FactsOf(now), Seen(FactsOf(before)));
            e.filed == FiledBetween(before, now) && e.closed == ClosedBetween(before, now)
  {
  }

  // ------------------------------------------------------------------ the limit

  // A limited build from an empty cache is right about its first commit only if nothing was filed or
  // closed there; it does not look at the commit before.
  lemma LimitedFirstEntry(facts: Hash -> Facts, log: seq<Commit>, cache: Cache, m: nat)
    requires 0 < m < |log| && Distinct(log) && CacheOk(facts, log, cache)
    ensures CacheOk(facts, log, Built(facts, log, cache, m, |log|)) <==>
            || log[m].hash in cache
            || (EntryAt(facts, log, m).filed == {} && EntryAt(facts, log, m).closed == {})
  {
    var first := EntryAfter(facts(log[m].hash), None);
    if log[m].hash in cache || first == EntryAt(facts, log, m) {
      WindowOk(facts, log, cache, m);
    } else {
      WindowFirst(facts, log, cache, m);
      assert !RightAt(facts, log, Built(facts, log, cache, m, |log|), m);
    }
  }

  // The first commit of the window gets its right entry.
  ghost predicate StartOk(facts: Hash -> Facts, log: seq<Commit>, cache: Cache, m: nat)
    requires m < |log|
  {
    log[m].hash in cache || EntryAfter(facts(log[m].hash), None) == EntryAt(facts, log, m)
  }

  ghost predicate PrevKnown(facts: Hash -> Facts, log: seq<Commit>, cache: Cache, m: nat, i: nat)
    requires i < |log|
  {
    i == m ==> StartOk(facts, log, cache, i)
  }

  // What is known before commit i of the window is right, or there is nothing to enter.
  lemma WindowEntry(facts: Hash -> Facts, log: seq<Commit>, cache: Cache, m: nat, i: nat)
    requires 0 < m <= i < |log| && log[i].hash !in cache && PrevKnown(facts, log, cache, m, i)
    ensures EntryAfter(facts(log[i].hash), PrevOf(facts, log, m, i)) == EntryAt(facts, log, i)
  {
  }

  lemma WindowStepOk(facts: Hash -> Facts, log: seq<Commit>, cache: Cache, m: nat, i: nat, cache': Cache)
    requires 0 < m <= i < |log| && Distinct(log) && CacheOk(facts, log, cache) && PrevKnown(facts, log, cache, m, i)
    requires cache' == BuildStep(facts, cache, log[i].hash, PrevOf(facts, log, m, i))
    ensures CacheOk(facts, log, cache')
  {
    if log[i].hash !in cache {
      WindowEntry(facts, log, cache, m, i);
      AddRight(facts, log, cache, i, EntryAfter(facts(log[i].hash), PrevOf(facts, log, m, i)));
    }
  }

  lemma WindowKnown(facts: Hash -> Facts, log: seq<Commit>, cache: Cache, m: nat, i: nat)
    requires m <= i < |log| && StartOk(facts, log, cache, m)
    ensures PrevKnown(facts, log, Built(facts, log, cache, m, i), m, i)
  {
  }

  lemma WindowNext(facts: Hash -> Facts, log: seq<Commit>, cache: Cache, m: nat, i: nat, n: nat)
    requires 0 < m <= i < |log| && n == i + 1 && Distinct(log) && StartOk(facts, log, cache, m)
    requires CacheOk(facts, log, Built(facts, log, cache, m, i))
    ensures CacheOk(facts, log, Built(facts, log, cache, m, n))
  {
    WindowKnown(facts, log, cache, m, i);
    BuiltSnoc(facts, log, cache, m, i);
    WindowStepOk(facts, log, Built(facts, log, cache, m, i), m, i, Built(facts, log, cache, m, n));
  }

  lemma BuiltSnoc(facts: Hash -> Facts, log: seq<Commit>, cache: Cache, m: nat, i: nat)
    requires m <= i < |log|
    ensures Built(facts, log, cache, m, i + 1)
         == BuildStep(facts, Built(facts, log, cache, m, i), log[i].hash, PrevOf(facts, log, m, i))
  {
  }

  lemma WindowUpTo(facts: Hash -> Facts, log: seq<Commit>, cache: Cache, m: nat, n: nat)
    requires 0 < m <= n < |log| && Distinct(log) && CacheOk(facts, log, cache) && StartOk(facts, log, cache, m)
    ensures CacheOk(facts, log, Built(facts, log, cache, m, n))
  {
    WindowStart0(facts, log, cache, m);
    for i := m to n
      invariant CacheOk(facts, log, Built(facts, log, cache, m, i))
    {
      WindowNext(facts, log, cache, m, i, i + 1);
    }
  }

  lemma WindowOk(facts: Hash -> Facts, log: seq<Commit>, cache: Cache, m: nat)
    requires 0 < m < |log| && Distinct(log) && CacheOk(facts, log, cache) && StartOk(facts, log, cache, m)
    ensures CacheOk(facts, log, Built(facts, log, cache, m, |log|))
  {
    var last := |log| - 1;
    WindowUpTo(facts, log, cache, m, last);
    WindowNext(facts, log, cache, m, last, |log|);
  }

  lemma WindowStart0(facts: Hash -> Facts, log: seq<Commit>, cache: Cache, m: nat)
    requires m < |log| && CacheOk(facts, log, cache)
    ensures CacheOk(facts, log, Built(facts, log, cache, m, m))
  {
    assert Built(facts, log, cache, m, m) == cache;
  }

  lemma AddRight(facts: Hash -> Facts, log: seq<Commit>, cache: Cache, i: nat, e: Entry)
    requires i < |log| && Distinct(log) && CacheOk(facts, log, cache) && e == EntryAt(facts, log, i)
    ensures CacheOk(facts, log, cache[log[i].hash := e])
  {
    var cache' := cache[log[i].hash := e];
    forall j | 0 <= j < |log| ensures RightAt(facts, log, cache', j) {
      assert RightAt(facts, log, cache, j);
      assert j != i ==> log[j].hash != log[i].hash;
    }
  }

  // The first commit of the window has the entry made with nothing before it.
  ghost predicate HasFirst(facts: Hash -> Facts, log: seq<Commit>, cache: Cache, m: nat)
    requires m < |log|
  {
    log[m].hash in cache && cache[log[m].hash] == EntryAfter(facts(log[m].hash), None)
  }

  lemma FirstEntered(facts: Hash -> Facts, log: seq<Commit>, cache: Cache, m: nat)
    requires m < |log| && log[m].hash !in cache
    ensures HasFirst(facts, log, Built(facts, log, cache, m, m + 1), m)
  {
    assert Built(facts, log, cache, m, m) == cache;
    BuiltSnoc(facts, log, cache, m, m);
  }

  lemma StepKeeps(facts: Hash -> Facts, cache: Cache, h: Hash, prev: Option<(set<Ticket>, set<Ticket>)>, x: Hash)
    requires x in cache
    ensures x in BuildStep(facts, cache, h, prev) && BuildStep(facts, cache, h, prev)[x] == cache[x]
  {
  }

  lemma FirstKept(facts: Hash -> Facts, log: seq<Commit>, cache: Cache, m: nat, i: nat)
    requires m < i < |log| && HasFirst(facts, log, Built(facts, log, cache, m, i), m)
    ensures HasFirst(facts, log, Built(facts, log, cache, m, i + 1), m)
  {
    BuiltSnoc(facts, log, cache, m, i);
    StepKeeps(facts, Built(facts, log, cache, m, i), log[i].hash, PrevOf(facts, log, m, i), log[m].hash);
  }

  lemma FirstUpTo(facts: Hash -> Facts, log: seq<Commit>, cache: Cache, m: nat, n: nat)
    requires m < n < |log| && log[m].hash !in cache
    ensures HasFirst(facts, log, Built(facts, log, cache, m, n), m)
  {
    FirstEntered(facts, log, cache, m);
    for i := m + 1 to n
      invariant HasFirst(facts, log, Built(facts, log, cache, m, i), m)
    {
      FirstKept(facts, log, cache, m, i);
    }
  }

  lemma WindowFirst(facts: Hash -> Facts, log: seq<Commit>, cache: Cache, m: nat)
    requires m < |log| && log[m].hash !in cache
    ensures HasFirst(facts, log, Built(facts, log, cache, m, |log|), m)
  {
    var last := |log| - 1;
    if m == last {
      FirstEntered(facts, log, cache, m);
    } else {
      FirstUpTo(facts, log, cache, m, last);
      FirstKept(facts, log, cache, m, last);
    }
  }

  // ------------------------------------------------------------------ any builds

  // One build: the log it read, and its limit or 0.
  datatype Call = Call(log: seq<Commit>, limit: nat)
  {
    function Start(): nat { WindowStart(log, limit) }
  }

  function AfterCall(facts: Hash -> Facts, cache: Cache, call: Call): Cache {
    Built(facts, call.log, cache, call.Start(), |call.log|)
  }

  // The cache after the first n builds, limited or not.
  function AfterCalls(facts: Hash -> Facts, calls: seq<Call>, n: nat): Cache
    requires n <= |calls|
  {
    if n == 0 then map[] else AfterCall(facts, AfterCalls(facts, calls, n - 1), calls[n - 1])
  }

  predicate NamesOnce(calls: seq<Call>, i: nat)
    requires i < |calls|
  {
    Distinct(calls[i].log)
  }

  predicate GrowsTo(calls: seq<Call>, i: nat, j: nat)
    requires i <= j < |calls|
  {
    calls[i].log <= calls[j].log
  }

  // The logs they read only grow.
  ghost predicate Lengthening(calls: seq<Call>) {
    && (forall i :: 0 <= i < |calls| ==> NamesOnce(calls, i))
    && (forall i, j :: 0 <= i <= j < |calls| ==> GrowsTo(calls, i, j))
  }

  // Something was filed or closed in commit m.
  predicate Moves(facts: Hash -> Facts, log: seq<Commit>, m: nat)
    requires m < |log|
  {
    EntryAt(facts, log, m).filed != {} || EntryAt(facts, log, m).closed != {}
  }

  // A limited build that enters its first commit, and something was filed or closed there.
  predicate Spoils(facts: Hash -> Facts, cache: Cache, call: Call) {
    0 < call.Start() < |call.log| && call.log[call.Start()].hash !in cache && Moves(facts, call.log, call.Start())
  }

  ghost predicate NoneSpoils(facts: Hash -> Facts, calls: seq<Call>) {
    forall k :: 0 <= k < |calls| ==> !Spoils(facts, AfterCalls(facts, calls, k), calls[k])
  }

  lemma CallOk(facts: Hash -> Facts, cache: Cache, call: Call)
    requires Distinct(call.log) && CacheOk(facts, call.log, cache) && CachedFrom(call.log, cache)
    requires !Spoils(facts, cache, call)
    ensures CacheOk(facts, call.log, AfterCall(facts, cache, call))
    ensures CachedFrom(call.log, AfterCall(facts, cache, call))
  {
    var m := call.Start();
    BuiltFrom(facts, call.log, cache, m, |call.log|);
    if 0 < m < |call.log| {
      LimitedFirstEntry(facts, call.log, cache, m);
    } else {
      BuiltOk(facts, call.log, cache, |call.log|);
    }
  }

  lemma NextOk(facts: Hash -> Facts, log: seq<Commit>, cache: Cache, call: Call, after: Cache)
    requires CacheRight(facts, log, cache) && log <= call.log && Distinct(call.log)
    requires !Spoils(facts, cache, call) && after == AfterCall(facts, cache, call)
    ensures CacheRight(facts, call.log, after)
  {
    GrownOk(facts, log, call.log, cache);
    CallOk(facts, cache, call);
  }

  ghost predicate CacheRight(facts: Hash -> Facts, log: seq<Commit>, cache: Cache) {
    CacheOk(facts, log, cache) && CachedFrom(log, cache)
  }

  lemma Unspoilt(facts: Hash -> Facts, calls: seq<Call>, n: nat)
    requires n < |calls| && NoneSpoils(facts, calls)
    ensures !Spoils(facts, AfterCalls(facts, calls, n), calls[n])
  {
  }

  lemma CallStepOk(facts: Hash -> Facts, calls: seq<Call>, n: nat)
    requires 0 < n < |calls| && Lengthening(calls) && !Spoils(facts, AfterCalls(facts, calls, n), calls[n])
    requires CacheRight(facts, calls[n - 1].log, AfterCalls(facts, calls, n))
    ensures CacheRight(facts, calls[n].log, AfterCalls(facts, calls, n + 1))
  {
    var cache, call := AfterCalls(facts, calls, n), calls[n];
    var log := calls[n - 1].log;
    assert Distinct(call.log) by { assert NamesOnce(calls, n); }
    assert log <= call.log by { assert GrowsTo(calls, n - 1, n); }
    NextOk(facts, log, cache, call, AfterCalls(facts, calls, n + 1));
  }

  lemma CallsOk(facts: Hash -> Facts, calls: seq<Call>, n: nat)
    requires n < |calls| && Lengthening(calls) && NoneSpoils(facts, calls)
    ensures CacheRight(facts, calls[n].log, AfterCalls(facts, calls, n + 1))
  {
    FirstCallOk(facts, calls);
    for i := 0 to n
      invariant CacheRight(facts, calls[i].log, AfterCalls(facts, calls, i + 1))
    {
      Unspoilt(facts, calls, i + 1);
      CallStepOk(facts, calls, i + 1);
    }
  }

  lemma FirstCallOk(facts: Hash -> Facts, calls: seq<Call>)
    requires calls != [] && Lengthening(calls) && NoneSpoils(facts, calls)
    ensures CacheRight(facts, calls[0].log, AfterCalls(facts, calls, 1))
  {
    assert AfterCalls(facts, calls, 0) == map[];
    assert AfterCalls(facts, calls, 1) == AfterCall(facts, map[], calls[0]);
    assert !Spoils(facts, map[], calls[0]) by { Unspoilt(facts, calls, 0); }
    assert NamesOnce(calls, 0);
    CallOk(facts, map[], calls[0]);
  }

  // An entry made with nothing before it is kept by every later build.
  lemma {:induction false} BuiltKeeps(facts: Hash -> Facts, log: seq<Commit>, cache: Cache, m: nat, n: nat, h: Hash)
    requires m <= n <= |log| && h in cache
    ensures h in Built(facts, log, cache, m, n) && Built(facts, log, cache, m, n)[h] == cache[h]
  {
    if n > m {
      BuiltKeeps(facts, log, cache, m, n - 1, h);
    }
  }

  lemma CallKeeps(facts: Hash -> Facts, cache: Cache, call: Call, after: Cache, h: Hash)
    requires h in cache && after == AfterCall(facts, cache, call)
    ensures h in after && after[h] == cache[h]
  {
    BuiltKeeps(facts, call.log, cache, call.Start(), |call.log|, h);
  }

  lemma {:induction false} CallsKeep(facts: Hash -> Facts, calls: seq<Call>, k: nat, n: nat, h: Hash, after: Cache)
    requires k <= n <= |calls| && h in AfterCalls(facts, calls, k) && after == AfterCalls(facts, calls, n)
    ensures h in after && after[h] == AfterCalls(facts, calls, k)[h]
  {
    if k < n {
      var before := AfterCalls(facts, calls, n - 1);
      CallsKeep(facts, calls, k, n - 1, h, before);
      CallKeeps(facts, before, calls[n - 1], after, h);
    }
  }

  // The entry says that nothing was filed or closed.
  predicate Blank(cache: Cache, h: Hash) {
    h in cache && cache[h].filed == {} && cache[h].closed == {}
  }

  // What a spoiling build enters.
  lemma SpoiledEntry(facts: Hash -> Facts, cache: Cache, call: Call, after: Cache)
    requires Spoils(facts, cache, call) && after == AfterCall(facts, cache, call)
    ensures Blank(after, call.log[call.Start()].hash)
  {
    WindowFirst(facts, call.log, cache, call.Start());
  }

  lemma BlankKept(facts: Hash -> Facts, calls: seq<Call>, k: nat, n: nat, h: Hash)
    requires k <= n <= |calls| && Blank(AfterCalls(facts, calls, k), h)
    ensures Blank(AfterCalls(facts, calls, n), h)
  {
    CallsKeep(facts, calls, k, n, h, AfterCalls(facts, calls, n));
  }

  lemma MovesStill(facts: Hash -> Facts, log: seq<Commit>, longer: seq<Commit>, m: nat)
    requires 0 < m < |log| && log <= longer && Moves(facts, log, m)
    ensures m < |longer| && longer[m].hash == log[m].hash && Moves(facts, longer, m)
  {
    assert longer[m] == log[m] && longer[m - 1] == log[m - 1];
  }

  // A commit of the log moved something and its entry says it did not.
  predicate Hides(facts: Hash -> Facts, log: seq<Commit>, cache: Cache, m: nat) {
    m < |log| && Moves(facts, log, m) && Blank(cache, log[m].hash)
  }

  // The entry a spoiling build made stays, whatever is built after it.
  lemma LimitedEntryStays(facts: Hash -> Facts, calls: seq<Call>, k: nat)
    requires Lengthening(calls) && k < |calls| && Spoils(facts, AfterCalls(facts, calls, k), calls[k])
    ensures Hides(facts, calls[|calls| - 1].log, AfterCalls(facts, calls, |calls|), calls[k].Start())
  {
    var call, last := calls[k], calls[|calls| - 1].log;
    var m := call.Start();
    var h := call.log[m].hash;
    assert Blank(AfterCalls(facts, calls, |calls|), h) by {
      SpoiledEntry(facts, AfterCalls(facts, calls, k), call, AfterCalls(facts, calls, k + 1));
      BlankKept(facts, calls, k + 1, |calls|, h);
    }
    assert m < |last| && last[m].hash == h && Moves(facts, last, m) by {
      assert GrowsTo(calls, k, |calls| - 1);
      MovesStill(facts, call.log, last, m);
    }
  }

  // After any builds, limited or not, a full build's rows are the fresh ones if and only if every limited
  // build found its first commit cached or with nothing filed or closed.
  lemma LimitedBuildsExact(facts: Hash -> Facts, calls: seq<Call>)
    requires calls != [] && Lengthening(calls) && calls[|calls| - 1].Start() == 0
    ensures var log, cache := calls[|calls| - 1].log, AfterCalls(facts, calls, |calls|);
            && (forall i :: 0 <= i < |log| ==> log[i].hash in cache)
            && (RowsFrom(log, cache, 0) == FreshRows(facts, log) <==> NoneSpoils(facts, calls))
  {
    var n := |calls| - 1;
    var log, cache := calls[n].log, AfterCalls(facts, calls, |calls|);
    FullHas(facts, AfterCalls(facts, calls, n), calls[n], cache);
    if NoneSpoils(facts, calls) {
      CallsOk(facts, calls, n);
      RowsRight(facts, log, cache);
    } else {
      var k :| 0 <= k < |calls| && Spoils(facts, AfterCalls(facts, calls, k), calls[k]);
      LimitedEntryStays(facts, calls, k);
      RowsWrong(facts, log, cache, calls[k].Start());
    }
  }

  lemma FullHas(facts: Hash -> Facts, cache: Cache, call: Call, after: Cache)
    requires call.Start() == 0 && after == AfterCall(facts, cache, call)
    ensures forall i :: 0 <= i < |call.log| ==> call.log[i].hash in after
  {
    BuiltHas(facts, call.log, cache, 0, |call.log|);
  }

  lemma RowsWrong(facts: Hash -> Facts, log: seq<Commit>, cache: Cache, m: nat)
    requires Hides(facts, log, cache, m) && forall i :: 0 <= i < |log| ==> log[i].hash in cache
    ensures RowsFrom(log, cache, 0) != FreshRows(facts, log)
  {
    var e := EntryAt(facts, log, m);
    assert RowsFrom(log, cache, 0)[m - 0] == RowOf(log[m], cache[log[m].hash]);
    assert FreshRows(facts, log)[m] == RowOf(log[m], e);
    assert |e.filed| > 0 || |e.closed| > 0;
  }

  // One ticket filed in the second commit, a build of the last commit, then a full one: it is never counted.
  lemma LimitHidesFiling(facts: Hash -> Facts, log: seq<Commit>, id: Ticket)
    requires |log| == 2 && Distinct(log) && id !in facts(log[0].hash).ids && id in facts(log[1].hash).ids
    ensures var cache := AfterCalls(facts, [Call(log, 1), Call(log, 0)], 2);
            Hides(facts, log, cache, 1) && id in EntryAt(facts, log, 1).filed
  {
    var calls := [Call(log, 1), Call(log, 0)];
    assert calls[0].Start() == 1 && id in EntryAt(facts, log, 1).filed;
    LimitedEntryStays(facts, calls, 0);
  }
}
