/** What ticks that raise take with them (ops/work-runner.py).

A tick that raises before it saves its claims has started workers that no claim knows of. The next tick
starts them again: their counters, marks and slots are those of the claims file. Here launches are counted
in the whole log, and told apart from those the claims account for. */
module WorkLoss {
  import opened WorkClaims
  import opened WorkRunner
  import opened WorkDeflakes
  import opened WorkJournal
  import opened WorkPasses
  import opened WorkSafety

  // ------------------------------------------------------------------ counting

  predicate Makes(e: Event) { StartsWork(e) || StartsDeflake(e) }

  // Launches of one cause for t since its claim was made, those of raising ticks too. A run that such a
  // tick started made no claim.
  function Made(log: seq<Entry>, t: Ticket, w: Cause): nat
    decreases |log|
  {
    if log == [] then 0
    else
      var x, before := log[|log| - 1], log[..|log| - 1];
      if !x.event.Launched? || x.event.ticket != t then Made(before, t, w)
      else if Makes(x.event) then if x.Kept? then 0 else Made(before, t, w)
      else Made(before, t, w) + (if x.event.cause == w then 1 else 0)
  }

  // Those of them that raising ticks made.
  function LostOf(log: seq<Entry>, t: Ticket, w: Cause): nat
    decreases |log|
  {
    if log == [] then 0
    else
      var x, before := log[|log| - 1], log[..|log| - 1];
      if !x.event.Launched? || x.event.ticket != t then LostOf(before, t, w)
      else if Makes(x.event) then if x.Kept? then 0 else LostOf(before, t, w)
      else LostOf(before, t, w) + (if x.event.cause == w && x.Lost? then 1 else 0)
  }

  lemma {:induction false} MadeSplits(log: seq<Entry>, t: Ticket, w: Cause)
    ensures Made(log, t, w) == Since(KeptOf(log), t, w) + LostOf(log, t, w)
    decreases |log|
  {
    if log != [] {
      var x, before := log[|log| - 1], log[..|log| - 1];
      MadeSplits(before, t, w);
      SinceKept(log, before, x, t, w);
    }
  }

  // What one more line does to the count of those accounted for.
  lemma SinceKept(log: seq<Entry>, before: seq<Entry>, x: Entry, t: Ticket, w: Cause)
    requires log != [] && before == log[..|log| - 1] && x == log[|log| - 1]
    ensures Since(KeptOf(log), t, w) ==
            if x.Lost? || !x.event.Launched? || x.event.ticket != t then Since(KeptOf(before), t, w)
            else if Makes(x.event) then 0
            else Since(KeptOf(before), t, w) + (if x.event.cause == w then 1 else 0)
  {
    if x.Kept? {
      assert KeptOf(log) == KeptOf(before) + [x.event];
      SinceAppend(KeptOf(before), x.event, t, w);
    } else {
      assert KeptOf(log) == KeptOf(before);
    }
  }

  // A raising tick resumed t's run, and t's claim does not know.
  predicate LostResume(x: Entry, t: Ticket) {
    x.Lost? && x.event.Launched? && x.event.ticket == t && !Makes(x.event)
  }

  // Where in the log t's claim was made.
  function ClaimedAt(log: seq<Entry>, t: Ticket): (n: nat)
    ensures n <= |log|
    decreases |log|
  {
    if log == [] then 0
    else
      var x := log[|log| - 1];
      if x.Kept? && Makes(x.event) && x.event.ticket == t then |log| else ClaimedAt(log[..|log| - 1], t)
  }

  ghost predicate NoneLost(log: seq<Entry>, t: Ticket) {
    forall i :: ClaimedAt(log, t) <= i < |log| ==> !LostResume(log[i], t)
  }

  lemma {:induction false} LostZero(log: seq<Entry>, t: Ticket)
    ensures NoneLost(log, t) <==>
            LostOf(log, t, FixAttempt) == 0 && LostOf(log, t, WrapUp) == 0 && LostOf(log, t, KillResume) == 0
    decreases |log|
  {
    if log != [] {
      var n, before := |log| - 1, log[..|log| - 1];
      LostZero(before, t);
      if !(log[n].Kept? && Makes(log[n].event) && log[n].event.ticket == t) {
        assert NoneLost(log, t) <==> NoneLost(before, t) && !LostResume(log[n], t) by {
          NoneLostLast(log, t);
        }
      }
    }
  }

  lemma NoneLostLast(log: seq<Entry>, t: Ticket)
    requires log != [] && ClaimedAt(log, t) == ClaimedAt(log[..|log| - 1], t)
    ensures NoneLost(log, t) <==> NoneLost(log[..|log| - 1], t) && !LostResume(log[|log| - 1], t)
  {
    var n, before := |log| - 1, log[..|log| - 1];
    assert forall i :: 0 <= i < n ==> before[i] == log[i];
    if NoneLost(log, t) {
      assert !LostResume(log[n], t);
      forall i | ClaimedAt(before, t) <= i < n ensures !LostResume(before[i], t) {
        assert !LostResume(log[i], t);
      }
    }
  }

  // ------------------------------------------------------------------ budgets

  function Budget(w: Cause): nat { if w == FixAttempt then FIX_ATTEMPTS else TIMEOUT_RESUMES }

  predicate Spends(e: Event, t: Ticket, w: Cause) { e.Launched? && e.ticket == t && e.cause == w }

  // Line i, if it is an attempt and nothing of t's was lost before it, found one left.
  predicate SparesAt(log: seq<Entry>, i: nat, t: Ticket, w: Cause)
    requires i < |log|
  {
    Spends(log[i].event, t, w) && LostOf(log[..i], t, w) == 0 ==> Made(log[..i], t, w) < Budget(w)
  }

  // While nothing of t's was lost, every attempt found one left.
  ghost predicate Spares(log: seq<Entry>, t: Ticket, w: Cause) {
    forall i :: 0 <= i < |log| ==> SparesAt(log, i, t, w)
  }

  lemma {:induction false} SinceGrows(log: seq<Event>, added: seq<Event>, t: Ticket, w: Cause)
    requires forall i :: 0 <= i < |added| ==> !Makes(added[i])
    ensures Since(log, t, w) <= Since(log + added, t, w)
    decreases |added|
  {
    if added == [] {
      assert log + added == log;
    } else {
      var n := |added| - 1;
      SinceGrows(log, added[..n], t, w);
      SinceAppend(log + added[..n], added[n], t, w);
      assert log + added == log + added[..n] + [added[n]];
    }
  }

  // What a tick adds before a resume are resumes.
  lemma ResumesFirst(cfg: Config, b: Book, i: TickInput, added: seq<Event>, x: nat)
    requires cfg.Valid() && i.Valid() && Tick(cfg, b, i).book.log == b.log + added && x < |added| && !Makes(added[x])
    ensures forall y :: 0 <= y < x ==> !Makes(added[y])
  {
    TickLogs(cfg, b, i);
    var early := BeforeDeflakes(cfg, b, i);
    var mid := DispatchDeflakes(cfg, early, i.requests, i.deferred, i.deflakeEnv);
    AddedResumes(b.log, early.log, mid.log, added, x);
  }

  lemma AddedResumes(before: seq<Event>, early: seq<Event>, mid: seq<Event>, added: seq<Event>, x: nat)
    requires Resumes(before, early) && OneDeflake(early, mid) && NewRuns(mid, before + added)
    requires x < |added| && !Makes(added[x])
    ensures forall y :: 0 <= y < x ==> !Makes(added[y])
  {
    var n, log := |before|, before + added;
    assert log[n + x] == added[x];
    Segments(before, early, mid, log, n + x);
    forall y | 0 <= y < x ensures !Makes(added[y]) {
      Segments(before, early, mid, log, n + y);
      assert log[n + y] == added[y];
    }
  }

  lemma SparesFollows(cfg: Config, u: World, u': World, t: Ticket, w: Cause)
    requires cfg.Valid() && WorldInv(cfg, u) && Follows(cfg, u, u') && w in {FixAttempt, WrapUp} && Spares(u.log, t, w)
    ensures Spares(u'.log, t, w)
  {
    var i, r := TickOf(cfg, u, u');
    var added := AfterFile(u, r);
    assert SpendingKept(r.book.log) by { TickKeeps(cfg, u.File(), i); }
    assert r.raised ==> AllResumesFirst(added, t, w) by { EachResumesFirst(cfg, u.File(), i, added, t, w); }
    SparesOn(u.log, r.book.log, added, !r.raised, t, w);
  }

  predicate AllResumesFirst(added: seq<Event>, t: Ticket, w: Cause) {
    forall x, y :: 0 <= y < x < |added| && Spends(added[x], t, w) ==> !Makes(added[y])
  }

  lemma EachResumesFirst(cfg: Config, b: Book, i: TickInput, added: seq<Event>, t: Ticket, w: Cause)
    requires cfg.Valid() && i.Valid() && Tick(cfg, b, i).book.log == b.log + added && w in {FixAttempt, WrapUp}
    ensures AllResumesFirst(added, t, w)
  {
    forall x, y | 0 <= y < x < |added| && Spends(added[x], t, w) ensures !Makes(added[y]) {
      ResumesFirst(cfg, b, i, added, x);
    }
  }

  lemma SparesOn(log: seq<Entry>, booked: seq<Event>, added: seq<Event>, saved: bool, t: Ticket, w: Cause)
    requires Spares(log, t, w) && SpendingKept(booked) && booked == KeptOf(log) + added && w in {FixAttempt, WrapUp}
    requires !saved ==> AllResumesFirst(added, t, w)
    ensures Spares(log + Marked(added, saved), t, w)
  {
    var after := log + Marked(added, saved);
    forall p | 0 <= p < |after| ensures SparesAt(after, p, t, w) {
      if p < |log| {
        assert after[..p] == log[..p] && SparesAt(log, p, t, w);
      } else {
        NewLineSpares(log, booked, added, after, p, saved, t, w);
      }
    }
  }

  lemma NewLineSpares(log: seq<Entry>, booked: seq<Event>, added: seq<Event>, after: seq<Entry>, p: nat, saved: bool,
                      t: Ticket, w: Cause)
    requires SpendingKept(booked) && booked == KeptOf(log) + added && w in {FixAttempt, WrapUp}
    requires after == log + Marked(added, saved) && |log| <= p < |after| && (!saved ==> AllResumesFirst(added, t, w))
    ensures SparesAt(after, p, t, w)
  {
    var x := p - |log|;
    assert after[..p] == log + Marked(added[..x], saved);
    assert after[p].event == added[x];
    if Spends(added[x], t, w) && LostOf(after[..p], t, w) == 0 {
      SpareAt(log, booked, added, x, saved, t, w);
    }
  }

  lemma SpareAt(log: seq<Entry>, booked: seq<Event>, added: seq<Event>, x: nat, saved: bool, t: Ticket, w: Cause)
    requires SpendingKept(booked) && booked == KeptOf(log) + added && w in {FixAttempt, WrapUp}
    requires x < |added| && Spends(added[x], t, w) && LostOf(log + Marked(added[..x], saved), t, w) == 0
    requires !saved ==> forall y :: 0 <= y < x ==> !Makes(added[y])
    ensures Made(log + Marked(added[..x], saved), t, w) < Budget(w)
  {
    var kept, before := KeptOf(log), log + Marked(added[..x], saved);
    KeptMarked(log, added[..x], saved);
    assert KeptOf(before) == if saved then kept + added[..x] else kept;
    MadeSplits(before, t, w);
    SpendingAt(booked, kept, added, x, t, w);
    if !saved {
      SinceGrows(kept, added[..x], t, w);
    }
  }

  lemma SpendingAt(log: seq<Event>, kept: seq<Event>, added: seq<Event>, x: nat, t: Ticket, w: Cause)
    requires SpendingKept(log) && log == kept + added && x < |added| && Spends(added[x], t, w)
    requires w in {FixAttempt, WrapUp}
    ensures Since(kept + added[..x], t, w) < Budget(w)
  {
    var m := |kept| + x;
    assert log[..m + 1] == kept + added[..x] + [added[x]];
    SinceAppend(kept + added[..x], added[x], t, w);
    assert Since(log[..m + 1], t, w) <= Budget(w);
  }

  lemma {:induction false} SparesRun(cfg: Config, worlds: seq<World>, n: nat, t: Ticket, w: Cause)
    requires cfg.Valid() && IsRun(cfg, worlds) && n < |worlds| && w in {FixAttempt, WrapUp}
    ensures Spares(worlds[n].log, t, w)
  {
    if n > 0 {
      SparesRun(cfg, worlds, n - 1, t, w);
      SparesStep(cfg, worlds, n - 1, t, w);
    }
  }

  lemma SparesStep(cfg: Config, worlds: seq<World>, n: nat, t: Ticket, w: Cause)
    requires cfg.Valid() && IsRun(cfg, worlds) && n + 1 < |worlds| && w in {FixAttempt, WrapUp}
    requires Spares(worlds[n].log, t, w)
    ensures Spares(worlds[n + 1].log, t, w)
  {
    var u, u' := worlds[n], worlds[n + 1];
    assert WorldInv(cfg, u) by { RunKeeps(cfg, worlds, n); }
    TurnAt(cfg, worlds, n);
    SparesFollows(cfg, u, u', t, w);
  }

  lemma MadeStep(log: seq<Entry>, m: nat, t: Ticket, w: Cause)
    requires m < |log|
    ensures Made(log[..m + 1], t, w) ==
            var x := log[m];
            if !x.event.Launched? || x.event.ticket != t then Made(log[..m], t, w)
            else if Makes(x.event) then if x.Kept? then 0 else Made(log[..m], t, w)
            else Made(log[..m], t, w) + (if x.event.cause == w then 1 else 0)
  {
    assert log[..m + 1][..m] == log[..m];
  }

  // ------------------------------------------------------------------ deflake requests

  ghost predicate NoDeflakeLost(log: seq<Entry>) {
    forall i :: 0 <= i < |log| && log[i].Lost? ==> !StartsDeflake(log[i].event)
  }

  // With no deflake run lost, what the claims account for is all there is.
  lemma AllAccounted(cfg: Config, u: World)
    requires cfg.Valid() && WorldInv(cfg, u) && NoDeflakeLost(u.log)
    ensures RequestsKept(u.Done())
  {
    var b := u.Done();
    forall i | 0 <= i < |b.log| && b.log[i].Launched? && b.log[i].cause == Deflaking
      ensures var k := b.log[i].ticket;
              k in b.claims && b.claims[k].deflake && b.log[i].requestTs <= b.claims[k].requestTs
    {
      assert StartsDeflake(u.log[i].event);
      KeptIn(u.log, i);
      var m :| 0 <= m < |KeptOf(u.log)| && KeptOf(u.log)[m] == u.log[i].event;
    }
    forall i, j | 0 <= i < j < |b.log| && BothDeflaking(b.log[i], b.log[j])
      ensures b.log[i].requestTs < b.log[j].requestTs
    {
      assert StartsDeflake(u.log[i].event);
    }
  }

  // A tick's deflake run answers a request the claims it started from have not consumed.
  lemma DeflakeIsNew(cfg: Config, b: Book, i: TickInput, j: nat)
    requires cfg.Valid() && Inv(cfg, b) && i.Valid()
    requires |b.log| <= j < |Tick(cfg, b, i).book.log| && StartsDeflake(Tick(cfg, b, i).book.log[j])
    ensures var e := Tick(cfg, b, i).book.log[j];
            e.ticket in b.claims ==> b.claims[e.ticket].requestTs < e.requestTs
  {
    TickLogs(cfg, b, i);
    EarlyMarks(cfg, b, i);
    var early := BeforeDeflakes(cfg, b, i);
    var mid := DispatchDeflakes(cfg, early, i.requests, i.deferred, i.deflakeEnv);
    var log := Tick(cfg, b, i).book.log;
    Segments(b.log, early.log, mid.log, log, j);
    DeflakeAfterMarks(cfg, early, i.requests, i.deferred, i.deflakeEnv);
  }

  lemma DeflakeAfterMarks(cfg: Config, b: Book, reqs: seq<Request>, deferred: set<string>, env: Env)
    requires cfg.Valid() && |b.log| < |DispatchDeflakes(cfg, b, reqs, deferred, env).log|
    ensures var e := DispatchDeflakes(cfg, b, reqs, deferred, env).log[|b.log|];
            e.Launched? && IsKey(e.ticket) && (e.ticket in b.claims ==> b.claims[e.ticket].requestTs < e.requestTs)
  {
    var p := PendingAll(b.claims, reqs, SlugsOf(reqs), deferred);
    PendingAllOffers(b.claims, reqs, SlugsOf(reqs), deferred);
    PendingAllMarks(b.claims, reqs, SlugsOf(reqs), deferred);
    var r := Oldest(p.ready);
    KeyInjective(r.slug, r.slug);
    assert Offer(b.claims, p.claims, reqs, r);
  }

  // A raising tick's deflake run is newer than the mark that is still in the file.
  lemma LostDeflake(cfg: Config, u: World, u': World, p: nat)
    requires cfg.Valid() && WorldInv(cfg, u) && Follows(cfg, u, u')
    requires |u.log| <= p < |u'.log| && u'.log[p].Lost? && StartsDeflake(u'.log[p].event)
    ensures !RequestsKept(u'.Done())
  {
    var i, r := TickOf(cfg, u, u');
    var j := TickLine(u, r, p);
    DeflakeIsNew(cfg, u.File(), i, j);
    NotConsumed(u'.Done(), p, r.book.log[j]);
  }

  lemma NotConsumed(b: Book, p: nat, e: Event)
    requires p < |b.log| && b.log[p] == e && StartsDeflake(e)
    requires e.ticket in b.claims ==> b.claims[e.ticket].requestTs < e.requestTs
    ensures !RequestsKept(b)
  {
  }

  lemma TurnGrows(cfg: Config, worlds: seq<World>, n: nat)
    requires cfg.Valid() && IsRun(cfg, worlds) && n + 1 < |worlds|
    ensures worlds[n].log <= worlds[n + 1].log
  {
    TurnAt(cfg, worlds, n);
  }

  lemma {:induction false} RunGrows(cfg: Config, worlds: seq<World>, m: nat, n: nat)
    requires cfg.Valid() && IsRun(cfg, worlds) && m <= n < |worlds|
    ensures worlds[m].log <= worlds[n].log
    decreases n
  {
    if m < n {
      RunGrows(cfg, worlds, m, n - 1);
      TurnGrows(cfg, worlds, n - 1);
    }
  }

  // The turn that wrote line p.
  lemma WrittenAt(worlds: seq<World>, n: nat, p: nat) returns (m: nat)
    requires n < |worlds| && |worlds[0].log| == 0 && p < |worlds[n].log|
    ensures m < n && |worlds[m].log| <= p < |worlds[m + 1].log|
  {
    m := 0;
    while |worlds[m + 1].log| <= p
      invariant m < n && |worlds[m].log| <= p
      decreases n - m
    {
      m := m + 1;
    }
  }
}
