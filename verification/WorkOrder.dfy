/** A tick pass by pass (ops/work-runner.py).

What a whole tick does is what eight small ticks do, one for each pass in the order of `tick`, each given
that pass's part of what is read from outside and nothing else. And a pass over a list is a pass over its
first part and then over the rest, so nothing in a list is skipped. */
module WorkOrder {
  import opened WorkClaims
  import opened WorkRunner
  import opened WorkDeflakes

  datatype Pass = Reaps | Reviews | Lines | Helds | Releases | Deflakes | Hosts | Local

  // The part of a tick's inputs that one pass reads.
  function Part(i: TickInput, p: Pass): TickInput {
    TickInput(
      if p.Reaps? then i.reaped else [],
      if p.Reviews? then i.failedReviews else [],
      if p.Lines? then i.lines else [],
      i.heldStart,
      if p.Helds? then i.held else [],
      if p.Releases? then i.releases else [],
      i.releasedAt,
      if p.Deflakes? then i.requests else [],
      i.deferred, i.deflakeEnv,
      if p.Hosts? then i.remoteCandidates else [],
      i.remoteEnv,
      if p.Local? then i.candidates else [],
      i.env, i.saves)
  }

  // What one pass makes of the book.
  function PassOver(cfg: Config, b: Book, i: TickInput, p: Pass): Book
    requires cfg.Valid()
  {
    match p
    case Reaps => Reap(cfg, b, i.reaped)
    case Reviews => ResumeFailedReviews(cfg, b, i.failedReviews)
    case Lines => HandleLines(cfg, b, i.lines, false)
    case Helds => RelaunchAll(cfg, b, i.heldStart, i.held)
    case Releases => ReleaseEach(b, i.releases, i.releasedAt)
    case Deflakes => DispatchDeflakes(cfg, b, i.requests, i.deferred, i.deflakeEnv)
    case Hosts => DispatchRemote(cfg, b, i.remoteCandidates, i.remoteEnv).book
    case Local => DispatchLocal(cfg, b, i.candidates, i.env).book
  }

  // A tick with one pass's inputs is that pass.
  lemma PassAlone(cfg: Config, b: Book, i: TickInput, p: Pass)
    requires cfg.Valid()
    ensures Tick(cfg, b, Part(i, p)).book == PassOver(cfg, b, i, p)
  {
    var part := Part(i, p);
    EarlyAlone(cfg, b, i, p);
    var early := BeforeDeflakes(cfg, b, part);
    var mid := DispatchDeflakes(cfg, early, part.requests, part.deferred, part.deflakeEnv);
    assert mid == if p.Deflakes? then PassOver(cfg, b, i, p) else early;
    assert p != Hosts ==> DispatchRemote(cfg, mid, part.remoteCandidates, part.remoteEnv) == Ticked(mid, false);
    assert p != Local ==> forall u :: DispatchLocal(cfg, u, part.candidates, part.env) == Ticked(u, false);
  }

  lemma EarlyAlone(cfg: Config, b: Book, i: TickInput, p: Pass)
    requires cfg.Valid()
    ensures BeforeDeflakes(cfg, b, Part(i, p)) ==
            if p in {Reaps, Reviews, Lines, Helds, Releases} then PassOver(cfg, b, i, p) else b
  {
    assert forall u: Book :: Reap(cfg, u, []) == u;
    assert forall u: Book :: ResumeFailedReviews(cfg, u, []) == u;
    assert forall u: Book :: HandleLines(cfg, u, [], false) == u;
    assert forall u: Book, e: Env :: RelaunchAll(cfg, u, e, []) == u;
    assert forall u: Book, now: int :: ReleaseEach(u, [], now) == u;
  }

  // A tick is its passes, in the order of the source.
  lemma TickInParts(cfg: Config, b: Book, i: TickInput)
    requires cfg.Valid() && !Tick(cfg, b, i).raised
    ensures var b1 := Tick(cfg, b, Part(i, Reaps)).book;
            var b2 := Tick(cfg, b1, Part(i, Reviews)).book;
            var b3 := Tick(cfg, b2, Part(i, Lines)).book;
            var b4 := Tick(cfg, b3, Part(i, Helds)).book;
            var b5 := Tick(cfg, b4, Part(i, Releases)).book;
            var b6 := Tick(cfg, b5, Part(i, Deflakes)).book;
            var b7 := Tick(cfg, b6, Part(i, Hosts)).book;
            Tick(cfg, b, i).book == Tick(cfg, b7, Part(i, Local)).book
  {
    var b1 := PassOver(cfg, b, i, Reaps);
    var b2 := PassOver(cfg, b1, i, Reviews);
    var b3 := PassOver(cfg, b2, i, Lines);
    var b4 := PassOver(cfg, b3, i, Helds);
    var b5 := PassOver(cfg, b4, i, Releases);
    var b6 := PassOver(cfg, b5, i, Deflakes);
    var b7 := PassOver(cfg, b6, i, Hosts);
    PassAlone(cfg, b, i, Reaps);
    PassAlone(cfg, b1, i, Reviews);
    PassAlone(cfg, b2, i, Lines);
    PassAlone(cfg, b3, i, Helds);
    PassAlone(cfg, b4, i, Releases);
    PassAlone(cfg, b5, i, Deflakes);
    PassAlone(cfg, b6, i, Hosts);
    PassAlone(cfg, b7, i, Local);
    assert Tick(cfg, b, i).book == PassOver(cfg, b7, i, Local);
  }

  // ------------------------------------------------------------------ nothing is skipped

  lemma {:induction false} ReapSplits(cfg: Config, b: Book, first: seq<(Ticket, Reaping)>, rest: seq<(Ticket, Reaping)>)
    requires cfg.Valid()
    ensures Reap(cfg, b, first + rest) == Reap(cfg, Reap(cfg, b, first), rest)
    decreases |first|
  {
    if first == [] {
      assert first + rest == rest;
    } else {
      assert (first + rest)[0] == first[0] && (first + rest)[1..] == first[1..] + rest;
      ReapSplits(cfg, ReapEntry(cfg, b, first[0].0, first[0].1), first[1..], rest);
    }
  }

  lemma ReapsOne(cfg: Config, b: Book, t: Ticket, o: Observed)
    requires cfg.Valid()
    ensures Reap(cfg, b, [(t, Judged(o))]) == ReapOne(cfg, b, t, o)
  {
    assert [(t, Judged(o))][1..] == [];
  }

  lemma {:induction false} ReviewsSplit(cfg: Config, b: Book, first: seq<(Ticket, Look)>, rest: seq<(Ticket, Look)>)
    requires cfg.Valid()
    ensures ResumeFailedReviews(cfg, b, first + rest) ==
            ResumeFailedReviews(cfg, ResumeFailedReviews(cfg, b, first), rest)
    decreases |first|
  {
    if first == [] {
      assert first + rest == rest;
    } else {
      assert (first + rest)[0] == first[0] && (first + rest)[1..] == first[1..] + rest;
      ReviewsSplit(cfg, ResumeFailedReviews(cfg, b, [first[0]]), first[1..], rest);
      ReviewFirst(cfg, b, first);
      ReviewFirst(cfg, b, first + rest);
    }
  }

  lemma ReviewFirst(cfg: Config, b: Book, looks: seq<(Ticket, Look)>)
    requires cfg.Valid() && looks != []
    ensures ResumeFailedReviews(cfg, b, looks) ==
            ResumeFailedReviews(cfg, ResumeFailedReviews(cfg, b, [looks[0]]), looks[1..])
  {
    assert [looks[0]][1..] == [];
  }

  // A claim whose review failed is resumed exactly while its worker can be.
  lemma ReviewsOne(cfg: Config, b: Book, t: Ticket, look: Look)
    requires cfg.Valid() && t in b.claims
    ensures var c := b.claims[t];
            ResumeFailedReviews(cfg, b, [(t, look)]) ==
            if c.state == ReviewFailed && !c.deflake && c.session && c.fixAttempts < 2 && look.worktree then
              Resume(cfg, b, t, c.(kind := Work), ReviewFail, look)
            else b
  {
    assert [(t, look)][1..] == [];
  }

  // The flag that one conflict run was started goes on with the lines.
  lemma {:induction false} LinesSplit(cfg: Config, b: Book, first: seq<GateLine>, rest: seq<GateLine>,
                                      conflictRan: bool)
    returns (ran: bool)
    requires cfg.Valid()
    ensures HandleLines(cfg, b, first + rest, conflictRan) ==
            HandleLines(cfg, HandleLines(cfg, b, first, conflictRan), rest, ran)
    ensures (conflictRan ==> ran) && ((forall l :: l in first ==> !l.conflict) ==> ran == conflictRan)
    decreases |first|
  {
    if first == [] {
      assert first + rest == rest;
      ran := conflictRan;
    } else {
      assert (first + rest)[0] == first[0] && (first + rest)[1..] == first[1..] + rest;
      var (b', ran') := HandleLine(cfg, b, first[0], conflictRan);
      FlagKept(cfg, b, first[0], conflictRan);
      ran := LinesSplit(cfg, b', first[1..], rest, ran');
    }
  }

  lemma FlagKept(cfg: Config, b: Book, l: GateLine, conflictRan: bool)
    requires cfg.Valid()
    ensures var (b', ran) := HandleLine(cfg, b, l, conflictRan);
            (conflictRan ==> ran) && (!l.conflict ==> ran == conflictRan)
  {
  }

  lemma {:induction false} HeldsSplit(cfg: Config, b: Book, first: seq<(Ticket, Look)>, rest: seq<(Ticket, Look)>)
    requires cfg.Valid()
    ensures RelaunchEach(cfg, b, first + rest) == RelaunchEach(cfg, RelaunchEach(cfg, b, first), rest)
    decreases |first|
  {
    if first == [] {
      assert first + rest == rest;
    } else {
      assert (first + rest)[0] == first[0] && (first + rest)[1..] == first[1..] + rest;
      HeldsSplit(cfg, RelaunchOne(cfg, b, first[0].0, first[0].1), first[1..], rest);
    }
  }

  lemma {:induction false} ReleasesSplit(b: Book, first: seq<Release>, rest: seq<Release>, now: int)
    ensures ReleaseEach(b, first + rest, now) == ReleaseEach(ReleaseEach(b, first, now), rest, now)
    decreases |first|
  {
    if first == [] {
      assert first + rest == rest;
    } else {
      assert (first + rest)[0] == first[0] && (first + rest)[1..] == first[1..] + rest;
      ReleasesSplit(ReleaseOne(b, first[0], now), first[1..], rest, now);
    }
  }
}
