/** Which new runs a tick starts (ops/work-runner.py).

How many slots are free on this Mac and who gets them, which host a ticket goes to, and when a deflake run
starts: read off the candidates, the claims and what the runner sees. */
module WorkStarts {
  import opened Wrappers
  import opened WorkClaims
  import opened WorkRunner
  import opened WorkDeflakes
  import opened WorkPasses
  import opened WorkResumes

  // ------------------------------------------------------------------ slots on this Mac

  // Running work, fix and deflake runs on this Mac.
  function Here(claims: Claims): set<Ticket> {
    set t | t in claims && claims[t].state == Running && claims[t].kind != Review && claims[t].host == None
  }

  // No work is started on this Mac: a hold, its load or its disk forbids it; or, where gates run alone, the
  // merge queue is long, or waits while no work runs here that it could be waiting beside.
  predicate Closed(cfg: Config, claims: Claims, env: Env) {
    || env.usageLimited || env.paused || env.gateHolds || !env.loadOk || !env.diskOk
    || (cfg.gateAlone && env.queueDepth >= 6)
    || (cfg.gateAlone && env.queueDepth > 0
        && forall t :: t in claims ==>
             !(claims[t].state == Running && claims[t].kind == Work && claims[t].host == None))
  }

  // The free slots are the most that keep the workers here within their bounds, and no more than a tick
  // starts.
  lemma FreeSlotsExact(cfg: Config, b: Book, env: Env)
    requires cfg.Valid()
    ensures var (free, n) := (FreeSlots(cfg, b, env), |Here(b.claims)|);
            && free <= cfg.perTick
            && (Closed(cfg, b.claims, env) ==> free == 0)
            && (free > 0 ==> Within(cfg, env, None, n + free))
            && (!Closed(cfg, b.claims, env) && free < cfg.perTick ==> !Within(cfg, env, None, n + free + 1))
  {
    var free, n := FreeSlots(cfg, b, env), |Here(b.claims)|;
    assert Workers(b.claims, None) == Here(b.claims);
    CapExact(cfg, env, None, n + free);
    CapExact(cfg, env, None, n + free + 1);
    assert LocalWork(b.claims) == {} <==> forall t :: t in b.claims ==>
             !(b.claims[t].state == Running && b.claims[t].kind == Work && b.claims[t].host == None) by {
      NoLocalWork(b.claims);
    }
  }

  lemma NoLocalWork(claims: Claims)
    ensures LocalWork(claims) == {} <==> forall t :: t in claims ==>
              !(claims[t].state == Running && claims[t].kind == Work && claims[t].host == None)
  {
    if t :| t in claims && claims[t].state == Running && claims[t].kind == Work && claims[t].host == None {
      assert t in LocalWork(claims);
    }
  }

  // ------------------------------------------------------------------ who gets them

  // The tickets claimed since.
  function New(before: Claims, after: Claims): set<Ticket> { after.Keys - before.Keys }

  // A new claim: a work run just started on h, with nothing spent.
  predicate Fresh(claim: Claim, h: Option<Host>, review: bool, now: int) {
    && claim.state == Running && claim.kind == Work && claim.host == h && claim.session && claim.review == review
    && !claim.deflake && !claim.detached && claim.started == now && claim.ended == None
    && claim.fixAttempts == 0 && claim.killResumes == 0 && claim.timeoutResumes == 0
    && claim.failLine == None && claim.seen == {}
  }

  predicate Kept(before: Claims, after: Claims) {
    forall t :: t in before ==> t in after && after[t] == before[t]
  }

  // Candidate c was started as ticket t.
  predicate StartedAs(claims: Claims, c: Candidate, t: Ticket, env: Env, after: Claims) {
    && c.ticket == t && Startable(claims, c) && c.launch != Raises
    && t in after && Fresh(after[t], None, c.review, env.now)
  }

  ghost predicate Listed(claims: Claims, cs: seq<Candidate>, t: Ticket, env: Env, after: Claims) {
    exists c :: c in cs && StartedAs(claims, c, t, env, after)
  }

  // A candidate that could be started and was not: the slots had run out or a launch had raised.
  predicate LeftOut(claims: Claims, c: Candidate, free: nat, after: Claims, raised: bool) {
    Startable(claims, c) && c.ticket !in after ==> raised || |New(claims, after)| == free
  }

  predicate RaisedAt(claims: Claims, c: Candidate, after: Claims) {
    Startable(claims, c) && c.launch == Raises && c.ticket !in after
  }

  // What a dispatch of `cs` with `free` slots comes to: claims are only added, for startable candidates, no
  // more than there are slots, and no candidate is left out while a slot is free - but for a launch that raises,
  // which ends the dispatch.
  ghost predicate Dispatched(claims: Claims, cs: seq<Candidate>, free: nat, env: Env, after: Claims, raised: bool) {
    && Kept(claims, after)
    && |New(claims, after)| <= free
    && AllListed(claims, cs, env, after)
    && NoneLeftOut(claims, cs, free, after, raised)
    && (raised ==> |New(claims, after)| < free && SomeRaised(claims, cs, after))
  }

  ghost predicate AllListed(claims: Claims, cs: seq<Candidate>, env: Env, after: Claims) {
    forall t :: t in New(claims, after) ==> Listed(claims, cs, t, env, after)
  }

  ghost predicate NoneLeftOut(claims: Claims, cs: seq<Candidate>, free: nat, after: Claims, raised: bool) {
    forall c :: c in cs ==> LeftOut(claims, c, free, after, raised)
  }

  ghost predicate SomeRaised(claims: Claims, cs: seq<Candidate>, after: Claims) {
    exists c :: c in cs && RaisedAt(claims, c, after)
  }

  ghost predicate DispatchedTo(b: Book, cs: seq<Candidate>, free: nat, env: Env, r: Ticked) {
    Dispatched(b.claims, cs, free, env, r.book.claims, r.raised)
  }

  lemma MovesOn(cfg: Config, b: Book, cs: seq<Candidate>, free: nat, env: Env, b': Book, free': nat, r: Ticked)
    requires cfg.Valid() && Moves(cfg, b, cs, free, env, b', free') && DispatchedTo(b', cs[1..], free', env, r)
    ensures DispatchedTo(b, cs, free, env, r)
  {
    if Startable(b.claims, cs[0]) {
      StartsOne(b.claims, b'.claims, cs, free, env, r.book.claims, r.raised);
    } else {
      SkipsOne(b.claims, cs, free, env, r.book.claims, r.raised);
    }
  }

  lemma LocalStops(cfg: Config, b: Book, cs: seq<Candidate>, free: nat, env: Env)
    requires cfg.Valid() && (cs == [] || free == 0 || (Startable(b.claims, cs[0]) && cs[0].launch == Raises))
    ensures DispatchedTo(b, cs, free, env, DispatchLocalEach(cfg, b, cs, free, env))
  {
    if cs == [] || free == 0 {
      StartsNone(b.claims, cs, free, env);
    } else {
      RaisesFirst(b.claims, cs, free, env);
    }
  }

  // dispatch on this Mac, given its free slots.
  lemma {:induction false} LocalExact(cfg: Config, b: Book, cs: seq<Candidate>, free: nat, env: Env)
    requires cfg.Valid()
    ensures DispatchedTo(b, cs, free, env, DispatchLocalEach(cfg, b, cs, free, env))
    decreases |cs|
  {
    if cs == [] || free == 0 || (Startable(b.claims, cs[0]) && cs[0].launch == Raises) {
      LocalStops(cfg, b, cs, free, env);
    } else {
      var b', free' := LocalMoves(cfg, b, cs, free, env);
      LocalExact(cfg, b', cs[1..], free', env);
      MovesOn(cfg, b, cs, free, env, b', free', DispatchLocalEach(cfg, b', cs[1..], free', env));
    }
  }

  lemma StartsNone(claims: Claims, cs: seq<Candidate>, free: nat, env: Env)
    requires cs == [] || free == 0
    ensures Dispatched(claims, cs, free, env, claims, false)
  {
    assert New(claims, claims) == {};
  }

  lemma RaisesFirst(claims: Claims, cs: seq<Candidate>, free: nat, env: Env)
    requires cs != [] && free > 0 && Startable(claims, cs[0]) && cs[0].launch == Raises
    ensures Dispatched(claims, cs, free, env, claims, true)
  {
    assert New(claims, claims) == {};
    assert RaisedAt(claims, cs[0], claims);
  }

  lemma SkipsOne(claims: Claims, cs: seq<Candidate>, free: nat, env: Env, after: Claims, raised: bool)
    requires cs != [] && !Startable(claims, cs[0]) && Dispatched(claims, cs[1..], free, env, after, raised)
    ensures Dispatched(claims, cs, free, env, after, raised)
  {
    assert AllListed(claims, cs, env, after) by {
      forall t | t in New(claims, after) ensures Listed(claims, cs, t, env, after) {
        assert Listed(claims, cs[1..], t, env, after);
      }
    }
    assert NoneLeftOut(claims, cs, free, after, raised) by {
      assert forall c :: c in cs ==> c == cs[0] || c in cs[1..];
    }
    if raised {
      var c :| c in cs[1..] && RaisedAt(claims, c, after);
      assert c in cs;
    }
  }

  // mid is what claims become when cs[0] takes a slot.
  predicate TakesOne(claims: Claims, mid: Claims, cs: seq<Candidate>, env: Env) {
    && cs != [] && Startable(claims, cs[0]) && cs[0].launch != Raises
    && mid == claims[cs[0].ticket := NewClaim(cs[0], None, env.now)]
  }

  lemma StartsOne(claims: Claims, mid: Claims, cs: seq<Candidate>, free: nat, env: Env, after: Claims, raised: bool)
    requires TakesOne(claims, mid, cs, env) && free > 0 && Dispatched(mid, cs[1..], free - 1, env, after, raised)
    ensures Dispatched(claims, cs, free, env, after, raised)
  {
    KeptBack(claims, mid, cs, env, after);
    MoreListed(claims, mid, cs, env, after);
    FewerLeftOut(claims, mid, cs, free, env, after, raised);
    if raised {
      RaisedLater(claims, mid, cs, env, after);
    }
  }

  lemma KeptBack(claims: Claims, mid: Claims, cs: seq<Candidate>, env: Env, after: Claims)
    requires TakesOne(claims, mid, cs, env) && Kept(mid, after)
    ensures Kept(claims, after) && |New(claims, after)| == |New(mid, after)| + 1
  {
    AddsOne(claims, cs[0].ticket, NewClaim(cs[0], None, env.now), after);
  }

  lemma AddsOne(claims: Claims, t: Ticket, c: Claim, after: Claims)
    requires t !in claims && Kept(claims[t := c], after)
    ensures Kept(claims, after) && |New(claims, after)| == |New(claims[t := c], after)| + 1
  {
    var mid := claims[t := c];
    assert mid.Keys == claims.Keys + {t};
    OneMoreNew(claims, mid, t, after);
    forall u | u in claims ensures u in after && after[u] == claims[u] {
      assert u in mid && mid[u] == claims[u];
    }
  }

  lemma MoreListed(claims: Claims, mid: Claims, cs: seq<Candidate>, env: Env, after: Claims)
    requires TakesOne(claims, mid, cs, env) && Kept(mid, after) && AllListed(mid, cs[1..], env, after)
    ensures AllListed(claims, cs, env, after)
  {
    forall t | t in New(claims, after) ensures Listed(claims, cs, t, env, after) {
      if t == cs[0].ticket {
        assert StartedAs(claims, cs[0], t, env, after);
      } else {
        assert t in New(mid, after);
        StartedLater(claims, mid, cs, t, env, after);
      }
    }
  }

  lemma FewerLeftOut(claims: Claims, mid: Claims, cs: seq<Candidate>, free: nat, env: Env, after: Claims, raised: bool)
    requires TakesOne(claims, mid, cs, env) && free > 0 && Kept(mid, after)
    requires NoneLeftOut(mid, cs[1..], free - 1, after, raised)
    ensures NoneLeftOut(claims, cs, free, after, raised)
  {
    var n := |New(mid, after)|;
    assert |New(claims, after)| == n + 1 by { KeptBack(claims, mid, cs, env, after); }
    forall c | c in cs ensures LeftOut(claims, c, free, after, raised) {
      if Startable(claims, c) && c.ticket !in after {
        assert c.ticket != cs[0].ticket && c in cs[1..] && LeftOut(mid, c, free - 1, after, raised);
        assert Startable(mid, c);
      }
    }
  }

  lemma RaisedLater(claims: Claims, mid: Claims, cs: seq<Candidate>, env: Env, after: Claims)
    requires TakesOne(claims, mid, cs, env) && SomeRaised(mid, cs[1..], after)
    ensures SomeRaised(claims, cs, after)
  {
    var c :| c in cs[1..] && RaisedAt(mid, c, after);
    assert c in cs && RaisedAt(claims, c, after);
  }

  lemma OneMoreNew(claims: Claims, mid: Claims, t: Ticket, after: Claims)
    requires t !in claims && mid.Keys == claims.Keys + {t} && Kept(mid, after)
    ensures New(claims, after) == New(mid, after) + {t} && |New(claims, after)| == |New(mid, after)| + 1
  {
    assert New(claims, after) == New(mid, after) + {t};
  }

  lemma StartedLater(claims: Claims, mid: Claims, cs: seq<Candidate>, t: Ticket, env: Env, after: Claims)
    requires cs != [] && claims.Keys <= mid.Keys && Listed(mid, cs[1..], t, env, after)
    ensures Listed(claims, cs, t, env, after)
  {
    var c :| c in cs[1..] && StartedAs(mid, c, t, env, after);
    assert c in cs && StartedAs(claims, c, t, env, after);
  }

  // Candidates are taken in order: what later ones get is what is left when the earlier ones have had theirs.
  lemma {:induction false} InOrder(cfg: Config, b: Book, cs: seq<Candidate>, later: seq<Candidate>, free: nat, env: Env)
    returns (left: nat)
    requires cfg.Valid()
    ensures var r := DispatchLocalEach(cfg, b, cs, free, env);
            var all := DispatchLocalEach(cfg, b, cs + later, free, env);
            && left == free - |New(b.claims, r.book.claims)|
            && all == if r.raised then r else DispatchLocalEach(cfg, r.book, later, left, env)
    decreases |cs|
  {
    if cs == [] || free == 0 || (Startable(b.claims, cs[0]) && cs[0].launch == Raises) {
      left := OrderStops(cfg, b, cs, later, free, env);
    } else {
      var b', free' := LocalMoves(cfg, b, cs, free, env);
      left := InOrder(cfg, b', cs[1..], later, free', env);
      MovesOver(cfg, b, cs, later, free, env, b', free');
      LocalExact(cfg, b', cs[1..], free', env);
      MovesCount(cfg, b, cs, free, env, b', free', DispatchLocalEach(cfg, b', cs[1..], free', env));
    }
  }

  lemma OrderStops(cfg: Config, b: Book, cs: seq<Candidate>, later: seq<Candidate>, free: nat, env: Env)
    returns (left: nat)
    requires cfg.Valid() && (cs == [] || free == 0 || (Startable(b.claims, cs[0]) && cs[0].launch == Raises))
    ensures var r := DispatchLocalEach(cfg, b, cs, free, env);
            var all := DispatchLocalEach(cfg, b, cs + later, free, env);
            && left == free - |New(b.claims, r.book.claims)|
            && all == if r.raised then r else DispatchLocalEach(cfg, r.book, later, left, env)
  {
    left := free;
    assert New(b.claims, b.claims) == {};
    assert [] + later == later;
  }

  lemma MovesOver(cfg: Config, b: Book, cs: seq<Candidate>, later: seq<Candidate>, free: nat, env: Env, b': Book,
                  free': nat)
    requires cfg.Valid() && Moves(cfg, b, cs, free, env, b', free')
    ensures DispatchLocalEach(cfg, b, cs + later, free, env) == DispatchLocalEach(cfg, b', cs[1..] + later, free', env)
  {
    assert (cs + later)[0] == cs[0] && (cs + later)[1..] == cs[1..] + later;
    var b'', free'' := LocalMoves(cfg, b, cs + later, free, env);
  }

  lemma MovesCount(cfg: Config, b: Book, cs: seq<Candidate>, free: nat, env: Env, b': Book, free': nat, r: Ticked)
    requires cfg.Valid() && Moves(cfg, b, cs, free, env, b', free') && DispatchedTo(b', cs[1..], free', env, r)
    ensures free - |New(b.claims, r.book.claims)| == free' - |New(b'.claims, r.book.claims)|
  {
    if Startable(b.claims, cs[0]) {
      AddsOne(b.claims, cs[0].ticket, NewClaim(cs[0], None, env.now), r.book.claims);
    }
  }

  // ------------------------------------------------------------------ which host

  lemma {:induction false} FirstWithRoomExact(cfg: Config, b: Book, t: Ticket, env: Env, hosts: seq<Host>)
    returns (k: nat)
    requires cfg.Valid()
    ensures k <= |hosts| && forall j :: 0 <= j < k ==> !RoomBeside(cfg, b.claims, Some(hosts[j]), t, env)
    ensures k < |hosts| ==> RoomBeside(cfg, b.claims, Some(hosts[k]), t, env)
    ensures FirstWithRoom(cfg, b, t, env, hosts) == if k < |hosts| then Some(hosts[k]) else None
    decreases |hosts|
  {
    k := 0;
    if hosts != [] {
      RoomExact(cfg, b.claims, Some(hosts[0]), t, env);
      if !RoomBeside(cfg, b.claims, Some(hosts[0]), t, env) {
        var k' := FirstWithRoomExact(cfg, b, t, env, hosts[1..]);
        forall j | 0 <= j < k' + 1 ensures !RoomBeside(cfg, b.claims, Some(hosts[j]), t, env) {
          assert j > 0 ==> hosts[1..][j - 1] == hosts[j];
        }
        k := k' + 1;
      }
    }
  }

  // host_for: a hand-named ticket goes to the first host, whatever runs there; an eligible one to the first
  // host with room for one more; another to none.
  lemma HostForExact(cfg: Config, b: Book, c: Candidate, env: Env) returns (k: nat)
    requires cfg.Valid()
    ensures HostFor(cfg, b, c, env) == if k < |env.hosts| then Some(env.hosts[k]) else None
    ensures c.named ==> k == 0
    ensures !c.named && !c.eligible ==> k >= |env.hosts|
    ensures !c.named && c.eligible ==>
              && (forall j :: 0 <= j < k && j < |env.hosts| ==>
                    !RoomBeside(cfg, b.claims, Some(env.hosts[j]), c.ticket, env))
              && (k < |env.hosts| ==> RoomBeside(cfg, b.claims, Some(env.hosts[k]), c.ticket, env))
  {
    if c.named {
      k := 0;
    } else if !c.eligible {
      k := |env.hosts|;
    } else {
      k := FirstWithRoomExact(cfg, b, c.ticket, env, env.hosts);
    }
  }

  // Candidate c was started as ticket t, on one of the hosts: the first if it is named by hand.
  predicate SentAs(c: Candidate, t: Ticket, launched: set<Host>, env: Env, after: Claims) {
    && c.ticket == t && !c.groupFull && c.launch == Starts && t in after
    && after[t].host.Some? && after[t].host.value in env.hosts && after[t].host.value !in launched
    && (if c.named then after[t].host.value == env.hosts[0] else c.eligible)
    && Fresh(after[t], after[t].host, c.review, env.now)
  }

  ghost predicate Sent(cs: seq<Candidate>, t: Ticket, launched: set<Host>, env: Env, after: Claims) {
    exists c :: c in cs && SentAs(c, t, launched, env, after)
  }

  predicate OnePerHost(started: set<Ticket>, after: Claims) {
    forall t, u :: t in started && u in started && t in after && u in after && after[t].host == after[u].host ==> t == u
  }

  // The pass has launched on h, before or now.
  ghost predicate Taken(claims: Claims, launched: set<Host>, h: Host, after: Claims) {
    h in launched || exists t :: t in New(claims, after) && t in after && after[t].host == Some(h)
  }

  // A candidate named by hand that could be started and was not: another was started on the first host.
  ghost predicate NamedServed(claims: Claims, c: Candidate, launched: set<Host>, env: Env, after: Claims) {
    c.named && c.ticket !in after && !c.groupFull && c.launch == Starts && env.hosts != [] ==>
      Taken(claims, launched, env.hosts[0], after)
  }

  // What a dispatch to the hosts comes to.
  ghost predicate SentOut(claims: Claims, cs: seq<Candidate>, launched: set<Host>, env: Env, after: Claims) {
    && Kept(claims, after)
    && (forall t :: t in New(claims, after) ==> Sent(cs, t, launched, env, after))
    && OnePerHost(New(claims, after), after)
  }

  // One candidate of the loop, unless its launch raises: passed over, or started on the host it goes to.
  predicate RemoteMoves(cfg: Config, b: Book, cs: seq<Candidate>, launched: set<Host>, env: Env, b': Book,
                        launched': set<Host>)
    requires cfg.Valid()
  {
    cs != [] &&
      var h := HostFor(cfg, b, cs[0], env);
      if cs[0].ticket in b.claims || h.None? || h.value in launched || cs[0].groupFull || cs[0].launch.NotPrepared? then
        b' == b && launched' == launched
      else
        cs[0].launch.Starts? && b' == LaunchWork(cfg, b, cs[0], h, env) && launched' == launched + {h.value}
  }

  lemma RemoteOn(cfg: Config, b: Book, cs: seq<Candidate>, launched: set<Host>, env: Env)
    returns (stop: bool, b': Book, launched': set<Host>)
    requires cfg.Valid()
    ensures stop ==> DispatchRemoteEach(cfg, b, cs, launched, env) == Ticked(b, cs != [])
    ensures !stop ==>
              && RemoteMoves(cfg, b, cs, launched, env, b', launched')
              && DispatchRemoteEach(cfg, b, cs, launched, env) == DispatchRemoteEach(cfg, b', cs[1..], launched', env)
  {
    stop, b', launched' := true, b, launched;
    if cs != [] {
      var c, h := cs[0], HostFor(cfg, b, cs[0], env);
      if c.ticket in b.claims || h.None? || h.value in launched || c.groupFull || c.launch.NotPrepared? {
        stop := false;
      } else if c.launch.Starts? {
        stop, b', launched' := false, LaunchWork(cfg, b, c, h, env), launched + {h.value};
      }
    }
  }

  lemma RemoteMovesOn(cfg: Config, b: Book, cs: seq<Candidate>, launched: set<Host>, env: Env, b': Book,
                      launched': set<Host>, after: Claims)
    requires cfg.Valid() && RemoteMoves(cfg, b, cs, launched, env, b', launched')
    requires SentOut(b'.claims, cs[1..], launched', env, after)
    ensures SentOut(b.claims, cs, launched, env, after)
  {
    var t0 := cs[0].ticket;
    assert forall c :: c in cs[1..] ==> c in cs;
    if b' != b {
      var k := HostForExact(cfg, b, cs[0], env);
      assert New(b.claims, after) == New(b'.claims, after) + {t0};
      assert SentAs(cs[0], t0, launched, env, after);
    }
    forall t | t in New(b.claims, after) ensures Sent(cs, t, launched, env, after) {
      if b' == b || t != t0 {
        SentLater(cs, t, launched, launched', env, after);
      }
    }
    forall t | t in New(b'.claims, after)
      ensures t in after && after[t].host.Some? && after[t].host.value !in launched'
    {
      assert Sent(cs[1..], t, launched', env, after);
    }
  }

  lemma SentLater(cs: seq<Candidate>, t: Ticket, launched: set<Host>, launched': set<Host>, env: Env, after: Claims)
    requires cs != [] && launched <= launched' && Sent(cs[1..], t, launched', env, after)
    ensures Sent(cs, t, launched, env, after)
  {
    var c :| c in cs[1..] && SentAs(c, t, launched', env, after);
    assert c in cs && SentAs(c, t, launched, env, after);
  }

  // dispatch_remote: claims are only added, for candidates that are named or eligible, each on a host of its
  // own among those the pass has not launched on yet.
  lemma {:induction false} RemoteExact(cfg: Config, b: Book, cs: seq<Candidate>, launched: set<Host>, env: Env)
    requires cfg.Valid()
    ensures SentOut(b.claims, cs, launched, env, DispatchRemoteEach(cfg, b, cs, launched, env).book.claims)
    decreases |cs|
  {
    var stop, b', launched' := RemoteOn(cfg, b, cs, launched, env);
    if stop {
      assert New(b.claims, b.claims) == {};
    } else {
      RemoteExact(cfg, b', cs[1..], launched', env);
      RemoteMovesOn(cfg, b, cs, launched, env, b', launched',
                    DispatchRemoteEach(cfg, b', cs[1..], launched', env).book.claims);
    }
  }

  lemma NamedMovesOn(cfg: Config, b: Book, cs: seq<Candidate>, launched: set<Host>, env: Env, b': Book,
                     launched': set<Host>, after: Claims, c: Candidate)
    requires cfg.Valid() && RemoteMoves(cfg, b, cs, launched, env, b', launched') && Kept(b'.claims, after)
    requires c == cs[0] || NamedServed(b'.claims, c, launched', env, after)
    ensures NamedServed(b.claims, c, launched, env, after)
  {
    var k := HostForExact(cfg, b, cs[0], env);
    if b' != b {
      assert cs[0].ticket in New(b.claims, after) && after[cs[0].ticket].host == Some(env.hosts[k]);
      assert New(b'.claims, after) <= New(b.claims, after);
    }
  }

  // A pass that does not raise starts every candidate named by hand, or another on the first host.
  lemma {:induction false} NamedFirst(cfg: Config, b: Book, cs: seq<Candidate>, launched: set<Host>, env: Env,
                                      c: Candidate)
    requires cfg.Valid() && c in cs && !DispatchRemoteEach(cfg, b, cs, launched, env).raised
    ensures NamedServed(b.claims, c, launched, env, DispatchRemoteEach(cfg, b, cs, launched, env).book.claims)
    decreases |cs|
  {
    var stop, b', launched' := RemoteOn(cfg, b, cs, launched, env);
    if !stop {
      if c != cs[0] {
        NamedFirst(cfg, b', cs[1..], launched', env, c);
      }
      RemoteExact(cfg, b', cs[1..], launched', env);
      NamedMovesOn(cfg, b, cs, launched, env, b', launched',
                   DispatchRemoteEach(cfg, b', cs[1..], launched', env).book.claims, c);
    }
  }

  // A pass that does not raise and starts nothing found no host for anyone: no candidate was named by hand, and
  // no host had room for an eligible one.
  lemma {:induction false} NoneSent(cfg: Config, b: Book, cs: seq<Candidate>, env: Env, c: Candidate)
    requires cfg.Valid() && c in cs && DispatchRemoteEach(cfg, b, cs, {}, env) == Ticked(b, false)
    requires c.ticket !in b.claims && !c.groupFull && !c.launch.NotPrepared? && env.hosts != []
    ensures !c.named
    ensures c.eligible ==> forall h :: h in env.hosts ==> !RoomBeside(cfg, b.claims, Some(h), c.ticket, env)
    decreases |cs|
  {
    var k := HostForExact(cfg, b, c, env);
    var stop, b', launched := RemoteOn(cfg, b, cs, {}, env);
    if b' != b {
      OneSent(cfg, b, cs, env, b', launched);
    } else if c != cs[0] {
      NoneSent(cfg, b, cs[1..], env, c);
    }
  }

  // What was started stays started.
  lemma OneSent(cfg: Config, b: Book, cs: seq<Candidate>, env: Env, b': Book, launched: set<Host>)
    requires cfg.Valid() && RemoteMoves(cfg, b, cs, {}, env, b', launched) && b' != b
    ensures DispatchRemoteEach(cfg, b', cs[1..], launched, env).book != b
  {
    RemoteExact(cfg, b', cs[1..], launched, env);
    assert cs[0].ticket in b'.claims && cs[0].ticket !in b.claims;
  }

  // ------------------------------------------------------------------ deflake runs

  // A deflake run starts exactly when some live request is of a test that is not deferred, no hold is in
  // force, one more worker may run on this Mac and its disk has room.
  lemma DeflakeStartsIff(cfg: Config, b: Book, reqs: seq<Request>, deferred: set<string>, env: Env)
    requires cfg.Valid()
    ensures var b' := DispatchDeflakes(cfg, b, reqs, deferred, env);
            |b'.log| > |b.log| <==>
              && !env.usageLimited && !env.paused && !env.gateHolds && env.diskOk
              && Within(cfg, env, None, |Here(b.claims)| + 1)
              && exists q :: q in reqs && q.slug !in deferred && Live(b.claims, q)
  {
    var slugs := SlugsOf(reqs);
    var p := PendingAll(b.claims, reqs, slugs, deferred);
    assert Workers(p.claims, None) == Here(b.claims) by {
      PendingAllMarks(b.claims, reqs, slugs, deferred);
      SameHere(b.claims, p.claims);
    }
    CapExact(cfg, env, None, |Here(b.claims)| + 1);
    OffersIff(b.claims, reqs, deferred);
  }

  lemma OffersIff(claims: Claims, reqs: seq<Request>, deferred: set<string>)
    ensures PendingAll(claims, reqs, SlugsOf(reqs), deferred).ready != [] <==>
            exists q :: q in reqs && q.slug !in deferred && Live(claims, q)
  {
    var slugs := SlugsOf(reqs);
    var p := PendingAll(claims, reqs, slugs, deferred);
    if q :| q in reqs && q.slug !in deferred && Live(claims, q) {
      var r := PendingAllHas(claims, reqs, slugs, deferred, q);
    }
    if p.ready != [] {
      var q := OfferedLive(claims, reqs, slugs, deferred, p.ready[0]);
    }
  }

  lemma SameHere(claims: Claims, marked: Claims)
    requires OnlyMarks(claims, marked)
    ensures Workers(marked, None) == Here(claims)
  {
  }

  // Behind every offer is a live request of a test that is not deferred.
  lemma OfferedLive(claims: Claims, reqs: seq<Request>, slugs: seq<string>, deferred: set<string>, r: Ready)
    returns (q: Request)
    requires forall i, j :: 0 <= i < j < |slugs| ==> slugs[i] != slugs[j]
    requires r in PendingAll(claims, reqs, slugs, deferred).ready
    ensures q in reqs && q.slug !in deferred && Live(claims, q)
  {
    PendingAllWaits(claims, reqs, slugs, deferred, r);
    OfferNotDeferred(claims, reqs, slugs, deferred, r);
    q :| q in reqs && q.slug == r.slug && q.ts == r.waiting && Live(claims, q);
  }

  lemma {:induction false} OfferNotDeferred(claims: Claims, reqs: seq<Request>, slugs: seq<string>,
                                            deferred: set<string>, r: Ready)
    requires r in PendingAll(claims, reqs, slugs, deferred).ready
    ensures r.slug !in deferred
    decreases |slugs|
  {
    var p := PendingOne(claims, reqs, slugs[0], slugs[0] in deferred);
    if p.ready == Some(r) {
      ReadyIsNewest(claims, reqs, slugs[0], slugs[0] in deferred);
    } else {
      OfferNotDeferred(p.claims, reqs, slugs[1..], deferred, r);
    }
  }

  // The claim a deflake run starts with: a run on this Mac that asks for a review, nothing spent, and the
  // request it answers consumed.
  lemma DeflakeClaimed(cfg: Config, b: Book, reqs: seq<Request>, deferred: set<string>, env: Env)
    requires cfg.Valid() && |DispatchDeflakes(cfg, b, reqs, deferred, env).log| > |b.log|
    ensures var b' := DispatchDeflakes(cfg, b, reqs, deferred, env);
            var e := b'.log[|b.log|];
            && e.Launched? && e.host == None && e.claims == b'.claims && e.env == env && e.ticket in b'.claims
            && var c := b'.claims[e.ticket];
               && c.state == Running && c.kind == Deflake && c.deflake && c.review && c.host == None && !c.session
               && c.started == env.now && c.ended == None && c.requestTs == e.requestTs
               && c.fixAttempts == 0 && c.killResumes == 0 && c.timeoutResumes == 0
  {
  }
}
