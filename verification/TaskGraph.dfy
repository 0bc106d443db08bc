/** The dependency part of the dashboard's task map (ops/monitor.py: task_graph). */
module TaskGraph {
  // A worklist closes the anchors under dependencies; done tickets are then contracted out of the drawn
  // graph, a memoised recursion giving every live ticket its nearest live predecessors and the fewest done
  // tickets on the way to each.

  type Ticket = string

  datatype Status = Todo | InProgress | Blocked | Paused | Review | Deferred | Done | Cancelled

  // One board row; `milestone` is already folded to its base name.
  datatype Task = Task(status: Status, deps: seq<Ticket>, milestone: string)

  type Board = map<Ticket, Task>

  // node_for: a running ticket not on the board yet is a placeholder without dependencies.
  function NodeFor(board: Board, t: Ticket): Task {
    if t in board then board[t] else Task(InProgress, [], "")
  }

  function Deps(board: Board, t: Ticket): seq<Ticket> { NodeFor(board, t).deps }

  // ------------------------------------------------------------------ the closure walk

  // p is a chain of dependencies from its first ticket to its last.
  predicate Chain(board: Board, p: seq<Ticket>) {
    p != [] && forall i :: 0 <= i < |p| - 1 ==> p[i + 1] in Deps(board, p[i])
  }

  predicate ChainFrom(board: Board, anchors: set<Ticket>, p: seq<Ticket>, t: Ticket) {
    Chain(board, p) && p[0] in anchors && p[|p| - 1] == t
  }

  // t is an anchor or a dependency, at any depth, of one.
  ghost predicate Needed(board: Board, anchors: set<Ticket>, t: Ticket) {
    exists p :: ChainFrom(board, anchors, p, t)
  }

  function AllDeps(board: Board): set<Ticket> {
    set t, d | t in board && d in board[t].deps :: d
  }

  function ToSet(s: seq<Ticket>): set<Ticket> { set t | t in s }

  predicate Distinct(s: seq<Ticket>) {
    forall i, j :: 0 <= i < j < |s| ==> s[i] != s[j]
  }

  lemma NeededStep(board: Board, anchors: set<Ticket>, t: Ticket, d: Ticket)
    requires Needed(board, anchors, t) && d in Deps(board, t)
    ensures Needed(board, anchors, d)
  {
    var p :| ChainFrom(board, anchors, p, t);
    assert ChainFrom(board, anchors, p + [d], d);
  }

  lemma AnchorNeeded(board: Board, anchors: set<Ticket>, t: Ticket)
    requires t in anchors
    ensures Needed(board, anchors, t)
  {
    assert ChainFrom(board, anchors, [t], t);
  }

  // A set holding the anchors and closed under dependencies holds everything needed.
  lemma {:induction false} ClosedHasNeeded(board: Board, anchors: set<Ticket>, closed: set<Ticket>, p: seq<Ticket>)
    requires anchors <= closed && forall t, d :: t in closed && d in Deps(board, t) ==> d in closed
    requires Chain(board, p) && p[0] in anchors
    ensures p[|p| - 1] in closed
    decreases |p|
  {
    if |p| > 1 {
      var q := p[..|p| - 1];
      assert Chain(board, q);
      ClosedHasNeeded(board, anchors, closed, q);
      assert p[|p| - 1] in Deps(board, q[|q| - 1]);
    }
  }

  // What holds at each turn of the walk.
  ghost predicate WalkInv(board: Board, anchors: set<Ticket>, stack: seq<Ticket>, seen: set<Ticket>,
                          nodes: seq<Ticket>) {
    && (forall t :: t in nodes <==> t in seen) && Distinct(nodes)
    && (forall t :: t in anchors ==> t in seen || t in stack)
    && (forall t :: t in seen || t in stack ==> Needed(board, anchors, t))
    && (forall t, d :: t in seen && d in Deps(board, t) ==> d in seen || d in stack)
  }

  // Only finitely many tickets are ever needed.
  lemma NeededBounded(board: Board, anchors: set<Ticket>, t: Ticket)
    requires Needed(board, anchors, t)
    ensures t in anchors + AllDeps(board)
  {
    var p :| ChainFrom(board, anchors, p, t);
    if |p| > 1 {
      var u := p[|p| - 2];
      assert p[|p| - 1] in Deps(board, u);
      assert u in board && t in board[u].deps;
    }
  }

  // Dropping a ticket seen before.
  lemma WalkSkip(board: Board, anchors: set<Ticket>, stack: seq<Ticket>, seen: set<Ticket>, nodes: seq<Ticket>)
    requires WalkInv(board, anchors, stack, seen, nodes) && stack != [] && stack[|stack| - 1] in seen
    ensures WalkInv(board, anchors, stack[..|stack| - 1], seen, nodes)
  {
    var t, rest := stack[|stack| - 1], stack[..|stack| - 1];
    assert forall x :: x in stack ==> x == t || x in rest;
    assert forall x :: x in rest ==> x in stack;
  }

  // The unseen dependencies pushed after taking t.
  function Unseen(deps: seq<Ticket>, seen: set<Ticket>): (r: seq<Ticket>)
    ensures forall d :: d in r <==> d in deps && d !in seen
  {
    if deps == [] then []
    else
      var rest := Unseen(deps[1..], seen);
      if deps[0] !in seen then [deps[0]] + rest else rest
  }

  lemma WalkTake(board: Board, anchors: set<Ticket>, stack: seq<Ticket>, seen: set<Ticket>, nodes: seq<Ticket>)
    requires WalkInv(board, anchors, stack, seen, nodes) && stack != [] && stack[|stack| - 1] !in seen
    ensures var t := stack[|stack| - 1];
            WalkInv(board, anchors, stack[..|stack| - 1] + Unseen(Deps(board, t), seen + {t}), seen + {t}, nodes + [t])
  {
    var t, rest := stack[|stack| - 1], stack[..|stack| - 1];
    var now := seen + {t};
    var pushed := Unseen(Deps(board, t), now);
    var stack' := rest + pushed;
    assert forall x :: x in stack <==> x == t || x in rest;
    assert forall x :: x in stack' <==> x in rest || x in pushed;
    assert forall x :: x in nodes + [t] <==> x in nodes || x == t;
    forall d | d in Deps(board, t) ensures Needed(board, anchors, d) {
      NeededStep(board, anchors, t, d);
    }
  }

  lemma WalkEnd(board: Board, anchors: set<Ticket>, seen: set<Ticket>, nodes: seq<Ticket>)
    requires WalkInv(board, anchors, [], seen, nodes)
    ensures forall t :: t in nodes <==> Needed(board, anchors, t)
  {
    forall t ensures t in nodes <==> Needed(board, anchors, t) {
      if Needed(board, anchors, t) {
        var p :| ChainFrom(board, anchors, p, t);
        ClosedHasNeeded(board, anchors, seen, p);
      }
    }
  }

  // The stack/seen walk: exactly the anchors and everything they depend on, each once.
  method ClosureWalk(board: Board, anchors: seq<Ticket>) returns (nodes: seq<Ticket>)
    ensures forall t :: t in nodes <==> Needed(board, ToSet(anchors), t)
    ensures Distinct(nodes)
  {
    var stack, seen := anchors, {};
    nodes := [];
    forall t | t in anchors ensures Needed(board, ToSet(anchors), t) {
      AnchorNeeded(board, ToSet(anchors), t);
    }
    while stack != []
      invariant WalkInv(board, ToSet(anchors), stack, seen, nodes)
      decreases |ToSet(anchors) + AllDeps(board) - seen|, |stack|
    {
      var t := stack[|stack| - 1];
      if t in seen {
        WalkSkip(board, ToSet(anchors), stack, seen, nodes);
        stack := stack[..|stack| - 1];
      } else {
        WalkTake(board, ToSet(anchors), stack, seen, nodes);
        NeededBounded(board, ToSet(anchors), t);
        FewerUnseen(ToSet(anchors) + AllDeps(board), seen, t);
        var pushed := PushUnseen(Deps(board, t), seen + {t}, stack[..|stack| - 1]);
        stack, seen, nodes := pushed, seen + {t}, nodes + [t];
      }
    }
    WalkEnd(board, ToSet(anchors), seen, nodes);
  }

  lemma FewerUnseen(all: set<Ticket>, seen: set<Ticket>, t: Ticket)
    requires t in all && t !in seen
    ensures |all - (seen + {t})| < |all - seen|
  {
    assert all - (seen + {t}) == all - seen - {t};
  }

  // The push loop of the walk.
  method PushUnseen(deps: seq<Ticket>, seen: set<Ticket>, stack: seq<Ticket>) returns (r: seq<Ticket>)
    ensures r == stack + Unseen(deps, seen)
  {
    r := stack;
    for i := 0 to |deps|
      invariant r == stack + Unseen(deps[..i], seen)
    {
      UnseenSnoc(deps, i, seen);
      if deps[i] !in seen {
        r := r + [deps[i]];
      }
    }
    assert deps[..|deps|] == deps;
  }

  lemma {:induction false} UnseenSnoc(deps: seq<Ticket>, i: nat, seen: set<Ticket>)
    requires i < |deps|
    ensures Unseen(deps[..i + 1], seen) == Unseen(deps[..i], seen) + (if deps[i] !in seen then [deps[i]] else [])
    decreases |deps|
  {
    if i == 0 {
      assert deps[..1] == [deps[0]] && deps[..0] == [];
      assert [deps[0]][1..] == [];
    } else {
      UnseenSnoc(deps[1..], i - 1, seen);
      assert deps[..i + 1][1..] == deps[1..][..i] && deps[..i][1..] == deps[1..][..i - 1];
    }
  }

  // ------------------------------------------------------------------ the drawn graph

  // The drawn nodes, and those contracted out of them.
  datatype Drawn = Drawn(board: Board, nodes: set<Ticket>, collapsed: set<Ticket>)
  {
    predicate Valid() { collapsed <= nodes }

    // d is a drawn predecessor of t.
    predicate Pred(t: Ticket, d: Ticket) { d in Deps(board, t) && d in nodes }

    predicate Live(t: Ticket) { t in nodes && t !in collapsed }

    // `via` are the done tickets, nearest t first, on a route from t back to the live ticket a.
    predicate Route(t: Ticket, via: seq<Ticket>, a: Ticket)
      decreases |via|
    {
      if via == [] then Pred(t, a) && a !in collapsed
      else Pred(t, via[0]) && via[0] in collapsed && Route(via[0], via[1..], a)
    }

    // A route whose first step is one of ds.
    predicate RouteBy(t: Ticket, ds: seq<Ticket>, via: seq<Ticket>, a: Ticket) {
      Route(t, via, a) && (if via == [] then a else via[0]) in ds
    }

    // `out` gives each live ticket the fewest done tickets on the routes from t that start in ds.
    ghost predicate Shortest(t: Ticket, ds: seq<Ticket>, out: map<Ticket, nat>) {
      && (forall a, via :: RouteBy(t, ds, via, a) ==> a in out && out[a] <= |via|)
      && (forall a :: a in out ==> exists via :: RouteBy(t, ds, via, a) && |via| == out[a])
    }

    // What eff_preds(t) is for.
    ghost predicate IsEff(t: Ticket, out: map<Ticket, nat>) { Shortest(t, Deps(board, t), out) }

    // The board is acyclic: dependencies have smaller rank.
    ghost predicate Ranked(rank: Ticket -> nat) {
      forall t, d :: t in nodes && Pred(t, d) ==> rank(d) < rank(t)
    }
  }

  type Memo = map<Ticket, map<Ticket, nat>>

  ghost predicate MemoOk(g: Drawn, memo: Memo) {
    forall t :: t in memo ==> g.IsEff(t, memo[t])
  }

  // There is only one such map, so the memo holds the same whatever order it was filled in.
  lemma EffUnique(g: Drawn, t: Ticket, a: map<Ticket, nat>, b: map<Ticket, nat>)
    requires g.IsEff(t, a) && g.IsEff(t, b)
    ensures a == b
  {
    forall x | x in a ensures x in b && b[x] <= a[x] {
      var via :| g.RouteBy(t, Deps(g.board, t), via, x) && |via| == a[x];
    }
    forall x | x in b ensures x in a && a[x] <= b[x] {
      var via :| g.RouteBy(t, Deps(g.board, t), via, x) && |via| == b[x];
    }
  }

  // The fewer of what `out` has for a and one more than `sub` has.
  function MergedAt(out: map<Ticket, nat>, sub: map<Ticket, nat>, a: Ticket): nat
    requires a in out || a in sub
  {
    if a !in sub then out[a] else if a in out && out[a] <= sub[a] + 1 then out[a] else sub[a] + 1
  }

  // out with every route of sub lengthened by one and merged in, the shorter winning.
  function Merged(out: map<Ticket, nat>, sub: map<Ticket, nat>): map<Ticket, nat> {
    map a | a in out.Keys + sub.Keys :: MergedAt(out, sub, a)
  }

  // The merge with `todo` of sub's entries still to come.
  ghost predicate PartMerged(out: map<Ticket, nat>, sub: map<Ticket, nat>, todo: set<Ticket>, r: map<Ticket, nat>) {
    && (forall a :: a in r <==> a in out || (a in sub && a !in todo))
    && (forall a :: a in r ==> r[a] == if a in todo then out[a] else MergedAt(out, sub, a))
  }

  lemma MergeOne(out: map<Ticket, nat>, sub: map<Ticket, nat>, todo: set<Ticket>, r: map<Ticket, nat>, a: Ticket)
    requires PartMerged(out, sub, todo, r) && a in todo && a in sub
    ensures PartMerged(out, sub, todo - {a}, if a !in r || sub[a] + 1 < r[a] then r[a := sub[a] + 1] else r)
  {
  }

  // The inner loop of eff_preds, over the predecessor's own predecessors.
  method MergeInto(out: map<Ticket, nat>, sub: map<Ticket, nat>) returns (r: map<Ticket, nat>)
    ensures r == Merged(out, sub)
  {
    r := out;
    var todo := sub.Keys;
    while todo != {}
      invariant todo <= sub.Keys
      invariant PartMerged(out, sub, todo, r)
      decreases |todo|
    {
      var a :| a in todo;
      MergeOne(out, sub, todo, r, a);
      if a !in r || sub[a] + 1 < r[a] {
        r := r[a := sub[a] + 1];
      }
      todo := todo - {a};
    }
  }

  lemma ShortestNone(g: Drawn, t: Ticket)
    ensures g.Shortest(t, [], map[])
  {
  }

  // A predecessor that is not drawn adds no route.
  lemma ShortestSkip(g: Drawn, t: Ticket, ds: seq<Ticket>, d: Ticket, out: map<Ticket, nat>)
    requires g.Valid() && g.Shortest(t, ds, out) && d !in g.nodes
    ensures g.Shortest(t, ds + [d], out)
  {
    forall a, via | g.RouteBy(t, ds + [d], via, a) ensures g.RouteBy(t, ds, via, a) {
    }
    forall a | a in out ensures exists via :: g.RouteBy(t, ds + [d], via, a) && |via| == out[a] {
      var via :| g.RouteBy(t, ds, via, a) && |via| == out[a];
      assert g.RouteBy(t, ds + [d], via, a);
    }
  }

  // A live predecessor is its own nearest live ticket, with nothing in between.
  lemma ShortestLive(g: Drawn, t: Ticket, ds: seq<Ticket>, d: Ticket, out: map<Ticket, nat>)
    requires g.Shortest(t, ds, out) && g.Pred(t, d) && d !in g.collapsed
    ensures g.Shortest(t, ds + [d], out[d := 0])
  {
    forall a, via | g.RouteBy(t, ds + [d], via, a) ensures a in out[d := 0] && out[d := 0][a] <= |via| {
      if a != d {
        assert g.RouteBy(t, ds, via, a);
      }
    }
    var r := out[d := 0];
    forall a | a in r ensures exists via :: g.RouteBy(t, ds + [d], via, a) && |via| == r[a] {
      if a == d {
        assert g.RouteBy(t, ds + [d], [], a);
      } else {
        var via :| g.RouteBy(t, ds, via, a) && |via| == out[a];
        assert g.RouteBy(t, ds + [d], via, a);
      }
    }
  }

  // A done predecessor passes on its own nearest live tickets, one done ticket further away.
  lemma ShortestThrough(g: Drawn, t: Ticket, ds: seq<Ticket>, d: Ticket, out: map<Ticket, nat>, sub: map<Ticket, nat>)
    requires g.Shortest(t, ds, out) && g.Pred(t, d) && d in g.collapsed && g.IsEff(d, sub)
    ensures g.Shortest(t, ds + [d], Merged(out, sub))
  {
    var r := Merged(out, sub);
    forall a, via | g.RouteBy(t, ds + [d], via, a) ensures a in r && r[a] <= |via| {
      if via != [] && via[0] == d {
        RouteStarts(g, d, via[1..], a);
        assert g.RouteBy(d, Deps(g.board, d), via[1..], a);
      } else {
        RouteEndsLive(g, t, via, a);
        assert g.RouteBy(t, ds, via, a);
      }
    }
    forall a | a in r ensures exists via :: g.RouteBy(t, ds + [d], via, a) && |via| == r[a] {
      if a in out && r[a] == out[a] {
        var via :| g.RouteBy(t, ds, via, a) && |via| == out[a];
        assert g.RouteBy(t, ds + [d], via, a);
      } else {
        var via :| g.RouteBy(d, Deps(g.board, d), via, a) && |via| == sub[a];
        assert ([d] + via)[1..] == via;
        assert g.RouteBy(t, ds + [d], [d] + via, a);
      }
    }
  }

  lemma RouteStarts(g: Drawn, t: Ticket, via: seq<Ticket>, a: Ticket)
    requires g.Route(t, via, a)
    ensures g.RouteBy(t, Deps(g.board, t), via, a)
  {
  }

  lemma {:induction false} RouteEndsLive(g: Drawn, t: Ticket, via: seq<Ticket>, a: Ticket)
    requires g.Route(t, via, a)
    ensures g.Live(a)
    decreases |via|
  {
    if via != [] {
      RouteEndsLive(g, via[0], via[1..], a);
    }
  }

  // eff_preds: `path` is the chain of tickets being resolved above tid.
  method EffPreds(g: Drawn, tid: Ticket, path: seq<Ticket>, memo: Memo, ghost rank: Ticket -> nat)
    returns (out: map<Ticket, nat>, memo': Memo)
    requires g.Valid() && g.Ranked(rank) && tid in g.nodes && MemoOk(g, memo)
    requires forall s :: s in path ==> rank(tid) < rank(s)
    ensures g.IsEff(tid, out) && MemoOk(g, memo')
    decreases rank(tid)
  {
    if tid in memo {
      return memo[tid], memo;
    }
    out, memo' := map[], memo;
    var deps := Deps(g.board, tid);
    ShortestNone(g, tid);
    for i := 0 to |deps|
      invariant g.Shortest(tid, deps[..i], out)
      invariant MemoOk(g, memo')
    {
      var dp := deps[i];
      assert deps[..i + 1] == deps[..i] + [dp];
      if dp !in g.nodes || dp in path {
        ShortestSkip(g, tid, deps[..i], dp, out);
      } else if dp in g.collapsed {
        var sub;
        sub, memo' := EffPreds(g, dp, path + [tid], memo', rank);
        ShortestThrough(g, tid, deps[..i], dp, out, sub);
        out := MergeInto(out, sub);
      } else {
        ShortestLive(g, tid, deps[..i], dp, out);
        out := out[dp := 0];
      }
    }
    assert deps[..|deps|] == deps;
    memo' := memo'[tid := out];
  }

  // ------------------------------------------------------------------ contraction

  // p leads from t back to p's last ticket along drawn dependencies.
  predicate Path(g: Drawn, t: Ticket, p: seq<Ticket>)
    decreases |p|
  {
    p != [] && g.Pred(t, p[0]) && (|p| == 1 || Path(g, p[0], p[1..]))
  }

  // a is reachable from t before contraction.
  ghost predicate Reaches(g: Drawn, t: Ticket, a: Ticket) {
    exists p :: Path(g, t, p) && p[|p| - 1] == a
  }

  // The edge a -> t is drawn after contraction.
  ghost predicate Edge(g: Drawn, t: Ticket, a: Ticket) {
    exists via :: g.Route(t, via, a)
  }

  // p leads from t back to p's last ticket along contracted edges.
  ghost predicate LivePath(g: Drawn, t: Ticket, p: seq<Ticket>)
    decreases |p|
  {
    p != [] && Edge(g, t, p[0]) && (|p| == 1 || LivePath(g, p[0], p[1..]))
  }

  ghost predicate LiveReaches(g: Drawn, t: Ticket, a: Ticket) {
    exists p :: LivePath(g, t, p) && p[|p| - 1] == a
  }

  lemma {:induction false} PathConcat(g: Drawn, t: Ticket, p: seq<Ticket>, q: seq<Ticket>)
    requires Path(g, t, p) && Path(g, p[|p| - 1], q)
    ensures Path(g, t, p + q)
    decreases |p|
  {
    assert (p + q)[1..] == p[1..] + q;
    if |p| > 1 {
      PathConcat(g, p[0], p[1..], q);
    }
  }

  // A route is a path through done tickets.
  lemma {:induction false} RouteIsPath(g: Drawn, t: Ticket, via: seq<Ticket>, a: Ticket)
    requires g.Route(t, via, a)
    ensures Path(g, t, via + [a])
    decreases |via|
  {
    if via != [] {
      assert (via + [a])[1..] == via[1..] + [a];
      RouteIsPath(g, via[0], via[1..], a);
    }
  }

  lemma {:induction false} LivePathIsPath(g: Drawn, t: Ticket, p: seq<Ticket>)
    requires LivePath(g, t, p)
    ensures Reaches(g, t, p[|p| - 1])
    decreases |p|
  {
    var via :| g.Route(t, via, p[0]);
    RouteIsPath(g, t, via, p[0]);
    if |p| > 1 {
      LivePathIsPath(g, p[0], p[1..]);
      var q :| Path(g, p[0], q) && q[|q| - 1] == p[|p| - 1];
      PathConcat(g, t, via + [p[0]], q);
      assert (via + [p[0]] + q)[|via| + 1 + |q| - 1] == q[|q| - 1];
    }
  }

  // A path to a live ticket, from a ticket that routes through `via` to its start, is contracted
  // edge by edge: the first live ticket on it ends the first edge.
  lemma {:induction false} PathContracts(g: Drawn, t: Ticket, p: seq<Ticket>)
    requires g.Valid() && Path(g, t, p) && g.Live(p[|p| - 1])
    ensures LiveReaches(g, t, p[|p| - 1])
    decreases |p|
  {
    var a := p[|p| - 1];
    if p[0] !in g.collapsed {
      assert g.Route(t, [], p[0]);
      if |p| == 1 {
        assert LivePath(g, t, [a]);
      } else {
        PathContracts(g, p[0], p[1..]);
        var q :| LivePath(g, p[0], q) && q[|q| - 1] == a;
        assert ([p[0]] + q)[1..] == q;
        assert LivePath(g, t, [p[0]] + q);
      }
    } else {
      PathContracts(g, p[0], p[1..]);
      var q :| LivePath(g, p[0], q) && q[|q| - 1] == a;
      var via :| g.Route(p[0], via, q[0]);
      assert ([p[0]] + via)[1..] == via;
      assert g.Route(t, [p[0]] + via, q[0]);
      assert LivePath(g, t, q);
    }
  }

  // Contraction keeps reachability between live tickets, both ways.
  lemma ContractionKeepsReachability(g: Drawn, t: Ticket, a: Ticket)
    requires g.Valid() && g.Live(t) && g.Live(a)
    ensures LiveReaches(g, t, a) <==> Reaches(g, t, a)
  {
    if LiveReaches(g, t, a) {
      var p :| LivePath(g, t, p) && p[|p| - 1] == a;
      LivePathIsPath(g, t, p);
    }
    if Reaches(g, t, a) {
      var p :| Path(g, t, p) && p[|p| - 1] == a;
      PathContracts(g, t, p);
    }
  }

  // ------------------------------------------------------------------ edges

  // The edges of the drawing in order: mermaid styles them by index.
  datatype EdgeLine = Backbone(before: string, after: string) | Dependency(pred: Ticket, via: nat, node: Ticket)
                    | Membership(milestone: string, node: Ticket)

  function Milestone(board: Board, t: Ticket): string { NodeFor(board, t).milestone }

  // Both ends of a dependency edge belong to milestone m.
  predicate Inside(board: Board, e: EdgeLine, m: string) {
    e.Dependency? && Milestone(board, e.node) == m && Milestone(board, e.pred) == m
  }

  // The recorded indices of m's edges are exactly the places of the edges inside m, in order.
  predicate Indexed(board: Board, lines: seq<EdgeLine>, m: string, indices: seq<nat>) {
    && (forall k :: 0 <= k < |indices| ==> indices[k] < |lines| && Inside(board, lines[indices[k]], m))
    && (forall k, l :: 0 <= k < l < |indices| ==> indices[k] < indices[l])
    && (forall i :: 0 <= i < |lines| && Inside(board, lines[i], m) ==> i in indices)
  }

  lemma IndexedSnoc(board: Board, lines: seq<EdgeLine>, m: string, indices: seq<nat>, e: EdgeLine)
    requires Indexed(board, lines, m, indices)
    ensures Indexed(board, lines + [e], m, if Inside(board, e, m) then indices + [|lines|] else indices)
  {
    var after, r := lines + [e], if Inside(board, e, m) then indices + [|lines|] else indices;
    forall k | 0 <= k < |r| ensures r[k] < |after| && Inside(board, after[r[k]], m) {
      if k < |indices| {
        assert r[k] == indices[k] && after[indices[k]] == lines[indices[k]];
      }
    }
    forall i | 0 <= i < |after| && Inside(board, after[i], m) ensures i in r {
      if i < |lines| {
        assert after[i] == lines[i] && i in indices;
      } else {
        assert r[|indices|] == i;
      }
    }
  }

  ghost predicate AllIndexed(board: Board, lines: seq<EdgeLine>, open: set<string>, msEdges: map<string, seq<nat>>) {
    msEdges.Keys == open && forall m :: m in open ==> Indexed(board, lines, m, msEdges[m])
  }

  // The edge lines drawn for one node: its dependency edges carry its map entries, each once.
  ghost predicate DependenciesDrawn(lines: seq<EdgeLine>, node: Ticket, preds: map<Ticket, nat>) {
    && (forall i :: 0 <= i < |lines| && lines[i].Dependency? && lines[i].node == node ==>
          lines[i].pred in preds && lines[i].via == preds[lines[i].pred])
    && (forall p :: p in preds ==> Dependency(p, preds[p], node) in lines)
  }

  // The index lists after one more edge.
  function Styled(board: Board, msEdges: map<string, seq<nat>>, e: EdgeLine, n: nat): map<string, seq<nat>> {
    map m | m in msEdges :: if Inside(board, e, m) then msEdges[m] + [n] else msEdges[m]
  }

  lemma AllIndexedSnoc(board: Board, lines: seq<EdgeLine>, open: set<string>, msEdges: map<string, seq<nat>>,
                       e: EdgeLine)
    requires AllIndexed(board, lines, open, msEdges)
    ensures AllIndexed(board, lines + [e], open, Styled(board, msEdges, e, |lines|))
  {
    forall m | m in open ensures Indexed(board, lines + [e], m, Styled(board, msEdges, e, |lines|)[m]) {
      IndexedSnoc(board, lines, m, msEdges[m], e);
    }
  }

  // The edges of `node` to the predecessors already done.
  ghost predicate PartDrawn(lines: seq<EdgeLine>, node: Ticket, preds: map<Ticket, nat>, todo: set<Ticket>) {
    && (forall i :: 0 <= i < |lines| && lines[i].Dependency? && lines[i].node == node ==>
          lines[i].pred in preds && lines[i].pred !in todo && lines[i].via == preds[lines[i].pred])
    && (forall p :: p in preds && p !in todo ==> Dependency(p, preds[p], node) in lines)
  }

  lemma PartDrawnSnoc(lines: seq<EdgeLine>, node: Ticket, preds: map<Ticket, nat>, todo: set<Ticket>, p: Ticket)
    requires p in todo && p in preds && PartDrawn(lines, node, preds, todo)
    ensures PartDrawn(lines + [Dependency(p, preds[p], node)], node, preds, todo - {p})
  {
    var e := Dependency(p, preds[p], node);
    forall q | q in preds && q !in todo - {p} ensures Dependency(q, preds[q], node) in lines + [e] {
      assert (lines + [e])[|lines|] == e;
    }
  }

  // No line after the first `from` is drawn twice.
  ghost predicate NoRepeats(lines: seq<EdgeLine>, from: nat) {
    forall i, j :: from <= i < j < |lines| ==> lines[i] != lines[j]
  }

  lemma NoRepeatsSnoc(lines: seq<EdgeLine>, from: nat, e: EdgeLine)
    requires NoRepeats(lines, from) && forall i :: from <= i < |lines| ==> lines[i] != e
    ensures NoRepeats(lines + [e], from)
  {
  }

  // An edge still to do is not among the node's.
  lemma NotYetDrawn(lines: seq<EdgeLine>, node: Ticket, preds: map<Ticket, nat>, todo: set<Ticket>, p: Ticket)
    requires PartDrawn(lines, node, preds, todo) && p in todo && p in preds
    ensures forall i :: 0 <= i < |lines| ==> lines[i] != Dependency(p, preds[p], node)
  {
  }

  // One node's dependency edges, appended and counted.
  method EmitEdges(board: Board, node: Ticket, preds: map<Ticket, nat>, lines: seq<EdgeLine>, open: set<string>,
                   msEdges: map<string, seq<nat>>, edgeN: nat, ghost from: nat)
    returns (lines': seq<EdgeLine>, msEdges': map<string, seq<nat>>, edgeN': nat)
    requires edgeN == |lines| && AllIndexed(board, lines, open, msEdges)
    requires forall i :: 0 <= i < |lines| && lines[i].Dependency? ==> lines[i].node != node
    requires NoRepeats(lines, from)
    ensures NoRepeats(lines', from)
    ensures edgeN' == |lines'| && AllIndexed(board, lines', open, msEdges')
    ensures lines <= lines' && DependenciesDrawn(lines', node, preds)
    ensures forall i :: |lines| <= i < |lines'| ==> lines'[i].Dependency? && lines'[i].node == node
  {
    lines', msEdges', edgeN' := lines, msEdges, edgeN;
    var todo := preds.Keys;
    while todo != {}
      invariant todo <= preds.Keys && edgeN' == |lines'| && lines <= lines'
      invariant AllIndexed(board, lines', open, msEdges')
      invariant PartDrawn(lines', node, preds, todo) && NoRepeats(lines', from)
      invariant forall i :: |lines| <= i < |lines'| ==> lines'[i].Dependency? && lines'[i].node == node
      decreases |todo|
    {
      var p :| p in todo;
      var e := Dependency(p, preds[p], node);
      AllIndexedSnoc(board, lines', open, msEdges', e);
      NotYetDrawn(lines', node, preds, todo, p);
      NoRepeatsSnoc(lines', from, e);
      PartDrawnSnoc(lines', node, preds, todo, p);
      msEdges' := StyleEdge(board, msEdges', e, edgeN');
      lines', edgeN', todo := lines' + [e], edgeN' + 1, todo - {p};
    }
  }

  // Colours the edge when both its ends belong to one open milestone.
  method StyleEdge(board: Board, msEdges: map<string, seq<nat>>, e: EdgeLine, edgeN: nat)
    returns (r: map<string, seq<nat>>)
    requires e.Dependency?
    ensures r == Styled(board, msEdges, e, edgeN)
  {
    var m := Milestone(board, e.node);
    if m in msEdges && Milestone(board, e.pred) == m {
      r := msEdges[m := msEdges[m] + [edgeN]];
    } else {
      r := msEdges;
    }
  }

  // What the drawing says of every live node.
  ghost predicate Faithful(g: Drawn, lines: seq<EdgeLine>, nodes: seq<Ticket>) {
    && (forall i :: 0 <= i < |lines| && lines[i].Dependency? ==> lines[i].node in nodes && g.Live(lines[i].node))
    && (forall t :: t in nodes && g.Live(t) ==> exists preds :: g.IsEff(t, preds) && DependenciesDrawn(lines, t, preds))
  }

  // The dependency edges of the contracted graph, after the backbone and before the memberships.
  method DrawDependencies(g: Drawn, nodes: seq<Ticket>, collapseDone: bool, backbone: seq<EdgeLine>, open: set<string>,
                          ghost rank: Ticket -> nat)
    returns (lines: seq<EdgeLine>, msEdges: map<string, seq<nat>>, edgeN: nat)
    requires g.Valid() && Distinct(nodes) && forall t :: t in nodes <==> t in g.nodes
    requires if collapseDone then g.Ranked(rank) else g.collapsed == {}
    requires forall i :: 0 <= i < |backbone| ==> backbone[i].Backbone?
    ensures edgeN == |lines| && AllIndexed(g.board, lines, open, msEdges)
    ensures Faithful(g, lines, nodes)
    ensures backbone <= lines && NoRepeats(lines, |backbone|)
    ensures forall i :: |backbone| <= i < |lines| ==> lines[i].Dependency?
  {
    lines, edgeN := backbone, |backbone|;
    msEdges := map m | m in open :: [];
    var memo: Memo := map[];
    for i := 0 to |nodes|
      invariant edgeN == |lines| && AllIndexed(g.board, lines, open, msEdges) && MemoOk(g, memo)
      invariant Faithful(g, lines, nodes[..i]) && backbone <= lines && NoRepeats(lines, |backbone|)
      invariant forall i :: |backbone| <= i < |lines| ==> lines[i].Dependency?
    {
      var t := nodes[i];
      assert t in g.nodes && t !in nodes[..i];
      assert nodes[..i + 1] == nodes[..i] + [t];
      ghost var before := lines;
      if t !in g.collapsed {
        var preds;
        if collapseDone {
          preds, memo := EffPreds(g, t, [], memo, rank);
        } else {
          preds := map d | d in Deps(g.board, t) && d in g.nodes :: 0;
          DirectIsEff(g, t, preds);
        }
        lines, msEdges, edgeN := EmitEdges(g.board, t, preds, lines, open, msEdges, edgeN, |backbone|);
        FaithfulSnoc(g, before, lines, nodes[..i], t, preds);
      }
    }
    assert nodes[..|nodes|] == nodes;
  }

  // With nothing collapsed every drawn dependency is its own nearest live ticket.
  lemma DirectIsEff(g: Drawn, t: Ticket, preds: map<Ticket, nat>)
    requires g.collapsed == {} && preds == map d | d in Deps(g.board, t) && d in g.nodes :: 0
    ensures g.IsEff(t, preds)
  {
    forall a | a in preds ensures exists via :: g.RouteBy(t, Deps(g.board, t), via, a) && |via| == preds[a] {
      assert g.RouteBy(t, Deps(g.board, t), [], a);
    }
  }

  lemma FaithfulSnoc(g: Drawn, before: seq<EdgeLine>, lines: seq<EdgeLine>, nodes: seq<Ticket>, t: Ticket,
                     preds: map<Ticket, nat>)
    requires Faithful(g, before, nodes) && t !in nodes && g.Live(t) && before <= lines
    requires g.IsEff(t, preds) && DependenciesDrawn(lines, t, preds)
    requires forall i :: |before| <= i < |lines| ==> lines[i].Dependency? && lines[i].node == t
    ensures Faithful(g, lines, nodes + [t])
  {
    forall i | 0 <= i < |lines| && lines[i].Dependency? ensures lines[i].node in nodes + [t] && g.Live(lines[i].node) {
      if i < |before| {
        assert lines[i] == before[i];
      }
    }
    forall u | u in nodes + [t] && g.Live(u) ensures exists p :: g.IsEff(u, p) && DependenciesDrawn(lines, u, p) {
      if u != t {
        var p :| g.IsEff(u, p) && DependenciesDrawn(before, u, p);
        forall i | 0 <= i < |lines| && lines[i].Dependency? && lines[i].node == u
          ensures lines[i].pred in p && lines[i].via == p[lines[i].pred]
        {
          assert lines[i] == before[i];
        }
        assert DependenciesDrawn(lines, u, p);
      }
    }
  }

  lemma EffMeans(g: Drawn, t: Ticket, preds: map<Ticket, nat>, a: Ticket, via: nat)
    requires g.IsEff(t, preds)
    ensures a in preds && preds[a] == via <==>
            (exists r :: g.Route(t, r, a) && |r| == via) && (forall r :: g.Route(t, r, a) ==> via <= |r|)
  {
    forall r | g.Route(t, r, a) ensures a in preds && preds[a] <= |r| {
      RouteStarts(g, t, r, a);
    }
    if a in preds {
      var r :| g.RouteBy(t, Deps(g.board, t), r, a) && |r| == preds[a];
      assert g.Route(t, r, a);
    }
  }

  // Read back from the drawing: a live ticket is joined to a live one exactly when a route of done
  // tickets leads there, and the label is the fewest done tickets on any such route.
  lemma DrawnEdgesMean(g: Drawn, lines: seq<EdgeLine>, nodes: seq<Ticket>, t: Ticket, a: Ticket, via: nat)
    requires Faithful(g, lines, nodes) && t in nodes && g.Live(t)
    ensures Dependency(a, via, t) in lines <==>
            (exists r :: g.Route(t, r, a) && |r| == via) && (forall r :: g.Route(t, r, a) ==> via <= |r|)
  {
    var preds :| g.IsEff(t, preds) && DependenciesDrawn(lines, t, preds);
    EffMeans(g, t, preds, a, via);
    assert Dependency(a, via, t) in lines <==> a in preds && preds[a] == via;
  }

  // ------------------------------------------------------------------ the whole drawing

  // The view asked for: the anchors and the tickets of opened milestones (`added`), what is live for
  // another reason, the collapse switch, the milestone backbone in order, and the open milestones.
  datatype View = View(anchors: seq<Ticket>, added: seq<Ticket>, running: set<Ticket>, runtime: set<Ticket>,
                       collapseDone: bool, chain: seq<string>, order: set<string>, open: set<string>)

  // A done ticket is contracted unless a live agent or a runtime state anchors it.
  predicate Collapses(board: Board, v: View, t: Ticket) {
    v.collapseDone && NodeFor(board, t).status in {Done, Cancelled} && t !in v.running && t !in v.runtime
  }

  // A ticket is drawn when it is needed by an anchor or belongs to an opened milestone.
  ghost predicate IsDrawn(board: Board, v: View, t: Ticket) {
    Needed(board, ToSet(v.anchors), t) || t in v.added
  }

  function BackboneLines(chain: seq<string>): (lines: seq<EdgeLine>)
    ensures forall i :: 0 <= i < |lines| ==> lines[i].Backbone?
  {
    if |chain| < 2 then [Backbone("M1", "MUI")] else [Backbone(chain[0], chain[1])] + BackboneLines(chain[1..])
  }

  predicate ShowsMembership(board: Board, v: View, t: Ticket) {
    var m := Milestone(board, t);
    m in v.order && !(m in v.open && NodeFor(board, t).status in {Done, Cancelled})
  }

  // Opened tickets are added as they are: no walk from them in either direction.
  method AddOpened(nodes: seq<Ticket>, added: seq<Ticket>) returns (r: seq<Ticket>)
    requires Distinct(nodes)
    ensures Distinct(r) && forall t :: t in r <==> t in nodes || t in added
  {
    r := nodes;
    for i := 0 to |added|
      invariant Distinct(r) && forall t :: t in r <==> t in nodes || t in added[..i]
    {
      assert added[..i + 1] == added[..i] + [added[i]];
      if added[i] !in r {
        r := r + [added[i]];
      }
    }
    assert added[..|added|] == added;
  }

  // task_graph: nodes, collapse, and every edge line with its index.
  method DrawTaskGraph(board: Board, v: View, ghost rank: Ticket -> nat)
    returns (nodes: seq<Ticket>, g: Drawn, lines: seq<EdgeLine>, msEdges: map<string, seq<nat>>, edgeN: nat)
    requires v.collapseDone ==> forall t, d :: d in Deps(board, t) ==> rank(d) < rank(t)
    ensures Distinct(nodes) && forall t :: t in nodes <==> IsDrawn(board, v, t)
    ensures g.board == board && g.Valid() && (forall t :: t in g.nodes <==> t in nodes)
    ensures forall t :: t in g.collapsed <==>
                          t in nodes && v.collapseDone && NodeFor(board, t).status in {Done, Cancelled}
                          && t !in v.running && t !in v.runtime
    ensures Faithful(g, lines, nodes)
    ensures edgeN == |lines| && AllIndexed(board, lines, v.open, msEdges)
    ensures BackboneFirst(lines, BackboneLines(v.chain)) && NoRepeats(lines, |BackboneLines(v.chain)|)
    ensures MembersDrawn(board, v, g, lines, nodes)
  {
    nodes := ClosureWalk(board, v.anchors);
    nodes := AddOpened(nodes, v.added);
    var collapsed := set t | t in nodes && Collapses(board, v, t);
    g := Drawn(board, ToSet(nodes), collapsed);
    var backbone := BackboneLines(v.chain);
    lines, msEdges, edgeN := DrawDependencies(g, nodes, v.collapseDone, backbone, v.open, rank);
    lines, edgeN := DrawMembers(v, g, nodes, lines, msEdges, edgeN, backbone);
  }

  // The lines start with the backbone, and no other is of it.
  ghost predicate BackboneFirst(lines: seq<EdgeLine>, backbone: seq<EdgeLine>) {
    backbone <= lines && forall i :: |backbone| <= i < |lines| ==> !lines[i].Backbone?
  }

  // The membership links, after the dependencies.
  method DrawMembers(v: View, g: Drawn, nodes: seq<Ticket>, drawn: seq<EdgeLine>, msEdges: map<string, seq<nat>>,
                     drawnN: nat, ghost backbone: seq<EdgeLine>)
    returns (lines: seq<EdgeLine>, edgeN: nat)
    requires Distinct(nodes) && drawnN == |drawn| && AllIndexed(g.board, drawn, v.open, msEdges)
    requires Faithful(g, drawn, nodes) && BackboneFirst(drawn, backbone) && NoRepeats(drawn, |backbone|)
    requires forall i :: 0 <= i < |drawn| ==> !drawn[i].Membership?
    ensures edgeN == |lines| && AllIndexed(g.board, lines, v.open, msEdges) && Faithful(g, lines, nodes)
    ensures BackboneFirst(lines, backbone) && NoRepeats(lines, |backbone|)
    ensures MembersDrawn(g.board, v, g, lines, nodes)
  {
    lines, edgeN := drawn, drawnN;
    for i := 0 to |nodes|
      invariant edgeN == |lines| && AllIndexed(g.board, lines, v.open, msEdges) && Faithful(g, lines, nodes)
      invariant BackboneFirst(lines, backbone) && NoRepeats(lines, |backbone|)
      invariant MembersDrawn(g.board, v, g, lines, nodes[..i])
    {
      var t := nodes[i];
      assert nodes[..i + 1] == nodes[..i] + [t] && t !in nodes[..i];
      if t !in g.collapsed && ShowsMembership(g.board, v, t) {
        var e := Membership(Milestone(g.board, t), t);
        MembershipKeeps(g, lines, nodes, v.open, msEdges, e);
        MembersSnoc(g.board, v, g, lines, nodes[..i], t, e);
        NoRepeatsSnoc(lines, |backbone|, e);
        lines, edgeN := lines + [e], edgeN + 1;
      } else {
        MembersSkip(g.board, v, g, lines, nodes[..i], t);
      }
    }
    assert nodes[..|nodes|] == nodes;
  }

  // A drawn ticket is joined to its milestone's node, if that has one, unless the milestone is opened and the
  // ticket is done.
  ghost predicate MembersDrawn(board: Board, v: View, g: Drawn, lines: seq<EdgeLine>, nodes: seq<Ticket>) {
    forall m, t :: Membership(m, t) in lines <==>
      && t in nodes && t !in g.collapsed && m == NodeFor(board, t).milestone && m in v.order
      && !(m in v.open && NodeFor(board, t).status in {Done, Cancelled})
  }

  lemma MembersSnoc(board: Board, v: View, g: Drawn, lines: seq<EdgeLine>, nodes: seq<Ticket>, t: Ticket, e: EdgeLine)
    requires MembersDrawn(board, v, g, lines, nodes) && t !in nodes && t !in g.collapsed && ShowsMembership(board, v, t)
    requires e == Membership(Milestone(board, t), t)
    ensures MembersDrawn(board, v, g, lines + [e], nodes + [t])
    ensures forall i :: 0 <= i < |lines| ==> lines[i] != e
  {
    assert e !in lines;
    assert forall x :: x in lines + [e] <==> x in lines || x == e;
    assert forall x :: x in nodes + [t] <==> x in nodes || x == t;
  }

  lemma MembersSkip(board: Board, v: View, g: Drawn, lines: seq<EdgeLine>, nodes: seq<Ticket>, t: Ticket)
    requires MembersDrawn(board, v, g, lines, nodes) && (t in g.collapsed || !ShowsMembership(board, v, t))
    ensures MembersDrawn(board, v, g, lines, nodes + [t])
  {
    assert forall x :: x in nodes + [t] <==> x in nodes || x == t;
  }

  // The backbone joins each milestone of the chain to the next and, always, M1 to MUI.
  lemma {:induction false} BackboneMeans(chain: seq<string>)
    ensures var lines, n := BackboneLines(chain), if |chain| < 2 then 0 else |chain| - 1;
            && |lines| == n + 1 && lines[n] == Backbone("M1", "MUI")
            && forall i :: 0 <= i < n ==> lines[i] == Backbone(chain[i], chain[i + 1])
    decreases |chain|
  {
    if |chain| >= 2 {
      BackboneMeans(chain[1..]);
    }
  }

  lemma MembershipKeeps(g: Drawn, lines: seq<EdgeLine>, nodes: seq<Ticket>, open: set<string>, msEdges: map<string,
                        seq<nat>>,
                        e: EdgeLine)
    requires AllIndexed(g.board, lines, open, msEdges) && Faithful(g, lines, nodes) && e.Membership?
    ensures AllIndexed(g.board, lines + [e], open, msEdges) && Faithful(g, lines + [e], nodes)
  {
    assert AllIndexed(g.board, lines + [e], open, msEdges) by {
      AllIndexedSnoc(g.board, lines, open, msEdges, e);
      assert Styled(g.board, msEdges, e, |lines|) == msEdges;
    }
    FaithfulUnmoved(g, lines, nodes, e);
  }

  lemma FaithfulUnmoved(g: Drawn, lines: seq<EdgeLine>, nodes: seq<Ticket>, e: EdgeLine)
    requires Faithful(g, lines, nodes) && !e.Dependency?
    ensures Faithful(g, lines + [e], nodes)
  {
    forall t | t in nodes && g.Live(t) ensures exists p :: g.IsEff(t, p) && DependenciesDrawn(lines + [e], t, p) {
      var p :| g.IsEff(t, p) && DependenciesDrawn(lines, t, p);
      DrawnUnmoved(lines, t, p, e);
    }
  }

  lemma DrawnUnmoved(lines: seq<EdgeLine>, node: Ticket, preds: map<Ticket, nat>, e: EdgeLine)
    requires DependenciesDrawn(lines, node, preds) && !e.Dependency?
    ensures DependenciesDrawn(lines + [e], node, preds)
  {
    forall i | 0 <= i < |lines + [e]| && (lines + [e])[i].Dependency? && (lines + [e])[i].node == node
      ensures (lines + [e])[i].pred in preds && (lines + [e])[i].via == preds[(lines + [e])[i].pred]
    {
      assert (lines + [e])[i] == lines[i];
    }
  }
}
