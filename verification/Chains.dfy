/** Sequences of states, each leading to the next. */
module Chains {
  ghost predicate LinkAt<S>(next: (S, S) -> bool, states: seq<S>, n: nat)
    requires n + 1 < |states|
  {
    next(states[n], states[n + 1])
  }

  ghost predicate Linked<S>(next: (S, S) -> bool, states: seq<S>) {
    forall n :: 0 <= n < |states| - 1 ==> LinkAt(next, states, n)
  }

  lemma Extend<S>(next: (S, S) -> bool, states: seq<S>, s: S)
    requires states != [] && Linked(next, states) && next(states[|states| - 1], s)
    ensures Linked(next, states + [s])
  {
    var longer := states + [s];
    forall n | 0 <= n < |longer| - 1 ensures LinkAt(next, longer, n) {
      assert longer[n] == states[n];
      assert n < |states| - 1 ==> LinkAt(next, states, n) && longer[n + 1] == states[n + 1];
    }
  }
}
