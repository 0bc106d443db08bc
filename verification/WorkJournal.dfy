/** The work runner's log (ops/work-runner.py): what was done, and what the saved claims know of it. */
module WorkJournal {
  import opened WorkClaims

  // A line of the log: of a tick that saved its claims, or of one that raised and lost them.
  datatype Entry = Kept(event: Event) | Lost(event: Event)

  function KeptOf(log: seq<Entry>): seq<Event>
    decreases |log|
  {
    if log == [] then []
    else
      var n := |log| - 1;
      KeptOf(log[..n]) + (if log[n].Kept? then [log[n].event] else [])
  }

  function Events(log: seq<Entry>): (events: seq<Event>)
    ensures |events| == |log| && forall i :: 0 <= i < |log| ==> events[i] == log[i].event
  {
    seq(|log|, i requires 0 <= i < |log| => log[i].event)
  }

  function Marked(events: seq<Event>, kept: bool): (log: seq<Entry>)
    ensures |log| == |events|
    ensures forall i :: 0 <= i < |log| ==> log[i] == if kept then Kept(events[i]) else Lost(events[i])
  {
    seq(|events|, i requires 0 <= i < |events| => if kept then Kept(events[i]) else Lost(events[i]))
  }

  // What a tick has appended.
  function Added(before: seq<Event>, after: seq<Event>): seq<Event> {
    if |before| <= |after| then after[|before|..] else []
  }

  lemma {:induction false} KeptConcat(a: seq<Entry>, b: seq<Entry>)
    ensures KeptOf(a + b) == KeptOf(a) + KeptOf(b)
    decreases |b|
  {
    if b == [] {
      assert a + b == a;
    } else {
      var before := b[..|b| - 1];
      assert (a + b)[..|a + b| - 1] == a + before;
      KeptConcat(a, before);
    }
  }

  lemma {:induction false} MarkedKept(events: seq<Event>, kept: bool)
    ensures KeptOf(Marked(events, kept)) == if kept then events else []
    decreases |events|
  {
    if events != [] {
      var n := |events| - 1;
      assert Marked(events, kept)[..n] == Marked(events[..n], kept);
      MarkedKept(events[..n], kept);
    }
  }

  // The claims know of what a saved tick did and of nothing a raising one did.
  lemma KeptMarked(log: seq<Entry>, events: seq<Event>, kept: bool)
    ensures KeptOf(log + Marked(events, kept)) == if kept then KeptOf(log) + events else KeptOf(log)
  {
    KeptConcat(log, Marked(events, kept));
    MarkedKept(events, kept);
  }

  // A kept line is one the claims know of.
  lemma {:induction false} KeptIn(log: seq<Entry>, i: nat)
    requires i < |log| && log[i].Kept?
    ensures log[i].event in KeptOf(log)
    decreases |log|
  {
    if i < |log| - 1 {
      KeptIn(log[..|log| - 1], i);
    }
  }

  // Where the kept part of the log stood when the log was m long.
  lemma {:induction false} KeptPrefix(log: seq<Entry>, m: nat)
    requires m <= |log|
    ensures KeptOf(log[..m]) <= KeptOf(log)
    decreases |log|
  {
    if m < |log| {
      var before := log[..|log| - 1];
      KeptPrefix(before, m);
      assert before[..m] == log[..m];
    } else {
      assert log[..m] == log;
    }
  }
}
