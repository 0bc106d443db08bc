/** Incremental transcript parsing (ops/worklog.py: feed, _close, turns_of). */
module Worklog {
  import opened Wrappers
  import opened BitWords

  // A transcript grows line by line while it is polled. Each poll reads from where the last one stopped up
  // to the last newline. What one newline-terminated stretch of bytes says - the cheap line filter, JSON,
  // and which records are prompts - is given by a function.

  type Bytes = seq<Octet>
  type Text = string

  const NEWLINE: Octet := 10

  // One block of an assistant record: text with something in it, a tool call, or anything else.
  datatype Block = Said(text: Text, at: Option<Text>) | Tool | Other

  // One record that matters: a prompt, or an assistant's blocks.
  datatype Entry = Prompt(at: Option<Text>, line: Text) | Reply(blocks: seq<Block>)

  // A finished turn; its text is the parts joined.
  datatype Turn = Turn(at: Option<Text>, prompt: Text, parts: seq<Text>)

  // The turn being read: its parts so far, and whether the last of them still runs on.
  datatype Current = Current(at: Option<Text>, prompt: Text, parts: seq<Text>, run: bool)

  datatype Feed = Feed(turns: seq<Turn>, cur: Option<Current>)

  // ------------------------------------------------------------------ feed

  // _close: a turn without text is not recorded.
  function Close(cur: Option<Current>, turns: seq<Turn>): seq<Turn> {
    if cur.Some? && cur.value.parts != [] then turns + [Turn(cur.value.at, cur.value.prompt, cur.value.parts)]
    else turns
  }

  function FeedBlock(c: Current, b: Block): Current {
    match b
    case Said(x, at) =>
      Current(if at.Some? then at else c.at, c.prompt, (if c.run then c.parts else []) + [x], true)
    case Tool => c.(run := false)
    case Other => c
  }

  function FeedBlocks(c: Current, bs: seq<Block>): Current
    decreases |bs|
  {
    if bs == [] then c else FeedBlocks(FeedBlock(c, bs[0]), bs[1..])
  }

  function FeedEntry(s: Feed, e: Entry): Feed {
    match e
    case Prompt(at, line) => Feed(Close(s.cur, s.turns), Some(Current(at, line, [], false)))
    case Reply(bs) => if s.cur.None? then s else s.(cur := Some(FeedBlocks(s.cur.value, bs)))
  }

  function FeedAll(s: Feed, es: seq<Entry>): Feed
    decreases |es|
  {
    if es == [] then s else FeedAll(FeedEntry(s, es[0]), es[1..])
  }

  lemma {:induction false} FeedAllConcat(s: Feed, a: seq<Entry>, b: seq<Entry>)
    ensures FeedAll(s, a + b) == FeedAll(FeedAll(s, a), b)
    decreases |a|
  {
    if a == [] {
      assert a + b == b;
    } else {
      assert (a + b)[1..] == a[1..] + b;
      FeedAllConcat(FeedEntry(s, a[0]), a[1..], b);
    }
  }

  // ------------------------------------------------------------------ lines

  // Just past the last newline of s.
  function AfterLastNewline(s: Bytes): (n: nat)
    ensures n <= |s| && (n == 0 || s[n - 1] == NEWLINE)
    ensures forall i :: n <= i < |s| ==> s[i] != NEWLINE
    decreases |s|
  {
    if s == [] then 0 else if s[|s| - 1] == NEWLINE then |s| else AfterLastNewline(s[..|s| - 1])
  }

  // Just past the first newline of s, or its end.
  function AfterFirstNewline(s: Bytes): (n: nat)
    ensures n <= |s| && (s != [] ==> n > 0)
    decreases |s|
  {
    if s == [] then 0 else if s[0] == NEWLINE then 1 else 1 + AfterFirstNewline(s[1..])
  }

  // The entries of whole lines, in order.
  function Entries(parse: Bytes -> seq<Entry>, s: Bytes): seq<Entry>
    decreases |s|
  {
    if s == [] then []
    else
      var n := AfterFirstNewline(s);
      parse(s[..n]) + Entries(parse, s[n..])
  }

  lemma {:induction false} FirstNewlineKept(a: Bytes, b: Bytes)
    requires a != [] && a[|a| - 1] == NEWLINE
    ensures AfterFirstNewline(a + b) == AfterFirstNewline(a)
    decreases |a|
  {
    if a[0] != NEWLINE {
      assert (a + b)[1..] == a[1..] + b;
      FirstNewlineKept(a[1..], b);
    }
  }

  // Text that ends a line parses the same whatever follows.
  lemma {:induction false} EntriesConcat(parse: Bytes -> seq<Entry>, a: Bytes, b: Bytes)
    requires a == [] || a[|a| - 1] == NEWLINE
    ensures Entries(parse, a + b) == Entries(parse, a) + Entries(parse, b)
    decreases |a|
  {
    if a == [] {
      assert a + b == b;
    } else {
      FirstNewlineKept(a, b);
      var n := AfterFirstNewline(a);
      assert (a + b)[..n] == a[..n] && (a + b)[n..] == a[n..] + b;
      EntriesConcat(parse, a[n..], b);
    }
  }

  // ------------------------------------------------------------------ polling

  const START: Feed := Feed([], None)

  // One parse, from nothing, of the whole lines of a file.
  function Batch(parse: Bytes -> seq<Entry>, file: Bytes): Feed {
    FeedAll(START, Entries(parse, file[..AfterLastNewline(file)]))
  }

  // What turns_of shows: the finished turns, and the open one when it has text.
  function Shown(s: Feed): seq<Turn> { Close(s.cur, s.turns) }

  // The cache entry of one transcript. `taken` is the bytes parsed so far.
  class Transcript {
    var off: nat
    var state: Feed
    ghost var taken: Bytes

    ghost predicate Valid(parse: Bytes -> seq<Entry>)
      reads this
    {
      && off == |taken| && (taken == [] || taken[|taken| - 1] == NEWLINE)
      && state == FeedAll(START, Entries(parse, taken))
    }

    constructor ()
      ensures off == 0 && state == START && taken == []
    {
      off, state, taken := 0, START, [];
    }

    // feed, over the lines of one chunk.
    method FeedLines(parse: Bytes -> seq<Entry>, chunk: Bytes)
      modifies this`state
      ensures state == FeedAll(old(state), Entries(parse, chunk))
    {
      var rest := chunk;
      while rest != []
        invariant FeedAll(state, Entries(parse, rest)) == FeedAll(old(state), Entries(parse, chunk))
        decreases |rest|
      {
        var n := AfterFirstNewline(rest);
        var es := parse(rest[..n]);
        FeedAllConcat(state, es, Entries(parse, rest[n..]));
        FeedEntries(es);
        rest := rest[n..];
      }
    }

    method FeedEntries(es: seq<Entry>)
      modifies this`state
      ensures state == FeedAll(old(state), es)
    {
      var todo := es;
      while todo != []
        invariant FeedAll(state, todo) == FeedAll(old(state), es)
        decreases |todo|
      {
        match todo[0] {
          case Prompt(at, line) =>
            state := Feed(Close(state.cur, state.turns), Some(Current(at, line, [], false)));
          case Reply(bs) =>
            if state.cur.Some? {
              var cur := ReadBlocks(state.cur.value, bs);
              state := state.(cur := Some(cur));
            }
        }
        todo := todo[1..];
      }
    }

    // Read on to the last newline.
    method Advance(parse: Bytes -> seq<Entry>, file: Bytes)
      requires Valid(parse) && taken <= file
      modifies this
      ensures off == AfterLastNewline(file) && taken == file[..off] && state == Batch(parse, file)
    {
      var chunk := file[off..];
      var end := AfterLastNewline(chunk);
      PollStep(parse, taken, file, chunk[..end]);
      FeedLines(parse, chunk[..end]);
      off := off + end;
      taken := file[..off];
    }

    // turns_of: whatever was read when, what is shown is one parse of the file's whole lines. A file
    // that shrank is read again from its start.
    method TurnsOf(parse: Bytes -> seq<Entry>, file: Bytes) returns (out: seq<Turn>)
      requires Valid(parse) && (|file| >= off ==> taken <= file)
      modifies this
      ensures Valid(parse) && off == AfterLastNewline(file) && taken == file[..off]
      ensures state == Batch(parse, file) && out == Shown(Batch(parse, file))
    {
      if |file| < off {
        off, state, taken := 0, START, [];
      }
      if |file| > off {
        Advance(parse, file);
      } else {
        NothingNew(parse, taken, file);
      }
      out := Close(state.cur, state.turns);
    }
  }

  // A file that ends where parsing stopped.
  lemma NothingNew(parse: Bytes -> seq<Entry>, taken: Bytes, file: Bytes)
    requires taken == file && (taken == [] || taken[|taken| - 1] == NEWLINE)
    ensures AfterLastNewline(file) == |taken| && Batch(parse, file) == FeedAll(START, Entries(parse, taken))
  {
    LastNewlineUnique(file, |taken|);
    assert file[..|taken|] == taken;
  }

  // Parsing on from a line boundary reaches where one parse of the whole file would; `more` are the
  // whole lines appended since.
  lemma PollStep(parse: Bytes -> seq<Entry>, taken: Bytes, file: Bytes, more: Bytes)
    requires taken <= file && (taken == [] || taken[|taken| - 1] == NEWLINE)
    requires more == file[|taken|..][..AfterLastNewline(file[|taken|..])]
    ensures AfterLastNewline(file) == |taken| + |more|
    ensures FeedAll(FeedAll(START, Entries(parse, taken)), Entries(parse, more)) == Batch(parse, file)
  {
    var n := |taken| + |more|;
    var whole := file[..n];
    assert AfterLastNewline(file) == n by { LastNewlineFrom(file, |taken|); }
    assert whole == taken + more by { PollPrefix(taken, file, |more|); }
    FeedOn(parse, taken, more, whole);
  }

  lemma FeedOn(parse: Bytes -> seq<Entry>, taken: Bytes, more: Bytes, whole: Bytes)
    requires taken == [] || taken[|taken| - 1] == NEWLINE
    requires whole == taken + more
    ensures FeedAll(FeedAll(START, Entries(parse, taken)), Entries(parse, more)) ==
            FeedAll(START, Entries(parse, whole))
  {
    var a, b := Entries(parse, taken), Entries(parse, more);
    assert Entries(parse, whole) == a + b by { EntriesConcat(parse, taken, more); }
    FeedAllConcat(START, a, b);
  }

  lemma PollPrefix(taken: Bytes, file: Bytes, end: nat)
    requires taken <= file && |taken| + end <= |file|
    ensures taken + file[|taken|..][..end] == file[..|taken| + end]
  {
  }

  method ReadBlocks(c: Current, bs: seq<Block>) returns (cur: Current)
    ensures cur == FeedBlocks(c, bs)
  {
    cur := c;
    var todo := bs;
    while todo != []
      invariant FeedBlocks(cur, todo) == FeedBlocks(c, bs)
      decreases |todo|
    {
      match todo[0] {
        case Said(x, at) =>
          if !cur.run {
            cur := cur.(parts := [], run := true);
          }
          cur := cur.(parts := cur.parts + [x]);
          if at.Some? {
            cur := cur.(at := at);
          }
        case Tool =>
          cur := cur.(run := false);
        case Other =>
      }
      todo := todo[1..];
    }
  }

  lemma LastNewlineUnique(s: Bytes, n: nat)
    requires n <= |s| && (n == 0 || s[n - 1] == NEWLINE) && forall i :: n <= i < |s| ==> s[i] != NEWLINE
    ensures n == AfterLastNewline(s)
  {
    var m := AfterLastNewline(s);
    assert m > 0 ==> s[m - 1] == NEWLINE;
  }

  // The last newline of a file is found from any line boundary before it.
  lemma LastNewlineFrom(file: Bytes, off: nat)
    requires off <= |file| && (off == 0 || file[off - 1] == NEWLINE)
    ensures AfterLastNewline(file) == off + AfterLastNewline(file[off..])
  {
    var chunk := file[off..];
    var end := AfterLastNewline(chunk);
    assert forall i :: off + end <= i < |file| ==> file[i] == chunk[i - off];
    assert end > 0 ==> chunk[end - 1] == file[off + end - 1];
    LastNewlineUnique(file, off + end);
  }

  // ------------------------------------------------------------------ what a turn's text is

  function Texts(bs: seq<Block>): seq<Text>
    decreases |bs|
  {
    if bs == [] then []
    else Texts(bs[..|bs| - 1]) + (if bs[|bs| - 1].Said? then [bs[|bs| - 1].text] else [])
  }

  // `parts` are the texts of bs[i..j]: a stretch without tool calls that begins after a tool call or
  // at the start and ends with the last text there is, so that it cannot be extended.
  predicate IsRun(bs: seq<Block>, i: nat, j: nat, parts: seq<Text>) {
    && i < j <= |bs| && bs[j - 1].Said? && NoText(bs, j) && NoTool(bs, i, j)
    && (i == 0 || bs[i - 1].Tool?) && parts == Texts(bs[i..j])
  }

  predicate NoText(bs: seq<Block>, from: nat) { forall k :: from <= k < |bs| ==> !bs[k].Said? }

  predicate NoTool(bs: seq<Block>, from: nat, upto: nat)
    requires upto <= |bs|
  {
    forall k :: from <= k < upto ==> !bs[k].Tool?
  }

  ghost predicate IsLastRun(bs: seq<Block>, parts: seq<Text>) {
    if NoText(bs, 0) then parts == [] else exists i: nat, j: nat :: IsRun(bs, i, j, parts)
  }

  lemma {:induction false} FeedBlocksSnoc(c: Current, bs: seq<Block>, b: Block)
    ensures FeedBlocks(c, bs + [b]) == FeedBlock(FeedBlocks(c, bs), b)
    decreases |bs|
  {
    if bs == [] {
      assert bs + [b] == [b] && [b][1..] == [];
    } else {
      assert (bs + [b])[1..] == bs[1..] + [b];
      FeedBlocksSnoc(FeedBlock(c, bs[0]), bs[1..], b);
    }
  }

  // Where bs stands: its last run is bs[i..j], and a tool call has followed it unless `running`. With
  // no text yet j is 0 and there are no parts.
  predicate Stands(bs: seq<Block>, i: nat, j: nat, parts: seq<Text>, running: bool) {
    && (if j == 0 then NoText(bs, 0) && parts == [] && !running else IsRun(bs, i, j, parts))
    && (running ==> NoTool(bs, j, |bs|))
    && (!running && j > 0 ==> exists k :: j <= k < |bs| && bs[k].Tool?)
  }

  lemma StandsQuiet(front: seq<Block>, b: Block, i: nat, j: nat, parts: seq<Text>, running: bool)
    requires Stands(front, i, j, parts, running) && !b.Said?
    ensures Stands(front + [b], i, j, parts, running && !b.Tool?)
  {
    var bs := front + [b];
    if j > 0 {
      assert bs[i..j] == front[i..j];
      if b.Tool? {
        assert bs[|front|].Tool?;
      } else if !running {
        var k :| j <= k < |front| && front[k].Tool?;
        assert bs[k].Tool?;
      }
    }
  }

  // A text after the run goes on with it.
  lemma StandsOn(front: seq<Block>, b: Block, i: nat, j: nat, parts: seq<Text>)
    requires Stands(front, i, j, parts, true) && b.Said?
    ensures Stands(front + [b], i, |front| + 1, parts + [b.text], true)
  {
    var bs, n := front + [b], |front|;
    assert front[i..] == front[i..j] + front[j..];
    TextsConcat(front[i..j], front[j..]);
    TextsOfQuiet(front[j..]);
    TextsSnoc(front, i, b);
  }

  // A text after a tool call, or the first one, begins a run after the last tool call.
  lemma StandsAnew(front: seq<Block>, b: Block, i: nat, j: nat, parts: seq<Text>) returns (i': nat)
    requires Stands(front, i, j, parts, false) && b.Said?
    ensures Stands(front + [b], i', |front| + 1, [b.text], true)
  {
    i' := AfterLastTool(front);
    if j > 0 {
      var k :| j <= k < |front| && front[k].Tool?;
      assert j < i';
    }
    TextsOfQuiet(front[i'..]);
    TextsSnoc(front, i', b);
  }

  lemma TextsSnoc(front: seq<Block>, i: nat, b: Block)
    requires i <= |front| && b.Said?
    ensures Texts((front + [b])[i..|front| + 1]) == Texts(front[i..]) + [b.text]
  {
    var s := (front + [b])[i..|front| + 1];
    assert s[..|s| - 1] == front[i..] && s[|s| - 1] == b;
  }

  lemma {:induction false} AfterLastTool(bs: seq<Block>) returns (i: nat)
    ensures i <= |bs| && (i == 0 || bs[i - 1].Tool?) && NoTool(bs, i, |bs|)
    ensures forall k :: 0 <= k < |bs| && bs[k].Tool? ==> k < i
    decreases |bs|
  {
    if bs == [] {
      i := 0;
    } else if bs[|bs| - 1].Tool? {
      i := |bs|;
    } else {
      i := AfterLastTool(bs[..|bs| - 1]);
    }
  }

  lemma {:induction false} TextsOfQuiet(bs: seq<Block>)
    requires NoText(bs, 0)
    ensures Texts(bs) == []
    decreases |bs|
  {
    if bs != [] {
      TextsOfQuiet(bs[..|bs| - 1]);
    }
  }

  lemma {:induction false} TextsConcat(a: seq<Block>, b: seq<Block>)
    ensures Texts(a + b) == Texts(a) + Texts(b)
    decreases |b|
  {
    if b == [] {
      assert a + b == a;
    } else {
      assert (a + b)[..|a + b| - 1] == a + b[..|b| - 1];
      TextsConcat(a, b[..|b| - 1]);
    }
  }

  // After any blocks the parts are the last run of text, and `run` says no tool call has followed it.
  lemma {:induction false} PartsAreLastRun(at: Option<Text>, prompt: Text, bs: seq<Block>) returns (i: nat, j: nat)
    ensures var c := FeedBlocks(Current(at, prompt, [], false), bs);
            Stands(bs, i, j, c.parts, c.run) && IsLastRun(bs, c.parts) && c.prompt == prompt
    decreases |bs|
  {
    i, j := 0, 0;
    if bs != [] {
      var front, b := bs[..|bs| - 1], bs[|bs| - 1];
      assert front + [b] == bs;
      i, j := PartsAreLastRun(at, prompt, front);
      FeedBlocksSnoc(Current(at, prompt, [], false), front, b);
      var c := FeedBlocks(Current(at, prompt, [], false), front);
      if !b.Said? {
        StandsQuiet(front, b, i, j, c.parts, c.run);
      } else {
        if c.run {
          StandsOn(front, b, i, j, c.parts);
        } else {
          i := StandsAnew(front, b, i, j, c.parts);
        }
        j := |bs|;
      }
    }
    StandsIsLastRun(bs, i, j, FeedBlocks(Current(at, prompt, [], false), bs));
  }

  lemma StandsIsLastRun(bs: seq<Block>, i: nat, j: nat, c: Current)
    requires Stands(bs, i, j, c.parts, c.run)
    ensures IsLastRun(bs, c.parts)
  {
    if j > 0 {
      assert bs[j - 1].Said?;
    }
  }

  // ------------------------------------------------------------------ turns as episodes

  // A prompt and every block said until the next one.
  datatype Episode = Episode(at: Option<Text>, prompt: Text, blocks: seq<Block>)

  function Episodes(es: seq<Entry>): seq<Episode>
    decreases |es|
  {
    if es == [] then []
    else
      var before := Episodes(es[..|es| - 1]);
      match es[|es| - 1]
      case Prompt(at, line) => before + [Episode(at, line, [])]
      case Reply(bs) =>
        if before == [] then []
        else before[|before| - 1 := before[|before| - 1].(blocks := before[|before| - 1].blocks + bs)]
  }

  function CurrentOf(e: Episode): Current { FeedBlocks(Current(e.at, e.prompt, [], false), e.blocks) }

  // The turns of some episodes: one for each that has text, in order.
  function TurnsOfEpisodes(eps: seq<Episode>): seq<Turn>
    decreases |eps|
  {
    if eps == [] then [] else Close(Some(CurrentOf(eps[|eps| - 1])), TurnsOfEpisodes(eps[..|eps| - 1]))
  }

  lemma {:induction false} FeedBlocksConcat(c: Current, a: seq<Block>, b: seq<Block>)
    ensures FeedBlocks(c, a + b) == FeedBlocks(FeedBlocks(c, a), b)
    decreases |a|
  {
    if a == [] {
      assert a + b == b;
    } else {
      assert (a + b)[1..] == a[1..] + b;
      FeedBlocksConcat(FeedBlock(c, a[0]), a[1..], b);
    }
  }

  // What is shown of a parse is one turn per prompt that was answered in text, with that prompt.
  lemma {:induction false} ShownAreEpisodes(es: seq<Entry>)
    ensures Tracks(FeedAll(START, es), Episodes(es)) && Shown(FeedAll(START, es)) == TurnsOfEpisodes(Episodes(es))
    decreases |es|
  {
    if es != [] {
      var front, e := es[..|es| - 1], es[|es| - 1];
      ShownAreEpisodes(front);
      FeedAllSnoc(front, e);
      assert front + [e] == es;
      var s, before := FeedAll(START, front), Episodes(front);
      match e {
        case Prompt(at, line) => PromptTracks(s, before, at, line);
        case Reply(bs) =>
          if before != [] {
            ReplyTracks(s, before, bs);
          }
      }
    }
  }

  // The open turn is the last episode's, the closed ones are those before it.
  predicate Tracks(s: Feed, eps: seq<Episode>) {
    if eps == [] then s == START
    else s.cur == Some(CurrentOf(eps[|eps| - 1])) && s.turns == TurnsOfEpisodes(eps[..|eps| - 1])
  }

  lemma FeedAllSnoc(es: seq<Entry>, e: Entry)
    ensures FeedAll(START, es + [e]) == FeedEntry(FeedAll(START, es), e)
  {
    FeedAllConcat(START, es, [e]);
    assert [e][1..] == [];
  }

  lemma PromptTracks(s: Feed, before: seq<Episode>, at: Option<Text>, line: Text)
    requires Tracks(s, before)
    ensures Tracks(FeedEntry(s, Prompt(at, line)), before + [Episode(at, line, [])])
  {
    var eps := before + [Episode(at, line, [])];
    assert eps[..|eps| - 1] == before;
  }

  lemma ReplyTracks(s: Feed, before: seq<Episode>, bs: seq<Block>)
    requires Tracks(s, before) && before != []
    ensures var n := |before| - 1;
            Tracks(FeedEntry(s, Reply(bs)), before[n := before[n].(blocks := before[n].blocks + bs)])
  {
    var n := |before| - 1;
    var last := before[n];
    var eps := before[n := last.(blocks := last.blocks + bs)];
    FeedBlocksConcat(Current(last.at, last.prompt, [], false), last.blocks, bs);
    assert eps[..n] == before[..n];
  }

  // Block k is the last text of bs that says when it was said.
  predicate LastTimed(bs: seq<Block>, k: nat) {
    k < |bs| && Timed(bs[k]) && forall m :: k < m < |bs| ==> !Timed(bs[m])
  }

  predicate Timed(b: Block) { b.Said? && b.at.Some? }

  // When it was last said anything, or else when it was asked.
  ghost predicate SaidAt(e: Episode, at: Option<Text>) {
    && (forall k: nat :: LastTimed(e.blocks, k) ==> at == e.blocks[k].at)
    && ((forall k :: 0 <= k < |e.blocks| ==> !Timed(e.blocks[k])) ==> at == e.at)
  }

  // What is shown of one episode: its prompt, its last run of text, and when that was said.
  ghost predicate IsTurnOf(e: Episode, t: Turn) {
    t.prompt == e.prompt && t.parts != [] && IsLastRun(e.blocks, t.parts) && SaidAt(e, t.at)
  }

  lemma SaidAtSnoc(front: Episode, b: Block, e: Episode, at: Option<Text>)
    requires SaidAt(front, at) && e.at == front.at && e.blocks == front.blocks + [b]
    ensures SaidAt(e, if Timed(b) then b.at else at)
  {
    var n := |front.blocks|;
    assert e.blocks[n] == b;
    if Timed(b) {
      assert forall k: nat :: LastTimed(e.blocks, k) ==> k == n;
    } else {
      forall k: nat | LastTimed(e.blocks, k) ensures at == e.blocks[k].at {
        assert k < n && e.blocks[k] == front.blocks[k];
        assert forall m :: k < m < n ==> front.blocks[m] == e.blocks[m];
        assert LastTimed(front.blocks, k);
      }
      if forall k :: 0 <= k < |e.blocks| ==> !Timed(e.blocks[k]) {
        assert forall k :: 0 <= k < n ==> front.blocks[k] == e.blocks[k];
      }
    }
  }

  lemma CurrentSnoc(front: Episode, b: Block, e: Episode)
    requires e == Episode(front.at, front.prompt, front.blocks + [b])
    ensures CurrentOf(e).at == if Timed(b) then b.at else CurrentOf(front).at
  {
    FeedBlocksSnoc(Current(e.at, e.prompt, [], false), front.blocks, b);
  }

  lemma {:induction false} CurrentSaidAt(e: Episode)
    ensures SaidAt(e, CurrentOf(e).at)
    decreases |e.blocks|
  {
    if e.blocks == [] {
      NothingSaid(e);
    } else {
      var n := |e.blocks| - 1;
      var front, b := Episode(e.at, e.prompt, e.blocks[..n]), e.blocks[n];
      CurrentSaidAt(front);
      assert front.blocks + [b] == e.blocks;
      CurrentSnoc(front, b, e);
      SaidAtSnoc(front, b, e, CurrentOf(front).at);
    }
  }

  lemma NothingSaid(e: Episode)
    requires e.blocks == []
    ensures SaidAt(e, CurrentOf(e).at)
  {
  }

  lemma LastRunText(bs: seq<Block>, parts: seq<Text>)
    requires IsLastRun(bs, parts)
    ensures parts == [] <==> NoText(bs, 0)
  {
    if !NoText(bs, 0) {
      var i: nat, j: nat :| IsRun(bs, i, j, parts);
      var run := bs[i..j];
      assert run[|run| - 1] == bs[j - 1];
    }
  }

  // An episode has a turn if and only if it has text.
  lemma TurnOf(e: Episode)
    ensures var c := CurrentOf(e);
            && (c.parts == [] <==> NoText(e.blocks, 0))
            && (c.parts != [] ==> IsTurnOf(e, Turn(c.at, c.prompt, c.parts)))
  {
    var c := CurrentOf(e);
    assert IsLastRun(e.blocks, c.parts) && c.prompt == e.prompt by {
      var i, j := PartsAreLastRun(e.at, e.prompt, e.blocks);
    }
    assert SaidAt(e, c.at) by { CurrentSaidAt(e); }
    LastRunText(e.blocks, c.parts);
  }

  predicate HasText(eps: seq<Episode>, i: nat)
    requires i < |eps|
  {
    !NoText(eps[i].blocks, 0)
  }

  // Turn k is that of the k-th episode with text, `from` being where those are.
  ghost predicate OneEach(eps: seq<Episode>, turns: seq<Turn>, from: seq<nat>) {
    && (forall i: nat :: i in from <==> i < |eps| && HasText(eps, i))
    && (forall k, l :: 0 <= k < l < |from| ==> from[k] < from[l])
    && |turns| == |from|
    && forall k :: 0 <= k < |from| ==> from[k] < |eps| && IsTurnOf(eps[from[k]], turns[k])
  }

  lemma OneEachQuiet(eps: seq<Episode>, turns: seq<Turn>, from: seq<nat>, e: Episode)
    requires OneEach(eps, turns, from) && NoText(e.blocks, 0)
    ensures OneEach(eps + [e], turns, from)
  {
    var all := eps + [e];
    forall i: nat ensures i in from <==> i < |all| && HasText(all, i) {
      assert i < |eps| ==> all[i] == eps[i] && (HasText(all, i) <==> HasText(eps, i));
    }
  }

  lemma OneEachSaid(eps: seq<Episode>, turns: seq<Turn>, from: seq<nat>, e: Episode, t: Turn)
    requires OneEach(eps, turns, from) && !NoText(e.blocks, 0) && IsTurnOf(e, t)
    ensures OneEach(eps + [e], turns + [t], from + [|eps|])
  {
    var all, now, n := eps + [e], from + [|eps|], |eps|;
    forall i: nat ensures i in now <==> i < |all| && HasText(all, i) {
      assert i in now <==> i in from || i == n;
      assert i < n ==> all[i] == eps[i] && (HasText(all, i) <==> HasText(eps, i));
    }
    forall k | 0 <= k < |now| ensures now[k] < |all| && IsTurnOf(all[now[k]], (turns + [t])[k]) {
      if k < |from| {
        assert now[k] == from[k] && all[from[k]] == eps[from[k]];
      }
    }
  }

  // Exactly the episodes with text are shown, each as one turn, in order.
  lemma {:induction false} OneTurnEach(eps: seq<Episode>) returns (from: seq<nat>)
    ensures OneEach(eps, TurnsOfEpisodes(eps), from)
    decreases |eps|
  {
    from := [];
    if eps != [] {
      var n := |eps| - 1;
      var front, e := eps[..n], eps[n];
      from := OneTurnEach(front);
      TurnOf(e);
      assert front + [e] == eps;
      if NoText(e.blocks, 0) {
        OneEachQuiet(front, TurnsOfEpisodes(front), from, e);
      } else {
        var c := CurrentOf(e);
        OneEachSaid(front, TurnsOfEpisodes(front), from, e, Turn(c.at, c.prompt, c.parts));
        from := from + [n];
      }
    }
  }

  // Of a whole transcript: one turn for each prompt that was answered in text, with its last run of text
  // and the time that was said.
  lemma ShownTurns(es: seq<Entry>) returns (from: seq<nat>)
    ensures OneEach(Episodes(es), Shown(FeedAll(START, es)), from)
  {
    ShownAreEpisodes(es);
    from := OneTurnEach(Episodes(es));
  }

  // Every turn shown belongs to a prompt, and its text is the last run of text after it.
  lemma {:induction false} TurnTextIsLastRun(eps: seq<Episode>, t: Turn)
    requires t in TurnsOfEpisodes(eps)
    ensures exists e :: e in eps && t.prompt == e.prompt && t.parts != [] && IsLastRun(e.blocks, t.parts)
    decreases |eps|
  {
    var front, e := eps[..|eps| - 1], eps[|eps| - 1];
    if t in TurnsOfEpisodes(front) {
      TurnTextIsLastRun(front, t);
    } else {
      var i, j := PartsAreLastRun(e.at, e.prompt, e.blocks);
      assert e in eps;
    }
  }
}
