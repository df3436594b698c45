/** The steps of the agent loop. */
module AgentTurns {
  import opened Text
  import opened Generation
  import opened AgentLoop

  predicate IsCall(item: Item) {
    item.Call?
  }

  predicate IsSpoken(item: Item) {
    item.Words? || item.Thought?
  }

  // ---- One turn ----

  /** The last finish event is one for the use of tools. */
  predicate AsksForTools(items: seq<Item>) {
    exists k :: 0 <= k < |items| && items[k] == Finish(true) && forall j | k < j < |items| :: !items[j].Finish?
  }

  lemma {:induction false} ToolUseMeans(items: seq<Item>)
    ensures ToolUse(items) <==> AsksForTools(items)
  {
    if items != [] {
      var n := |items| - 1;
      ToolUseMeans(items[..n]);
      if AsksForTools(items[..n]) && !items[n].Finish? {
        var k :| 0 <= k < n && items[..n][k] == Finish(true) && forall j | k < j < n :: !items[..n][j].Finish?;
        assert forall j | k < j < |items| :: j < n ==> items[j] == items[..n][j];
        assert items[k] == Finish(true);
      }
      if AsksForTools(items) && !items[n].Finish? {
        var k :| 0 <= k <= n && items[k] == Finish(true) && forall j | k < j < |items| :: !items[j].Finish?;
        assert items[..n][k] == Finish(true);
      }
    }
  }

  /** The turn gets as far as making tool calls. */
  ghost predicate UsesTools(c: Conduct, i: nat) {
    var t := c.turns(i);
    && !t.abortedBefore && t.end == Ended && AsksForTools(t.items) && Where(IsCall, t.items) != []
    && i < c.maxSteps && !t.escalates && !t.abortedAfter
  }

  /** The number of events before those of the tools: a compaction, and each word and thought of the stream. */
  function RelayedCount(t: Turn): nat {
    if t.abortedBefore then 0 else (if t.compacts then 1 else 0) + |Where(IsSpoken, t.items)|
  }

  /** A compaction is told first; then comes the stream, in order. */
  ghost predicate Relays(t: Turn, events: seq<ProviderEvent>) {
    t.abortedBefore ||
    var n := if t.compacts then 1 else 0;
    var spoken := Where(IsSpoken, t.items);
    && |events| == n + |spoken| && (t.compacts ==> events[0] == Other)
    && forall k | 0 <= k < |spoken| ::
         && (spoken[k].Words? ==> events[n + k] == Token(spoken[k].text))
         && (spoken[k].Thought? ==> events[n + k] == Thinking(spoken[k].text))
  }

  /** One start for each of the first `made` calls, in order; then, unless a tool throws, one end for each. */
  ghost predicate RunsTools(calls: seq<Item>, made: nat, throws: bool, answer: string -> string,
                            events: seq<ProviderEvent>) {
    && made <= |calls| && |events| == (if throws then made else 2 * made)
    && forall k | 0 <= k < made ::
         && calls[k].Call? && events[k] == ToolCallStart(calls[k].id)
         && (!throws ==> events[made + k] == ToolCallEnd(answer(calls[k].id)))
  }

  lemma ReplyMeans(t: Turn)
    requires !t.abortedBefore
    ensures |Reply(t)| == RelayedCount(t) && Relays(t, Reply(t))
  {
    SpokenMean(t.items);
  }

  lemma SpokenMean(items: seq<Item>)
    ensures var (spoken, events) := (Where(IsSpoken, items), ConcatMap(EventOf, items));
            && |events| == |spoken|
            && forall k | 0 <= k < |spoken| ::
                 && (spoken[k].Words? ==> events[k] == Token(spoken[k].text))
                 && (spoken[k].Thought? ==> events[k] == Thinking(spoken[k].text))
  {
    ConcatMapIsWhere(EventOf, IsSpoken, items);
    var spoken := Where(IsSpoken, items);
    assert forall k | 0 <= k < |spoken| :: EventOf(spoken[k]) == [ConcatMap(EventOf, items)[k]];
  }

  lemma CallsMean(items: seq<Item>)
    ensures |ConcatMap(IdOf, items)| == |Where(IsCall, items)|
    ensures forall k | 0 <= k < |Where(IsCall, items)| ::
              Where(IsCall, items)[k] == Call(ConcatMap(IdOf, items)[k])
  {
    ConcatMapIsWhere(IdOf, IsCall, items);
    var calls := Where(IsCall, items);
    forall k | 0 <= k < |calls| ensures calls[k] == Call(ConcatMap(IdOf, items)[k]) {
      assert IdOf(calls[k]) == [calls[k].id];
    }
  }

  lemma {:induction false} OneEach(f: string -> seq<ProviderEvent>, ids: seq<string>)
    requires forall id :: |f(id)| == 1
    ensures |ConcatMap(f, ids)| == |ids|
    ensures forall k | 0 <= k < |ids| :: f(ids[k]) == [ConcatMap(f, ids)[k]]
  {
    if ids != [] {
      OneEach(f, ids[..|ids| - 1]);
      assert f(ids[|ids| - 1]) == [f(ids[|ids| - 1])[0]];
    }
  }

  lemma ToolsMean(t: Turn, answer: string -> string, blocks: seq<Block>)
    ensures var w := RunTools(t, answer, blocks);
            && (w.after == Breaks <==> t.toolThrows)
            && (w.after == Continues <==>
                !t.toolThrows && |Where(IsCall, t.items)| <= t.ran && !t.abortedByTools)
            && w.after != Fails
  {
    CallsMean(t.items);
  }

  lemma StartsMean(made: seq<string>)
    ensures var starts := ConcatMap(Started, made);
            |starts| == |made| && forall k | 0 <= k < |made| :: starts[k] == ToolCallStart(made[k])
  {
    OneEach(Started, made);
    assert forall k | 0 <= k < |made| :: Started(made[k]) == [ToolCallStart(made[k])];
  }

  lemma EndsMean(made: seq<string>, answer: string -> string)
    ensures var ends := ConcatMap(Answered(answer), made);
            |ends| == |made| && forall k | 0 <= k < |made| :: ends[k] == ToolCallEnd(answer(made[k]))
  {
    OneEach(Answered(answer), made);
    assert forall k | 0 <= k < |made| :: Answered(answer)(made[k]) == [ToolCallEnd(answer(made[k]))];
  }

  lemma ToolEvents(t: Turn, answer: string -> string, blocks: seq<Block>)
    ensures var calls := Where(IsCall, t.items);
            RunsTools(calls, if t.ran < |calls| then t.ran else |calls|, t.toolThrows, answer,
                      RunTools(t, answer, blocks).events)
  {
    CallsMean(t.items);
    var calls := Where(IsCall, t.items);
    RunsAll(calls[..|Made(t)|], Made(t), t.toolThrows, answer);
  }

  lemma RunsAll(calls: seq<Item>, made: seq<string>, throws: bool, answer: string -> string)
    requires |calls| == |made| && forall k | 0 <= k < |made| :: calls[k] == Call(made[k])
    ensures RunsTools(calls, |made|, throws, answer,
                      ConcatMap(Started, made) + (if throws then [] else ConcatMap(Answered(answer), made)))
  {
    StartsMean(made);
    EndsMean(made, answer);
  }

  /** Why the loop goes on or ends with a turn. */
  ghost predicate Follows(c: Conduct, i: nat, after: After) {
    var t := c.turns(i);
    && (after == Continues <==>
        UsesTools(c, i) && |Where(IsCall, t.items)| <= t.ran && !t.toolThrows && !t.abortedByTools)
    && (after == Breaks <==> (!t.abortedBefore && t.end == Threw) || (UsesTools(c, i) && t.toolThrows))
    && (after == Fails <==> !t.abortedBefore && t.end == Errored)
  }

  /** The events of the tools in turn `i`. */
  ghost predicate ToolPart(c: Conduct, i: nat, events: seq<ProviderEvent>) {
    var t := c.turns(i);
    var calls := Where(IsCall, t.items);
    if UsesTools(c, i)
    then RunsTools(calls, if t.ran < |calls| then t.ran else |calls|, t.toolThrows, c.answer, events)
    else events == []
  }

  /** What a turn yields, and what follows it. */
  ghost predicate TurnGoes(c: Conduct, i: nat, events: seq<ProviderEvent>, after: After) {
    var n := RelayedCount(c.turns(i));
    && |events| >= n && Relays(c.turns(i), events[..n]) && ToolPart(c, i, events[n..]) && Follows(c, i, after)
  }

  lemma TakeReplyMeans(c: Conduct, i: nat, blocks: seq<Block>)
    requires !c.turns(i).abortedBefore && c.turns(i).end == Ended
    ensures var w := TakeReply(c.turns(i), c, i, blocks); Follows(c, i, w.after) && ToolPart(c, i, w.events)
  {
    var t := c.turns(i);
    ToolUseMeans(t.items);
    CallsMean(t.items);
    if UsesTools(c, i) {
      var used := blocks + TextBlocks(Heard(t.items)) + OtherBlocks(|ConcatMap(IdOf, t.items)|);
      ToolsMean(t, c.answer, used);
      ToolEvents(t, c.answer, used);
    }
  }

  /**
   One turn: the compaction and the stream are passed on in order. Tool calls are made exactly when the stream ends by
   itself, its last finish event asks for tools, there are calls, a step is left and neither guard nor abort intervenes;
   each call made is then announced, in the order of the calls, and answered, unless a tool throws. Another turn is
   taken exactly when all calls were made, none threw and no abort followed.
   */
  lemma TurnMeans(c: Conduct, i: nat, blocks: seq<Block>)
    ensures var w := TakeTurn(c, i, blocks); TurnGoes(c, i, w.events, w.after)
  {
    var t := c.turns(i);
    if !t.abortedBefore {
      ReplyMeans(t);
      if t.end == Ended {
        TakeReplyMeans(c, i, blocks);
        var w := TakeReply(t, c, i, blocks);
        TurnJoins(c, i, Reply(t), w.events, w.after);
      } else {
        assert Reply(t) + [] == Reply(t);
        TurnJoins(c, i, Reply(t), [], TakeTurn(c, i, blocks).after);
      }
    }
  }

  lemma TurnJoins(c: Conduct, i: nat, reply: seq<ProviderEvent>, tools: seq<ProviderEvent>, after: After)
    requires |reply| == RelayedCount(c.turns(i)) && Relays(c.turns(i), reply)
    requires ToolPart(c, i, tools) && Follows(c, i, after)
    ensures TurnGoes(c, i, reply + tools, after)
  {
    Append(reply, tools, 0);
  }

  // ---- What is accumulated ----

  /** The number of blocks that tools add in turn `i`: one for each call asked for, and one for each result. */
  ghost function ToolBlocks(c: Conduct, i: nat): nat {
    var t := c.turns(i);
    var calls := |Where(IsCall, t.items)|;
    if t.abortedBefore || t.end != Ended || !AsksForTools(t.items) then 0
    else calls + (if UsesTools(c, i) && !t.toolThrows then (if t.ran < calls then t.ran else calls) else 0)
  }

  /** The blocks that turn `i` adds: its text, unless there is none, and those of the tools. */
  ghost predicate Accumulates(c: Conduct, i: nat, added: seq<Block>) {
    var t := c.turns(i);
    var text := if t.abortedBefore || t.end != Ended then [] else Heard(t.items);
    var n := if text == [] then 0 else 1;
    && |added| == n + ToolBlocks(c, i)
    && (text != [] ==> added[0] == TextBlock(text))
    && forall k | n <= k < |added| :: added[k] == OtherBlock
  }

  lemma {:induction false} OtherBlocksAre(n: nat)
    ensures |OtherBlocks(n)| == n && forall k | 0 <= k < n :: OtherBlocks(n)[k] == OtherBlock
  {
    if n > 0 {
      OtherBlocksAre(n - 1);
    }
  }

  lemma OtherBlocksJoin(a: nat, b: nat)
    ensures |OtherBlocks(a) + OtherBlocks(b)| == a + b
    ensures forall k | 0 <= k < a + b :: (OtherBlocks(a) + OtherBlocks(b))[k] == OtherBlock
  {
    OtherBlocksAre(a);
    OtherBlocksAre(b);
  }

  /** Blocks after a turn's text. */
  lemma TextThenOthers(blocks: seq<Block>, text: string, a: nat, b: nat)
    ensures var all := blocks + TextBlocks(text) + OtherBlocks(a) + OtherBlocks(b);
            var n := if text == [] then 0 else 1;
            && |all| == |blocks| + n + a + b && all[..|blocks|] == blocks
            && (text != [] ==> all[|blocks|] == TextBlock(text))
            && forall k | |blocks| + n <= k < |all| :: all[k] == OtherBlock
  {
    OtherBlocksAre(a);
    OtherBlocksAre(b);
  }

  lemma NoOthers(blocks: seq<Block>)
    ensures blocks + OtherBlocks(0) == blocks
  {
  }

  lemma ReplyBlocks(c: Conduct, i: nat, blocks: seq<Block>)
    requires !c.turns(i).abortedBefore && c.turns(i).end == Ended
    ensures var t := c.turns(i);
            var calls := |Where(IsCall, t.items)|;
            var results := if UsesTools(c, i) && !t.toolThrows then (if t.ran < calls then t.ran else calls) else 0;
            TakeReply(t, c, i, blocks).blocks ==
            blocks + TextBlocks(Heard(t.items)) + OtherBlocks(ToolBlocks(c, i) - results) + OtherBlocks(results)
  {
    var t := c.turns(i);
    ToolUseMeans(t.items);
    CallsMean(t.items);
    var said := blocks + TextBlocks(Heard(t.items));
    NoOthers(said);
    NoOthers(said + OtherBlocks(|ConcatMap(IdOf, t.items)|));
  }

  lemma AddedAre(c: Conduct, i: nat, blocks: seq<Block>, a: nat, b: nat)
    requires !c.turns(i).abortedBefore && c.turns(i).end == Ended && ToolBlocks(c, i) == a + b
    ensures var all := blocks + TextBlocks(Heard(c.turns(i).items)) + OtherBlocks(a) + OtherBlocks(b);
            blocks <= all && Accumulates(c, i, all[|blocks|..])
  {
    TextThenOthers(blocks, Heard(c.turns(i).items), a, b);
  }

  /** A turn keeps what was accumulated before it and adds its own text and tool blocks. */
  lemma BlocksMean(c: Conduct, i: nat, blocks: seq<Block>)
    ensures var all := TakeTurn(c, i, blocks).blocks;
            blocks <= all && Accumulates(c, i, all[|blocks|..])
  {
    var t := c.turns(i);
    if !t.abortedBefore && t.end == Ended {
      ReplyBlocks(c, i, blocks);
      var calls := |Where(IsCall, t.items)|;
      var results := if UsesTools(c, i) && !t.toolThrows then (if t.ran < calls then t.ran else calls) else 0;
      AddedAre(c, i, blocks, ToolBlocks(c, i) - results, results);
    }
  }

  /** The heard text is that of the words, in order, and nothing else. */
  lemma HeardMeans(a: seq<Item>, b: seq<Item>, item: Item)
    ensures Heard(a + b) == Heard(a) + Heard(b) && Heard([item]) == if item.Words? then item.text else []
  {
    assert [item][..0] == [];
    HeardConcat(a, b);
  }

  lemma {:induction false} HeardConcat(a: seq<Item>, b: seq<Item>)
    ensures Heard(a + b) == Heard(a) + Heard(b)
  {
    if b == [] {
      assert a + b == a;
    } else {
      assert (a + b)[..|a + b| - 1] == a + b[..|b| - 1];
      HeardConcat(a, b[..|b| - 1]);
    }
  }

  /** The text of a stream of events is that of its tokens, in order, and nothing else. */
  lemma TokenTextMeans(a: seq<ProviderEvent>, b: seq<ProviderEvent>, e: ProviderEvent)
    ensures TokenText(a + b) == TokenText(a) + TokenText(b) && TokenText([e]) == if e.Token? then e.text else []
  {
    assert [e][..0] == [];
    TokenTextConcat(a, b);
  }

  // ---- The whole loop ----

  function EventsIn(w: Went): seq<ProviderEvent> {
    w.events
  }

  /** The turns taken one after the other, each with the blocks of the one before it, up to the first that ends it. */
  ghost predicate Steps(took: Turns, from: nat, blocks: seq<Block>, steps: seq<Went>) {
    && steps != [] && steps[0] == took(from, blocks)
    && (forall k | 1 <= k < |steps| :: steps[k] == took(from + k, steps[k - 1].blocks))
    && (forall k | 0 <= k < |steps| :: steps[k].after == Continues <==> k < |steps| - 1)
  }

  /** The events and the end of the loop are those of its turns. */
  ghost predicate MadeOf(r: Course, steps: seq<Went>)
    requires steps != []
  {
    var last := steps[|steps| - 1];
    && r.body == ConcatMap(EventsIn, steps)
    && (r.ending == Failing <==> last.after == Fails)
    && (r.ending == Throwing <==> last.after == Breaks)
    && (r.ending.Completing? <==> last.after == Completes)
    && (r.ending.Completing? ==> r.ending.content == FinalText(last.blocks))
  }

  lemma {:induction false} RunFromMeans(took: Turns, most: nat, i: nat, blocks: seq<Block>)
    returns (steps: seq<Went>)
    requires Bounded(took, most)
    ensures Steps(took, i, blocks, steps) && MadeOf(RunFrom(took, most, i, blocks), steps)
    decreases most - i
  {
    var w := took(i, blocks);
    if w.after == Continues {
      var rest := RunFromMeans(took, most, i + 1, w.blocks);
      steps := [w] + rest;
      ConcatMapAppend(EventsIn, [w], rest);
      ConcatMapOne(EventsIn, w);
      StepsPrepend(took, i, blocks, rest);
    } else {
      steps := [w];
      ConcatMapOne(EventsIn, w);
    }
  }

  lemma StepsPrepend(took: Turns, i: nat, blocks: seq<Block>, rest: seq<Went>)
    requires var w := took(i, blocks); w.after == Continues && Steps(took, i + 1, w.blocks, rest)
    ensures Steps(took, i, blocks, [took(i, blocks)] + rest)
  {
    var steps := [took(i, blocks)] + rest;
    forall k | 1 <= k < |steps| ensures steps[k] == took(i + k, steps[k - 1].blocks) {
      var j := k - 1;
      assert steps[k] == rest[j] && i + 1 + j == i + k;
      assert j > 0 ==> rest[j] == took(i + 1 + j, rest[j - 1].blocks);
    }
  }

  /**
   The loop takes turns 0, 1, 2, ... as long as each is followed by another one; it yields the events of these turns in
   order, and ends as the last of them says, with the text of the blocks accumulated by all of them.
   */
  lemma RunMeans(c: Conduct)
    ensures exists steps :: Steps(Took(c), 0, [], steps) && MadeOf(Run(c), steps)
  {
    var steps := RunFromMeans(Took(c), c.maxSteps, 0, []);
  }

  // ---- The final text ----

  /** Text without tool blocks, and a single text, are returned as they are. */
  lemma FinalTextPlain(blocks: seq<Block>)
    requires OtherBlock !in blocks || |Texts(blocks)| <= 1
    ensures FinalText(blocks) == Concat(Texts(blocks))
  {
    forall b | b in blocks && OtherBlock !in blocks ensures b.TextBlock? {
      assert b != OtherBlock;
    }
  }

  /** Further tool blocks do not change it. */
  lemma FinalTextIgnoresTools(blocks: seq<Block>)
    requires OtherBlock in blocks || |Texts(blocks)| <= 1
    ensures FinalText(blocks + [OtherBlock]) == FinalText(blocks)
  {
    assert (blocks + [OtherBlock])[..|blocks|] == blocks && Texts(blocks) + [] == Texts(blocks);
    assert OtherBlock in blocks + [OtherBlock];
    if OtherBlock !in blocks {
      FinalTextPlain(blocks);
    }
  }

  /** Two texts with a blank line between them, neither of them padded at the end nor empty. */
  function Paragraphs(a: string, b: string): string {
    if TrimEnd(a) == [] then TrimEnd(b)
    else if TrimEnd(b) == [] then TrimEnd(a)
    else TrimEnd(a) + "\n\n" + TrimEnd(b)
  }

  lemma {:induction false} JoinPush(parts: seq<string>, part: string, sep: string)
    requires parts != []
    ensures Join(parts + [part], sep) == Join(parts, sep) + sep + part
  {
    var all := parts + [part];
    if |parts| == 1 {
      assert all[1..] == [part];
    } else {
      assert all[1..] == parts[1..] + [part];
      JoinPush(parts[1..], part, sep);
      Assoc(parts[0] + sep, Join(parts[1..], sep) + sep, part);
      Assoc(parts[0] + sep, Join(parts[1..], sep), sep);
    }
  }

  lemma TrimEndFixes(s: string, t: string)
    requires t != [] && TrimEnd(t) == t
    ensures TrimEnd(s + t) == s + t
  {
    assert (s + t)[|s + t| - 1] == t[|t| - 1];
  }

  lemma TrimEndTwice(s: string)
    ensures TrimEnd(TrimEnd(s)) == TrimEnd(s)
  {
  }

  /** The joined paragraphs end in the last of them, and are empty only if there are none. */
  lemma {:induction false} ParagraphsEnd(texts: seq<string>)
    ensures var joined := Join(ConcatMap(TrimmedEnd, texts), "\n\n");
            TrimEnd(joined) == joined && (joined == [] <==> ConcatMap(TrimmedEnd, texts) == [])
  {
    if texts != [] {
      var front, last := texts[..|texts| - 1], texts[|texts| - 1];
      ParagraphsEnd(front);
      ParagraphsPush(front, last);
      TrimEndTwice(last);
      var parts := ConcatMap(TrimmedEnd, front);
      if TrimEnd(last) != [] && parts != [] {
        TrimEndFixes(Join(parts, "\n\n") + "\n\n", TrimEnd(last));
      }
    }
  }

  lemma ParagraphsPush(texts: seq<string>, text: string)
    ensures var (parts, all) := (ConcatMap(TrimmedEnd, texts), ConcatMap(TrimmedEnd, texts + [text]));
            && all == (if TrimEnd(text) == [] then parts else parts + [TrimEnd(text)])
            && Join(all, "\n\n") ==
               if TrimEnd(text) == [] then Join(parts, "\n\n")
               else if parts == [] then TrimEnd(text)
               else Join(parts, "\n\n") + "\n\n" + TrimEnd(text)
  {
    var parts := ConcatMap(TrimmedEnd, texts);
    assert (texts + [text])[..|texts|] == texts;
    if TrimEnd(text) == [] {
      assert parts + [] == parts;
    } else if parts != [] {
      JoinPush(parts, TrimEnd(text), "\n\n");
    }
  }

  lemma TextsPush(blocks: seq<Block>, text: string)
    ensures Texts(blocks + [TextBlock(text)]) == Texts(blocks) + [text]
  {
    assert (blocks + [TextBlock(text)])[..|blocks|] == blocks;
  }

  /** After a tool has been used, each further text is a paragraph of its own. */
  lemma FinalTextGrows(blocks: seq<Block>, text: string)
    requires OtherBlock in blocks && Texts(blocks) != []
    ensures FinalText(blocks + [TextBlock(text)]) == Paragraphs(FinalText(blocks), text)
  {
    var texts := Texts(blocks);
    TextsPush(blocks, text);
    assert OtherBlock in blocks + [TextBlock(text)];
    assert FinalText(blocks + [TextBlock(text)]) == Join(ConcatMap(TrimmedEnd, texts + [text]), "\n\n");
    ParagraphsGrow(texts, text);
    if |texts| == 1 {
      OneParagraph(texts);
    }
  }

  lemma ParagraphsGrow(texts: seq<string>, text: string)
    ensures Join(ConcatMap(TrimmedEnd, texts + [text]), "\n\n") ==
            Paragraphs(Join(ConcatMap(TrimmedEnd, texts), "\n\n"), text)
  {
    ParagraphsPush(texts, text);
    ParagraphsEnd(texts);
  }

  lemma OneParagraph(texts: seq<string>)
    requires |texts| == 1
    ensures Concat(texts) == texts[0] && Join(ConcatMap(TrimmedEnd, texts), "\n\n") == TrimEnd(texts[0])
  {
    assert texts == [] + [texts[0]];
    ParagraphsPush([], texts[0]);
    ConcatPush([], texts[0]);
    assert Concat([]) + texts[0] == texts[0];
  }
}
