/** Splitting messages of mixed blocks into runs of tool results and runs of the other blocks, in order. */
module ToolResults {
  import opened Text

  /** A content block; everything but a tool result belongs to the assistant. */
  datatype Block = ToolResult(toolUseId: string, content: string) | AssistantBlock(json: string)

  datatype Role = User | Assistant | OtherRole

  datatype Content = PlainText(text: string) | Blocks(blocks: seq<Block>)

  datatype Message = Message(id: string, role: Role, content: Content)

  predicate HasToolResult(blocks: seq<Block>) {
    blocks != [] && (blocks[0].ToolResult? || HasToolResult(blocks[1..]))
  }

  /** The messages that are split: assistant messages with at least one tool result block. */
  predicate NeedsSplit(m: Message) {
    m.role.Assistant? && m.content.Blocks? && HasToolResult(m.content.blocks)
  }

  /** The id of a split-off message, from the original id, the role and the position in the result. */
  type Naming = (string, Role, nat) -> string

  function RunId(id: string, role: Role, position: nat): string {
    id + (if role.User? then "_user_" else "_asst_") + Decimal(position)
  }

  /** The maximal runs of blocks that go to the same role. */
  function Runs(blocks: seq<Block>): seq<seq<Block>> {
    if blocks == [] then []
    else Extend(Runs(blocks[..|blocks| - 1]), blocks[|blocks| - 1])
  }

  function Extend(runs: seq<seq<Block>>, b: Block): seq<seq<Block>> {
    if runs != [] && SameKind(runs[|runs| - 1], b) then runs[..|runs| - 1] + [runs[|runs| - 1] + [b]]
    else runs + [[b]]
  }

  predicate SameKind(run: seq<Block>, b: Block) {
    run != [] && run[0].ToolResult? == b.ToolResult?
  }

  function RoleOf(run: seq<Block>): Role {
    if run != [] && run[0].ToolResult? then User else Assistant
  }

  /** The message for one run; its id carries its position in the result. */
  function RunMessage(name: Naming, m: Message, run: seq<Block>, position: nat): Message {
    Message(name(m.id, RoleOf(run), position), RoleOf(run), Blocks(run))
  }

  function RunMessages(name: Naming, m: Message, runs: seq<seq<Block>>, base: nat): seq<Message> {
    if runs == [] then []
    else
      RunMessages(name, m, runs[..|runs| - 1], base) + [RunMessage(name, m, runs[|runs| - 1], base + |runs| - 1)]
  }

  /** What becomes of one message when `base` messages precede it in the result. */
  function ExpandOne(name: Naming, m: Message, base: nat): seq<Message> {
    if NeedsSplit(m) then RunMessages(name, m, Runs(m.content.blocks), base) else [m]
  }

  function Expand(name: Naming, messages: seq<Message>): seq<Message> {
    if messages == [] then []
    else
      var before := Expand(name, messages[..|messages| - 1]);
      before + ExpandOne(name, messages[|messages| - 1], |before|)
  }

  // ---- The runs ----

  ghost predicate OneKind(run: seq<Block>) {
    run != [] && forall b | b in run :: b.ToolResult? == run[0].ToolResult?
  }

  /** Every run is of one kind, and neighbours are of different kinds. */
  ghost predicate RunsOk(runs: seq<seq<Block>>) {
    runs == [] ||
    var front, last := runs[..|runs| - 1], runs[|runs| - 1];
    && RunsOk(front) && OneKind(last)
    && (front != [] ==> RoleOf(front[|front| - 1]) != RoleOf(last))
  }

  function Flatten(runs: seq<seq<Block>>): seq<Block> {
    if runs == [] then [] else Flatten(runs[..|runs| - 1]) + runs[|runs| - 1]
  }

  lemma ExtendOk(runs: seq<seq<Block>>, b: Block)
    requires RunsOk(runs)
    ensures RunsOk(Extend(runs, b)) && Flatten(Extend(runs, b)) == Flatten(runs) + [b]
  {
    if runs != [] && SameKind(runs[|runs| - 1], b) {
      GrowLast(runs[..|runs| - 1], runs[|runs| - 1], b);
    } else {
      AddRun(runs, b);
    }
  }

  lemma GrowLast(front: seq<seq<Block>>, last: seq<Block>, b: Block)
    requires RunsOk(front) && OneKind(last) && SameKind(last, b)
    requires front != [] ==> RoleOf(front[|front| - 1]) != RoleOf(last)
    ensures RunsOk(front + [last + [b]]) && Flatten(front + [last + [b]]) == Flatten(front) + last + [b]
  {
    var longer := front + [last + [b]];
    assert longer[..|longer| - 1] == front && longer[|longer| - 1] == last + [b];
    Assoc(Flatten(front), last, [b]);
  }

  lemma AddRun(runs: seq<seq<Block>>, b: Block)
    requires RunsOk(runs) && (runs != [] ==> !SameKind(runs[|runs| - 1], b))
    ensures RunsOk(runs + [[b]]) && Flatten(runs + [[b]]) == Flatten(runs) + [b]
  {
    var longer := runs + [[b]];
    assert longer[..|longer| - 1] == runs && longer[|longer| - 1] == [b];
  }

  /** The runs hold the blocks in order; they are not empty, of one kind each, and their roles alternate. */
  lemma {:induction false} RunsAreRuns(blocks: seq<Block>)
    ensures RunsOk(Runs(blocks)) && Flatten(Runs(blocks)) == blocks
  {
    if blocks != [] {
      var front := blocks[..|blocks| - 1];
      RunsAreRuns(front);
      ExtendOk(Runs(front), blocks[|blocks| - 1]);
      assert front + [blocks[|blocks| - 1]] == blocks;
    }
  }

  lemma {:induction false} RunAt(runs: seq<seq<Block>>, i: nat)
    requires RunsOk(runs) && i < |runs|
    ensures OneKind(runs[i]) && (i > 0 ==> RoleOf(runs[i - 1]) != RoleOf(runs[i]))
  {
    if i < |runs| - 1 {
      RunAt(runs[..|runs| - 1], i);
    }
  }

  lemma {:induction false} RunMessageAt(name: Naming, m: Message, runs: seq<seq<Block>>, base: nat, i: nat)
    requires i < |runs|
    ensures |RunMessages(name, m, runs, base)| == |runs|
    ensures RunMessages(name, m, runs, base)[i] == RunMessage(name, m, runs[i], base + i)
  {
    var front := runs[..|runs| - 1];
    RunCount(name, m, front, base);
    if i < |front| {
      RunMessageAt(name, m, front, base, i);
    }
  }

  lemma {:induction false} RunCount(name: Naming, m: Message, runs: seq<seq<Block>>, base: nat)
    ensures |RunMessages(name, m, runs, base)| == |runs|
  {
    if runs != [] {
      RunCount(name, m, runs[..|runs| - 1], base);
    }
  }

  // ---- The loop ----

  /** `flushAssistant` and `flushToolResults`: appends a message for the collected blocks, if there are any. */
  method FlushBlocks(name: Naming, message: Message, blocks: seq<Block>, role: Role, soFar: seq<Message>,
                     ghost runs: seq<seq<Block>>, ghost before: seq<Message>,
                     ghost made: seq<seq<Block>> -> seq<Message>) returns (result: seq<Message>)
    requires made == Made(name, message, before) && soFar == made(runs)
    requires blocks != [] ==> RoleOf(blocks) == role
    ensures result == made(WithOpen(runs, blocks))
  {
    result := soFar;
    if |blocks| > 0 {
      RunPushed(name, message, runs, blocks, |before|);
      Assoc(before, RunMessages(name, message, runs, |before|), [RunMessage(name, message, blocks, |before| + |runs|)]);
      result := result + [Message(name(message.id, role, |result|), role, Blocks(blocks))];
    }
  }

  /** The result so far once the given runs have been flushed. */
  function Made(name: Naming, message: Message, before: seq<Message>): seq<seq<Block>> -> seq<Message> {
    runs => before + RunMessages(name, message, runs, |before|)
  }

  function OfKind(blocks: seq<Block>, toolResults: bool): seq<Block> {
    if blocks != [] && blocks[0].ToolResult? == toolResults then blocks else []
  }

  /** What a block does to the buffers: the one of the other kind is flushed, the one of its kind grows. */
  lemma BuffersStep(runs: seq<seq<Block>>, open: seq<Block>, b: Block)
    ensures var fits := open == [] || SameKind(open, b);
            var next := if fits then open + [b] else [b];
            && WithOpen(runs, OfKind(open, !b.ToolResult?)) == (if fits then runs else runs + [open])
            && OfKind(next, b.ToolResult?) == OfKind(open, b.ToolResult?) + [b]
            && OfKind(next, !b.ToolResult?) == []
  {
  }

  /** Flushes both buffers, of which one holds the open run and the other is empty. */
  method FlushBoth(name: Naming, message: Message, assistantBlocks: seq<Block>, toolResultBlocks: seq<Block>,
                   soFar: seq<Message>, ghost runs: seq<seq<Block>>, ghost open: seq<Block>,
                   ghost before: seq<Message>, ghost made: seq<seq<Block>> -> seq<Message>)
    returns (result: seq<Message>)
    requires made == Made(name, message, before) && soFar == made(runs)
    requires assistantBlocks == OfKind(open, false) && toolResultBlocks == OfKind(open, true)
    ensures result == made(WithOpen(runs, open))
  {
    result := FlushBlocks(name, message, assistantBlocks, Assistant, soFar, runs, before, made);
    result := FlushBlocks(name, message, toolResultBlocks, User, result, WithOpen(runs, assistantBlocks), before, made);
  }

  /** The splitting loop of `expandToolResultMessages`, appending to the result so far. */
  method SplitMessage(name: Naming, message: Message, before: seq<Message>) returns (result: seq<Message>)
    requires message.content.Blocks?
    ensures result == before + RunMessages(name, message, Runs(message.content.blocks), |before|)
  {
    result := before;
    var blocks := message.content.blocks;
    var currentAssistantBlocks: seq<Block> := [];
    var currentToolResultBlocks: seq<Block> := [];
    ghost var flushed: seq<seq<Block>>, open: seq<Block> := [], [];
    ghost var made := Made(name, message, before);
    for i := 0 to |blocks|
      invariant currentAssistantBlocks == OfKind(open, false) && currentToolResultBlocks == OfKind(open, true)
      invariant Runs(blocks[..i]) == WithOpen(flushed, open) && (open == [] ==> flushed == [])
      invariant result == made(flushed)
    {
      var block := blocks[i];
      RunsStep(blocks, i, flushed, open);
      BuffersStep(flushed, open, block);
      if block.ToolResult? {
        result := FlushBlocks(name, message, currentAssistantBlocks, Assistant, result, flushed, before, made);
        currentAssistantBlocks := [];
        currentToolResultBlocks := currentToolResultBlocks + [block];
      } else {
        result := FlushBlocks(name, message, currentToolResultBlocks, User, result, flushed, before, made);
        currentToolResultBlocks := [];
        currentAssistantBlocks := currentAssistantBlocks + [block];
      }
      if open == [] || SameKind(open, block) {
        open := open + [block];
      } else {
        flushed, open := flushed + [open], [block];
      }
    }
    assert blocks[..|blocks|] == blocks;
    result := FlushBoth(name, message, currentAssistantBlocks, currentToolResultBlocks, result, flushed, open, before,
                        made);
  }

  /** The finished runs and the open one, if it has any block. */
  function WithOpen(runs: seq<seq<Block>>, open: seq<Block>): seq<seq<Block>> {
    if open == [] then runs else runs + [open]
  }

  lemma OpenExtends(runs: seq<seq<Block>>, open: seq<Block>, b: Block)
    requires open == [] ==> runs == []
    ensures Extend(WithOpen(runs, open), b) ==
            if open == [] || SameKind(open, b) then WithOpen(runs, open + [b]) else WithOpen(runs + [open], [b])
  {
    if open == [] {
      assert WithOpen(runs, open) == [] && open + [b] == [b];
      assert runs + [[b]] == [[b]];
    } else {
      assert (runs + [open])[..|runs|] == runs;
    }
  }

  lemma RunsStep(blocks: seq<Block>, i: nat, runs: seq<seq<Block>>, open: seq<Block>)
    requires i < |blocks| && Runs(blocks[..i]) == WithOpen(runs, open) && (open == [] ==> runs == [])
    ensures Runs(blocks[..i + 1]) ==
            if open == [] || SameKind(open, blocks[i]) then WithOpen(runs, open + [blocks[i]])
            else WithOpen(runs + [open], [blocks[i]])
  {
    assert blocks[..i + 1][..i] == blocks[..i];
    OpenExtends(runs, open, blocks[i]);
  }

  lemma RunPushed(name: Naming, m: Message, runs: seq<seq<Block>>, run: seq<Block>, base: nat)
    ensures RunMessages(name, m, runs + [run], base) ==
            RunMessages(name, m, runs, base) + [RunMessage(name, m, run, base + |runs|)]
    ensures |RunMessages(name, m, runs, base)| == |runs|
  {
    assert (runs + [run])[..|runs|] == runs;
    RunCount(name, m, runs, base);
  }

  /** `expandToolResultMessages` */
  method ExpandToolResultMessages(messages: seq<Message>) returns (result: seq<Message>)
    ensures result == Expand(RunId, messages)
  {
    result := ExpandAll(RunId, messages);
  }

  method ExpandAll(name: Naming, messages: seq<Message>) returns (result: seq<Message>)
    ensures result == Expand(name, messages)
  {
    result := [];
    for i := 0 to |messages|
      invariant result == Expand(name, messages[..i])
    {
      var message := messages[i];
      assert messages[..i + 1][..i] == messages[..i];
      if !NeedsSplit(message) {
        result := result + [message];
        continue;
      }
      result := SplitMessage(name, message, result);
    }
    assert messages[..|messages|] == messages;
  }

  // ---- What expanding guarantees ----

  /** The content of a conversation as one sequence of texts and blocks. */
  datatype Item = Text(text: string) | OneBlock(block: Block)

  function ItemsOfBlocks(blocks: seq<Block>): seq<Item> {
    ConcatMap((b: Block) => [OneBlock(b)], blocks)
  }

  function ItemsOf(m: Message): seq<Item> {
    if m.content.PlainText? then [Text(m.content.text)] else ItemsOfBlocks(m.content.blocks)
  }

  function Items(messages: seq<Message>): seq<Item> {
    ConcatMap(ItemsOf, messages)
  }

  lemma {:induction false} ItemsOfRuns(name: Naming, m: Message, runs: seq<seq<Block>>, base: nat)
    ensures Items(RunMessages(name, m, runs, base)) == ItemsOfBlocks(Flatten(runs))
  {
    if runs != [] {
      var front, last := runs[..|runs| - 1], runs[|runs| - 1];
      ItemsOfRuns(name, m, front, base);
      ConcatMapAppend(ItemsOf, RunMessages(name, m, front, base), [RunMessage(name, m, last, base + |runs| - 1)]);
      ConcatMapOne(ItemsOf, RunMessage(name, m, last, base + |runs| - 1));
      ConcatMapAppend((b: Block) => [OneBlock(b)], Flatten(front), last);
    }
  }

  lemma {:induction false} NoToolResult(blocks: seq<Block>)
    requires forall b | b in blocks :: !b.ToolResult?
    ensures !HasToolResult(blocks)
  {
    if blocks != [] {
      assert blocks[0] in blocks && forall b | b in blocks[1..] :: b in blocks;
      NoToolResult(blocks[1..]);
    }
  }

  lemma RunIsSplit(name: Naming, m: Message, run: seq<Block>, position: nat)
    requires run != [] && forall b | b in run :: b.ToolResult? == run[0].ToolResult?
    ensures !NeedsSplit(RunMessage(name, m, run, position))
  {
    if !run[0].ToolResult? {
      NoToolResult(run);
    }
  }

  lemma RunMessagesSplit(name: Naming, m: Message, runs: seq<seq<Block>>, base: nat)
    requires RunsOk(runs)
    ensures forall x | x in RunMessages(name, m, runs, base) :: !NeedsSplit(x)
  {
    RunCount(name, m, runs, base);
    forall i | 0 <= i < |runs| ensures !NeedsSplit(RunMessages(name, m, runs, base)[i]) {
      RunAt(runs, i);
      RunMessageAt(name, m, runs, base, i);
      RunIsSplit(name, m, runs[i], base + i);
    }
  }

  /** One message: its content is kept in order; nothing in the outcome needs splitting any more. */
  lemma ExpandOneSound(name: Naming, m: Message, base: nat)
    ensures Items(ExpandOne(name, m, base)) == ItemsOf(m)
    ensures forall x | x in ExpandOne(name, m, base) :: !NeedsSplit(x)
  {
    if NeedsSplit(m) {
      RunsAreRuns(m.content.blocks);
      ItemsOfRuns(name, m, Runs(m.content.blocks), base);
      RunMessagesSplit(name, m, Runs(m.content.blocks), base);
    } else {
      ConcatMapOne(ItemsOf, m);
    }
  }

  /** A split message becomes non-empty block messages whose roles alternate. */
  lemma SplitAlternates(name: Naming, m: Message, base: nat, i: nat)
    requires NeedsSplit(m) && i < |ExpandOne(name, m, base)|
    ensures var split := ExpandOne(name, m, base);
            && split[i].content.Blocks? && split[i].content.blocks != []
            && (split[i].role.User? || split[i].role.Assistant?)
            && (i > 0 ==> split[i].role != split[i - 1].role)
  {
    var runs := Runs(m.content.blocks);
    RunsAreRuns(m.content.blocks);
    RunCount(name, m, runs, base);
    RunAt(runs, i);
    RunMessageAt(name, m, runs, base, i);
    if i > 0 {
      RunMessageAt(name, m, runs, base, i - 1);
    }
  }

  /**
   For every conversation: expanding keeps the content in order, leaves no tool result in an assistant message,
   and expanding again changes nothing.
   */
  lemma ExpandSound(name: Naming, messages: seq<Message>)
    ensures Items(Expand(name, messages)) == Items(messages)
    ensures forall x | x in Expand(name, messages) :: !NeedsSplit(x)
    ensures Expand(name, Expand(name, messages)) == Expand(name, messages)
  {
    ExpandKeepsItems(name, messages);
    ExpandNothing(name, Expand(name, messages));
  }

  lemma {:induction false} ExpandKeepsItems(name: Naming, messages: seq<Message>)
    ensures Items(Expand(name, messages)) == Items(messages)
    ensures forall x | x in Expand(name, messages) :: !NeedsSplit(x)
  {
    if messages != [] {
      var front, last := messages[..|messages| - 1], messages[|messages| - 1];
      var before := Expand(name, front);
      ExpandKeepsItems(name, front);
      ExpandOneSound(name, last, |before|);
      ConcatMapAppend(ItemsOf, before, ExpandOne(name, last, |before|));
    }
  }

  lemma PassesThrough(name: Naming, messages: seq<Message>, m: Message)
    requires !NeedsSplit(m) && Expand(name, messages) == messages
    ensures Expand(name, messages + [m]) == messages + [m]
  {
    assert (messages + [m])[..|messages|] == messages;
  }

  lemma ExpandLast(name: Naming, front: seq<Message>, last: Message)
    ensures Expand(name, front + [last]) == Expand(name, front) + ExpandOne(name, last, |Expand(name, front)|)
  {
    assert (front + [last])[..|front|] == front;
  }

  lemma ItemsBehind(start: seq<Message>, before: seq<Message>, more: seq<Message>, items: seq<Item>)
    requires start <= before && Items(before[|start|..]) == items
    ensures start <= before + more && Items((before + more)[|start|..]) == items + Items(more)
  {
    assert (before + more)[|start|..] == before[|start|..] + more;
    ConcatMapAppend(ItemsOf, before[|start|..], more);
  }

  lemma ItemsLast(front: seq<Message>, last: Message)
    ensures Items(front + [last]) == Items(front) + ItemsOf(last)
  {
    assert (front + [last])[..|front|] == front;
  }

  lemma ExpandFurther(name: Naming, a: seq<Message>, front: seq<Message>, last: Message)
    ensures Expand(name, a + (front + [last])) ==
            Expand(name, a + front) + ExpandOne(name, last, |Expand(name, a + front)|)
  {
    Assoc(a, front, [last]);
    ExpandLast(name, a + front, last);
  }

  lemma {:induction false} ExpandPrefix(name: Naming, a: seq<Message>, b: seq<Message>)
    ensures Expand(name, a) <= Expand(name, a + b)
    ensures Items(Expand(name, a + b)[|Expand(name, a)|..]) == Items(b)
  {
    if b == [] {
      assert a + b == a;
    } else {
      var front, last := b[..|b| - 1], b[|b| - 1];
      ExpandPrefix(name, a, front);
      assert b == front + [last];
      ExpandFurther(name, a, front, last);
      BehindMore(name, Expand(name, a), Expand(name, a + front), front, last);
    }
  }

  lemma BehindMore(name: Naming, start: seq<Message>, before: seq<Message>, front: seq<Message>, last: Message)
    requires start <= before && Items(before[|start|..]) == Items(front)
    ensures var after := before + ExpandOne(name, last, |before|);
            start <= after && Items(after[|start|..]) == Items(front + [last])
  {
    ItemsBehind(start, before, ExpandOne(name, last, |before|), Items(front));
    ExpandOneSound(name, last, |before|);
    ItemsLast(front, last);
  }

  /** A message that needs no splitting is passed through as it is, between the expansions of what surrounds it. */
  lemma MessagePassesThrough(name: Naming, a: seq<Message>, m: Message, b: seq<Message>)
    requires !NeedsSplit(m)
    ensures var (start, all) := (Expand(name, a), Expand(name, a + [m] + b));
            && start + [m] <= all && Items(start) == Items(a) && Items(all[|start| + 1..]) == Items(b)
  {
    assert (a + [m])[..|a|] == a;
    assert Expand(name, a + [m]) == Expand(name, a) + [m];
    ExpandPrefix(name, a + [m], b);
    ExpandKeepsItems(name, a);
  }

  /** A conversation without tool results in assistant messages passes through unchanged. */
  lemma {:induction false} ExpandNothing(name: Naming, messages: seq<Message>)
    requires forall i | 0 <= i < |messages| :: !NeedsSplit(messages[i])
    ensures Expand(name, messages) == messages
  {
    if messages != [] {
      var front, last := messages[..|messages| - 1], messages[|messages| - 1];
      ExpandNothing(name, front);
      PassesThrough(name, front, last);
      assert front + [last] == messages;
    }
  }

  // ---- The messages made ----

  lemma {:induction false} HasToolResultIff(blocks: seq<Block>)
    ensures HasToolResult(blocks) <==> exists b :: b in blocks && b.ToolResult?
  {
    if blocks != [] {
      HasToolResultIff(blocks[1..]);
      assert blocks == [blocks[0]] + blocks[1..];
    }
  }

  /** An assistant message with a tool result among its blocks. */
  ghost predicate Mixed(m: Message) {
    m.role == Assistant && m.content.Blocks? && exists b :: b in m.content.blocks && b.ToolResult?
  }

  lemma MixedIff(m: Message)
    ensures NeedsSplit(m) <==> Mixed(m)
  {
    if m.content.Blocks? {
      HasToolResultIff(m.content.blocks);
    }
  }

  /** Expanding leaves no tool result in an assistant message. */
  lemma NoneMixed(name: Naming, messages: seq<Message>)
    ensures forall x | x in Expand(name, messages) :: !Mixed(x)
  {
    ExpandSound(name, messages);
    forall x | x in Expand(name, messages) ensures !Mixed(x) {
      MixedIff(x);
    }
  }

  /**
   What an assistant message with tool results becomes: messages of one kind of blocks each, those of tool results from
   the user and the others from the assistant, named by the message, the role and the place in the whole result.
   */
  lemma SplitMeans(name: Naming, m: Message, base: nat, i: nat)
    requires Mixed(m) && i < |ExpandOne(name, m, base)|
    ensures var x := ExpandOne(name, m, base)[i];
            && x.content.Blocks? && x.content.blocks != []
            && (x.role == User <==> forall b | b in x.content.blocks :: b.ToolResult?)
            && (x.role == Assistant <==> forall b | b in x.content.blocks :: !b.ToolResult?)
            && x.id == name(m.id, x.role, base + i)
  {
    MixedIff(m);
    var runs := Runs(m.content.blocks);
    RunsAreRuns(m.content.blocks);
    RunCount(name, m, runs, base);
    RunAt(runs, i);
    RunMessageAt(name, m, runs, base, i);
    assert runs[i][0] in runs[i];
  }

  /** A message without tool results in the wrong place stays as it is. */
  lemma UnmixedStays(name: Naming, m: Message, base: nat)
    requires !Mixed(m)
    ensures ExpandOne(name, m, base) == [m]
  {
    MixedIff(m);
  }

  /** The names of the messages made. */
  lemma RunIdMeans(id: string, position: nat)
    ensures RunId(id, User, position) == id + "_user_" + Decimal(position)
    ensures RunId(id, Assistant, position) == id + "_asst_" + Decimal(position)
  {
  }
}
