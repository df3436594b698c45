/** The agent loop: its steps, its events, and the text it completes with. */
module AgentLoop {
  import opened Text
  import opened Generation

  /** What the loop handles of a provider stream. */
  datatype Item = Words(text: string) | Thought(text: string) | Call(id: string) | Finish(toolUse: bool)

  /** How handling a stream comes to an end; `CutShort` when the loop sees that it is aborted. */
  datatype StreamEnd = Ended | CutShort | Errored | Threw

  /**
   What one turn of the loop meets: an abort before it, a compaction, the provider stream and its end, the doom-loop
   guard, an abort before the tools; how many calls were made before an abort stopped them, and whether the last of
   them throws; and an abort after the tools.
   */
  datatype Turn = Turn(
    abortedBefore: bool, compacts: bool, items: seq<Item>, end: StreamEnd, escalates: bool, abortedAfter: bool,
    ran: nat, toolThrows: bool, abortedByTools: bool)

  /** The step limit, what each turn meets, and the call id that the result of a call carries. */
  datatype Conduct = Conduct(maxSteps: nat, turns: nat -> Turn, answer: string -> string)

  /** An accumulated content block; tool use and tool results are alike here. */
  datatype Block = TextBlock(text: string) | OtherBlock

  // ---- One turn ----

  /** The text of a stream. */
  function Heard(items: seq<Item>): string {
    if items == [] then []
    else var last := items[|items| - 1]; Heard(items[..|items| - 1]) + (if last.Words? then last.text else [])
  }

  function EventOf(item: Item): seq<ProviderEvent> {
    match item
    case Words(text) => [Token(text)]
    case Thought(text) => [Thinking(text)]
    case _ => []
  }

  function IdOf(item: Item): seq<string> {
    if item.Call? then [item.id] else []
  }

  /** Whether the last finish event asks for tools. */
  function ToolUse(items: seq<Item>): bool {
    if items == [] then false
    else var last := items[|items| - 1]; if last.Finish? then last.toolUse else ToolUse(items[..|items| - 1])
  }

  function TextBlocks(text: string): seq<Block> {
    if text == [] then [] else [TextBlock(text)]
  }

  function OtherBlocks(n: nat): seq<Block> {
    if n == 0 then [] else OtherBlocks(n - 1) + [OtherBlock]
  }

  /** A tool call is announced when it is made. */
  function Started(id: string): seq<ProviderEvent> {
    [ToolCallStart(id)]
  }

  function Answered(answer: string -> string): string -> seq<ProviderEvent> {
    (id: string) => [ToolCallEnd(answer(id))]
  }

  datatype After = Completes | Fails | Breaks | Continues

  /** The events of a turn, the blocks after it, and what follows. */
  datatype Went = Went(events: seq<ProviderEvent>, blocks: seq<Block>, after: After)

  function Reply(t: Turn): seq<ProviderEvent> {
    (if t.compacts then [Other] else []) + ConcatMap(EventOf, t.items)
  }

  /** The calls that are made. */
  function Made(t: Turn): seq<string> {
    var calls := ConcatMap(IdOf, t.items);
    if t.ran < |calls| then calls[..t.ran] else calls
  }

  function RunTools(t: Turn, answer: string -> string, blocks: seq<Block>): Went {
    var made := Made(t);
    var starts := ConcatMap(Started, made);
    if t.toolThrows then Went(starts, blocks, Breaks)
    else
      var stopped := t.abortedByTools || |made| < |ConcatMap(IdOf, t.items)|;
      Went(starts + ConcatMap(Answered(answer), made), blocks + OtherBlocks(|made|),
           if stopped then Completes else Continues)
  }

  /** The turn after a stream that has ended by itself. */
  function TakeReply(t: Turn, c: Conduct, i: nat, blocks: seq<Block>): Went {
    var said := blocks + TextBlocks(Heard(t.items));
    var calls := ConcatMap(IdOf, t.items);
    if calls == [] || !ToolUse(t.items) then Went([], said, Completes)
    else
      var used := said + OtherBlocks(|calls|);
      if i >= c.maxSteps || t.escalates || t.abortedAfter then Went([], used, Completes)
      else RunTools(t, c.answer, used)
  }

  /** Turn `i` of the loop. */
  function TakeTurn(c: Conduct, i: nat, blocks: seq<Block>): Went {
    var t := c.turns(i);
    if t.abortedBefore then Went([], blocks, Completes)
    else
      match t.end
      case Errored => Went(Reply(t), blocks, Fails)
      case Threw => Went(Reply(t), blocks, Breaks)
      case CutShort => Went(Reply(t), blocks, Completes)
      case Ended => var w := TakeReply(t, c, i, blocks); w.(events := Reply(t) + w.events)
  }

  // ---- The whole loop ----

  function Texts(blocks: seq<Block>): seq<string> {
    if blocks == [] then []
    else
      var last := blocks[|blocks| - 1];
      Texts(blocks[..|blocks| - 1]) + (if last.TextBlock? then [last.text] else [])
  }

  function TrimmedEnd(text: string): seq<string> {
    if TrimEnd(text) == [] then [] else [TrimEnd(text)]
  }

  /** `getTextContent` of the blocks that `finalizeLoopContent` returns. */
  function FinalText(blocks: seq<Block>): string {
    var texts := Texts(blocks);
    if forall b | b in blocks :: b.TextBlock? then Concat(texts)
    else if |texts| <= 1 then Concat(texts)
    else Join(ConcatMap(TrimmedEnd, texts), "\n\n")
  }

  /** How the loop ends. */
  datatype Ending = Completing(content: string) | Failing | Throwing

  /** The events of the loop without the last one, and its end. */
  datatype Course = Course(body: seq<ProviderEvent>, ending: Ending)

  /** What a loop does in turn `i` with the blocks accumulated before. */
  type Turns = (nat, seq<Block>) -> Went

  /** No turn from the limit on is followed by another one. */
  ghost predicate Bounded(took: Turns, most: nat) {
    forall i: nat, blocks: seq<Block> :: took(i, blocks).after.Continues? ==> i < most
  }

  /** The loop from turn `i` on. */
  function RunFrom(took: Turns, most: nat, i: nat, blocks: seq<Block>): Course
    requires Bounded(took, most)
    decreases most - i
  {
    var w := took(i, blocks);
    match w.after
    case Completes => Course(w.events, Completing(FinalText(w.blocks)))
    case Fails => Course(w.events, Failing)
    case Breaks => Course(w.events, Throwing)
    case Continues => var rest := RunFrom(took, most, i + 1, w.blocks); rest.(body := w.events + rest.body)
  }

  /** The part of the text of a turn that is streamed, but not accumulated. */
  function Dropped(t: Turn): string {
    if !t.abortedBefore && !t.end.Ended? then Heard(t.items) else []
  }

  /** What the last turn of the loop drops. */
  function DroppedLast(took: Turns, dropped: nat -> string, most: nat, i: nat, blocks: seq<Block>): string
    requires Bounded(took, most)
    decreases most - i
  {
    var w := took(i, blocks);
    if w.after.Continues? then DroppedLast(took, dropped, most, i + 1, w.blocks) else dropped(i)
  }

  function Took(c: Conduct): (took: Turns)
    ensures Bounded(took, c.maxSteps)
  {
    (i: nat, blocks: seq<Block>) => TakeTurn(c, i, blocks)
  }

  function Run(c: Conduct): Course {
    RunFrom(Took(c), c.maxSteps, 0, [])
  }

  /** The text of the turn that was cut short by an abort, if the loop ended so. */
  function CutText(c: Conduct): string {
    DroppedLast(Took(c), (i: nat) => Dropped(c.turns(i)), c.maxSteps, 0, [])
  }

  /** What the loop yields. */
  function Yielded(r: Course): seq<ProviderEvent> {
    r.body + (match r.ending case Completing(content) => [Done(content)] case Failing => [Error] case Throwing => [])
  }

  // ---- The content and the streamed text ----

  lemma {:induction false} TokenTextConcat(a: seq<ProviderEvent>, b: seq<ProviderEvent>)
    ensures TokenText(a + b) == TokenText(a) + TokenText(b)
  {
    if b == [] {
      assert a + b == a;
    } else {
      assert (a + b)[..|a + b| - 1] == a + b[..|b| - 1];
      TokenTextConcat(a, b[..|b| - 1]);
    }
  }

  lemma {:induction false} TokenTextNone(events: seq<ProviderEvent>)
    requires forall e | e in events :: !e.Token?
    ensures TokenText(events) == []
  {
    if events != [] {
      TokenTextNone(events[..|events| - 1]);
    }
  }

  lemma {:induction false} RelayedText(items: seq<Item>)
    ensures TokenText(ConcatMap(EventOf, items)) == Heard(items)
  {
    if items != [] {
      var front, last := items[..|items| - 1], items[|items| - 1];
      RelayedText(front);
      TokenTextConcat(ConcatMap(EventOf, front), EventOf(last));
      assert EventOf(last) != [] ==> EventOf(last)[..0] == [];
    }
  }

  lemma ReplyText(t: Turn)
    ensures TokenText(Reply(t)) == Heard(t.items)
  {
    var first: seq<ProviderEvent> := if t.compacts then [Other] else [];
    TokenTextConcat(first, ConcatMap(EventOf, t.items));
    TokenTextNone(first);
    RelayedText(t.items);
  }

  lemma {:induction false} SilentMap(f: string -> seq<ProviderEvent>, ids: seq<string>)
    requires forall id :: TokenText(f(id)) == []
    ensures TokenText(ConcatMap(f, ids)) == []
  {
    if ids != [] {
      var front := ids[..|ids| - 1];
      SilentMap(f, front);
      TokenTextConcat(ConcatMap(f, front), f(ids[|ids| - 1]));
    }
  }

  /** Tools stream no text. */
  lemma ToolsSilent(t: Turn, answer: string -> string, blocks: seq<Block>)
    ensures TokenText(RunTools(t, answer, blocks).events) == []
  {
    forall id: string ensures TokenText(Started(id)) == [] && TokenText(Answered(answer)(id)) == [] {
      assert Started(id)[..0] == [] && Answered(answer)(id)[..0] == [];
    }
    SilentMap(Started, Made(t));
    SilentMap(Answered(answer), Made(t));
    TokenTextConcat(ConcatMap(Started, Made(t)), ConcatMap(Answered(answer), Made(t)));
  }

  lemma {:induction false} TextsConcat(a: seq<Block>, b: seq<Block>)
    ensures Texts(a + b) == Texts(a) + Texts(b)
  {
    if b == [] {
      assert a + b == a;
    } else {
      assert (a + b)[..|a + b| - 1] == a + b[..|b| - 1];
      TextsConcat(a, b[..|b| - 1]);
    }
  }

  lemma {:induction false} TextsOther(n: nat)
    ensures Texts(OtherBlocks(n)) == []
  {
    if n > 0 {
      TextsOther(n - 1);
      TextsConcat(OtherBlocks(n - 1), [OtherBlock]);
    }
  }

  /** The accumulated text. */
  function Said(blocks: seq<Block>): string {
    Concat(Texts(blocks))
  }

  /** Blocks of tools add no text. */
  lemma SaidKept(blocks: seq<Block>, n: nat)
    ensures Said(blocks + OtherBlocks(n)) == Said(blocks)
  {
    TextsConcat(blocks, OtherBlocks(n));
    TextsOther(n);
    assert Texts(blocks) + [] == Texts(blocks);
  }

  lemma SaidMore(blocks: seq<Block>, text: string)
    ensures Said(blocks + TextBlocks(text)) == Said(blocks) + text
  {
    if text == [] {
      assert blocks + [] == blocks;
    } else {
      assert (blocks + [TextBlock(text)])[..|blocks|] == blocks;
      ConcatPush(Texts(blocks), text);
    }
  }

  lemma ToolsKeep(t: Turn, answer: string -> string, blocks: seq<Block>)
    ensures Said(RunTools(t, answer, blocks).blocks) == Said(blocks)
  {
    SaidKept(blocks, |Made(t)|);
  }

  lemma ReplySilent(t: Turn, c: Conduct, i: nat, blocks: seq<Block>)
    ensures TokenText(TakeReply(t, c, i, blocks).events) == []
  {
    ToolsSilent(t, c.answer, blocks + TextBlocks(Heard(t.items)) + OtherBlocks(|ConcatMap(IdOf, t.items)|));
  }

  lemma ReplyKeeps(t: Turn, c: Conduct, i: nat, blocks: seq<Block>)
    ensures Said(TakeReply(t, c, i, blocks).blocks) == Said(blocks) + Heard(t.items)
  {
    var heard, n := Heard(t.items), |ConcatMap(IdOf, t.items)|;
    var said := blocks + TextBlocks(heard);
    SaidMore(blocks, heard);
    SaidKept(said, n);
    ToolsKeep(t, c.answer, said + OtherBlocks(n));
  }

  /** A turn with these texts before and after it accumulates what it streams, except for what it drops. */
  ghost predicate Accounts(w: Went, blocks: seq<Block>, dropped: string) {
    Said(blocks) + TokenText(w.events) == Said(w.blocks) + dropped
  }

  lemma TurnAccounts(c: Conduct, i: nat, blocks: seq<Block>)
    ensures Accounts(TakeTurn(c, i, blocks), blocks, Dropped(c.turns(i)))
    ensures TakeTurn(c, i, blocks).after.Continues? ==> Dropped(c.turns(i)) == []
  {
    var t := c.turns(i);
    ReplyText(t);
    if !t.abortedBefore && t.end.Ended? {
      ReplyKeeps(t, c, i, blocks);
      ReplySilent(t, c, i, blocks);
      var w := TakeReply(t, c, i, blocks);
      RepliedAccounts(blocks, Reply(t), w, Heard(t.items));
    }
  }

  lemma RepliedAccounts(blocks: seq<Block>, reply: seq<ProviderEvent>, w: Went, heard: string)
    requires TokenText(reply) == heard && TokenText(w.events) == [] && Said(w.blocks) == Said(blocks) + heard
    ensures Accounts(w.(events := reply + w.events), blocks, [])
  {
    TokenTextConcat(reply, w.events);
    assert heard + [] == heard && Said(w.blocks) + [] == Said(w.blocks);
  }

  lemma {:induction false} InkOfTrimmedEnds(texts: seq<string>)
    ensures Ink(Concat(ConcatMap(TrimmedEnd, texts))) == Ink(Concat(texts))
  {
    if texts != [] {
      var front, last := texts[..|texts| - 1], texts[|texts| - 1];
      InkOfTrimmedEnds(front);
      InkTrimEnd(last);
      InkConcat(Concat(front), last);
      var kept := ConcatMap(TrimmedEnd, front);
      if TrimEnd(last) == [] {
        assert kept + TrimmedEnd(last) == kept;
      } else {
        ConcatPush(kept, TrimEnd(last));
        InkConcat(Concat(kept), TrimEnd(last));
      }
    }
  }

  lemma {:induction false} ConcatFirst(parts: seq<string>)
    requires parts != []
    ensures Concat(parts) == parts[0] + Concat(parts[1..])
  {
    var front := parts[..|parts| - 1];
    if front != [] {
      ConcatFirst(front);
      var rest := parts[1..];
      assert rest[..|rest| - 1] == front[1..] && rest[|rest| - 1] == parts[|parts| - 1];
      Assoc(parts[0], Concat(front[1..]), parts[|parts| - 1]);
    }
  }

  lemma {:induction false} InkOfJoin(parts: seq<string>, sep: string)
    requires Ink(sep) == []
    ensures Ink(Join(parts, sep)) == Ink(Concat(parts))
  {
    if |parts| == 1 {
      assert parts == [] + [parts[0]];
      ConcatPush([], parts[0]);
      assert Concat([]) + parts[0] == parts[0];
    } else if parts != [] {
      InkOfJoin(parts[1..], sep);
      InkConcat(parts[0] + sep, Join(parts[1..], sep));
      InkConcat(parts[0], sep);
      ConcatFirst(parts);
      InkConcat(parts[0], Concat(parts[1..]));
    }
  }

  /** The final text is the accumulated text up to white space. */
  lemma InkOfFinalText(blocks: seq<Block>)
    ensures Ink(FinalText(blocks)) == Ink(Said(blocks))
  {
    var texts := Texts(blocks);
    InkOfTrimmedEnds(texts);
    assert "\n\n"[1..] == "\n" && "\n"[1..] == "";
    InkOfJoin(ConcatMap(TrimmedEnd, texts), "\n\n");
  }

  /** From any turn on: the text accumulated before and the text streamed are the content and what was dropped. */
  lemma {:induction false} ContentFrom(took: Turns, dropped: nat -> string, most: nat, i: nat, blocks: seq<Block>)
    requires Bounded(took, most)
    requires forall j: nat, all: seq<Block> :: Accounts(took(j, all), all, dropped(j))
    requires forall j: nat, all: seq<Block> :: took(j, all).after.Continues? ==> dropped(j) == []
    requires RunFrom(took, most, i, blocks).ending.Completing?
    ensures var r := RunFrom(took, most, i, blocks);
            Ink(Said(blocks) + TokenText(r.body)) ==
            Ink(r.ending.content) + Ink(DroppedLast(took, dropped, most, i, blocks))
    decreases most - i
  {
    var w := took(i, blocks);
    assert Accounts(w, blocks, dropped(i));
    if w.after.Continues? {
      assert Said(w.blocks) + dropped(i) == Said(w.blocks);
      ContentFrom(took, dropped, most, i + 1, w.blocks);
      var rest := RunFrom(took, most, i + 1, w.blocks);
      TokenTextConcat(w.events, rest.body);
      Assoc(Said(blocks), TokenText(w.events), TokenText(rest.body));
    } else {
      InkConcat(Said(w.blocks), dropped(i));
      InkOfFinalText(w.blocks);
    }
  }

  /** The completed content is all text streamed, up to white space, without that of a turn cut short by an abort. */
  lemma ContentIsText(c: Conduct)
    requires Run(c).ending.Completing?
    ensures Ink(TokenText(Run(c).body)) == Ink(Run(c).ending.content) + Ink(CutText(c))
  {
    forall j: nat, all: seq<Block> ensures Accounts(Took(c)(j, all), all, Dropped(c.turns(j)))
      ensures Took(c)(j, all).after.Continues? ==> Dropped(c.turns(j)) == []
    {
      TurnAccounts(c, j, all);
    }
    ContentFrom(Took(c), (i: nat) => Dropped(c.turns(i)), c.maxSteps, 0, []);
    assert [] + TokenText(Run(c).body) == TokenText(Run(c).body);
  }

  // ---- What a channel gets of it ----

  ghost predicate GoesOn(events: seq<ProviderEvent>) {
    forall e | e in events :: !Ends(e, true)
  }

  lemma {:induction false} MapGoesOn<T(!new)>(f: T -> seq<ProviderEvent>, xs: seq<T>)
    requires forall x :: GoesOn(f(x))
    ensures GoesOn(ConcatMap(f, xs))
  {
    if xs != [] {
      MapGoesOn(f, xs[..|xs| - 1]);
    }
  }

  lemma TurnGoesOn(c: Conduct, i: nat, blocks: seq<Block>)
    ensures GoesOn(TakeTurn(c, i, blocks).events)
  {
    var t := c.turns(i);
    MapGoesOn(EventOf, t.items);
    MapGoesOn(Started, Made(t));
    MapGoesOn(Answered(c.answer), Made(t));
  }

  lemma {:induction false} BodyGoesOn(took: Turns, most: nat, i: nat, blocks: seq<Block>)
    requires Bounded(took, most) && forall j: nat, all: seq<Block> :: GoesOn(took(j, all).events)
    ensures GoesOn(RunFrom(took, most, i, blocks).body)
    decreases most - i
  {
    var w := took(i, blocks);
    if w.after.Continues? {
      BodyGoesOn(took, most, i + 1, w.blocks);
    }
  }

  /** An execution whose events are those of an agent loop. */
  ghost predicate FedBy(x: Execution, c: Conduct) {
    x.harness && x.events == Yielded(Run(c)) && (x.throws <==> Run(c).ending.Throwing?)
  }

  /** The daemon relays the whole course of the loop, and completes with its content. */
  lemma FedMeans(x: Execution, c: Conduct)
    requires FedBy(x, c)
    ensures Before(x.events, true) == Run(c).body
    ensures Content(x) == if Run(c).ending.Completing? then Some(Run(c).ending.content) else None
  {
    var r := Run(c);
    forall j: nat, all: seq<Block> ensures GoesOn(Took(c)(j, all).events) {
      TurnGoesOn(c, j, all);
    }
    BodyGoesOn(Took(c), c.maxSteps, 0, []);
    assert x.events[..|r.body|] == r.body;
    forall k | 0 <= k < |r.body| ensures !Ends(x.events[k], true) {
      assert x.events[k] == r.body[k] && r.body[k] in r.body;
    }
    BeforeAt(x.events, true, |r.body|);
  }

  /**
   A completed message of the agent loop: its channel gets all text streamed if and only if it takes all live texts, or
   takes none of them but the whole response, and no abort has cut off a visible part.
   */
  lemma ChannelGetsAllIff(x: Execution, c: Conduct)
    requires FedBy(x, c) && x.preflight.Ready? && x.hasChannel && Terminal(x).Complete?
    ensures GetsAll(x) <==>
            || AllAccepted(x.deliver, |LiveTexts(x)|)
            || (!AnyAccepted(x.deliver, |LiveTexts(x)|) && x.whole.Accepted? && Trim(CutText(c)) == [])
    ensures Taken(x.deliver, LiveTexts(x)) == [] || WholeForwards(x) == []
  {
    FedMeans(x, c);
    ContentIsText(c);
    InkTrim(CutText(c));
    GetsAllIff(x);
  }

  /** A turn that is aborted after one text. */
  predicate CutAfter(t: Turn, a: string) {
    !t.abortedBefore && !t.compacts && t.items == [Words(a)] && t.end.CutShort?
  }

  lemma CutCourse(c: Conduct, a: string)
    requires CutAfter(c.turns(0), a)
    ensures Yielded(Run(c)) == [Token(a), Done("")] && Run(c).body == [Token(a)] && Run(c).ending.Completing?
  {
    ConcatMapOne(EventOf, Words(a));
    assert Reply(c.turns(0)) == [] + [Token(a)] == [Token(a)];
    assert Took(c)(0, []) == Went([Token(a)], [], Completes);
  }

  lemma OneBuffer(a: string)
    requires Trim(a) == a != ""
    ensures Buffer([Token(a)]) == a && Flushed([Token(a)]) == [] && TokenText([Token(a)]) == a
    ensures NonBlank(a) == [a]
  {
    assert [Token(a)][..0] == [];
  }

  /** Its text is lost on a channel that declines it live: at most the notice for an empty response is sent. */
  lemma AbortedTextLost(x: Execution, c: Conduct, a: string)
    requires FedBy(x, c) && CutAfter(c.turns(0), a) && Trim(a) == a != ""
    requires x.preflight.Ready? && x.hasChannel && x.stores && !x.deliver(0).Accepted?
    ensures Terminal(x) == Complete("") && LiveTexts(x) == [a] && WholeForwards(x) == [""]
    ensures Received(x) == (if x.whole.Accepted? then [EmptyNotice] else []) && !GetsAll(x)
  {
    CutCourse(c, a);
    FedMeans(x, c);
    OneBuffer(a);
    LiveLost(x, a);
    LostReceived(x, a);
    LostInk(x, a);
  }

  lemma LostReceived(x: Execution, a: string)
    requires LiveTexts(x) == [a] && !AnyAccepted(x.deliver, 1) && WholeForwards(x) == [""]
    ensures Received(x) == if x.whole.Accepted? then [EmptyNotice] else []
  {
    TakenNone(x.deliver, [a]);
  }

  lemma LiveLost(x: Execution, a: string)
    requires x.preflight.Ready? && x.harness && x.hasChannel && x.stores && !x.deliver(0).Accepted?
    requires Before(x.events, true) == [Token(a)] && Content(x) == Some("")
    requires Buffer([Token(a)]) == a && Flushed([Token(a)]) == [] && NonBlank(a) == [a]
    ensures LiveTexts(x) == [a] && !AnyAccepted(x.deliver, 1) && WholeForwards(x) == [""]
  {
    assert [] + [a] == [a];
  }

  lemma LostInk(x: Execution, a: string)
    requires x.harness && Before(x.events, true) == [Token(a)] && Trim(a) == a != "" && TokenText([Token(a)]) == a
    requires Received(x) == (if x.whole.Accepted? then [EmptyNotice] else [])
    ensures !GetsAll(x)
  {
    InkTrim(a);
    OwnTextPush([], EmptyNotice);
    assert [] + [EmptyNotice] == [EmptyNotice];
  }

  // ---- The loop itself ----

  /** What one more item of a stream adds. */
  lemma StreamStep(first: seq<ProviderEvent>, items: seq<Item>, k: nat)
    requires k < |items|
    ensures first + ConcatMap(EventOf, items[..k + 1]) == first + ConcatMap(EventOf, items[..k]) + EventOf(items[k])
    ensures ConcatMap(IdOf, items[..k + 1]) == ConcatMap(IdOf, items[..k]) + IdOf(items[k])
    ensures Heard(items[..k + 1]) == Heard(items[..k]) + (if items[k].Words? then items[k].text else [])
    ensures ToolUse(items[..k + 1]) == if items[k].Finish? then items[k].toolUse else ToolUse(items[..k])
  {
    assert items[..k + 1][..k] == items[..k];
    ConcatMapNext(EventOf, items, k);
    ConcatMapNext(IdOf, items, k);
    Assoc(first, ConcatMap(EventOf, items[..k]), EventOf(items[k]));
  }

  /** Handles a stream: its events, its text, its tool calls and whether it finished in order to use tools. */
  method HandleStream(t: Turn)
    returns (events: seq<ProviderEvent>, textOutput: string, calls: seq<string>, toolUse: bool)
    ensures events == Reply(t) && textOutput == Heard(t.items)
    ensures calls == ConcatMap(IdOf, t.items) && toolUse == ToolUse(t.items)
  {
    events := if t.compacts then [Other] else [];
    textOutput, calls, toolUse := "", [], false;
    ghost var first := events;
    for k := 0 to |t.items|
      invariant events == first + ConcatMap(EventOf, t.items[..k])
      invariant textOutput == Heard(t.items[..k]) && calls == ConcatMap(IdOf, t.items[..k])
      invariant toolUse == ToolUse(t.items[..k])
    {
      StreamStep(first, t.items, k);
      match t.items[k] {
        case Words(text) =>
          textOutput := textOutput + text;
          events := events + [Token(text)];
        case Thought(text) => events := events + [Thinking(text)];
        case Call(id) => calls := calls + [id];
        case Finish(use) => toolUse := use;
      }
    }
    assert t.items[..|t.items|] == t.items;
  }

  method MakeCalls(calls: seq<string>) returns (events: seq<ProviderEvent>)
    ensures events == ConcatMap(Started, calls)
  {
    events := [];
    for k := 0 to |calls|
      invariant events == ConcatMap(Started, calls[..k])
    {
      ConcatMapNext(Started, calls, k);
      events := events + [ToolCallStart(calls[k])];
    }
    assert calls[..|calls|] == calls;
  }

  method ReportResults(calls: seq<string>, answer: string -> string)
    returns (events: seq<ProviderEvent>, results: seq<Block>)
    ensures events == ConcatMap(Answered(answer), calls) && results == OtherBlocks(|calls|)
  {
    events, results := [], [];
    for k := 0 to |calls|
      invariant events == ConcatMap(Answered(answer), calls[..k]) && results == OtherBlocks(k)
    {
      ConcatMapNext(Answered(answer), calls, k);
      events := events + [ToolCallEnd(answer(calls[k]))];
      results := results + [OtherBlock];
    }
    assert calls[..|calls|] == calls;
  }

  /** Makes the calls one after the other until an abort stops them, then reports the results. */
  method ExecuteTools(t: Turn, answer: string -> string, calls: seq<string>, blocks: seq<Block>) returns (w: Went)
    requires calls == ConcatMap(IdOf, t.items)
    ensures w == RunTools(t, answer, blocks)
  {
    var made := calls;
    if t.ran < |calls| {
      made := calls[..t.ran];
    }
    var starts := MakeCalls(made);
    if t.toolThrows {
      return Went(starts, blocks, Breaks);
    }
    var ends, results := ReportResults(made, answer);
    w := Went(starts + ends, blocks + results,
              if t.abortedByTools || |made| < |calls| then Completes else Continues);
  }

  method ToolUseBlocks(n: nat) returns (blocks: seq<Block>)
    ensures blocks == OtherBlocks(n)
  {
    blocks := [];
    for k := 0 to n
      invariant blocks == OtherBlocks(k)
    {
      blocks := blocks + [OtherBlock];
    }
  }

  /** One turn: provider stream, then the tools it asks for. */
  method Turned(c: Conduct, stepsUsed: nat, blocks: seq<Block>) returns (w: Went)
    ensures w == TakeTurn(c, stepsUsed, blocks)
  {
    var t := c.turns(stepsUsed);
    if t.abortedBefore {
      return Went([], blocks, Completes);
    }
    var events, textOutput, calls, toolUse := HandleStream(t);
    match t.end {
      case Errored => return Went(events, blocks, Fails);
      case Threw => return Went(events, blocks, Breaks);
      case CutShort => return Went(events, blocks, Completes);
      case Ended =>
    }
    var said := if |textOutput| > 0 then blocks + [TextBlock(textOutput)] else blocks;
    assert said == blocks + TextBlocks(textOutput);
    assert events + [] == events;
    if |calls| == 0 || !toolUse {
      return Went(events, said, Completes);
    }
    var uses := ToolUseBlocks(|calls|);
    if stepsUsed >= c.maxSteps || t.escalates || t.abortedAfter {
      return Went(events, said + uses, Completes);
    }
    var ran := ExecuteTools(t, c.answer, calls, said + uses);
    w := Went(events + ran.events, ran.blocks, ran.after);
  }

  /** `runWithProvider` */
  method RunWithProvider(c: Conduct) returns (events: seq<ProviderEvent>, throws: bool)
    ensures events == Yielded(Run(c)) && throws == Run(c).ending.Throwing?
  {
    events, throws := [], false;
    var accumulated: seq<Block>, stepsUsed := [], 0;
    while true
      invariant var rest := RunFrom(Took(c), c.maxSteps, stepsUsed, accumulated);
                Run(c) == Course(events + rest.body, rest.ending)
      decreases c.maxSteps - stepsUsed
    {
      var w := Turned(c, stepsUsed, accumulated);
      assert w == Took(c)(stepsUsed, accumulated);
      ghost var before := events;
      events := events + w.events;
      match w.after {
        case Completes => return events + [Done(FinalText(w.blocks))], false;
        case Fails => return events + [Error], false;
        case Breaks => return events, true;
        case Continues =>
      }
      Assoc(before, w.events, RunFrom(Took(c), c.maxSteps, stepsUsed + 1, w.blocks).body);
      accumulated, stepsUsed := w.blocks, stepsUsed + 1;
    }
  }
}
