/** The stream events a provider generation publishes, and what it forwards to a chat channel. */
module Generation {
  import opened Text

  /** Events of the provider or of the agent loop; `Other` are those that only start a message. */
  datatype ProviderEvent =
    | Token(text: string)
    | Thinking(text: string)
    | ToolCallStart(id: string)
    | ToolCallEnd(id: string)
    | Error
    | Done(content: string)
    | Other

  datatype Body =
    | Start
    | Chunk(text: string)
    | ThinkingChunk(text: string)
    | ToolStarted(id: string)
    | ToolEnded(id: string)
    | Complete(content: string)
    | Failed

  datatype Event = Event(body: Body, sequence: nat)

  /** What checking and routing before the generation come to. */
  datatype Preflight = Ready | Denied | Throws

  /** How the channel takes a message: it is sent, refused (no channel, disabled), or the sending fails. */
  datatype Delivery = Accepted | Declined | DeliveryThrows

  /** What a channel that takes a message gets to see: the text, or the fixed notice that stands for a blank one. */
  datatype Outbound = Said(text: string) | EmptyNotice

  /**
   One execution: the events that arrive and whether the stream throws after them; whether the completed message
   can be stored; and the channel, if any, with its answers to the n-th live chunk and to a whole response.
   */
  datatype Execution = Execution(
    preflight: Preflight, harness: bool, events: seq<ProviderEvent>, throws: bool, stores: bool,
    hasChannel: bool, deliver: nat -> Delivery, whole: Delivery)

  // ---- What should be published ----

  /** The events before the first one that ends the loop. */
  function Before(events: seq<ProviderEvent>, harness: bool): seq<ProviderEvent> {
    if events == [] || events[0].Error? || (harness && events[0].Done?) then []
    else [events[0]] + Before(events[1..], harness)
  }

  function BodyOf(e: ProviderEvent, harness: bool): seq<Body> {
    match e
    case Token(text) => [Chunk(text)]
    case Thinking(text) => [ThinkingChunk(text)]
    case ToolCallStart(id) => if harness then [ToolStarted(id)] else []
    case ToolCallEnd(id) => if harness then [ToolEnded(id)] else []
    case _ => []
  }

  function Bodies(events: seq<ProviderEvent>, harness: bool): seq<Body> {
    if events == [] then []
    else Bodies(events[..|events| - 1], harness) + BodyOf(events[|events| - 1], harness)
  }

  /** An error as the first event starts a message in single-turn mode only. */
  predicate Starts(events: seq<ProviderEvent>, harness: bool) {
    events != [] && !(harness && events[0].Error?)
  }

  function StartOf(events: seq<ProviderEvent>, harness: bool): seq<Body> {
    if Starts(events, harness) then [Start] else []
  }

  /** The event that ended the loop, if one did. */
  function Ending(events: seq<ProviderEvent>, harness: bool): Option<ProviderEvent> {
    var n := |Before(events, harness)|;
    if n < |events| then Some(events[n]) else None
  }

  function TokenText(events: seq<ProviderEvent>): string {
    if events == [] then []
    else
      var last := events[|events| - 1];
      TokenText(events[..|events| - 1]) + (if last.Token? then last.text else [])
  }

  /** The content a generation returns; `None` when it throws. */
  function Content(x: Execution): Option<string> {
    match Ending(x.events, x.harness)
    case Some(Error) => None
    case Some(Done(content)) => Some(content)
    case _ => if x.throws then None else Some(if x.harness then "" else TokenText(x.events))
  }

  function Terminal(x: Execution): Body {
    if Content(x).Some? && x.stores then Complete(Content(x).value) else Failed
  }

  /** Everything one execution publishes. */
  function Narrative(x: Execution): seq<Body> {
    if !x.preflight.Ready? then [Failed]
    else StartOf(x.events, x.harness) + Bodies(Before(x.events, x.harness), x.harness) + [Terminal(x)]
  }

  /** The bodies with the sequence numbers 0, 1, 2, ... */
  function Numbered(bodies: seq<Body>): seq<Event> {
    if bodies == [] then []
    else Numbered(bodies[..|bodies| - 1]) + [Event(bodies[|bodies| - 1], |bodies| - 1)]
  }

  lemma {:induction false} NumberedIs(bodies: seq<Body>)
    ensures |Numbered(bodies)| == |bodies|
    ensures forall i | 0 <= i < |bodies| :: Numbered(bodies)[i] == Event(bodies[i], i)
  {
    if bodies != [] {
      NumberedIs(bodies[..|bodies| - 1]);
    }
  }

  // ---- What should reach the channel live ----

  /** The text received since the last tool call started. */
  function Buffer(events: seq<ProviderEvent>): string {
    if events == [] then []
    else
      var last := events[|events| - 1];
      if last.ToolCallStart? then []
      else Buffer(events[..|events| - 1]) + (if last.Token? then last.text else [])
  }

  function NonBlank(text: string): seq<string> {
    if Trim(text) == [] then [] else [Trim(text)]
  }

  /** The texts flushed when tool calls start. */
  function Flushed(events: seq<ProviderEvent>): seq<string> {
    if events == [] then []
    else
      var front := events[..|events| - 1];
      Flushed(front) + (if events[|events| - 1].ToolCallStart? then NonBlank(Buffer(front)) else [])
  }

  /** All texts offered to the channel live: those at tool calls, and the rest unless the loop ended in an error. */
  function LiveTexts(x: Execution): seq<string> {
    if !x.harness || !x.hasChannel || !x.preflight.Ready? then []
    else
      var seen := Before(x.events, true);
      Flushed(seen) + (if Content(x).Some? then NonBlank(Buffer(seen)) else [])
  }

  predicate AnyAccepted(deliver: nat -> Delivery, count: nat) {
    exists k | 0 <= k < count :: deliver(k).Accepted?
  }

  /** The whole response is forwarded when it completed and no live chunk was accepted. */
  function WholeForwards(x: Execution): seq<string> {
    if x.preflight.Ready? && x.hasChannel && Terminal(x).Complete? && !AnyAccepted(x.deliver, |LiveTexts(x)|)
    then [Terminal(x).content] else []
  }

  /** The whole response to be forwarded, if any, when a generation has come to an end. */
  function WholeNow(x: Execution, content: Option<string>, channelChunksSent: bool): seq<string> {
    if content.Some? && x.stores && x.hasChannel && !channelChunksSent then [content.value] else []
  }

  // ---- Properties of the narrative ----

  predicate IsTerminal(b: Body) {
    b.Complete? || b.Failed?
  }

  lemma {:induction false} BodiesPlain(events: seq<ProviderEvent>, harness: bool)
    ensures forall b | b in Bodies(events, harness) :: !IsTerminal(b) && !b.Start?
  {
    if events != [] {
      BodiesPlain(events[..|events| - 1], harness);
    }
  }

  /**
   For every execution the published events carry the sequence numbers 0, 1, 2, ...; exactly one of them is
   terminal and it is the last; and `message_start` is published exactly once, first, if a start-triggering
   event arrived, and never otherwise.
   */
  lemma StreamShape(x: Execution)
    ensures var events := Numbered(Narrative(x));
            && events != []
            && (forall i | 0 <= i < |events| :: events[i].sequence == i)
            && (forall i | 0 <= i < |events| :: IsTerminal(events[i].body) <==> i == |events| - 1)
            && (forall i | 0 <= i < |events| :: events[i].body.Start? <==>
                  i == 0 && x.preflight.Ready? && Starts(x.events, x.harness))
  {
    NumberedIs(Narrative(x));
    if x.preflight.Ready? {
      BodiesPlain(Before(x.events, x.harness), x.harness);
      Framed(Starts(x.events, x.harness), Bodies(Before(x.events, x.harness), x.harness), Terminal(x));
    }
  }

  lemma Framed(starts: bool, middle: seq<Body>, last: Body)
    requires IsTerminal(last) && forall b | b in middle :: !IsTerminal(b) && !b.Start?
    ensures var all := (if starts then [Start] else []) + middle + [last];
            && (forall i | 0 <= i < |all| :: IsTerminal(all[i]) <==> i == |all| - 1)
            && (forall i | 0 <= i < |all| :: all[i].Start? <==> i == 0 && starts)
  {
    var start := if starts then [Start] else [];
    var all := start + middle + [last];
    forall i | |start| <= i < |all| - 1 ensures !IsTerminal(all[i]) && !all[i].Start? {
      assert all[i] == middle[i - |start|] && middle[i - |start|] in middle;
    }
  }

  function ChunkText(bodies: seq<Body>): string {
    if bodies == [] then []
    else
      var last := bodies[|bodies| - 1];
      ChunkText(bodies[..|bodies| - 1]) + (if last.Chunk? then last.text else [])
  }

  lemma {:induction false} ChunkTextConcat(a: seq<Body>, b: seq<Body>)
    ensures ChunkText(a + b) == ChunkText(a) + ChunkText(b)
  {
    if b == [] {
      assert a + b == a;
    } else {
      assert (a + b)[..|a + b| - 1] == a + b[..|b| - 1];
      ChunkTextConcat(a, b[..|b| - 1]);
    }
  }

  lemma OneBody(e: ProviderEvent, harness: bool)
    ensures ChunkText(BodyOf(e, harness)) == if e.Token? then e.text else []
  {
    assert BodyOf(e, harness) != [] ==> BodyOf(e, harness)[..0] == [];
  }

  lemma {:induction false} ChunksAreTokens(events: seq<ProviderEvent>, harness: bool)
    ensures ChunkText(Bodies(events, harness)) == TokenText(events)
  {
    if events != [] {
      var front, last := events[..|events| - 1], events[|events| - 1];
      ChunksAreTokens(front, harness);
      ChunkTextConcat(Bodies(front, harness), BodyOf(last, harness));
      OneBody(last, harness);
    }
  }

  lemma {:induction false} BeforeAll(events: seq<ProviderEvent>)
    requires Ending(events, false).None?
    ensures Before(events, false) == events
  {
    if events != [] {
      assert Ending(events[1..], false).None?;
      BeforeAll(events[1..]);
    }
  }

  lemma {:induction false} EndingIsError(events: seq<ProviderEvent>)
    ensures Ending(events, false).Some? ==> Ending(events, false).value.Error?
  {
    if events != [] && !events[0].Error? {
      EndingIsError(events[1..]);
    }
  }

  /** In single-turn mode a completed message is exactly what was streamed in chunks. */
  lemma ChunksAreContent(x: Execution)
    requires !x.harness && Terminal(x).Complete? && x.preflight.Ready?
    ensures Terminal(x).content == ChunkText(Narrative(x))
  {
    EndingIsError(x.events);
    BeforeAll(x.events);
    ChunksAreTokens(x.events, false);
    var start, middle := StartOf(x.events, false), Bodies(x.events, false);
    ChunkTextConcat(start + middle, [Terminal(x)]);
    ChunkTextConcat(start, middle);
    assert [Terminal(x)][..0] == [] && (start != [] ==> start[..0] == []);
  }

  // ---- The generation itself ----

  /** The texts between tool calls, as they arrived. */
  function Segments(events: seq<ProviderEvent>): seq<string> {
    if events == [] then []
    else
      var front := events[..|events| - 1];
      Segments(front) + (if events[|events| - 1].ToolCallStart? then [Buffer(front)] else [])
  }

  /** The flushed texts are the non-blank segments, trimmed. */
  lemma {:induction false} FlushedAreSegments(events: seq<ProviderEvent>)
    ensures Flushed(events) == ConcatMap(NonBlank, Segments(events))
  {
    if events != [] {
      var front, last := events[..|events| - 1], events[|events| - 1];
      FlushedAreSegments(front);
      if last.ToolCallStart? {
        var all := Segments(front) + [Buffer(front)];
        assert all[..|all| - 1] == Segments(front);
      } else {
        assert Flushed(front) + [] == Flushed(front) && Segments(front) + [] == Segments(front);
      }
    }
  }

  /** The segments and the buffer together are all text received: no part of it is dropped or repeated. */
  lemma {:induction false} NothingUnflushed(events: seq<ProviderEvent>)
    ensures Concat(Segments(events)) + Buffer(events) == TokenText(events)
  {
    if events != [] {
      var front, last := events[..|events| - 1], events[|events| - 1];
      NothingUnflushed(front);
      if last.ToolCallStart? {
        var all := Segments(front) + [Buffer(front)];
        assert all[..|all| - 1] == Segments(front);
      } else {
        assert Segments(front) + [] == Segments(front);
        Assoc(Concat(Segments(front)), Buffer(front), if last.Token? then last.text else []);
      }
    }
  }

  // ---- What the channel receives ----

  predicate AllAccepted(deliver: nat -> Delivery, count: nat) {
    forall k | 0 <= k < count :: deliver(k).Accepted?
  }

  /** All text that a harness loop received, cut at the tool calls, trimmed, without the blank pieces. */
  function Pieces(events: seq<ProviderEvent>): seq<string> {
    ConcatMap(NonBlank, Segments(Before(events, true)) + [Buffer(Before(events, true))])
  }

  lemma LiveTextsArePieces(x: Execution)
    requires x.preflight.Ready? && x.harness && x.hasChannel && Content(x).Some?
    ensures LiveTexts(x) == Pieces(x.events)
  {
    var seen := Before(x.events, true);
    FlushedAreSegments(seen);
    ConcatMapAppend(NonBlank, Segments(seen), [Buffer(seen)]);
    ConcatMapOne(NonBlank, Buffer(seen));
  }

  /** The live texts that the channel takes. */
  function Taken(deliver: nat -> Delivery, texts: seq<string>): seq<Outbound> {
    if texts == [] then []
    else
      Taken(deliver, texts[..|texts| - 1])
      + (if deliver(|texts| - 1).Accepted? then [Said(texts[|texts| - 1])] else [])
  }

  lemma TakenPush(deliver: nat -> Delivery, texts: seq<string>, text: string)
    ensures Taken(deliver, texts + [text]) ==
            Taken(deliver, texts) + (if deliver(|texts|).Accepted? then [Said(text)] else [])
  {
    assert (texts + [text])[..|texts|] == texts;
  }

  lemma {:induction false} TakenNone(deliver: nat -> Delivery, texts: seq<string>)
    ensures Taken(deliver, texts) == [] <==> !AnyAccepted(deliver, |texts|)
  {
    if texts != [] {
      var front := texts[..|texts| - 1];
      TakenNone(deliver, front);
      assert AnyAccepted(deliver, |texts|) <==> AnyAccepted(deliver, |front|) || deliver(|front|).Accepted?;
    }
  }

  /** A whole response as the channel sees it. */
  function Shown(text: string): Outbound {
    if Trim(text) == [] then EmptyNotice else Said(text)
  }

  /** What the channel takes of the whole responses offered to it. */
  function TakenNow(whole: Delivery, texts: seq<string>): seq<Outbound> {
    if texts != [] && whole.Accepted? then [Shown(texts[0])] else []
  }

  /** Everything the channel takes: live texts, or the whole response. */
  function Received(x: Execution): seq<Outbound> {
    Taken(x.deliver, LiveTexts(x)) + TakenNow(x.whole, WholeForwards(x))
  }

  /** The text of the message in what the channel took; the notice carries none. */
  function OwnText(all: seq<Outbound>): string {
    if all == [] then []
    else OwnText(all[..|all| - 1]) + (if all[|all| - 1].Said? then all[|all| - 1].text else [])
  }

  lemma OwnTextPush(all: seq<Outbound>, o: Outbound)
    ensures OwnText(all + [o]) == OwnText(all) + (if o.Said? then o.text else [])
  {
    assert (all + [o])[..|all|] == all;
  }

  /** The channel has got all text that was received from the model, up to white space. */
  ghost predicate GetsAll(x: Execution) {
    Ink(OwnText(Received(x))) == Ink(TokenText(Before(x.events, x.harness)))
  }

  lemma {:induction false} InkOfPieces(texts: seq<string>)
    ensures Ink(Concat(ConcatMap(NonBlank, texts))) == Ink(Concat(texts))
    ensures forall t | t in ConcatMap(NonBlank, texts) :: Ink(t) != []
  {
    if texts != [] {
      var front, last := texts[..|texts| - 1], texts[|texts| - 1];
      InkOfPieces(front);
      InkTrim(last);
      InkConcat(Concat(front), last);
      var pieces := ConcatMap(NonBlank, front);
      if Trim(last) == [] {
        assert pieces + NonBlank(last) == pieces;
      } else {
        ConcatPush(pieces, Trim(last));
        InkConcat(Concat(pieces), Trim(last));
      }
    }
  }

  /** The pieces carry all the text. */
  lemma PiecesCarryAll(events: seq<ProviderEvent>)
    ensures Ink(Concat(Pieces(events))) == Ink(TokenText(Before(events, true)))
    ensures forall t | t in Pieces(events) :: Ink(t) != []
  {
    var seen := Before(events, true);
    InkOfPieces(Segments(seen) + [Buffer(seen)]);
    ConcatPush(Segments(seen), Buffer(seen));
    NothingUnflushed(seen);
  }

  /** What a channel that takes every text has got is all of it; what one that refuses some has got is shorter. */
  lemma {:induction false} RefusedIsShorter(deliver: nat -> Delivery, texts: seq<string>)
    requires forall t | t in texts :: Ink(t) != []
    ensures |Ink(OwnText(Taken(deliver, texts)))| <= |Ink(Concat(texts))|
    ensures if AllAccepted(deliver, |texts|) then OwnText(Taken(deliver, texts)) == Concat(texts)
            else |Ink(OwnText(Taken(deliver, texts)))| < |Ink(Concat(texts))|
  {
    if texts != [] {
      var front, last := texts[..|texts| - 1], texts[|texts| - 1];
      RefusedIsShorter(deliver, front);
      InkConcat(Concat(front), last);
      assert last in texts;
      assert AllAccepted(deliver, |texts|) <==> AllAccepted(deliver, |front|) && deliver(|front|).Accepted?;
      var taken := Taken(deliver, front);
      if deliver(|front|).Accepted? {
        OwnTextPush(taken, Said(last));
        InkConcat(OwnText(taken), last);
      } else {
        assert taken + [] == taken;
      }
    }
  }

  /** The text of the message that the channel has got, by the way it went. */
  lemma OwnTextReceived(x: Execution)
    ensures Ink(OwnText(Received(x))) ==
            if WholeForwards(x) == [] then Ink(OwnText(Taken(x.deliver, LiveTexts(x))))
            else if x.whole.Accepted? then Ink(WholeForwards(x)[0]) else []
    ensures Taken(x.deliver, LiveTexts(x)) == [] || WholeForwards(x) == []
  {
    var taken := Taken(x.deliver, LiveTexts(x));
    TakenNone(x.deliver, LiveTexts(x));
    if WholeForwards(x) == [] || !x.whole.Accepted? {
      assert taken + [] == taken;
    } else {
      var text := WholeForwards(x)[0];
      InkTrim(text);
      assert Received(x) == [] + [Shown(text)];
      OwnTextPush([], Shown(text));
      assert OwnText(Received(x)) == if Trim(text) == [] then [] else text;
    }
  }

  /**
   A completed harness message whose content is text received, in order: its channel gets all text if and only if it
   takes all live texts, or takes none of them but the whole response, and the content carries all text. It never gets
   both live texts and the whole.
   */
  lemma GetsAllIff(x: Execution)
    requires x.preflight.Ready? && x.harness && x.hasChannel && Terminal(x).Complete?
    requires Ink(Terminal(x).content) <= Ink(TokenText(Before(x.events, true)))
    ensures GetsAll(x) <==>
            || AllAccepted(x.deliver, |LiveTexts(x)|)
            || (&& !AnyAccepted(x.deliver, |LiveTexts(x)|) && x.whole.Accepted?
                && Ink(Terminal(x).content) == Ink(TokenText(Before(x.events, true))))
    ensures Taken(x.deliver, LiveTexts(x)) == [] || WholeForwards(x) == []
  {
    LiveTextsArePieces(x);
    PiecesCarryAll(x.events);
    OwnTextReceived(x);
    RefusedIsShorter(x.deliver, LiveTexts(x));
    GetsAllCases(x, Ink(TokenText(Before(x.events, true))));
  }

  /** The cases, told apart by the live texts that were taken. */
  lemma GetsAllCases(x: Execution, all: string)
    requires x.preflight.Ready? && x.harness && x.hasChannel && Terminal(x).Complete?
    requires all == Ink(Concat(LiveTexts(x))) && Ink(Terminal(x).content) <= all
    requires var got := OwnText(Taken(x.deliver, LiveTexts(x)));
             && (if AllAccepted(x.deliver, |LiveTexts(x)|) then got == Concat(LiveTexts(x)) else |Ink(got)| < |all|)
             && Ink(OwnText(Received(x))) ==
                if WholeForwards(x) == [] then Ink(got)
                else if x.whole.Accepted? then Ink(WholeForwards(x)[0]) else []
    ensures Ink(OwnText(Received(x))) == all <==>
            || AllAccepted(x.deliver, |LiveTexts(x)|)
            || (&& !AnyAccepted(x.deliver, |LiveTexts(x)|) && x.whole.Accepted? && Ink(Terminal(x).content) == all)
  {
    TakenNone(x.deliver, LiveTexts(x));
  }

  /** A completed single-turn message: its channel gets all text if and only if it takes the whole, or all is blank. */
  lemma SingleTurnGetsAllIff(x: Execution)
    requires x.preflight.Ready? && !x.harness && x.hasChannel && Terminal(x).Complete?
    ensures GetsAll(x) <==> x.whole.Accepted? || Trim(Terminal(x).content) == []
  {
    EndingIsError(x.events);
    BeforeAll(x.events);
    OwnTextReceived(x);
    InkTrim(Terminal(x).content);
  }

  /** Two texts with a tool call between them. */
  ghost predicate TwoTexts(events: seq<ProviderEvent>, a: string, b: string) {
    && |events| == 4 && events[0] == Token(a) && events[1].ToolCallStart? && events[2] == Token(b) && events[3].Done?
    && Trim(a) == a != "" && Trim(b) == b != ""
  }

  lemma TextOfOne(events: seq<ProviderEvent>, a: string)
    requires |events| >= 1 && events[0] == Token(a)
    ensures Buffer(events[..1]) == a && Flushed(events[..1]) == []
  {
    assert events[..0] == [];
    TextStep(events, 0);
  }

  lemma TextFlushed(events: seq<ProviderEvent>, a: string)
    requires |events| >= 2 && events[0] == Token(a) && events[1].ToolCallStart? && Trim(a) == a != ""
    ensures Buffer(events[..2]) == [] && Flushed(events[..2]) == [a]
  {
    TextOfOne(events, a);
    TextStep(events, 1);
  }

  lemma TextsOfTwo(events: seq<ProviderEvent>, a: string, b: string)
    requires TwoTexts(events, a, b)
    ensures Flushed(events[..3]) == [a] && Buffer(events[..3]) == b
  {
    TextFlushed(events, a);
    TextStep(events, 2);
  }

  lemma EndOfTwo(events: seq<ProviderEvent>, a: string, b: string)
    requires TwoTexts(events, a, b)
    ensures Before(events, true) == events[..3] && Ending(events, true) == Some(events[3])
  {
    BeforeAt(events, true, 3);
  }

  /** A channel that accepts the first of two live texts and declines the second never gets the second. */
  lemma TextLost(x: Execution, a: string, b: string)
    requires x.preflight.Ready? && x.harness && x.hasChannel && x.stores && TwoTexts(x.events, a, b)
    requires x.deliver(0).Accepted? && !x.deliver(1).Accepted?
    ensures Terminal(x) == Complete(x.events[3].content) && LiveTexts(x) == [a, b]
    ensures Received(x) == [Said(a)] && WholeForwards(x) == []
  {
    TextsOfTwo(x.events, a, b);
    EndOfTwo(x.events, a, b);
    assert LiveTexts(x) == [a] + [b] == [a, b];
    TakenFirst(x.deliver, a, b);
  }

  lemma TakenFirst(deliver: nat -> Delivery, a: string, b: string)
    requires deliver(0).Accepted? && !deliver(1).Accepted?
    ensures Taken(deliver, [a, b]) == [Said(a)] && AnyAccepted(deliver, 2)
  {
    assert [] + [a] == [a] && [a] + [b] == [a, b];
    TakenPush(deliver, [], a);
    TakenPush(deliver, [a], b);
  }

  lemma {:induction false} BeforeGrows(events: seq<ProviderEvent>, harness: bool, i: nat)
    requires i < |events| && forall k | 0 <= k < i :: !Ends(events[k], harness)
    ensures Ends(events[i], harness) ==> Before(events, harness) == events[..i]
  {
    if i > 0 {
      BeforeGrows(events[1..], harness, i - 1);
      assert events[..i] == [events[0]] + events[1..][..i - 1];
    }
  }

  predicate Ends(e: ProviderEvent, harness: bool) {
    e.Error? || (harness && e.Done?)
  }

  lemma {:induction false} BeforeWhole(events: seq<ProviderEvent>, harness: bool)
    requires forall k | 0 <= k < |events| :: !Ends(events[k], harness)
    ensures Before(events, harness) == events
  {
    if events != [] {
      BeforeWhole(events[1..], harness);
    }
  }

  /** What has been published when the loop has handled `i` events. */
  function Sofar(events: seq<ProviderEvent>, harness: bool, i: nat): seq<Body>
    requires i <= |events|
  {
    (if i > 0 then [Start] else []) + Bodies(events[..i], harness)
  }

  function HandledNow(e: ProviderEvent, harness: bool, first: bool): seq<Body> {
    (if first && !(harness && e.Error?) then [Start] else []) + BodyOf(e, harness)
  }

  lemma SofarStep(events: seq<ProviderEvent>, harness: bool, i: nat)
    requires i < |events| && !events[i].Error?
    ensures Sofar(events, harness, i + 1) == Sofar(events, harness, i) + HandledNow(events[i], harness, i == 0)
  {
    assert events[..i + 1][..i] == events[..i];
    if i == 0 {
      assert Bodies(events[..0], harness) == [];
    } else {
      Assoc([Start], Bodies(events[..i], harness), BodyOf(events[i], harness));
    }
  }

  lemma BeforeAt(events: seq<ProviderEvent>, harness: bool, i: nat)
    requires i <= |events| && forall k | 0 <= k < i :: !Ends(events[k], harness)
    requires i < |events| ==> Ends(events[i], harness)
    ensures Before(events, harness) == events[..i]
  {
    if i < |events| {
      BeforeGrows(events, harness, i);
    } else {
      BeforeWhole(events, harness);
      assert events[..i] == events;
    }
  }

  lemma SofarEnd(events: seq<ProviderEvent>, harness: bool, i: nat)
    requires i <= |events| && forall k | 0 <= k < i :: !Ends(events[k], harness)
    requires i < |events| ==> Ends(events[i], harness)
    ensures Before(events, harness) == events[..i]
    ensures StartOf(events, harness) + Bodies(Before(events, harness), harness) ==
            if i < |events| then Sofar(events, harness, i) + HandledNow(events[i], harness, i == 0)
            else Sofar(events, harness, i)
  {
    BeforeAt(events, harness, i);
    assert i > 0 ==> !Ends(events[0], harness);
    if i == 0 {
      assert Bodies(events[..0], harness) == [];
    }
  }

  /** The content once the loop has ended at event `i`, or after the last one. */
  lemma ContentAt(x: Execution, i: nat)
    requires i <= |x.events| && forall k | 0 <= k < i :: !Ends(x.events[k], x.harness)
    requires i < |x.events| ==> Ends(x.events[i], x.harness)
    ensures Content(x) ==
            if i < |x.events| then (if x.events[i].Error? then None else Some(x.events[i].content))
            else if x.throws then None
            else Some(if x.harness then "" else TokenText(x.events[..i]))
  {
    BeforeAt(x.events, x.harness, i);
    assert x.events[..|x.events|] == x.events;
  }

  lemma TextStep(events: seq<ProviderEvent>, i: nat)
    requires i < |events|
    ensures TokenText(events[..i + 1]) == TokenText(events[..i]) + (if events[i].Token? then events[i].text else [])
    ensures Buffer(events[..i + 1]) ==
            if events[i].ToolCallStart? then []
            else Buffer(events[..i]) + (if events[i].Token? then events[i].text else [])
    ensures Flushed(events[..i + 1]) ==
            Flushed(events[..i]) + (if events[i].ToolCallStart? then NonBlank(Buffer(events[..i])) else [])
  {
    assert events[..i + 1][..i] == events[..i];
  }

  /** The variables of the two event loops. */
  datatype Loop = Loop(told: seq<Body>, text: string, buffer: string, live: seq<string>)

  function Flush(x: Execution, l: Loop): Loop {
    l.(live := l.live + (if x.hasChannel then NonBlank(l.buffer) else []), buffer := [])
  }

  /** What an event that does not end the loop does to the texts. */
  function Collect(x: Execution, l: Loop, e: ProviderEvent): Loop {
    if !x.harness then (if e.Token? then l.(text := l.text + e.text) else l)
    else if e.Token? then l.(buffer := l.buffer + e.text)
    else if e.ToolCallStart? then Flush(x, l)
    else l
  }

  /** The loop from event `i` on, and the content it returns unless it throws. */
  function LoopFrom(x: Execution, i: nat, l: Loop): (Loop, Option<string>)
    decreases |x.events| - i
  {
    if i >= |x.events| then
      if x.throws then (l, None) else if x.harness then (Flush(x, l), Some("")) else (l, Some(l.text))
    else
      var e := x.events[i];
      var l1 := l.(told := l.told + HandledNow(e, x.harness, i == 0));
      if e.Error? then (l1, None)
      else if x.harness && e.Done? then (Flush(x, l1), Some(e.content))
      else LoopFrom(x, i + 1, Collect(x, l1, e))
  }

  /** The variables when the loop has handled `i` events. */
  function LoopAt(x: Execution, i: nat): Loop
    requires i <= |x.events|
  {
    var seen := x.events[..i];
    Loop(Sofar(x.events, x.harness, i),
         if x.harness then [] else TokenText(seen),
         if x.harness then Buffer(seen) else [],
         if x.harness && x.hasChannel then Flushed(seen) else [])
  }

  lemma LoopAtStep(x: Execution, i: nat)
    requires i < |x.events| && !x.events[i].Error?
    ensures var l := LoopAt(x, i);
            LoopAt(x, i + 1) ==
            Collect(x, l.(told := l.told + HandledNow(x.events[i], x.harness, i == 0)), x.events[i])
  {
    SofarStep(x.events, x.harness, i);
    TextStep(x.events, i);
  }

  lemma LoopFromStep(x: Execution, i: nat)
    requires i < |x.events| && !Ends(x.events[i], x.harness)
    ensures LoopFrom(x, i, LoopAt(x, i)) == LoopFrom(x, i + 1, LoopAt(x, i + 1))
  {
    LoopAtStep(x, i);
  }

  /** A loop that published, returned and offered what the events ask for. */
  predicate LoopOk(x: Execution, r: (Loop, Option<string>)) {
    && r.0.told == StartOf(x.events, x.harness) + Bodies(Before(x.events, x.harness), x.harness)
    && r.1 == Content(x) && r.0.live == LiveTexts(x)
  }

  lemma LoopFinal(x: Execution, i: nat)
    requires i <= |x.events| && forall k | 0 <= k < i :: !Ends(x.events[k], x.harness)
    requires i < |x.events| ==> Ends(x.events[i], x.harness)
    requires x.preflight.Ready?
    ensures LoopOk(x, LoopFrom(x, i, LoopAt(x, i)))
  {
    SofarEnd(x.events, x.harness, i);
    LoopEnds(x, i);
    LiveAt(x, i);
    assert Sofar(x.events, x.harness, i) + [] == Sofar(x.events, x.harness, i);
  }

  /** What every event that does not end the loop leaves as it is, is the same at the end of the loop. */
  lemma {:induction false} SameAtEnd<R>(x: Execution, value: nat -> R, i: nat) returns (j: nat)
    requires i <= |x.events| && forall k | 0 <= k < i :: !Ends(x.events[k], x.harness)
    requires forall k | 0 <= k < |x.events| && !Ends(x.events[k], x.harness) :: value(k) == value(k + 1)
    ensures i <= j <= |x.events| && forall k | 0 <= k < j :: !Ends(x.events[k], x.harness)
    ensures j < |x.events| ==> Ends(x.events[j], x.harness)
    ensures value(i) == value(j)
    decreases |x.events| - i
  {
    if i < |x.events| && !Ends(x.events[i], x.harness) {
      j := SameAtEnd(x, value, i + 1);
    } else {
      j := i;
    }
  }

  /** The result of the loop when it goes on from the variables it has at event `i`. */
  function ResultFrom(x: Execution): nat -> (Loop, Option<string>) {
    (i: nat) => if i <= |x.events| then LoopFrom(x, i, LoopAt(x, i)) else (Loop([], [], [], []), None)
  }

  lemma LoopMeans(x: Execution, i: nat)
    requires i <= |x.events| && forall k | 0 <= k < i :: !Ends(x.events[k], x.harness)
    requires x.preflight.Ready?
    ensures LoopOk(x, LoopFrom(x, i, LoopAt(x, i)))
  {
    forall k | 0 <= k < |x.events| && !Ends(x.events[k], x.harness) ensures ResultFrom(x)(k) == ResultFrom(x)(k + 1) {
      LoopFromStep(x, k);
    }
    var j := SameAtEnd(x, ResultFrom(x), i);
    LoopFinal(x, j);
  }

  /** What the loop leaves behind when event `i` ends it, or when the events have run out. */
  lemma LoopEnds(x: Execution, i: nat)
    requires i <= |x.events| && forall k | 0 <= k < i :: !Ends(x.events[k], x.harness)
    requires i < |x.events| ==> Ends(x.events[i], x.harness)
    ensures var (l, content) := LoopFrom(x, i, LoopAt(x, i));
            && content == Content(x)
            && l.told == Sofar(x.events, x.harness, i)
                         + (if i < |x.events| then HandledNow(x.events[i], x.harness, i == 0) else [])
            && l.live == LoopAt(x, i).live
                         + (if content.Some? && x.harness && x.hasChannel then NonBlank(Buffer(x.events[..i])) else [])
  {
    ContentAt(x, i);
    assert i < |x.events| ==> LoopAt(x, i).told + [] == LoopAt(x, i).told;
  }

  lemma LiveAt(x: Execution, i: nat)
    requires x.preflight.Ready? && i <= |x.events| && Before(x.events, x.harness) == x.events[..i]
    ensures LiveTexts(x) == LoopAt(x, i).live
            + (if Content(x).Some? && x.harness && x.hasChannel then NonBlank(Buffer(x.events[..i])) else [])
  {
  }

  /** The texts of the two loops start empty. */
  lemma LoopResult(x: Execution)
    requires x.preflight.Ready?
    ensures LoopOk(x, LoopFrom(x, 0, Loop([], [], [], [])))
  {
    assert x.events[..0] == [];
    assert LoopAt(x, 0) == Loop([], [], [], []);
    LoopMeans(x, 0);
  }

  /** What the harness loop has published when it has begun to handle an event. */
  function ToldAt(before: seq<Body>, e: ProviderEvent, first: bool): seq<Body> {
    before + (if first && !e.Error? then [Start] else [])
  }

  /** The harness loop from an event on, by what it does for this event. */
  lemma HarnessStep(x: Execution, i: nat, before: seq<Body>, buffer: string, live: seq<string>)
    requires x.harness && i < |x.events|
    ensures var (e, l) := (x.events[i], Loop(before, [], buffer, live));
            var told := ToldAt(before, e, i == 0);
            LoopFrom(x, i, l) ==
            if e.Error? then (Loop(told, [], buffer, live), None)
            else if e.Done? then (Flush(x, Loop(told, [], buffer, live)), Some(e.content))
            else
              var next := Collect(x, Loop([], [], buffer, live), e);
              LoopFrom(x, i + 1, Loop(told + BodyOf(e, true), [], next.buffer, next.live))
  {
    var e := x.events[i];
    Assoc(before, if i == 0 && !e.Error? then [Start] else [], BodyOf(e, true));
    var told := ToldAt(before, e, i == 0);
    assert told + [] == told;
  }

  class Daemon {
    /** The executions under way. */
    var activeExecutions: set<string>
    /** The events published by the current execution and the last sequence number it used. */
    var published: seq<Event>
    var sequence: int
    /** Texts offered to the channel live and as whole responses, and errors forwarded to it. */
    var liveTexts: seq<string>
    var wholeForwards: seq<string>
    var errorForwards: nat
    /** The messages with text of the model, or the notice, that the channel took. */
    var received: seq<Outbound>
    /** The bodies of the published events. */
    ghost var told: seq<Body>

    ghost predicate InStep()
      reads this
    {
      sequence + 1 == |told| && published == Numbered(told)
    }

    constructor ()
      ensures activeExecutions == {}
    {
      activeExecutions, published, sequence, told := {}, [], -1, [];
      liveTexts, wholeForwards, errorForwards, received := [], [], 0, [];
    }

    /** So far the channel has got the live texts that it accepted, and nothing else. */
    ghost predicate LiveOnly(deliver: nat -> Delivery)
      reads this
    {
      received == Taken(deliver, liveTexts)
    }

    method Publish(body: Body)
      requires InStep()
      modifies this`published, this`sequence, this`told
      ensures InStep() && told == old(told) + [body]
    {
      sequence := sequence + 1;
      published := published + [Event(body, sequence)];
      assert (told + [body])[..|told|] == told;
      told := told + [body];
    }

    method BeginMessage(event: ProviderEvent, harness: bool, didEmitStart: bool)
      requires InStep()
      modifies this`published, this`sequence, this`told
      ensures InStep()
      ensures harness ==> told == ToldAt(old(told), event, !didEmitStart)
      ensures told == old(told) + (if !didEmitStart && !(harness && event.Error?) then [Start] else [])
    {
      if !didEmitStart && !(harness && event.Error?) {
        Publish(Start);
      }
    }

    method RelayBody(event: ProviderEvent, harness: bool)
      requires InStep()
      modifies this`published, this`sequence, this`told
      ensures InStep() && told == old(told) + BodyOf(event, harness)
    {
      match event {
        case Token(text) => Publish(Chunk(text));
        case Thinking(text) => Publish(ThinkingChunk(text));
        case ToolCallStart(id) => if harness { Publish(ToolStarted(id)); }
        case ToolCallEnd(id) => if harness { Publish(ToolEnded(id)); }
        case _ =>
      }
    }

    /** Publishes the start of the message, if it has to, and what the event itself gives rise to. */
    method Relay(event: ProviderEvent, harness: bool, didEmitStart: bool)
      requires InStep()
      modifies this`published, this`sequence, this`told
      ensures InStep()
      ensures told == old(told) + HandledNow(event, harness, !didEmitStart)
    {
      BeginMessage(event, harness, didEmitStart);
      RelayBody(event, harness);
    }

    /** `generateAndStreamSingleTurn`; `None` when it throws. */
    method GenerateSingleTurn(x: Execution) returns (content: Option<string>)
      requires InStep() && told == [] && liveTexts == [] && !x.harness
      modifies this`published, this`sequence, this`told
      ensures InStep()
      ensures (told, content) ==
              (LoopFrom(x, 0, Loop([], [], [], [])).0.told, LoopFrom(x, 0, Loop([], [], [], [])).1)
    {
      ghost var result := LoopFrom(x, 0, Loop([], [], [], []));
      var assistantContent := "";
      for i := 0 to |x.events|
        invariant InStep()
        invariant result == LoopFrom(x, i, Loop(told, assistantContent, [], []))
      {
        var event := x.events[i];
        Relay(event, false, i > 0);
        if event.Error? {
          return None;
        }
        if event.Token? {
          assistantContent := assistantContent + event.text;
        }
      }
      content := if x.throws then None else Some(assistantContent);
    }

    /** `flushChannelBuffer`: offers the trimmed buffer unless it is blank; says whether it was accepted. */
    method FlushChannelBuffer(x: Execution, buffer: string) returns (sent: bool)
      requires LiveOnly(x.deliver)
      modifies this`liveTexts, this`received
      ensures LiveOnly(x.deliver)
      ensures liveTexts == old(liveTexts) + (if x.hasChannel then NonBlank(buffer) else [])
      ensures (AnyAccepted(x.deliver, |old(liveTexts)|) || sent) == AnyAccepted(x.deliver, |liveTexts|)
    {
      if !x.hasChannel || |buffer| == 0 {
        assert Trim("") == "";
        return false;
      }
      var trimmed := Trim(buffer);
      if |trimmed| == 0 {
        return false;
      }
      sent := x.deliver(|liveTexts|).Accepted?;
      TakenPush(x.deliver, liveTexts, trimmed);
      liveTexts := liveTexts + [trimmed];
      if sent {
        received := received + [Said(trimmed)];
      }
    }

    /** Buffers a token; flushes the buffer when a tool call starts. */
    method CollectText(x: Execution, event: ProviderEvent, buffer: string) returns (rest: string, sent: bool)
      requires LiveOnly(x.deliver) && x.harness
      modifies this`liveTexts, this`received
      ensures LiveOnly(x.deliver)
      ensures var l := Collect(x, Loop([], [], buffer, old(liveTexts)), event);
              rest == l.buffer && liveTexts == l.live
      ensures (AnyAccepted(x.deliver, |old(liveTexts)|) || sent) == AnyAccepted(x.deliver, |liveTexts|)
    {
      rest, sent := buffer, false;
      if event.Token? {
        rest := buffer + event.text;
      } else if event.ToolCallStart? {
        sent := FlushChannelBuffer(x, buffer);
        rest := "";
      }
    }

    /** An event that does not end the loop: text is offered before the tool call that follows it is published. */
    method CollectAndRelay(x: Execution, event: ProviderEvent, buffer: string) returns (rest: string, sent: bool)
      requires InStep() && LiveOnly(x.deliver) && x.harness
      modifies this`published, this`sequence, this`told, this`liveTexts, this`received
      ensures InStep() && LiveOnly(x.deliver) && told == old(told) + BodyOf(event, true)
      ensures var l := Collect(x, Loop([], [], buffer, old(liveTexts)), event);
              rest == l.buffer && liveTexts == l.live
      ensures (AnyAccepted(x.deliver, |old(liveTexts)|) || sent) == AnyAccepted(x.deliver, |liveTexts|)
    {
      rest, sent := CollectText(x, event, buffer);
      RelayBody(event, true);
    }

    /** `generateAndStreamWithHarness`; the second result says whether the channel accepted a live chunk. */
    method GenerateWithHarness(x: Execution) returns (content: Option<string>, channelChunksSent: bool)
      requires InStep() && told == [] && liveTexts == [] && LiveOnly(x.deliver) && x.harness
      modifies this`published, this`sequence, this`told, this`liveTexts, this`received
      ensures InStep() && LiveOnly(x.deliver)
      ensures var (l, c) := LoopFrom(x, 0, Loop([], [], [], [])); told == l.told && liveTexts == l.live && content == c
      ensures channelChunksSent == AnyAccepted(x.deliver, |liveTexts|)
    {
      ghost var result := LoopFrom(x, 0, Loop([], [], [], []));
      var channelTextBuffer := "";
      channelChunksSent := false;
      for i := 0 to |x.events|
        invariant InStep() && LiveOnly(x.deliver)
        invariant result == LoopFrom(x, i, Loop(told, [], channelTextBuffer, liveTexts))
        invariant channelChunksSent == AnyAccepted(x.deliver, |liveTexts|)
      {
        var event := x.events[i];
        HarnessStep(x, i, told, channelTextBuffer, liveTexts);
        BeginMessage(event, true, i > 0);
        if event.Error? {
          return None, channelChunksSent;
        }
        if event.Done? {
          var sent := FlushChannelBuffer(x, channelTextBuffer);
          return Some(event.content), channelChunksSent || sent;
        }
        var sent;
        channelTextBuffer, sent := CollectAndRelay(x, event, channelTextBuffer);
        channelChunksSent := channelChunksSent || sent;
      }
      if x.throws {
        return None, channelChunksSent;
      }
      var sent := FlushChannelBuffer(x, channelTextBuffer);
      content := Some("");
      channelChunksSent := channelChunksSent || sent;
    }

    /** Runs the event loop that the provider calls for. */
    method GenerateAndStream(x: Execution) returns (content: Option<string>, channelChunksSent: bool)
      requires InStep() && told == [] && liveTexts == [] && LiveOnly(x.deliver) && x.preflight.Ready?
      modifies this`published, this`sequence, this`told, this`liveTexts, this`received
      ensures LiveOnly(x.deliver)
      ensures InStep() && told == StartOf(x.events, x.harness) + Bodies(Before(x.events, x.harness), x.harness)
      ensures content == Content(x) && liveTexts == LiveTexts(x)
      ensures channelChunksSent == AnyAccepted(x.deliver, |LiveTexts(x)|)
    {
      LoopResult(x);
      if x.harness {
        content, channelChunksSent := GenerateWithHarness(x);
      } else {
        content := GenerateSingleTurn(x);
        channelChunksSent := false;
      }
    }

    /** Completes or fails the message and forwards what the channel still has to get. */
    method Conclude(x: Execution, content: Option<string>, channelChunksSent: bool)
      requires InStep()
      modifies this`published, this`sequence, this`told, this`wholeForwards, this`errorForwards, this`received
      ensures InStep()
      ensures told == old(told) + [if content.Some? && x.stores then Complete(content.value) else Failed]
      ensures wholeForwards == old(wholeForwards) + WholeNow(x, content, channelChunksSent)
      ensures received == old(received) + TakenNow(x.whole, WholeNow(x, content, channelChunksSent))
      ensures errorForwards == old(errorForwards) + (if x.hasChannel && !(content.Some? && x.stores) then 1 else 0)
    {
      if content.Some? && x.stores {
        Publish(Complete(content.value));
        if x.hasChannel && !channelChunksSent {
          wholeForwards := wholeForwards + [content.value];
          if x.whole.Accepted? {
            received := received + [Shown(content.value)];
          }
        }
      } else {
        Publish(Failed);
        if x.hasChannel {
          errorForwards := errorForwards + 1;
        }
      }
    }

    /** What follows a successful preflight. */
    method Generate(x: Execution)
      requires InStep() && told == [] && liveTexts == [] && wholeForwards == [] && errorForwards == 0
      requires LiveOnly(x.deliver) && x.preflight.Ready?
      modifies this`published, this`sequence, this`told
      modifies this`liveTexts, this`wholeForwards, this`errorForwards, this`received
      ensures InStep() && told == Narrative(x) && liveTexts == LiveTexts(x) && wholeForwards == WholeForwards(x)
      ensures received == Received(x)
      ensures errorForwards == if x.hasChannel && !Terminal(x).Complete? then 1 else 0
    {
      var content, channelChunksSent := GenerateAndStream(x);
      Conclude(x, content, channelChunksSent);
    }

    /** A denied or failed preflight. */
    method Refuse(x: Execution)
      requires InStep() && told == [] && liveTexts == [] && wholeForwards == [] && errorForwards == 0 && received == []
      requires !x.preflight.Ready?
      modifies this`published, this`sequence, this`told
      modifies this`liveTexts, this`wholeForwards, this`errorForwards, this`received
      ensures InStep() && told == Narrative(x) && liveTexts == LiveTexts(x) && wholeForwards == WholeForwards(x)
      ensures received == Received(x)
      ensures errorForwards == if x.hasChannel then 1 else 0
    {
      Conclude(x, None, false);
    }

    /** `executeProviderGeneration` of the execution with the given key; does nothing without conversation manager. */
    method ExecuteProviderGeneration(hasManager: bool, x: Execution, key: string)
      modifies this
      ensures hasManager ==> published == Numbered(Narrative(x))
      ensures hasManager ==>
                liveTexts == LiveTexts(x) && wholeForwards == WholeForwards(x) && received == Received(x)
      ensures hasManager ==>
                errorForwards == if x.hasChannel && !(x.preflight.Ready? && Terminal(x).Complete?) then 1 else 0
      ensures hasManager ==> activeExecutions == old(activeExecutions) - {key}
      ensures !hasManager ==> unchanged(this)
    {
      if !hasManager {
        return;
      }
      activeExecutions := activeExecutions + {key};
      published, sequence, told := [], -1, [];
      liveTexts, wholeForwards, errorForwards, received := [], [], 0, [];
      if x.preflight.Ready? {
        Generate(x);
      } else {
        Refuse(x);
      }
      activeExecutions := activeExecutions - {key};
    }
  }
}
