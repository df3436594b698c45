/** What one generation publishes and offers to its channel, event by event. */
module GenerationRecords {
  import opened Text
  import opened Generation

  /** The first event that ends the loop, or their number if none does. */
  ghost predicate FirstEnd(events: seq<ProviderEvent>, harness: bool, n: nat) {
    && n <= |events|
    && (forall k | 0 <= k < n :: !events[k].Error? && !(harness && events[k].Done?))
    && (n < |events| ==> events[n].Error? || (harness && events[n].Done?))
  }

  lemma BeforeMeans(events: seq<ProviderEvent>, harness: bool, n: nat)
    requires FirstEnd(events, harness, n)
    ensures Before(events, harness) == events[..n]
  {
    forall k | 0 <= k < n ensures !Generation.Ends(events[k], harness) {
    }
    BeforeAt(events, harness, n);
  }

  // ---- What is published ----

  /** Text and thoughts are published in either mode, tool calls and their results by the loop only. */
  function IsShown(harness: bool): ProviderEvent -> bool {
    (e: ProviderEvent) => e.Token? || e.Thinking? || (harness && (e.ToolCallStart? || e.ToolCallEnd?))
  }

  /** The body says what the event says. */
  predicate Conveys(b: Body, e: ProviderEvent) {
    match e
    case Token(text) => b == Chunk(text)
    case Thinking(text) => b == ThinkingChunk(text)
    case ToolCallStart(id) => b == ToolStarted(id)
    case ToolCallEnd(id) => b == ToolEnded(id)
    case _ => false
  }

  function BodiesOf(harness: bool): ProviderEvent -> seq<Body> {
    (e: ProviderEvent) => BodyOf(e, harness)
  }

  lemma {:induction false} BodiesMap(events: seq<ProviderEvent>, harness: bool)
    ensures Bodies(events, harness) == ConcatMap(BodiesOf(harness), events)
  {
    if events != [] {
      BodiesMap(events[..|events| - 1], harness);
    }
  }

  /** Each event that is shown has one body, in the order of the events. */
  lemma BodiesMean(events: seq<ProviderEvent>, harness: bool)
    ensures var (shown, bodies) := (Where(IsShown(harness), events), Bodies(events, harness));
            |bodies| == |shown| && forall k | 0 <= k < |shown| :: Conveys(bodies[k], shown[k])
  {
    BodiesMap(events, harness);
    ConcatMapIsWhere(BodiesOf(harness), IsShown(harness), events);
    var shown := Where(IsShown(harness), events);
    forall k | 0 <= k < |shown| ensures Conveys(Bodies(events, harness)[k], shown[k]) {
      assert BodiesOf(harness)(shown[k]) == [Bodies(events, harness)[k]] && IsShown(harness)(shown[k]);
    }
  }

  /** What the generation comes to: a content, unless an error event arrives or the stream throws. */
  ghost predicate Returns(x: Execution, n: nat, content: string)
    requires n <= |x.events|
  {
    if n < |x.events| then x.events[n] == Done(content)
    else !x.throws && content == if x.harness then "" else TokenText(x.events)
  }

  lemma ContentMeans(x: Execution, n: nat, content: string)
    requires FirstEnd(x.events, x.harness, n)
    ensures Content(x) == Some(content) <==> Returns(x, n, content)
  {
    BeforeMeans(x.events, x.harness, n);
    assert n < |x.events| ==> x.events[n].Error? || x.events[n].Done?;
  }

  /** The message is completed with the content that was stored, or failed. */
  ghost predicate Concludes(x: Execution, n: nat, last: Body)
    requires n <= |x.events|
  {
    && (last.Failed? || last.Complete?)
    && (last.Failed? <==> !x.stores || forall content :: !Returns(x, n, content))
    && (last.Complete? ==> Returns(x, n, last.content))
  }

  /**
   Everything that is published: the start, unless nothing arrived or an error was the first thing in the loop; one body
   for each event shown before the one that ends the loop, in order; and how it ended.
   */
  lemma NarrativeMeans(x: Execution, n: nat, s: nat)
    requires x.preflight.Ready? && FirstEnd(x.events, x.harness, n)
    requires s == if x.events == [] || (x.harness && x.events[0].Error?) then 0 else 1
    ensures var told := Narrative(x);
            Tells(told, s, Where(IsShown(x.harness), x.events[..n])) && Concludes(x, n, told[|told| - 1])
  {
    BeforeMeans(x.events, x.harness, n);
    BodiesMean(x.events[..n], x.harness);
    var start := if s == 1 then [Start] else [];
    ShownBehind(start, Bodies(x.events[..n], x.harness), Terminal(x), Where(IsShown(x.harness), x.events[..n]));
    assert Narrative(x) == start + Bodies(x.events[..n], x.harness) + [Terminal(x)];
    TerminalMeans(x, n);
  }

  /** A start or none, one body for each event that is shown, and one body more. */
  predicate Tells(told: seq<Body>, s: nat, shown: seq<ProviderEvent>) {
    && |told| == s + |shown| + 1 && (s == 1 ==> told[0] == Start)
    && forall k | 0 <= k < |shown| :: Conveys(told[s + k], shown[k])
  }

  lemma ShownBehind(start: seq<Body>, bodies: seq<Body>, last: Body, shown: seq<ProviderEvent>)
    requires |bodies| == |shown| && forall k | 0 <= k < |shown| :: Conveys(bodies[k], shown[k])
    requires start == [] || start == [Start]
    ensures var told := start + bodies + [last]; Tells(told, |start|, shown) && told[|told| - 1] == last
  {
    var told := start + bodies + [last];
    forall k | 0 <= k < |shown| ensures Conveys(told[|start| + k], shown[k]) {
      assert told[|start| + k] == bodies[k];
    }
  }

  lemma TerminalMeans(x: Execution, n: nat)
    requires FirstEnd(x.events, x.harness, n)
    ensures Concludes(x, n, Terminal(x))
  {
    forall content: string ensures Content(x) == Some(content) <==> Returns(x, n, content) {
      ContentMeans(x, n, content);
    }
  }

  lemma RefusedMeans(x: Execution)
    requires !x.preflight.Ready?
    ensures Narrative(x) == [Failed] && LiveTexts(x) == [] && WholeForwards(x) == []
  {
  }

  // ---- What is offered to the channel ----

  predicate IsToolStart(e: ProviderEvent) {
    e.ToolCallStart?
  }

  lemma {:induction false} SegmentCount(events: seq<ProviderEvent>)
    ensures |Segments(events)| == |Where(IsToolStart, events)|
  {
    if events != [] {
      SegmentCount(events[..|events| - 1]);
    }
  }

  lemma {:induction false} SegmentsGrow(events: seq<ProviderEvent>, k: nat)
    requires k <= |events|
    ensures Segments(events[..k]) <= Segments(events)
  {
    if k == |events| {
      assert events[..k] == events;
    } else {
      SegmentsGrow(events[..|events| - 1], k);
      assert events[..|events| - 1][..k] == events[..k];
    }
  }

  /** The text is cut exactly where tool calls start: what precedes a call is in the segments up to it. */
  lemma CutAtToolCalls(events: seq<ProviderEvent>, k: nat)
    requires k < |events| && events[k].ToolCallStart?
    ensures var n := |Where(IsToolStart, events[..k + 1])|;
            n <= |Segments(events)| && Concat(Segments(events)[..n]) == TokenText(events[..k])
  {
    var upTo := events[..k + 1];
    assert upTo[..k] == events[..k];
    NothingUnflushed(upTo);
    assert Concat(Segments(upTo)) + [] == Concat(Segments(upTo));
    SegmentCount(upTo);
    SegmentsGrow(events, k + 1);
    assert Segments(events)[..|Segments(upTo)|] == Segments(upTo);
  }

  /** A text without padding and not empty. */
  predicate Trimmed(text: string) {
    text != "" && !IsSpace(text[0]) && !IsSpace(text[|text| - 1])
  }

  lemma {:induction false} TrimmedPieces(texts: seq<string>)
    ensures forall t | t in ConcatMap(NonBlank, texts) :: Trimmed(t)
  {
    if texts != [] {
      TrimmedPieces(texts[..|texts| - 1]);
    }
  }

  lemma NonBlankMeans(text: string)
    ensures NonBlank(text) == [] <==> Blank(text)
    ensures NonBlank(text) != [] ==>
              |NonBlank(text)| == 1
              && exists before, after :: Blank(before) && Blank(after) && text == before + NonBlank(text)[0] + after
  {
    var before, after := TrimMeans(text);
  }

  /**
   Live texts are offered in the loop only, and only to a channel: the segments before tool calls that are not blank,
   without their padding, and the rest of the text unless the loop failed.
   */
  lemma LiveTextsMean(x: Execution, n: nat)
    requires FirstEnd(x.events, x.harness, n)
    ensures var seen := x.events[..n];
            LiveTexts(x) ==
            if !x.harness || !x.hasChannel || !x.preflight.Ready? then []
            else if exists content :: Returns(x, n, content)
                 then ConcatMap(NonBlank, Segments(seen) + [Buffer(seen)])
                 else ConcatMap(NonBlank, Segments(seen))
    ensures forall t | t in LiveTexts(x) :: Trimmed(t)
  {
    var seen := x.events[..n];
    BeforeMeans(x.events, x.harness, n);
    forall content: string ensures Content(x) == Some(content) <==> Returns(x, n, content) {
      ContentMeans(x, n, content);
    }
    assert Content(x).Some? ==> Returns(x, n, Content(x).value);
    FlushedAreSegments(seen);
    ConcatMapAppend(NonBlank, Segments(seen), [Buffer(seen)]);
    ConcatMapOne(NonBlank, Buffer(seen));
    assert Flushed(seen) + [] == Flushed(seen);
    TrimmedPieces(Segments(seen));
    TrimmedPieces(Segments(seen) + [Buffer(seen)]);
  }

  /** The whole response is offered exactly when a message was completed of which no live text was taken. */
  lemma WholeMeans(x: Execution, n: nat, content: string)
    requires x.preflight.Ready? && FirstEnd(x.events, x.harness, n)
    ensures WholeForwards(x) == [content] <==>
            && x.hasChannel && x.stores && Returns(x, n, content)
            && forall k | 0 <= k < |LiveTexts(x)| :: !x.deliver(k).Accepted?
    ensures |WholeForwards(x)| <= 1
  {
    ContentMeans(x, n, content);
  }
}
