/** What a compaction writes. */
module CompactionRecords {
  import opened Text
  import opened Tokenizer
  import opened Summary
  import opened Compaction
  import ContextManager
  import Truncation

  // ---- Memories ----

  /** A message of the user or the assistant with text that states a preference or a decision. */
  predicate WorthKeeping(reading: Reading, m: Message) {
    var content := Trim(reading.textOf(m.content));
    && (m.role == User || m.role == Assistant) && !Blank(reading.textOf(m.content))
    && (reading.wording.prefers(content) || reading.wording.decides(content))
  }

  /** What is remembered of a message. */
  predicate Remembers(reading: Reading, conversationId: string, m: Message, memory: Memory) {
    && memory.content == Trim(reading.textOf(m.content)) && memory.conversationId == conversationId
    && (memory.kind == Preference <==> reading.wording.prefers(memory.content))
    && (m.role == User ==> memory.tags == ["compaction", "flush", "user"])
    && (m.role == Assistant ==> memory.tags == ["compaction", "flush", "assistant"])
  }

  /** What is collected comes from the messages that give something, one from each, in order. */
  lemma {:induction false} CollectedMeans<T>(f: Message -> Option<T>, p: Message -> bool, ms: seq<Message>)
    requires forall m :: f(m).Some? <==> p(m)
    ensures |Collected(f, ms)| == |Where(p, ms)|
    ensures forall k | 0 <= k < |Where(p, ms)| :: f(Where(p, ms)[k]) == Some(Collected(f, ms)[k])
  {
    if ms != [] {
      CollectedMeans(f, p, ms[1..]);
      WhereFirst(p, ms);
    }
  }

  lemma MemorableMeans(reading: Reading, conversationId: string, m: Message)
    ensures Memorable(reading, conversationId)(m).Some? <==> WorthKeeping(reading, m)
    ensures Memorable(reading, conversationId)(m).Some? ==>
              Remembers(reading, conversationId, m, Memorable(reading, conversationId)(m).value)
  {
    TrimBlank(reading.textOf(m.content));
  }

  /** One memory for each of the first ten messages worth keeping, in their order. */
  lemma ExtractedMeans(reading: Reading, ms: seq<Message>, conversationId: string)
    ensures var worth := Where((m: Message) => WorthKeeping(reading, m), ms);
            var memories := Extracted(reading, ms, conversationId);
            && |memories| == (if |worth| < 10 then |worth| else 10)
            && forall k | 0 <= k < |memories| :: Remembers(reading, conversationId, worth[k], memories[k])
  {
    var f, p := Memorable(reading, conversationId), (m: Message) => WorthKeeping(reading, m);
    forall m: Message ensures f(m).Some? <==> p(m) {
      MemorableMeans(reading, conversationId, m);
    }
    CollectedMeans(f, p, ms);
    var worth := Where(p, ms);
    forall k | 0 <= k < |Extracted(reading, ms, conversationId)|
      ensures Remembers(reading, conversationId, worth[k], Extracted(reading, ms, conversationId)[k])
    {
      MemorableMeans(reading, conversationId, worth[k]);
      assert f(worth[k]) == Some(Collected(f, ms)[k]);
    }
  }

  // ---- The summary ----

  /** The text of a message in one line, with its role in front. */
  predicate Tells(textOf: Content -> string, m: Message, line: string) {
    var text := Trim(Collapse(textOf(m.content)));
    && (m.role == System ==> line == "- SYSTEM: " + text) && (m.role == User ==> line == "- USER: " + text)
    && (m.role == Assistant ==> line == "- ASSISTANT: " + text) && (m.role == Tool ==> line == "- TOOL: " + text)
  }

  /** One line for each message with text, in order. */
  ghost predicate Lists(textOf: Content -> string, ms: seq<Message>, lines: seq<string>) {
    var spoken := Where((m: Message) => !Blank(textOf(m.content)), ms);
    |lines| == |spoken| && forall k | 0 <= k < |lines| :: Tells(textOf, spoken[k], lines[k])
  }

  lemma {:induction false} CollapseBlank(s: string)
    ensures Blank(Collapse(s)) <==> Blank(s)
  {
    CollapseMeans(s);
    InkBlank(s);
    InkBlank(Collapse(s));
  }

  lemma InkBlank(s: string)
    ensures Ink(s) == [] <==> Blank(s)
  {
    InkTrim(s);
    TrimBlank(s);
  }

  lemma LineMeans(textOf: Content -> string, m: Message)
    ensures Line(textOf)(m).Some? <==> !Blank(textOf(m.content))
    ensures Line(textOf)(m).Some? ==> Tells(textOf, m, Line(textOf)(m).value)
  {
    CollapseBlank(textOf(m.content));
    TrimBlank(Collapse(textOf(m.content)));
    if Line(textOf)(m).Some? {
      LineTells(textOf, m, Line(textOf)(m).value);
    }
  }

  lemma LineTells(textOf: Content -> string, m: Message, line: string)
    requires line == "- " + (UpperName(m.role) + ": " + Trim(Collapse(textOf(m.content))))
    ensures Tells(textOf, m, line)
  {
    var text := Trim(Collapse(textOf(m.content)));
    HeadJoins("- ", UpperName(m.role), ": ", text);
    assert "- " + "SYSTEM" + ": " == "- SYSTEM: ";
    assert "- " + "USER" + ": " == "- USER: ";
    assert "- " + "ASSISTANT" + ": " == "- ASSISTANT: ";
    assert "- " + "TOOL" + ": " == "- TOOL: ";
  }

  lemma HeadJoins(dash: string, name: string, colon: string, text: string)
    ensures dash + (name + colon + text) == dash + name + colon + text
  {
  }

  lemma LinesMean(textOf: Content -> string, ms: seq<Message>)
    ensures Lists(textOf, ms, Collected(Line(textOf), ms))
  {
    var p := (m: Message) => !Blank(textOf(m.content));
    forall m: Message ensures Line(textOf)(m).Some? <==> p(m) {
      LineMeans(textOf, m);
    }
    CollectedMeans(Line(textOf), p, ms);
    var spoken, lines := Where(p, ms), Collected(Line(textOf), ms);
    forall k | 0 <= k < |lines| ensures Tells(textOf, spoken[k], lines[k]) {
      LineMeans(textOf, spoken[k]);
      assert Line(textOf)(spoken[k]) == Some(lines[k]);
    }
  }

  /**
   The summary of messages with these lines: as many of them as stay within the limit, one below the other; fixed texts
   when there are no messages or no line can be taken.
   */
  lemma SummaryMeans(textOf: Content -> string, most: int, ms: seq<Message>) returns (lines: seq<string>, k: nat)
    ensures Lists(textOf, ms, lines) && k <= |lines|
    ensures k > 0 ==> EstimateTokens(Join(lines[..k], "\n")) <= most
    ensures k < |lines| ==> EstimateTokens(Join(lines[..k + 1], "\n")) > most
    ensures SummaryOf(textOf, most, ms) ==
            if ms == [] then "No messages were compacted."
            else if k == 0 then "No compactable message content available."
            else Join(lines[..k], "\n")
  {
    LinesMean(textOf, ms);
    lines := Collected(Line(textOf), ms);
    k := Taking(Within(COST, most), lines, 0);
    TakingFits(Within(COST, most), lines, 0);
    assert k > 0 ==> Within(COST, most)(lines[..k]);
  }

  lemma {:induction false} JoinHolds(lines: seq<string>, k: nat) returns (before: string, after: string)
    requires k < |lines|
    ensures Join(lines, "\n") == before + lines[k] + after
  {
    if |lines| == 1 {
      before, after := "", "";
      assert "" + lines[0] + "" == lines[0];
    } else if k == 0 {
      before, after := "", "\n" + Join(lines[1..], "\n");
      assert "" + lines[0] == lines[0];
      Assoc(lines[0], "\n", Join(lines[1..], "\n"));
    } else {
      before, after := JoinHolds(lines[1..], k - 1);
      Assoc(lines[0] + "\n", before + lines[k], after);
      Assoc(lines[0] + "\n", before, lines[k]);
      before := lines[0] + "\n" + before;
    }
  }

  // ---- The message that replaces the others ----

  /** The text of the message is the summary, under a heading. */
  predicate Summarizes(m: Message, id: string, summary: string) {
    && m.id == id && m.role == System && m.content == Plain("Conversation summary:\n" + summary)
    && !m.isSummary && m.toolCalls == None && m.toolResultId == None
  }

  /**
   All that one compaction of `messages` writes: what it remembers of the messages before the last `keepRecent`, their
   summary, and in their place a system message with exactly this summary.
   */
  lemma JobMeans(c: Config, conversationId: string, messages: seq<Message>, summaryId: string, flushable: bool)
    ensures var job := JobOf(c, conversationId, messages, summaryId, flushable);
            var n := if c.keepRecent <= 0 then |messages|
                     else if c.keepRecent >= |messages| then 0
                     else |messages| - c.keepRecent;
            && job.count == n && job.flushable == flushable && job.custom == c.custom
            && job.summary == c.summarizer(messages[..n])
            && |job.messages| == 1 + |messages| - n && job.messages[1..] == messages[n..]
            && Summarizes(job.messages[0], summaryId, c.summarizer(messages[..n]))
            && job.tokens == Truncation.Tokens(ContextManager.ESTIMATE, job.messages)
            && job.memories == Extracted(c.reading, messages[..n], conversationId)
  {
  }

  ghost predicate TextHolds(text: string, line: string) {
    exists before, after :: text == before + line + after
  }

  lemma HeadedHolds(head: string, lines: seq<string>)
    ensures forall i | 0 <= i < |lines| :: TextHolds(head + Join(lines, "\n"), lines[i])
  {
    forall i | 0 <= i < |lines| ensures TextHolds(head + Join(lines, "\n"), lines[i]) {
      var before, after := JoinHolds(lines, i);
      Assoc(head, before + lines[i], after);
      Assoc(head, before, lines[i]);
      assert head + Join(lines, "\n") == (head + before) + lines[i] + after;
    }
  }

  /** With the built-in summarizer every line that the summary takes is in the text of the message that is saved. */
  lemma SavedLines(textOf: Content -> string, most: int, c: Config, conversationId: string, messages: seq<Message>,
                   summaryId: string, flushable: bool, n: nat)
    returns (lines: seq<string>, k: nat)
    requires c.summarizer == BuiltIn(textOf, most) && n == CompactedCount(c, messages) > 0
    ensures Lists(textOf, messages[..n], lines) && k <= |lines|
    ensures k < |lines| ==> EstimateTokens(Join(lines[..k + 1], "\n")) > most
    ensures var content := JobOf(c, conversationId, messages, summaryId, flushable).messages[0].content;
            content.Plain? && forall i | 0 <= i < k :: TextHolds(content.text, lines[i])
  {
    lines, k := SummaryMeans(textOf, most, messages[..n]);
    JobMeans(c, conversationId, messages, summaryId, flushable);
    HeadedHolds("Conversation summary:\n", lines[..k]);
    forall i | 0 <= i < k ensures lines[..k][i] == lines[i] {
    }
  }

  // ---- When, in which order, and with which result ----

  /** A session is compacted from the given share of its window on, rounded down, and from one token on at least. */
  lemma ThresholdMeans(c: Config, status: Status, messages: seq<Message>, tokens: int)
    requires tokens == Truncation.Tokens(ContextManager.ESTIMATE, messages)
    ensures ShouldCompact(c, status, messages) <==>
            && status != Compacting && tokens >= 1
            && (tokens + 1) as real > c.window as real * (if c.ratio.Finite? then c.ratio.value else 0.8)
  {
    var share := c.window as real * (if c.ratio.Finite? then c.ratio.value else 0.8);
    ThresholdIs(c, share);
    FloorMeans(share, tokens);
  }

  lemma ThresholdIs(c: Config, share: real)
    requires share == c.window as real * (if c.ratio.Finite? then c.ratio.value else 0.8)
    ensures Threshold(c) == if share.Floor < 1 then 1 else share.Floor
  {
  }

  lemma FloorMeans(x: real, t: int)
    ensures t >= x.Floor <==> (t + 1) as real > x
  {
  }

  lemma {:induction false} SavesAre(memories: seq<Memory>)
    ensures |Saves(memories)| == |memories|
    ensures forall k | 0 <= k < |memories| :: Saves(memories)[k] == SaveMemory(memories[k])
  {
    if memories != [] {
      SavesAre(memories[1..]);
    }
  }

  /** The writes of a compaction, one by one. */
  lemma PlanMeans(job: Job, m: nat, p: nat)
    requires m == |job.memories| && p == if job.flushable then 1 else 0
    ensures var plan := Plan(job);
            && |plan| == m + p + 7 && plan[0] == Begin
            && (forall k | 0 <= k < m :: plan[1 + k] == SaveMemory(job.memories[k]))
            && (job.flushable ==> plan[m + 1] == PersistMemories)
            && plan[m + p + 1] == AppendEntry(MemoryFlush(m))
            && plan[m + p + 2] == Summarize(job.custom)
            && plan[m + p + 3] == AppendEntry(Compacted(job.summary, job.count))
            && plan[m + p + 4] == SyncTranscript
            && plan[m + p + 5] == SaveConversation(job.messages)
            && plan[m + p + 6] == Finish(|job.messages|, job.tokens)
  {
    SavesAre(job.memories);
  }

  /** A write succeeds as the store says, except that the built-in summarizer always does. */
  predicate Succeeds(e: Effect, o: Outcome) {
    o == Done || e == Summarize(false)
  }

  /** A write throws as the store says; saving a memory has no other way to fail. */
  predicate Throwing(e: Effect, o: Outcome) {
    e != Summarize(false) && (o == Throws || (o == Errs && e.SaveMemory?))
  }

  /** An attempt at a write has the outcome that it must have. */
  predicate Fair(a: Attempt, e: Effect, o: Outcome) {
    && a.effect == e && (a.outcome == Done <==> Succeeds(e, o)) && (a.outcome == Throws <==> Throwing(e, o))
  }

  /** The first `j` writes of the plan are attempted: all but the last succeed, and so does that if it ends the plan. */
  ghost predicate GoesTo(plan: seq<Effect>, outcomes: nat -> Outcome, at: nat, log: seq<Attempt>, j: nat) {
    && 1 <= j <= |plan| && j <= |log|
    && (forall i | 0 <= i < j :: Fair(log[i], plan[i], outcomes(at + i)))
    && (forall i | 0 <= i < j - 1 :: log[i].outcome == Done)
    && (j < |plan| ==> log[j - 1].outcome != Done)
  }

  /** Behind them, the status is reset exactly when the first write succeeded and the last one did not. */
  ghost predicate ResetsAfter(outcomes: nat -> Outcome, at: nat, log: seq<Attempt>, j: nat)
    requires 1 <= j <= |log|
  {
    if log[0].outcome == Done && log[j - 1].outcome != Done
    then |log| == j + 1 && Fair(log[j], Reset, outcomes(at + j))
    else |log| == j
  }

  lemma PlanFirst(job: Job)
    ensures Plan(job) != [] && Plan(job)[0] == Begin
  {
    PlanMeans(job, |job.memories|, if job.flushable then 1 else 0);
  }

  lemma AttemptsGo(plan: seq<Effect>, outcomes: nat -> Outcome, at: nat)
    requires plan != []
    ensures var part := Attempts(plan, outcomes, at); GoesTo(plan, outcomes, at, part, |part|)
  {
    AttemptsFollowPlan(plan, outcomes, at);
  }

  /** Every attempt of a compaction, whatever fails. */
  lemma LogMeans(job: Job, outcomes: nat -> Outcome, at: nat) returns (j: nat)
    ensures var log := CompactionLog(job, outcomes, at);
            GoesTo(Plan(job), outcomes, at, log, j) && ResetsAfter(outcomes, at, log, j)
  {
    var part := Attempts(Plan(job), outcomes, at);
    j := |part|;
    PlanFirst(job);
    AttemptsGo(Plan(job), outcomes, at);
    LogByEnding(job, outcomes, at);
    LogWithReset(job, outcomes, at);
  }

  lemma AttemptsThrow(plan: seq<Effect>, outcomes: nat -> Outcome, at: nat)
    requires plan != []
    ensures var part := Attempts(plan, outcomes, at);
            part != [] && ((exists a :: a in part && a.outcome == Throws) <==> part[|part| - 1].outcome == Throws)
  {
    AttemptsFollowPlan(plan, outcomes, at);
    var part := Attempts(plan, outcomes, at);
    assert part[|part| - 1] in part;
  }

  /**
   The compaction reports success, with the summary and the new conversation, exactly when its log ends in the write
   that finishes it, done; it throws exactly when one of its attempts throws, the reset included.
   */
  lemma ResultMeans(job: Job, outcomes: nat -> Outcome, at: nat)
    ensures var log := CompactionLog(job, outcomes, at);
            var r := ResultOf(job, log);
            && (r == Thrown <==> exists a :: a in log && a.outcome == Throws)
            && (r == Failure <==>
                log[|log| - 1] != Attempt(Finish(|job.messages|, job.tokens), Done)
                && forall a | a in log :: a.outcome != Throws)
            && (r == Success(job.summary, job.count, |job.memories|, job.messages) <==>
                log[|log| - 1] == Attempt(Finish(|job.messages|, job.tokens), Done))
  {
    var part, log := Attempts(Plan(job), outcomes, at), CompactionLog(job, outcomes, at);
    PlanFirst(job);
    AttemptsThrow(Plan(job), outcomes, at);
    LastIsFinish(job, outcomes, at);
    LogByEnding(job, outcomes, at);
    LogWithReset(job, outcomes, at);
    if part[0].outcome == Done && part[|part| - 1].outcome != Done {
      assert log[|log| - 1] in log;
    }
  }

  lemma LastIsFinish(job: Job, outcomes: nat -> Outcome, at: nat)
    ensures var part := Attempts(Plan(job), outcomes, at);
            && part != []
            && (part[|part| - 1].outcome == Done <==>
                part[|part| - 1] == Attempt(Finish(|job.messages|, job.tokens), Done))
  {
    AttemptsFollowPlan(Plan(job), outcomes, at);
    PlanMeans(job, |job.memories|, if job.flushable then 1 else 0);
  }
}
