/** Conversation compaction: an ordered series of writes, any of which may fail. */
module Compaction {
  import opened Text
  import opened Tokenizer
  import opened Summary
  import Truncation
  import ContextManager

  datatype Status = Active | Compacting | Archived

  datatype Ratio = Finite(value: real) | NotFinite

  type Summarizer = seq<Message> -> string

  /** `custom` tells a given summarizer from the built-in one. */
  datatype Config = Config(
    ratio: Ratio, keepRecent: int, summaryMaxTokens: int, window: int, reading: Reading, custom: bool,
    summarizer: Summarizer)

  /** The constructor's options. */
  datatype Options = Options(
    ratio: Option<Ratio>, keepRecent: Option<int>, summaryMaxTokens: Option<int>, window: Option<int>,
    summarizer: Option<Summarizer>)

  const DEFAULT_WINDOW := 16000
  const DEFAULT_KEEP := 10
  const DEFAULT_SUMMARY_TOKENS := 400
  const DEFAULT_RATIO := 0.8

  function Or<T>(given: Option<T>, otherwise: T): T {
    if given.Some? then given.value else otherwise
  }

  /** What `GenerateSummary` returns. */
  function BuiltIn(textOf: Content -> string, most: int): Summarizer {
    (messages: seq<Message>) => SummaryOf(textOf, most, messages)
  }

  /** The service's configuration, defaults filled in. */
  function Configured(o: Options, reading: Reading): Config {
    var most := Or(o.summaryMaxTokens, DEFAULT_SUMMARY_TOKENS);
    Config(Or(o.ratio, Finite(DEFAULT_RATIO)), Or(o.keepRecent, DEFAULT_KEEP), most, Or(o.window, DEFAULT_WINDOW),
           reading, o.summarizer.Some?, Or(o.summarizer, BuiltIn(reading.textOf, most)))
  }

  datatype Entry = MemoryFlush(memories: nat) | Compacted(summary: string, messages: nat)

  /** One write, or one call of the summarizer. */
  datatype Effect =
    | Begin
    | SaveMemory(memory: Memory)
    | PersistMemories
    | AppendEntry(entry: Entry)
    | Summarize(custom: bool)
    | SyncTranscript
    | SaveConversation(messages: seq<Message>)
    | Finish(messageCount: nat, tokenCount: nat)
    | Reset

  datatype Outcome = Done | Errs | Throws

  datatype Attempt = Attempt(effect: Effect, outcome: Outcome)

  /** What the stores hold: `persisted` memories and `synced` transcript entries survive a crash. */
  datatype World = World(
    status: Status, stored: seq<Message>, memories: seq<Memory>, persisted: nat, transcript: seq<Entry>, synced: nat)

  // ---- What to do ----

  function Threshold(c: Config): int {
    Max(1, (c.window as real * (if c.ratio.Finite? then c.ratio.value else DEFAULT_RATIO)).Floor)
  }

  /** `shouldCompact` */
  predicate ShouldCompact(c: Config, status: Status, messages: seq<Message>) {
    !status.Compacting? && Truncation.Tokens(ContextManager.ESTIMATE, messages) >= Threshold(c)
  }

  /** How many messages the summary replaces. */
  function CompactedCount(c: Config, messages: seq<Message>): (n: nat)
    ensures n <= |messages|
  {
    Max(0, |messages| - Max(0, c.keepRecent))
  }

  /**
   Without options, or with a ratio that is not finite: a session is compacted from 12800 tokens on if it has more than
   ten messages, and the summary is cut at 400 tokens.
   */
  lemma DefaultsMean(o: Options, reading: Reading, status: Status, messages: seq<Message>)
    requires o.ratio == None || o.ratio == Some(NotFinite)
    requires o.keepRecent == None && o.summaryMaxTokens == None && o.window == None && o.summarizer == None
    ensures var c := Configured(o, reading);
            && (ShouldCompact(c, status, messages) && CompactedCount(c, messages) > 0 <==>
                !status.Compacting? && Truncation.Tokens(ContextManager.ESTIMATE, messages) >= 12800 && |messages| > 10)
            && c.summarizer(messages) == SummaryOf(reading.textOf, 400, messages)
  {
    assert (16000 as real * 0.8).Floor == 12800;
  }

  /** All that one compaction writes. */
  datatype Job = Job(
    memories: seq<Memory>, flushable: bool, custom: bool, summary: string, count: nat, messages: seq<Message>,
    tokens: nat)

  function SummaryMessage(id: string, summary: string): Message {
    Message(id, System, Plain("Conversation summary:\n" + summary), false, None, None)
  }

  function JobOf(c: Config, conversationId: string, messages: seq<Message>, summaryId: string, flushable: bool): Job {
    var n := CompactedCount(c, messages);
    var summary := c.summarizer(messages[..n]);
    var left := [SummaryMessage(summaryId, summary)] + messages[n..];
    Job(Extracted(c.reading, messages[..n], conversationId), flushable, c.custom, summary, n, left,
        Truncation.Tokens(ContextManager.ESTIMATE, left))
  }

  function Saves(memories: seq<Memory>): seq<Effect> {
    if memories == [] then [] else [SaveMemory(memories[0])] + Saves(memories[1..])
  }

  function Remembering(job: Job): seq<Effect> {
    [Begin] + (Saves(job.memories) + (if job.flushable then [PersistMemories] else []))
  }

  function Recording(job: Job): seq<Effect> {
    [AppendEntry(MemoryFlush(|job.memories|)), Summarize(job.custom), AppendEntry(Compacted(job.summary, job.count)),
     SyncTranscript]
  }

  function Replacing(job: Job): seq<Effect> {
    [SaveConversation(job.messages), Finish(|job.messages|, job.tokens)]
  }

  /** Every write of a compaction, in order. */
  function Plan(job: Job): seq<Effect> {
    Remembering(job) + (Recording(job) + Replacing(job))
  }

  // ---- Attempts ----

  /** Saving a memory returns or throws; the built-in summarizer does not fail. */
  function Settle(e: Effect, o: Outcome): Outcome {
    if e.SaveMemory? && o.Errs? then Throws
    else if e.Summarize? && !e.custom then Done
    else o
  }

  /** The attempts made of a plan: up to the first that fails. `at` is the number of attempts so far. */
  function Attempts(plan: seq<Effect>, outcomes: nat -> Outcome, at: nat): seq<Attempt>
    decreases |plan|
  {
    if plan == [] then []
    else
      var o := Settle(plan[0], outcomes(at));
      [Attempt(plan[0], o)] + (if o.Done? then Attempts(plan[1..], outcomes, at + 1) else [])
  }

  predicate Begun(log: seq<Attempt>) {
    log != [] && log[0].outcome.Done?
  }

  predicate Completed(log: seq<Attempt>) {
    log != [] && log[|log| - 1].effect.Finish? && log[|log| - 1].outcome.Done?
  }

  /** All attempts of one compaction: those of its plan, and the reset when it began and did not finish. */
  function CompactionLog(job: Job, outcomes: nat -> Outcome, at: nat): seq<Attempt> {
    var log := Attempts(Plan(job), outcomes, at);
    if Begun(log) && !Completed(log) then log + [Attempt(Reset, outcomes(at + |log|))] else log
  }

  datatype Result =
    | Skipped
    | Success(summary: string, compacted: nat, flushed: nat, messages: seq<Message>)
    | Failure
    | Thrown

  function ResultOf(job: Job, log: seq<Attempt>): Result {
    if Completed(log) then Success(job.summary, job.count, |job.memories|, job.messages)
    else if log != [] && log[|log| - 1].effect.Reset? && log[|log| - 1].outcome.Throws? then Thrown
    else
      var failed := if log != [] && log[|log| - 1].effect.Reset? then log[..|log| - 1] else log;
      if failed != [] && failed[|failed| - 1].outcome.Throws? then Thrown else Failure
  }

  /** A failed write changes nothing. */
  function Apply(w: World, a: Attempt): World {
    if !a.outcome.Done? then w
    else
      match a.effect
      case Begin => w.(status := Compacting)
      case SaveMemory(memory) => w.(memories := w.memories + [memory])
      case PersistMemories => w.(persisted := |w.memories|)
      case AppendEntry(entry) => w.(transcript := w.transcript + [entry])
      case Summarize(_) => w
      case SyncTranscript => w.(synced := |w.transcript|)
      case SaveConversation(messages) => w.(stored := messages)
      case Finish(_, _) => w.(status := Active)
      case Reset => w.(status := Active)
  }

  function After(w: World, log: seq<Attempt>): World {
    if log == [] then w else Apply(After(w, log[..|log| - 1]), log[|log| - 1])
  }

  function AllDone(plan: seq<Effect>): seq<Attempt> {
    seq(|plan|, i requires 0 <= i < |plan| => Attempt(plan[i], Done))
  }

  lemma {:induction false} AfterConcat(w: World, a: seq<Attempt>, b: seq<Attempt>)
    ensures After(w, a + b) == After(After(w, a), b)
  {
    if b == [] {
      assert a + b == a;
    } else {
      assert (a + b)[..|a + b| - 1] == a + b[..|b| - 1];
      AfterConcat(w, a, b[..|b| - 1]);
    }
  }

  lemma AfterDone(w: World, a: seq<Effect>, b: seq<Effect>)
    ensures After(w, AllDone(a + b)) == After(After(w, AllDone(a)), AllDone(b))
  {
    assert AllDone(a + b) == AllDone(a) + AllDone(b);
    AfterConcat(w, AllDone(a), AllDone(b));
  }

  lemma AfterOne(w: World, e: Effect)
    ensures After(w, AllDone([e])) == Apply(w, Attempt(e, Done))
  {
    assert AllDone([e]) == [Attempt(e, Done)];
    assert AllDone([e])[..0] == [];
  }

  lemma {:induction false} AfterSaves(w: World, memories: seq<Memory>)
    ensures After(w, AllDone(Saves(memories))) == w.(memories := w.memories + memories)
    decreases |memories|
  {
    if memories != [] {
      var first := memories[0];
      AfterDone(w, [SaveMemory(first)], Saves(memories[1..]));
      AfterOne(w, SaveMemory(first));
      AfterSaves(w.(memories := w.memories + [first]), memories[1..]);
      assert [first] + memories[1..] == memories;
      Assoc(w.memories, [first], memories[1..]);
    }
  }

  lemma AfterNext(w: World, plan: seq<Effect>)
    requires plan != []
    ensures After(w, AllDone(plan)) == After(Apply(w, Attempt(plan[0], Done)), AllDone(plan[1..]))
  {
    assert [plan[0]] + plan[1..] == plan;
    AfterDone(w, [plan[0]], plan[1..]);
    AfterOne(w, plan[0]);
  }

  // ---- The phases of a plan ----

  function Remembered(job: Job, w: World): World {
    var memories := w.memories + job.memories;
    w.(status := Compacting, memories := memories, persisted := if job.flushable then |memories| else w.persisted)
  }

  function Recorded(job: Job, w: World): World {
    var transcript := w.transcript + [MemoryFlush(|job.memories|), Compacted(job.summary, job.count)];
    w.(transcript := transcript, synced := |transcript|)
  }

  lemma AfterRemembering(job: Job, w: World)
    ensures After(w, AllDone(Remembering(job))) == Remembered(job, w)
  {
    var flush := if job.flushable then [PersistMemories] else [];
    var begun := w.(status := Compacting);
    AfterDone(w, [Begin], Saves(job.memories) + flush);
    AfterOne(w, Begin);
    AfterDone(begun, Saves(job.memories), flush);
    AfterSaves(begun, job.memories);
    if job.flushable {
      AfterOne(begun.(memories := w.memories + job.memories), PersistMemories);
    }
  }

  lemma AfterRecording(job: Job, w: World)
    ensures After(w, AllDone(Recording(job))) == Recorded(job, w)
  {
    var plan := Recording(job);
    var flushed := w.(transcript := w.transcript + [MemoryFlush(|job.memories|)]);
    var both := w.(transcript := flushed.transcript + [Compacted(job.summary, job.count)]);
    AfterNext(w, plan);
    AfterNext(flushed, plan[1..]);
    AfterNext(flushed, plan[2..]);
    assert plan[3..] == [SyncTranscript];
    AfterOne(both, SyncTranscript);
    assert both.transcript == w.transcript + [MemoryFlush(|job.memories|), Compacted(job.summary, job.count)];
  }

  /** Effects leave alone what they are not about. */
  lemma {:induction false} Untouched(w: World, plan: seq<Effect>)
    ensures var now := After(w, AllDone(plan));
            && ((forall e | e in plan :: !e.SaveConversation?) ==> now.stored == w.stored)
            && ((forall e | e in plan :: !e.AppendEntry?) ==> now.transcript == w.transcript)
            && ((forall e | e in plan :: !e.SaveMemory? && !e.PersistMemories?) ==>
                  now.memories == w.memories && now.persisted == w.persisted)
            && ((forall e | e in plan :: !e.Begin? && !e.Finish? && !e.Reset?) ==> now.status == w.status)
    decreases |plan|
  {
    if plan == [] {
      assert AllDone(plan) == [];
    } else {
      AfterNext(w, plan);
      assert forall e | e in plan[1..] :: e in plan;
      assert plan[0] in plan;
      Untouched(Apply(w, Attempt(plan[0], Done)), plan[1..]);
    }
  }

  lemma {:induction false} SavesOnlySave(memories: seq<Memory>)
    ensures forall e | e in Saves(memories) :: e.SaveMemory?
  {
    if memories != [] {
      SavesOnlySave(memories[1..]);
    }
  }

  /** The attempts are the plan as far as it goes; all but the last are done. */
  lemma {:induction false} AttemptsFollowPlan(plan: seq<Effect>, outcomes: nat -> Outcome, at: nat)
    requires plan != []
    ensures var log := Attempts(plan, outcomes, at);
            && 1 <= |log| <= |plan|
            && (forall i | 0 <= i < |log| :: log[i] == Attempt(plan[i], Settle(plan[i], outcomes(at + i))))
            && (forall i | 0 <= i < |log| - 1 :: log[i].outcome.Done?)
            && (|log| < |plan| ==> !log[|log| - 1].outcome.Done?)
    decreases |plan|
  {
    if Settle(plan[0], outcomes(at)).Done? && |plan| > 1 {
      AttemptsFollowPlan(plan[1..], outcomes, at + 1);
      var rest := Attempts(plan[1..], outcomes, at + 1);
      forall i | 1 <= i <= |rest| ensures rest[i - 1] == Attempt(plan[i], Settle(plan[i], outcomes(at + i))) {
        assert at + 1 + (i - 1) == at + i;
      }
    }
  }

  /** How much of the plan is done after `k` attempts. */
  function Reached(log: seq<Attempt>, k: nat): (j: nat)
    requires k <= |log|
    ensures j <= k
  {
    if k > 0 && !log[k - 1].outcome.Done? then k - 1 else k
  }

  lemma MomentIsPlanned(w: World, plan: seq<Effect>, outcomes: nat -> Outcome, at: nat, k: nat)
    requires plan != [] && k <= |Attempts(plan, outcomes, at)|
    ensures var log := Attempts(plan, outcomes, at);
            && Reached(log, k) <= |plan|
            && After(w, log[..k]) == After(w, AllDone(plan[..Reached(log, k)]))
  {
    var log := Attempts(plan, outcomes, at);
    AttemptsFollowPlan(plan, outcomes, at);
    var j := Reached(log, k);
    assert log[..j] == AllDone(plan[..j]);
    if j < k {
      assert log[..k][..k - 1] == log[..j];
    }
  }

  // ---- What holds at every moment ----

  /** The world after the first `j` writes of the plan. */
  function Planned(job: Job, w: World, j: nat): World
    requires j <= |Plan(job)|
  {
    After(w, AllDone(Plan(job)[..j]))
  }

  lemma PlannedInTwo(job: Job, w: World, j: nat)
    requires j <= |Plan(job)|
    ensures var a := |Remembering(job)|;
            var marks := Recording(job) + Replacing(job);
            && (j <= a ==> Planned(job, w, j) == After(w, AllDone(Remembering(job)[..j])))
            && (a < j ==> Planned(job, w, j) == After(Remembered(job, w), AllDone(marks[..j - a])))
  {
    var a := |Remembering(job)|;
    var marks := Recording(job) + Replacing(job);
    if j <= a {
      assert Plan(job)[..j] == Remembering(job)[..j];
    } else {
      assert Plan(job)[..j] == Remembering(job) + marks[..j - a];
      AfterDone(w, Remembering(job), marks[..j - a]);
      AfterRemembering(job, w);
    }
  }

  lemma PhaseEffects(job: Job)
    ensures forall e | e in Remembering(job) :: e.Begin? || e.SaveMemory? || e.PersistMemories?
    ensures forall e | e in Recording(job) :: e.AppendEntry? || e.Summarize? || e.SyncTranscript?
  {
    SavesOnlySave(job.memories);
  }

  /** The transcript and the conversation are as they were. */
  predicate Untold(w: World, now: World) {
    now.transcript == w.transcript && now.stored == w.stored
  }

  /** Until all memories are saved, nothing is recorded and nothing is removed; from then on they stay. */
  predicate SavedFirst(job: Job, w: World, now: World) {
    Untold(w, now) || now.memories == w.memories + job.memories
  }

  /** Until all memories of the job survive a crash, nothing is recorded and nothing is removed. */
  predicate PersistedFirst(job: Job, w: World, now: World) {
    Untold(w, now) || job.memories == [] || now.persisted >= |w.memories| + |job.memories|
  }

  /** Messages leave only when the memories are saved and both entries are in the transcript and synced. */
  predicate RemovedLast(job: Job, w: World, now: World) {
    || now.stored == w.stored
    || (now == Recorded(job, Remembered(job, w)).(status := now.status, stored := job.messages))
  }

  /** What holds at every moment of every compaction. */
  predicate Safe(job: Job, w: World, now: World) {
    SavedFirst(job, w, now) && RemovedLast(job, w, now) && (job.flushable ==> PersistedFirst(job, w, now))
  }

  lemma EarlyMoments(job: Job, w: World, j: nat)
    requires j <= |Remembering(job)|
    ensures Safe(job, w, Planned(job, w, j))
  {
    PlannedInTwo(job, w, j);
    PhaseEffects(job);
    var part := Remembering(job)[..j];
    assert forall e | e in part :: e in Remembering(job);
    Untouched(w, part);
  }

  lemma MiddleMoments(job: Job, w: World, j: nat)
    requires |Remembering(job)| < j <= |Remembering(job)| + |Recording(job)|
    ensures Safe(job, w, Planned(job, w, j))
  {
    var a := |Remembering(job)|;
    var part := Recording(job)[..j - a];
    PlannedInTwo(job, w, j);
    assert (Recording(job) + Replacing(job))[..j - a] == part;
    PhaseEffects(job);
    assert forall e | e in part :: e in Recording(job);
    Untouched(Remembered(job, w), part);
  }

  lemma LateMoments(job: Job, w: World, j: nat)
    requires |Remembering(job)| + |Recording(job)| < j <= |Plan(job)|
    ensures Planned(job, w, j) ==
            Recorded(job, Remembered(job, w)).(
              status := if j == |Plan(job)| then Active else Compacting, stored := job.messages)
  {
    var a := |Remembering(job)|;
    var n := j - a - |Recording(job)|;
    var ready := Recorded(job, Remembered(job, w));
    PlannedInTwo(job, w, j);
    assert (Recording(job) + Replacing(job))[..j - a] == Recording(job) + Replacing(job)[..n];
    AfterDone(Remembered(job, w), Recording(job), Replacing(job)[..n]);
    AfterRecording(job, Remembered(job, w));
    AfterNext(ready, Replacing(job)[..n]);
    if n == 1 {
      assert Replacing(job)[..n][1..] == [];
    } else {
      assert Replacing(job)[..n][1..] == [Replacing(job)[1]];
      AfterOne(ready.(stored := job.messages), Replacing(job)[1]);
    }
  }

  /** The world after the first `k` attempts of a compaction: a moment at which the process may stop. */
  function Moment(job: Job, w: World, outcomes: nat -> Outcome, at: nat, k: nat): World
    requires k <= |CompactionLog(job, outcomes, at)|
  {
    After(w, CompactionLog(job, outcomes, at)[..k])
  }

  lemma MomentIsSafe(job: Job, w: World, plan: seq<Effect>, outcomes: nat -> Outcome, at: nat, k: nat)
    requires plan == Plan(job) && k <= |Attempts(plan, outcomes, at)|
    ensures Safe(job, w, After(w, Attempts(plan, outcomes, at)[..k]))
  {
    MomentIsPlanned(w, plan, outcomes, at, k);
    var j := Reached(Attempts(plan, outcomes, at), k);
    if j <= |Remembering(job)| {
      EarlyMoments(job, w, j);
    } else if j <= |Remembering(job)| + |Recording(job)| {
      MiddleMoments(job, w, j);
    } else {
      LateMoments(job, w, j);
    }
  }

  lemma MomentsAreSafe(job: Job, w: World, outcomes: nat -> Outcome, at: nat, k: nat)
    requires k <= |CompactionLog(job, outcomes, at)|
    ensures Safe(job, w, Moment(job, w, outcomes, at, k))
  {
    var plan := Plan(job);
    var (part, log) := (Attempts(plan, outcomes, at), CompactionLog(job, outcomes, at));
    if k <= |part| {
      MomentIsSafe(job, w, plan, outcomes, at, k);
      assert log[..k] == part[..k];
    } else {
      MomentIsSafe(job, w, plan, outcomes, at, |part|);
      assert part[..|part|] == part;
      assert log[..k] == log && log[..k - 1] == part;
    }
  }

  /**
   Whatever fails, and wherever the process stops: the transcript mentions nothing and the conversation loses nothing
   before the memories are saved, and the conversation is either untouched or replaced as a whole after both transcript
   entries were appended and synced.
   */
  lemma NothingLostEarly(job: Job, w: World, outcomes: nat -> Outcome, at: nat, k: nat)
    requires k <= |CompactionLog(job, outcomes, at)|
    ensures var now := Moment(job, w, outcomes, at, k);
            && SavedFirst(job, w, now)
            && (now.stored == w.stored
                || (&& now.stored == job.messages && now.memories == w.memories + job.memories
                    && now.transcript ==
                       w.transcript + [MemoryFlush(|job.memories|), Compacted(job.summary, job.count)]
                    && now.synced == |now.transcript|))
  {
    MomentsAreSafe(job, w, outcomes, at, k);
  }

  /** Status during the plan: compacting from the first write to the last. */
  lemma StatusDuring(job: Job, w: World, j: nat)
    requires 0 < j < |Plan(job)|
    ensures Planned(job, w, j).status == Compacting
  {
    var part := Plan(job)[..j];
    assert part == [Begin] + part[1..];
    AfterNext(w, part);
    PhaseEffects(job);
    forall e | e in part[1..] ensures !e.Begin? && !e.Finish? && !e.Reset? {
      var i :| 1 <= i < j && part[i] == e;
      InnerEffects(job, i);
    }
    Untouched(w.(status := Compacting), part[1..]);
  }

  lemma InnerEffects(job: Job, i: nat)
    requires 1 <= i < |Plan(job)|
    ensures !Plan(job)[i].Begin? && !Plan(job)[i].Reset? && (Plan(job)[i].Finish? <==> i == |Plan(job)| - 1)
  {
    var (a, b) := (|Remembering(job)|, |Remembering(job)| + |Recording(job)|);
    SavesOnlySave(job.memories);
    if i < a {
      var rest := Saves(job.memories) + (if job.flushable then [PersistMemories] else []);
      assert Plan(job)[i] == Remembering(job)[i] == rest[i - 1];
      assert rest[i - 1] in rest;
    } else if i < b {
      assert Plan(job)[i] == Recording(job)[i - a];
    } else {
      assert Plan(job)[i] == Replacing(job)[i - b];
    }
  }

  /** A plan that begins first and finishes last. */
  predicate Framed(plan: seq<Effect>) {
    && |plan| > 1 && plan[0] == Begin
    && forall i | 1 <= i < |plan| :: !plan[i].Reset? && (plan[i].Finish? <==> i == |plan| - 1)
  }

  lemma PlanFramed(job: Job)
    ensures Framed(Plan(job))
  {
    forall i | 1 <= i < |Plan(job)| ensures !Plan(job)[i].Reset? && (Plan(job)[i].Finish? <==> i == |Plan(job)| - 1) {
      InnerEffects(job, i);
    }
  }

  lemma EndingsOf(plan: seq<Effect>, outcomes: nat -> Outcome, at: nat)
    requires Framed(plan)
    ensures var log := Attempts(plan, outcomes, at);
            && log != [] && log[0].effect == Begin
            && (Begun(log) <==> Settle(Begin, outcomes(at)).Done?)
            && (Completed(log) <==> |log| == |plan| && log[|log| - 1].outcome.Done?)
            && (!Completed(log) ==> !log[|log| - 1].outcome.Done?)
            && !log[|log| - 1].effect.Reset?
  {
    AttemptsFollowPlan(plan, outcomes, at);
  }

  /** How a compaction ends: completed, or failed somewhere after the first write, or not even begun. */
  lemma Endings(job: Job, outcomes: nat -> Outcome, at: nat)
    ensures var log := Attempts(Plan(job), outcomes, at);
            && log != [] && log[0].effect == Begin
            && (Begun(log) <==> Settle(Begin, outcomes(at)).Done?)
            && (Completed(log) <==> |log| == |Plan(job)| && log[|log| - 1].outcome.Done?)
            && (!Completed(log) ==> !log[|log| - 1].outcome.Done?)
            && !log[|log| - 1].effect.Reset?
  {
    PlanFramed(job);
    EndingsOf(Plan(job), outcomes, at);
  }

  lemma PlannedStatus(job: Job, w: World, j: nat)
    requires j <= |Plan(job)|
    ensures Planned(job, w, j).status ==
            if j == 0 then w.status else if j == |Plan(job)| then Active else Compacting
  {
    if j == 0 {
      assert Plan(job)[..0] == [] && AllDone([]) == [];
    } else if j == |Plan(job)| {
      LateMoments(job, w, j);
    } else {
      StatusDuring(job, w, j);
    }
  }

  lemma ReachedAll(plan: seq<Effect>, outcomes: nat -> Outcome, at: nat)
    requires Framed(plan)
    ensures var part := Attempts(plan, outcomes, at);
            && (Completed(part) <==> Reached(part, |part|) == |plan|)
            && (Begun(part) <==> Reached(part, |part|) > 0)
  {
    AttemptsFollowPlan(plan, outcomes, at);
    EndingsOf(plan, outcomes, at);
  }

  lemma StatusAfterAttempts(job: Job, w: World, plan: seq<Effect>, outcomes: nat -> Outcome, at: nat)
    requires plan == Plan(job)
    ensures var part := Attempts(plan, outcomes, at);
            After(w, part).status == if Completed(part) then Active else if Begun(part) then Compacting else w.status
  {
    var part := Attempts(plan, outcomes, at);
    PlanFramed(job);
    ReachedAll(plan, outcomes, at);
    MomentIsPlanned(w, plan, outcomes, at, |part|);
    assert part[..|part|] == part;
    PlannedStatus(job, w, Reached(part, |part|));
  }

  /**
   The session is left compacting if and only if the compaction began, did not finish, and the write that resets the
   status failed, which is then the last write.
   */
  lemma LeftCompactingIff(job: Job, w: World, outcomes: nat -> Outcome, at: nat)
    requires !w.status.Compacting?
    ensures var log := CompactionLog(job, outcomes, at);
            After(w, log).status.Compacting? <==>
            log != [] && log[|log| - 1].effect.Reset? && !log[|log| - 1].outcome.Done?
  {
    var plan := Plan(job);
    var part := Attempts(plan, outcomes, at);
    StatusAfterAttempts(job, w, plan, outcomes, at);
    Endings(job, outcomes, at);
    if Begun(part) && !Completed(part) {
      var reset := Attempt(Reset, outcomes(at + |part|));
      assert (part + [reset])[..|part|] == part;
    }
  }

  /** A process that stops after these attempts leaves the session compacting. */
  predicate Stuck(log: seq<Attempt>) {
    && Begun(log)
    && !(log[|log| - 1].outcome.Done? && (log[|log| - 1].effect.Finish? || log[|log| - 1].effect.Reset?))
  }

  lemma StuckMeans(plan: seq<Effect>, outcomes: nat -> Outcome, at: nat, k: nat)
    requires Framed(plan) && k <= |Attempts(plan, outcomes, at)|
    ensures var part := Attempts(plan, outcomes, at); Stuck(part[..k]) <==> 0 < Reached(part, k) < |plan|
  {
    var part := Attempts(plan, outcomes, at);
    AttemptsFollowPlan(plan, outcomes, at);
    if k > 0 {
      assert part[..k][0] == part[0] && part[..k][k - 1] == part[k - 1];
      assert part[k - 1].effect == plan[k - 1];
    }
  }

  lemma StatusInPlan(job: Job, w: World, plan: seq<Effect>, outcomes: nat -> Outcome, at: nat, k: nat)
    requires plan == Plan(job) && k <= |Attempts(plan, outcomes, at)| && !w.status.Compacting?
    ensures var part := Attempts(plan, outcomes, at)[..k]; After(w, part).status.Compacting? <==> Stuck(part)
  {
    PlanFramed(job);
    MomentIsPlanned(w, plan, outcomes, at, k);
    StuckMeans(plan, outcomes, at, k);
    PlannedStatus(job, w, Reached(Attempts(plan, outcomes, at), k));
  }

  /**
   The moments at which a process that stops leaves the session compacting, so that no later `compact` does anything:
   those from the first write on, except after the write that finishes the compaction or resets the status.
   */
  lemma StuckIff(job: Job, w: World, outcomes: nat -> Outcome, at: nat, k: nat)
    requires !w.status.Compacting? && k <= |CompactionLog(job, outcomes, at)|
    ensures var log := CompactionLog(job, outcomes, at);
            Moment(job, w, outcomes, at, k).status.Compacting? <==> Stuck(log[..k])
    ensures forall c, messages :: Moment(job, w, outcomes, at, k).status.Compacting? ==>
              !ShouldCompact(c, Moment(job, w, outcomes, at, k).status, messages)
  {
    var plan := Plan(job);
    var (part, log) := (Attempts(plan, outcomes, at), CompactionLog(job, outcomes, at));
    if k <= |part| {
      StatusInPlan(job, w, plan, outcomes, at, k);
      assert log[..k] == part[..k];
    } else {
      StatusAfterAttempts(job, w, plan, outcomes, at);
      assert log[..k] == log && log[..k - 1] == part;
    }
  }

  /** The log and the result of a compaction, by the way it ends. */
  lemma LogByEnding(job: Job, outcomes: nat -> Outcome, at: nat)
    ensures var part := Attempts(Plan(job), outcomes, at);
            var log := CompactionLog(job, outcomes, at);
            && part != []
            && (part[|part| - 1].outcome.Done? ==>
                  log == part && ResultOf(job, log) == Success(job.summary, job.count, |job.memories|, job.messages))
            && (!part[0].outcome.Done? ==>
                  log == part == [Attempt(Begin, part[0].outcome)]
                  && ResultOf(job, log) == if part[0].outcome.Throws? then Thrown else Failure)
  {
    Endings(job, outcomes, at);
    AttemptsFollowPlan(Plan(job), outcomes, at);
  }

  lemma ResultOfReset(job: Job, part: seq<Attempt>, o: Outcome)
    requires part != [] && !part[|part| - 1].outcome.Done?
    ensures ResultOf(job, part + [Attempt(Reset, o)]) ==
            if o.Throws? || part[|part| - 1].outcome.Throws? then Thrown else Failure
  {
    assert (part + [Attempt(Reset, o)])[..|part|] == part;
  }

  lemma LogWithReset(job: Job, outcomes: nat -> Outcome, at: nat)
    ensures var part := Attempts(Plan(job), outcomes, at);
            var log := CompactionLog(job, outcomes, at);
            && part != []
            && (part[0].outcome.Done? && !part[|part| - 1].outcome.Done? ==>
                  var reset := Attempt(Reset, outcomes(at + |part|));
                  && log == part + [reset]
                  && ResultOf(job, log) ==
                     if reset.outcome.Throws? || part[|part| - 1].outcome.Throws? then Thrown else Failure)
  {
    var part := Attempts(Plan(job), outcomes, at);
    Endings(job, outcomes, at);
    if part[0].outcome.Done? && !part[|part| - 1].outcome.Done? {
      ResultOfReset(job, part, outcomes(at + |part|));
    }
  }

  lemma CompletedIff(plan: seq<Effect>, outcomes: nat -> Outcome, at: nat)
    requires plan != []
    ensures var part := Attempts(plan, outcomes, at);
            |part| == |plan| && part[|part| - 1].outcome.Done? <==>
            forall i | 0 <= i < |plan| :: Settle(plan[i], outcomes(at + i)).Done?
  {
    var part := Attempts(plan, outcomes, at);
    AttemptsFollowPlan(plan, outcomes, at);
    if forall i | 0 <= i < |plan| :: Settle(plan[i], outcomes(at + i)).Done? {
      assert part[|part| - 1].outcome.Done?;
    }
    if |part| == |plan| && part[|part| - 1].outcome.Done? {
      forall i | 0 <= i < |plan| ensures Settle(plan[i], outcomes(at + i)).Done? {
        assert part[i].outcome.Done?;
      }
    }
  }

  /** Success is reported if and only if every step of the plan succeeds; then all of it has happened. */
  lemma SuccessIff(job: Job, w: World, plan: seq<Effect>, outcomes: nat -> Outcome, at: nat)
    requires plan == Plan(job)
    ensures var log := CompactionLog(job, outcomes, at);
            && (ResultOf(job, log).Success? <==> forall i | 0 <= i < |plan| :: Settle(plan[i], outcomes(at + i)).Done?)
            && (ResultOf(job, log).Success? ==>
                After(w, log) == Recorded(job, Remembered(job, w)).(status := Active, stored := job.messages))
  {
    var part := Attempts(plan, outcomes, at);
    Endings(job, outcomes, at);
    LogByEnding(job, outcomes, at);
    LogWithReset(job, outcomes, at);
    CompletedIff(plan, outcomes, at);
    if Completed(part) {
      MomentIsPlanned(w, plan, outcomes, at, |part|);
      assert part[..|part|] == part;
      LateMoments(job, w, |plan|);
    }
  }

  /** `PersistedFirst` at every moment, whatever fails. */
  ghost predicate AlwaysPersistedFirst(job: Job, w: World) {
    forall outcomes: nat -> Outcome, at: nat, k: nat | k <= |CompactionLog(job, outcomes, at)| ::
      PersistedFirst(job, w, Moment(job, w, outcomes, at, k))
  }

  /** A memory store that can only save keeps none of the memories over a crash, although the compaction succeeds. */
  lemma NeverPersisted(job: Job, w: World, outcomes: nat -> Outcome, at: nat)
    requires !job.flushable && job.memories != [] && w.persisted <= |w.memories|
    requires forall n :: outcomes(n) == Done
    ensures var log := CompactionLog(job, outcomes, at);
            && ResultOf(job, log).Success?
            && After(w, log).stored == job.messages && After(w, log).persisted == w.persisted
            && !PersistedFirst(job, w, After(w, log))
  {
    SuccessIff(job, w, Plan(job), outcomes, at);
    assert Recorded(job, Remembered(job, w)).transcript != w.transcript;
  }

  /**
   Nothing is ever recorded or removed before all memories survive a crash, if and only if the store can persist or
   there is nothing to remember.
   */
  lemma PersistedFirstIff(job: Job, w: World)
    requires w.persisted <= |w.memories|
    ensures AlwaysPersistedFirst(job, w) <==> job.flushable || job.memories == []
  {
    if job.flushable || job.memories == [] {
      forall outcomes: nat -> Outcome, at: nat, k: nat | k <= |CompactionLog(job, outcomes, at)|
        ensures PersistedFirst(job, w, Moment(job, w, outcomes, at, k))
      {
        MomentsAreSafe(job, w, outcomes, at, k);
      }
    } else {
      var fine: nat -> Outcome := (n: nat) => Done;
      NeverPersisted(job, w, fine, 0);
      var log := CompactionLog(job, fine, 0);
      assert log[..|log|] == log && !PersistedFirst(job, w, Moment(job, w, fine, 0, |log|));
    }
  }

  /** The new conversation is the summary of the removed messages and exactly the last `keepRecent` ones. */
  lemma SavedConversation(c: Config, messages: seq<Message>, n: nat, job: Job, conversationId: string,
                          summaryId: string)
    requires n == CompactedCount(c, messages) > 0
    requires job == JobOf(c, conversationId, messages, summaryId, job.flushable)
    ensures |job.messages| == 1 + Max(0, c.keepRecent) <= |messages| && job.count == n
    ensures job.messages[0] ==
            Message(summaryId, System, Plain("Conversation summary:\n" + c.summarizer(messages[..n])),
                    false, None, None)
    ensures job.messages[1..] == messages[|messages| - Max(0, c.keepRecent)..]
    ensures messages[..n] + job.messages[1..] == messages
  {
    assert messages[..n] + messages[n..] == messages;
  }

  // ---- The service ----

  /** The session, conversation, memory and transcript stores, and every attempt to write to them. */
  class Stores {
    const outcomes: nat -> Outcome
    const flushable: bool
    ghost const start: World
    var now: World
    var log: seq<Attempt>

    ghost predicate Valid()
      reads this
    {
      now == After(start, log)
    }

    constructor (w: World, flushable: bool, outcomes: nat -> Outcome)
      ensures Valid() && start == w && now == w && log == [] && this.flushable == flushable && this.outcomes == outcomes
    {
      this.outcomes, this.flushable, start := outcomes, flushable, w;
      now, log := w, [];
    }

    /** Attempts an effect. */
    method Try(e: Effect) returns (o: Outcome)
      requires Valid()
      modifies this
      ensures Valid() && o == Settle(e, outcomes(|old(log)|)) && log == old(log) + [Attempt(e, o)]
    {
      o := Settle(e, outcomes(|log|));
      now := Apply(now, Attempt(e, o));
      log := log + [Attempt(e, o)];
    }

    /** Attempts `e`, the next effect of what remains of a plan; `goal` is the log when the plan ends. */
    method Perform(e: Effect, ghost rest: seq<Effect>, ghost goal: seq<Attempt>) returns (o: Outcome)
      requires Valid() && rest != [] && rest[0] == e && goal == log + Attempts(rest, outcomes, |log|)
      modifies this
      ensures Valid() && o == Settle(e, outcomes(|old(log)|)) && log == old(log) + [Attempt(e, o)]
      ensures goal == if o.Done? then log + Attempts(rest[1..], outcomes, |log|) else log
    {
      o := Try(e);
      if o.Done? {
        Assoc(old(log), [Attempt(e, o)], Attempts(rest[1..], outcomes, |log|));
      }
    }
  }

  lemma SavesNext(memories: seq<Memory>, i: nat, more: seq<Effect>)
    requires i < |memories|
    ensures var rest := Saves(memories[i..]) + more;
            rest != [] && rest[0] == SaveMemory(memories[i]) && rest[1..] == Saves(memories[i + 1..]) + more
  {
    assert memories[i..][1..] == memories[i + 1..];
  }

  method SaveMemories(memories: seq<Memory>, stores: Stores, ghost more: seq<Effect>, ghost goal: seq<Attempt>)
    returns (o: Outcome)
    requires stores.Valid() && goal == stores.log + Attempts(Saves(memories) + more, stores.outcomes, |stores.log|)
    modifies stores
    ensures stores.Valid()
    ensures goal == if o.Done? then stores.log + Attempts(more, stores.outcomes, |stores.log|) else stores.log
    ensures !o.Done? ==> stores.log != [] && stores.log[|stores.log| - 1].outcome == o
  {
    for i := 0 to |memories|
      invariant stores.Valid()
      invariant goal == stores.log + Attempts(Saves(memories[i..]) + more, stores.outcomes, |stores.log|)
    {
      SavesNext(memories, i, more);
      o := stores.Perform(SaveMemory(memories[i]), Saves(memories[i..]) + more, goal);
      if !o.Done? {
        return;
      }
    }
    assert Saves(memories[|memories|..]) + more == more;
    o := Done;
  }

  method Remember(memories: seq<Memory>, stores: Stores, ghost more: seq<Effect>, ghost goal: seq<Attempt>)
    returns (o: Outcome)
    requires stores.Valid()
    requires var flush := if stores.flushable then [PersistMemories] else [];
             goal == stores.log + Attempts(Saves(memories) + (flush + more), stores.outcomes, |stores.log|)
    modifies stores
    ensures stores.Valid()
    ensures goal == if o.Done? then stores.log + Attempts(more, stores.outcomes, |stores.log|) else stores.log
    ensures !o.Done? ==> stores.log != [] && stores.log[|stores.log| - 1].outcome == o
  {
    ghost var flush := if stores.flushable then [PersistMemories] else [];
    o := SaveMemories(memories, stores, flush + more, goal);
    if o.Done? && stores.flushable {
      assert (flush + more)[1..] == more;
      o := stores.Perform(PersistMemories, flush + more, goal);
    } else {
      assert flush == [] ==> flush + more == more;
    }
  }

  method RecordFlush(c: Config, flushed: nat, removed: seq<Message>, stores: Stores, ghost more: seq<Effect>,
                     ghost goal: seq<Attempt>)
    returns (o: Outcome, summary: string)
    requires stores.Valid()
    requires var steps := [AppendEntry(MemoryFlush(flushed)), Summarize(c.custom)];
             goal == stores.log + Attempts(steps + more, stores.outcomes, |stores.log|)
    modifies stores
    ensures stores.Valid()
    ensures goal == if o.Done? then stores.log + Attempts(more, stores.outcomes, |stores.log|) else stores.log
    ensures !o.Done? ==> stores.log != [] && stores.log[|stores.log| - 1].outcome == o
    ensures o.Done? ==> summary == c.summarizer(removed)
  {
    ghost var steps := [AppendEntry(MemoryFlush(flushed)), Summarize(c.custom)];
    ghost var last := [Summarize(c.custom)] + more;
    summary := "";
    assert (steps + more)[1..] == last && last[1..] == more;
    o := stores.Perform(AppendEntry(MemoryFlush(flushed)), steps + more, goal);
    if !o.Done? { return; }
    o := stores.Perform(Summarize(c.custom), last, goal);
    if !o.Done? { return; }
    summary := c.summarizer(removed);
  }

  method RecordSummary(summary: string, removed: nat, stores: Stores, ghost more: seq<Effect>, ghost goal: seq<Attempt>)
    returns (o: Outcome)
    requires stores.Valid()
    requires var steps := [AppendEntry(Compacted(summary, removed)), SyncTranscript];
             goal == stores.log + Attempts(steps + more, stores.outcomes, |stores.log|)
    modifies stores
    ensures stores.Valid()
    ensures goal == if o.Done? then stores.log + Attempts(more, stores.outcomes, |stores.log|) else stores.log
    ensures !o.Done? ==> stores.log != [] && stores.log[|stores.log| - 1].outcome == o
  {
    ghost var steps := [AppendEntry(Compacted(summary, removed)), SyncTranscript];
    ghost var last := [SyncTranscript] + more;
    assert (steps + more)[1..] == last && last[1..] == more;
    o := stores.Perform(AppendEntry(Compacted(summary, removed)), steps + more, goal);
    if !o.Done? { return; }
    o := stores.Perform(SyncTranscript, last, goal);
  }

  method Replace(left: seq<Message>, stores: Stores, ghost goal: seq<Attempt>) returns (o: Outcome)
    requires stores.Valid()
    requires var finish := Finish(|left|, Truncation.Tokens(ContextManager.ESTIMATE, left));
             goal == stores.log + Attempts([SaveConversation(left), finish], stores.outcomes, |stores.log|)
    modifies stores
    ensures stores.Valid() && stores.log == goal
    ensures stores.log != [] && stores.log[|stores.log| - 1].outcome == o
    ensures o.Done? ==> stores.log[|stores.log| - 1].effect.Finish?
  {
    var finish := Finish(|left|, Truncation.Tokens(ContextManager.ESTIMATE, left));
    ghost var both := [SaveConversation(left), finish];
    o := stores.Perform(SaveConversation(left), both, goal);
    if !o.Done? { return; }
    assert both[1..] == [finish];
    o := stores.Perform(finish, [finish], goal);
  }

  /** The plan after its first write, in the parts that the methods above perform. */
  function Inside(memories: seq<Memory>, flushable: bool, custom: bool, entry: Entry, closing: seq<Effect>)
    : seq<Effect>
  {
    Saves(memories)
    + ((if flushable then [PersistMemories] else [])
       + ([AppendEntry(MemoryFlush(|memories|)), Summarize(custom)] + ([AppendEntry(entry), SyncTranscript] + closing)))
  }

  function InsideOf(job: Job): seq<Effect> {
    Inside(job.memories, job.flushable, job.custom, Compacted(job.summary, job.count), Replacing(job))
  }

  lemma PlanIs(job: Job)
    ensures Plan(job) == [Begin] + InsideOf(job) && Plan(job)[1..] == InsideOf(job)
  {
    var entry := Compacted(job.summary, job.count);
    assert Recording(job) + Replacing(job) ==
           [AppendEntry(MemoryFlush(|job.memories|)), Summarize(job.custom)]
           + ([AppendEntry(entry), SyncTranscript] + Replacing(job));
  }

  /** `inside` are the writes, after the first, that the compaction of these messages asks for. */
  predicate Prescribed(c: Config, conversationId: string, removed: seq<Message>, kept: seq<Message>, summaryId: string,
                       flushable: bool, memories: seq<Memory>, text: string, inside: seq<Effect>) {
    && memories == Extracted(c.reading, removed, conversationId) && text == c.summarizer(removed)
    && var left := [SummaryMessage(summaryId, text)] + kept;
       var closing := [SaveConversation(left), Finish(|left|, Truncation.Tokens(ContextManager.ESTIMATE, left))];
       inside == Inside(memories, flushable, c.custom, Compacted(text, |removed|), closing)
  }

  /** The part of `compact` under `try`. */
  method Work(c: Config, conversationId: string, removed: seq<Message>, kept: seq<Message>, summaryId: string,
              stores: Stores, ghost goal: seq<Attempt>, ghost memories: seq<Memory>, ghost text: string,
              ghost inside: seq<Effect>)
    returns (o: Outcome, result: Result)
    requires stores.Valid()
    requires Prescribed(c, conversationId, removed, kept, summaryId, stores.flushable, memories, text, inside)
    requires goal == stores.log + Attempts(inside, stores.outcomes, |stores.log|)
    modifies stores
    ensures stores.Valid() && stores.log == goal
    ensures stores.log != [] && stores.log[|stores.log| - 1].outcome == o
    ensures o.Done? ==> result == Success(text, |removed|, |memories|, [SummaryMessage(summaryId, text)] + kept)
  {
    ghost var message := [SummaryMessage(summaryId, text)] + kept;
    ghost var closing :=
      [SaveConversation(message), Finish(|message|, Truncation.Tokens(ContextManager.ESTIMATE, message))];
    ghost var marking := [AppendEntry(Compacted(text, |removed|)), SyncTranscript] + closing;
    result := Failure;
    var extracted := ExtractMemories(c.reading, removed, conversationId);
    o := Remember(extracted, stores, [AppendEntry(MemoryFlush(|extracted|)), Summarize(c.custom)] + marking, goal);
    if !o.Done? { return; }
    var summary;
    o, summary := RecordFlush(c, |extracted|, removed, stores, marking, goal);
    if !o.Done? { return; }
    o := RecordSummary(summary, |removed|, stores, closing, goal);
    if !o.Done? { return; }
    var left := [SummaryMessage(summaryId, summary)] + kept;
    o := Replace(left, stores, goal);
    result := Success(summary, |removed|, |extracted|, left);
  }

  /** The work, and the reset under `finally`; `goal` is the log before the reset. */
  method WorkThenReset(c: Config, conversationId: string, removed: seq<Message>, kept: seq<Message>, summaryId: string,
                       stores: Stores, ghost goal: seq<Attempt>, ghost memories: seq<Memory>, ghost text: string,
                       ghost inside: seq<Effect>)
    returns (result: Result)
    requires stores.Valid()
    requires Prescribed(c, conversationId, removed, kept, summaryId, stores.flushable, memories, text, inside)
    requires goal == stores.log + Attempts(inside, stores.outcomes, |stores.log|)
    modifies stores
    ensures stores.Valid() && goal != []
    ensures var (last, reset) := (goal[|goal| - 1].outcome, stores.outcomes(|goal|));
            && stores.log == goal + (if last.Done? then [] else [Attempt(Reset, reset)])
            && result ==
               if last.Done? then Success(text, |removed|, |memories|, [SummaryMessage(summaryId, text)] + kept)
               else if last.Throws? || reset.Throws? then Thrown
               else Failure
  {
    var o;
    o, result := Work(c, conversationId, removed, kept, summaryId, stores, goal, memories, text, inside);
    if !o.Done? {
      var reset := stores.Try(Reset);
      result := if reset.Throws? || o.Throws? then Thrown else Failure;
    }
  }

  /** The status write, the work and the reset. */
  method Attempted(c: Config, conversationId: string, removed: seq<Message>, kept: seq<Message>, summaryId: string,
                   stores: Stores, ghost memories: seq<Memory>, ghost text: string,
                   ghost inside: seq<Effect>, ghost begun: seq<Attempt>, ghost goal: seq<Attempt>)
    returns (result: Result)
    requires stores.Valid()
    requires Prescribed(c, conversationId, removed, kept, summaryId, stores.flushable, memories, text, inside)
    requires begun == stores.log + [Attempt(Begin, stores.outcomes(|stores.log|))]
    requires goal == begun + Attempts(inside, stores.outcomes, |begun|)
    modifies stores
    ensures stores.Valid() && goal != []
    ensures var o := begun[|begun| - 1].outcome;
            !o.Done? ==> stores.log == begun && result == if o.Throws? then Thrown else Failure
    ensures var (last, reset) := (goal[|goal| - 1].outcome, stores.outcomes(|goal|));
            begun[|begun| - 1].outcome.Done? ==>
              && stores.log == goal + (if last.Done? then [] else [Attempt(Reset, reset)])
              && result ==
                 if last.Done? then Success(text, |removed|, |memories|, [SummaryMessage(summaryId, text)] + kept)
                 else if last.Throws? || reset.Throws? then Thrown
                 else Failure
  {
    var o := stores.Try(Begin);
    if !o.Done? {
      return if o.Throws? then Thrown else Failure;
    }
    result := WorkThenReset(c, conversationId, removed, kept, summaryId, stores, goal, memories, text, inside);
  }

  /** The log and the result of a compaction in the terms of `Attempted`: one that does not begin. */
  lemma NotBegun(job: Job, outcomes: nat -> Outcome, before: seq<Attempt>)
    requires !outcomes(|before|).Done?
    ensures var log := CompactionLog(job, outcomes, |before|);
            && before + log == before + [Attempt(Begin, outcomes(|before|))]
            && ResultOf(job, log) == if outcomes(|before|).Throws? then Thrown else Failure
  {
    PlanIs(job);
    LogByEnding(job, outcomes, |before|);
  }

  lemma PartLog(job: Job, outcomes: nat -> Outcome, at: nat, part: seq<Attempt>)
    requires part == Attempts(Plan(job), outcomes, at)
    ensures part != []
    ensures var (log, last, reset) :=
              (CompactionLog(job, outcomes, at), part[|part| - 1].outcome, outcomes(at + |part|));
            part[0].outcome.Done? ==>
              && log == part + (if last.Done? then [] else [Attempt(Reset, reset)])
              && ResultOf(job, log) ==
                 if last.Done? then Success(job.summary, job.count, |job.memories|, job.messages)
                 else if last.Throws? || reset.Throws? then Thrown
                 else Failure
  {
    LogByEnding(job, outcomes, at);
    LogWithReset(job, outcomes, at);
  }

  lemma PartIs(job: Job, outcomes: nat -> Outcome, at: nat, inside: seq<Effect>)
    requires outcomes(at).Done?
    requires inside == InsideOf(job)
    ensures Attempts(Plan(job), outcomes, at) == [Attempt(Begin, Done)] + Attempts(inside, outcomes, at + 1)
  {
    PlanIs(job);
    assert ([Begin] + inside)[1..] == inside;
  }

  lemma BehindBefore(before: seq<Attempt>, part: seq<Attempt>, goal: seq<Attempt>, log: seq<Attempt>, reset: Attempt)
    requires goal == before + part && part != []
    requires log == part + (if part[|part| - 1].outcome.Done? then [] else [reset])
    ensures |goal| == |before| + |part| && goal[|goal| - 1] == part[|part| - 1]
    ensures before + log == goal + (if goal[|goal| - 1].outcome.Done? then [] else [reset])
  {
    Assoc(before, part, if part[|part| - 1].outcome.Done? then [] else [reset]);
  }

  /** One that begins; `goal` is the log before a reset. */
  lemma BegunLog(job: Job, outcomes: nat -> Outcome, before: seq<Attempt>, inside: seq<Effect>, goal: seq<Attempt>)
    requires outcomes(|before|).Done?
    requires inside == InsideOf(job)
    requires goal == before + [Attempt(Begin, Done)] + Attempts(inside, outcomes, |before| + 1)
    ensures var (log, last, reset) :=
              (CompactionLog(job, outcomes, |before|), goal[|goal| - 1].outcome, outcomes(|goal|));
            && before + log == goal + (if last.Done? then [] else [Attempt(Reset, reset)])
            && ResultOf(job, log) ==
               if last.Done? then Success(job.summary, job.count, |job.memories|, job.messages)
               else if last.Throws? || reset.Throws? then Thrown
               else Failure
  {
    var part := [Attempt(Begin, Done)] + Attempts(inside, outcomes, |before| + 1);
    PartIs(job, outcomes, |before|, inside);
    Assoc(before, [Attempt(Begin, Done)], Attempts(inside, outcomes, |before| + 1));
    PartLog(job, outcomes, |before|, part);
    var log := CompactionLog(job, outcomes, |before|);
    BehindBefore(before, part, goal, log, Attempt(Reset, outcomes(|before| + |part|)));
  }

  lemma JobPrescribed(c: Config, conversationId: string, messages: seq<Message>, summaryId: string, flushable: bool,
                      job: Job)
    requires job == JobOf(c, conversationId, messages, summaryId, flushable)
    ensures var n := CompactedCount(c, messages);
            && n == job.count
            && Prescribed(c, conversationId, messages[..n], messages[n..], summaryId, flushable,
                          job.memories, job.summary, InsideOf(job))
            && job.messages == [SummaryMessage(summaryId, job.summary)] + messages[n..]
  {
  }

  /** `compact` after its early exits. */
  method CompactNow(c: Config, conversationId: string, messages: seq<Message>, summaryId: string, stores: Stores,
                    ghost job: Job)
    returns (result: Result)
    requires stores.Valid() && job == JobOf(c, conversationId, messages, summaryId, stores.flushable)
    modifies stores
    ensures stores.Valid()
    ensures var log := CompactionLog(job, stores.outcomes, |old(stores.log)|);
            stores.log == old(stores.log) + log && result == ResultOf(job, log)
  {
    JobPrescribed(c, conversationId, messages, summaryId, stores.flushable, job);
    var n := CompactedCount(c, messages);
    ghost var inside := InsideOf(job);
    ghost var (before, outcomes) := (stores.log, stores.outcomes);
    ghost var begun := before + [Attempt(Begin, outcomes(|before|))];
    ghost var goal := begun + Attempts(inside, outcomes, |begun|);
    result := Attempted(c, conversationId, messages[..n], messages[n..], summaryId, stores,
                        job.memories, job.summary, inside, begun, goal);
    if outcomes(|before|).Done? {
      BegunLog(job, outcomes, before, inside, goal);
    } else {
      NotBegun(job, outcomes, before);
    }
  }

  class CompactionService {
    const config: Config

    constructor (o: Options, reading: Reading)
      ensures config == Configured(o, reading)
    {
      var window, ratio := Or(o.window, DEFAULT_WINDOW), Or(o.ratio, Finite(DEFAULT_RATIO));
      var keep, most := Or(o.keepRecent, DEFAULT_KEEP), Or(o.summaryMaxTokens, DEFAULT_SUMMARY_TOKENS);
      var summarizer := BuiltIn(reading.textOf, most);
      if o.summarizer.Some? {
        summarizer := o.summarizer.value;
      }
      config := Config(ratio, keep, most, window, reading, o.summarizer.Some?, summarizer);
    }

    /** `compact` */
    method Compact(conversationId: string, status: Status, messages: seq<Message>, summaryId: string, stores: Stores)
      returns (result: Result)
      requires stores.Valid()
      modifies stores
      ensures stores.Valid()
      ensures if ShouldCompact(config, status, messages) && CompactedCount(config, messages) > 0 then
                var job := JobOf(config, conversationId, messages, summaryId, stores.flushable);
                var log := CompactionLog(job, stores.outcomes, |old(stores.log)|);
                stores.log == old(stores.log) + log && result == ResultOf(job, log)
              else result == Skipped && stores.log == old(stores.log)
    {
      if status.Compacting? || !ShouldCompact(config, status, messages) || CompactedCount(config, messages) == 0 {
        return Skipped;
      }
      result := CompactNow(config, conversationId, messages, summaryId, stores,
                           JobOf(config, conversationId, messages, summaryId, stores.flushable));
    }
  }
}
