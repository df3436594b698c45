/** The executor of cron jobs. */
module Executor {
  import opened RateLimit
  import Text

  /** What the pre-execution hook decides, or that it throws. */
  datatype Decision = Proceed | Skip(reason: string) | Throws

  datatype Event = Skipped | RateLimited | Executed | Failed

  datatype Entry = Entry(timestamp: int, event: Event, jobId: string, success: bool, durationMs: int)

  datatype Outcome = Returned | Threw

  /** One call of `execute`, with the two clock readings and whether the handler returns or throws. */
  datatype Request = Request(jobId: string, decision: Decision, startedAt: int, endedAt: int, handlerReturns: bool)

  /** Grants so far, audit entries so far, start times of handler calls so far. */
  datatype State = State(grants: seq<int>, audit: seq<Entry>, handled: seq<int>)

  function Duration(r: Request): int {
    if r.endedAt < r.startedAt then 0 else r.endedAt - r.startedAt
  }

  function Record(r: Request, at: int, event: Event): Entry {
    Entry(at, event, r.jobId, event.Skipped? || event.Executed?, if event.RateLimited? then 0 else Duration(r))
  }

  /** `execute` */
  function ExecuteStep(c: Config, s: State, r: Request): (State, Outcome) {
    match r.decision
    case Throws => (s, Threw)
    case Skip(_) => (s.(audit := s.audit + [Record(r, r.endedAt, Skipped)]), Returned)
    case Proceed =>
      var (grants, answer) := HistoryStep(c, s.grants, TryAcquire(r.startedAt));
      if !answer.Granted? then (s.(audit := s.audit + [Record(r, r.startedAt, RateLimited)]), Threw)
      else
        (State(grants,
               s.audit + [Record(r, r.endedAt, if r.handlerReturns then Executed else Failed)],
               s.handled + [r.startedAt]),
         if r.handlerReturns then Returned else Threw)
  }

  function Run(c: Config, s: State, rs: seq<Request>): State
    decreases |rs|
  {
    if rs == [] then s else Run(c, ExecuteStep(c, s, rs[0]).0, rs[1..])
  }

  /** The job ids of the requests whose pre-execution hook did not throw. */
  function CompletingIds(rs: seq<Request>): seq<string> {
    if rs == [] then []
    else (if rs[0].decision.Throws? then [] else [rs[0].jobId]) + CompletingIds(rs[1..])
  }

  function JobIds(audit: seq<Entry>): seq<string> {
    if audit == [] then [] else JobIds(audit[..|audit| - 1]) + [audit[|audit| - 1].jobId]
  }

  function Attempts(audit: seq<Entry>): nat {
    if audit == [] then 0
    else Attempts(audit[..|audit| - 1])
         + (if audit[|audit| - 1].event.Executed? || audit[|audit| - 1].event.Failed? then 1 else 0)
  }

  ghost predicate Inv(c: Config, s: State) {
    && s.handled == s.grants && Attempts(s.audit) == |s.handled|
    && Paced(s.grants, c.maxPerMinute, MINUTE_WIDTH) && Paced(s.grants, c.maxPerHour, HOUR_WIDTH)
  }

  lemma ExecuteKeepsInv(c: Config, s: State, r: Request)
    requires Inv(c, s)
    ensures Inv(c, ExecuteStep(c, s, r).0)
    ensures JobIds(ExecuteStep(c, s, r).0.audit) ==
            JobIds(s.audit) + (if r.decision.Throws? then [] else [r.jobId])
  {
    StepKeepsPace(c, s.grants, TryAcquire(r.startedAt));
    var after := ExecuteStep(c, s, r).0;
    if after.audit != s.audit {
      assert after.audit[..|after.audit| - 1] == s.audit;
    }
  }

  lemma {:induction false} RunKeepsInv(c: Config, s: State, rs: seq<Request>)
    requires Inv(c, s)
    ensures Inv(c, Run(c, s, rs))
    ensures JobIds(Run(c, s, rs).audit) == JobIds(s.audit) + CompletingIds(rs)
    decreases |rs|
  {
    if rs != [] {
      ExecuteKeepsInv(c, s, rs[0]);
      RunKeepsInv(c, ExecuteStep(c, s, rs[0]).0, rs[1..]);
      Text.Assoc(JobIds(s.audit), if rs[0].decision.Throws? then [] else [rs[0].jobId], CompletingIds(rs[1..]));
    }
  }

  /**
   Over every sequence of calls: exactly one audit entry, in order, for each call that completes its
   pre-execution; the handler is called exactly when the limiter grants; there are as many executed and failed
   entries as handler calls; and no minute or hour sees more of these start than its limit.
   */
  lemma ExecutorSafety(c: Config, rs: seq<Request>, low: int)
    requires c.maxPerMinute >= 0 && c.maxPerHour >= 0
    ensures var after := Run(c, State([], [], []), rs);
            && JobIds(after.audit) == CompletingIds(rs)
            && after.handled == after.grants
            && Attempts(after.audit) == |after.handled|
            && CountIn(after.handled, low, low + MINUTE_WIDTH) <= c.maxPerMinute
            && CountIn(after.handled, low, low + HOUR_WIDTH) <= c.maxPerHour
  {
    RunKeepsInv(c, State([], [], []), rs);
    var after := Run(c, State([], [], []), rs);
    WindowBound(after.grants, c.maxPerMinute, MINUTE_WIDTH, low);
    WindowBound(after.grants, c.maxPerHour, HOUR_WIDTH, low);
  }

  /** The request gets past its hook, and the last minute and hour leave room for one more handler call. */
  ghost predicate Admitted(c: Config, grants: seq<int>, r: Request) {
    && r.decision.Proceed?
    && CountIn(grants, r.startedAt - 60_000, r.startedAt) < c.maxPerMinute
    && CountIn(grants, r.startedAt - 3_600_000, r.startedAt) < c.maxPerHour
  }

  /** What the audit says of a request: every event has its own cause, and only skips and executions are successes. */
  ghost predicate Audits(c: Config, grants: seq<int>, r: Request, e: Entry) {
    && e.jobId == r.jobId
    && (e.event == Skipped <==> r.decision.Skip?)
    && (e.event == RateLimited <==> r.decision.Proceed? && !Admitted(c, grants, r))
    && (e.event == Executed <==> Admitted(c, grants, r) && r.handlerReturns)
    && (e.event == Failed <==> Admitted(c, grants, r) && !r.handlerReturns)
    && (e.success <==> r.decision.Skip? || (Admitted(c, grants, r) && r.handlerReturns))
    && e.timestamp == (if e.event == RateLimited then r.startedAt else r.endedAt)
    && (e.event == RateLimited || r.endedAt < r.startedAt ==> e.durationMs == 0)
    && (e.event != RateLimited && r.startedAt <= r.endedAt ==> e.durationMs == r.endedAt - r.startedAt)
  }

  /**
   One call, when the clock has not gone back: the handler is called exactly when the request is admitted, the call
   returns exactly when the hook skips it or the handler returns, and a hook that throws is the only way to leave no
   audit entry.
   */
  lemma ExecuteMeans(c: Config, s: State, r: Request)
    requires NoneAfter(s.grants, r.startedAt)
    ensures var (t, outcome) := ExecuteStep(c, s, r);
            && (outcome == Returned <==> r.decision.Skip? || (Admitted(c, s.grants, r) && r.handlerReturns))
            && t.handled == (if Admitted(c, s.grants, r) then s.handled + [r.startedAt] else s.handled)
            && t.grants == (if Admitted(c, s.grants, r) then s.grants + [r.startedAt] else s.grants)
            && if r.decision.Throws? then t.audit == s.audit
               else exists e :: t.audit == s.audit + [e] && Audits(c, s.grants, r, e)
  {
    GrantedIff(c, s.grants, r.startedAt);
    var t := ExecuteStep(c, s, r).0;
    if !r.decision.Throws? {
      var e := t.audit[|s.audit|];
      assert t.audit == s.audit + [e] && Audits(c, s.grants, r, e);
    }
  }

  class CronExecutor {
    const limiter: RateLimiter
    var audit: seq<Entry>
    /** The start times of the handler calls, in order. */
    var handled: seq<int>

    ghost function Snapshot(): State
      reads this, limiter
    {
      State(limiter.grants, audit, handled)
    }

    constructor (limiter: RateLimiter)
      requires limiter.Valid() && limiter.grants == []
      ensures this.limiter == limiter && Snapshot() == State([], [], [])
    {
      this.limiter := limiter;
      audit, handled := [], [];
    }

    method Execute(r: Request) returns (outcome: Outcome)
      requires limiter.Valid() && (limiter.grants == [] || limiter.last <= r.startedAt)
      modifies this, limiter
      ensures limiter.Valid()
      ensures (Snapshot(), outcome) == ExecuteStep(limiter.config, old(Snapshot()), r)
    {
      if r.decision.Throws? {
        return Threw;
      }
      if r.decision.Skip? {
        audit := audit + [Entry(r.endedAt, Skipped, r.jobId, true, Duration(r))];
        return Returned;
      }
      var answer := limiter.TryAcquire(r.startedAt);
      if !answer.Granted? {
        audit := audit + [Entry(r.startedAt, RateLimited, r.jobId, false, 0)];
        return Threw;
      }
      handled := handled + [r.startedAt];
      if r.handlerReturns {
        audit := audit + [Entry(r.endedAt, Executed, r.jobId, true, Duration(r))];
        outcome := Returned;
      } else {
        audit := audit + [Entry(r.endedAt, Failed, r.jobId, false, Duration(r))];
        outcome := Threw;
      }
    }
  }
}
