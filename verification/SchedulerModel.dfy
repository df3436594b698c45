/** The cron scheduler as a state machine: jobs, their store, and the calls made to `onExecute`. */
module SchedulerModel {
  import opened Text
  import opened CronExpression
  import opened NextRun

  datatype Status = Active | Paused | Completed | Failed

  /** Instants are milliseconds since the epoch. */
  datatype Job = Job(
    name: string, action: string, schedule: string, timezone: string,
    status: Status, updatedAt: int, lastRunAt: Option<int>, nextRunAt: Option<int>,
    runCount: int, maxRuns: Option<int>)

  datatype Error =
    | IdRequired | NameRequired | ActionRequired | MaxRunsInvalid | TimezoneInvalid | ExpressionInvalid
    | AlreadyExists | NotFound | NextRunFailed | StoreFailed

  datatype Result<+T> = Ok(value: T) | Err(error: Error)

  datatype Input = Input(
    id: Option<string>, name: string, action: string, schedule: string,
    timezone: Option<string>, maxRuns: Option<int>)

  datatype Patch = Patch(
    name: Option<string>, action: Option<string>, schedule: Option<string>,
    timezone: Option<string>, status: Option<Status>, maxRuns: Option<Option<int>>)

  /** What the scheduler asks the calendar: validity of expressions and zones, and the next run. */
  datatype Calendar = Calendar(
    systemZone: string,
    zoneValid: string -> bool,
    expressionValid: string -> bool,
    nextRun: (string, string, int) -> Outcome)

  function CalendarOf(h: Host, systemZone: string): Calendar {
    Calendar(systemZone, h.zoneValid, s => ExpressionValid(h, s), (s, z, from) => NextRunAt(h, s, z, from))
  }

  /** Every next run lies in a later minute, and padding of the expression does not matter. */
  ghost predicate Forward(cal: Calendar) {
    && (forall s, z, from :: cal.nextRun(s, z, from).Found? ==> from / MINUTE < cal.nextRun(s, z, from).at / MINUTE)
    && (forall s, z, from :: cal.nextRun(Trim(s), z, from) == cal.nextRun(s, z, from))
  }

  lemma CalendarForward(h: Host, systemZone: string)
    ensures Forward(CalendarOf(h, systemZone))
  {
    var cal := CalendarOf(h, systemZone);
    forall s, z, from ensures cal.nextRun(Trim(s), z, from) == cal.nextRun(s, z, from) {
      NextRunIgnoresPadding(h, s, z, from);
    }
    forall s, z, from | cal.nextRun(s, z, from).Found?
      ensures from / MINUTE < cal.nextRun(s, z, from).at / MINUTE
    {
      var m := FoundMeans(h, s, z, from);
      MinuteMultiple(m);
    }
  }

  /** One call of `onExecute`: for which job, when, and whether the outcome could be saved afterwards. */
  datatype Call = Call(id: string, at: int, saved: bool)

  datatype State = State(running: bool, jobs: map<string, Job>, store: map<string, Job>, calls: seq<Call>)

  /** Whether the store's reads and saves succeed during an operation. */
  datatype Io = Io(read: bool, write: bool)

  function Validate(cal: Calendar, id: string, job: Job): Option<Error> {
    if Trim(id) == [] then Some(IdRequired)
    else if Trim(job.name) == [] then Some(NameRequired)
    else if Trim(job.action) == [] then Some(ActionRequired)
    else if job.maxRuns.Some? && job.maxRuns.value <= 0 then Some(MaxRunsInvalid)
    else if !cal.zoneValid(job.timezone) then Some(TimezoneInvalid)
    else if !cal.expressionValid(job.schedule) then Some(ExpressionInvalid)
    else None
  }

  function GetOr<T>(o: Option<T>, default: T): T {
    if o.Some? then o.value else default
  }

  function Lookup(m: map<string, Job>, id: string): Option<Job> {
    if id in m then Some(m[id]) else None
  }

  /** `getJob`: memory first, the store otherwise. */
  function Get(s: State, id: string, io: Io): Result<Option<Job>> {
    if id in s.jobs then Ok(Some(s.jobs[id]))
    else if !io.read then Err(StoreFailed)
    else Ok(Lookup(s.store, id))
  }

  function Saved(s: State, id: string, job: Job): State {
    s.(jobs := s.jobs[id := job], store := s.store[id := job])
  }

  function NewJob(cal: Calendar, input: Input, now: int, nextRunAt: Option<int>): Job {
    Job(Trim(input.name), input.action, Trim(input.schedule), GetOr(input.timezone, cal.systemZone),
        Active, now, None, nextRunAt, 0, input.maxRuns)
  }

  function CreatedId(input: Input, uuid: string): string {
    if input.id.Some? then Trim(input.id.value) else uuid
  }

  /** The job `create` is about to save, or why it refuses. */
  function Admitted(cal: Calendar, s: State, input: Input, uuid: string, now: int, io: Io): Result<Job> {
    var zone := GetOr(input.timezone, cal.systemZone);
    var candidate := NewJob(cal, input, 0, None).(name := input.name, schedule := input.schedule);
    var invalid := Validate(cal, "candidate", candidate);
    if invalid.Some? then Err(invalid.value) else
    var existing := if input.id.Some? then Get(s, CreatedId(input, uuid), io) else Ok(None);
    if existing.Err? then Err(existing.error)
    else if existing.value.Some? then Err(AlreadyExists)
    else
      var next := cal.nextRun(input.schedule, zone, now);
      if next.Found? then Ok(NewJob(cal, input, now, Some(next.at))) else Err(NextRunFailed)
  }

  /** `create` */
  function Create(cal: Calendar, s: State, input: Input, uuid: string, now: int, io: Io): (State, Result<Job>) {
    Commit(s, CreatedId(input, uuid), Admitted(cal, s, input, uuid, now, io), io)
  }

  /** Saves an accepted job to the store and then to memory. */
  function Commit(s: State, id: string, r: Result<Job>, io: Io): (State, Result<Job>) {
    if r.Err? then (s, r)
    else if !io.write then (s, Err(StoreFailed))
    else (Saved(s, id, r.value), r)
  }

  function Patched(job: Job, patch: Patch, now: int): Job {
    job.(name := if patch.name.Some? then Trim(patch.name.value) else job.name,
         action := GetOr(patch.action, job.action),
         schedule := if patch.schedule.Some? then Trim(patch.schedule.value) else job.schedule,
         timezone := GetOr(patch.timezone, job.timezone),
         status := GetOr(patch.status, job.status),
         maxRuns := GetOr(patch.maxRuns, job.maxRuns),
         updatedAt := now)
  }

  /** `getRequiredJob`: a job found in the store only is brought into memory. */
  function Require(s: State, id: string, io: Io): (State, Result<Job>) {
    if id in s.jobs then (s, Ok(s.jobs[id]))
    else if !io.read then (s, Err(StoreFailed))
    else if id !in s.store then (s, Err(NotFound))
    else (s.(jobs := s.jobs[id := s.store[id]]), Ok(s.store[id]))
  }

  /** The record `update` is about to save for `current`, or why it refuses. */
  function Revised(cal: Calendar, id: string, current: Job, patch: Patch, now: int): Result<Job> {
    var updated := Patched(current, patch, now);
    var invalid := Validate(cal, id, updated);
    if invalid.Some? then Err(invalid.value)
    else if updated.status != Active then Ok(updated.(nextRunAt := None))
    else
      var next := cal.nextRun(updated.schedule, updated.timezone, now);
      if next.Found? then Ok(updated.(nextRunAt := Some(next.at))) else Err(NextRunFailed)
  }

  /** `update` */
  function Update(cal: Calendar, s: State, id: string, patch: Patch, now: int, io: Io): (State, Result<Job>) {
    var (s1, existing) := Require(s, id, io);
    Commit(s1, id, if existing.Err? then existing else Revised(cal, id, existing.value, patch, now), io)
  }

  /** `remove` */
  function Remove(s: State, id: string, io: Io): (State, Result<()>) {
    if !io.write then (s, Err(StoreFailed))
    else (s.(store := s.store - {id}, jobs := s.jobs - {id}), Ok(()))
  }

  /** `isExecutionDue` */
  predicate ExecutionDue(job: Job, now: int) {
    job.status == Active && job.nextRunAt.Some? && job.nextRunAt.value <= now
  }

  /** The record `executeJob` saves after calling `onExecute`, which either returned or threw. */
  function AfterRun(cal: Calendar, job: Job, now: int, succeeded: bool): Job {
    var next := job.(lastRunAt := Some(now), runCount := job.runCount + 1, updatedAt := now);
    if !succeeded then next.(status := Failed, nextRunAt := None)
    else if next.maxRuns.Some? && next.runCount >= next.maxRuns.value then
      next.(status := Completed, nextRunAt := None)
    else match cal.nextRun(next.schedule, next.timezone, now)
      case Found(at) => next.(status := Active, nextRunAt := Some(at))
      case _ => next.(status := Failed, nextRunAt := None)
  }

  /** What a tick does for one job id; `succeeds` and `saves` say how `onExecute` and the save go. */
  function Visit(cal: Calendar, s: State, id: string, now: int, succeeds: bool, saves: bool): State {
    if id !in s.jobs || !ExecutionDue(s.jobs[id], now) then s else
    var s1 := s.(calls := s.calls + [Call(id, now, saves)]);
    if saves then Saved(s1, id, AfterRun(cal, s.jobs[id], now, succeeds)) else s1
  }

  function VisitAll(cal: Calendar, s: State, todo: seq<string>, now: int,
                    succeeds: string -> bool, saves: string -> bool): State
    decreases |todo|
  {
    if todo == [] then s
    else VisitAll(cal, Visit(cal, s, todo[0], now, succeeds(todo[0]), saves(todo[0])), todo[1..], now, succeeds, saves)
  }

  /** `runTick`, visiting the jobs in the order `todo`. */
  function Tick(cal: Calendar, s: State, todo: seq<string>, now: int,
                succeeds: string -> bool, saves: string -> bool): State {
    if s.running then VisitAll(cal, s, todo, now, succeeds, saves) else s
  }

  /** `start` and `listJobs` refill memory from the store. */
  function Start(s: State, io: Io): State {
    if s.running || !io.read then s else s.(jobs := s.store, running := true)
  }

  function ListJobs(s: State, io: Io): State {
    if !io.read then s else s.(jobs := s.store)
  }

  // ---- Runs ----

  datatype Op =
    | OpStart(io: Io)
    | OpStop
    | OpCreate(input: Input, uuid: string, now: int, io: Io)
    | OpUpdate(id: string, patch: Patch, now: int, io: Io)
    | OpRemove(id: string, io: Io)
    | OpListJobs(io: Io)
    | OpTick(todo: seq<string>, now: int, succeeds: string -> bool, saves: string -> bool)

  function Step(cal: Calendar, s: State, op: Op): State {
    match op
    case OpStart(io) => Start(s, io)
    case OpStop => s.(running := false)
    case OpCreate(input, uuid, now, io) => Create(cal, s, input, uuid, now, io).0
    case OpUpdate(id, patch, now, io) => Update(cal, s, id, patch, now, io).0
    case OpRemove(id, io) => Remove(s, id, io).0
    case OpListJobs(io) => ListJobs(s, io)
    case OpTick(todo, now, succeeds, saves) => Tick(cal, s, todo, now, succeeds, saves)
  }

  function Run(cal: Calendar, s: State, ops: seq<Op>): State
    decreases |ops|
  {
    if ops == [] then s else Run(cal, Step(cal, s, ops[0]), ops[1..])
  }

  /** The clock after an operation that reads it. */
  function Clock(op: Op, before: int): int {
    match op
    case OpCreate(_, _, now, _) => now
    case OpUpdate(_, _, now, _) => now
    case OpTick(_, now, _, _) => now
    case _ => before
  }

  function FinalClock(ops: seq<Op>, clock: int): int {
    if ops == [] then clock else FinalClock(ops[1..], Clock(ops[0], clock))
  }

  /** The clock never goes back. */
  predicate Nondecreasing(ops: seq<Op>, clock: int) {
    ops == [] || (clock <= Clock(ops[0], clock) && Nondecreasing(ops[1..], Clock(ops[0], clock)))
  }

  const Empty := State(false, map[], map[], [])

  // ---- What every step keeps ----

  /** Memory never disagrees with the store. */
  ghost predicate Cached(s: State) {
    forall id | id in s.jobs :: id in s.store && s.jobs[id] == s.store[id]
  }

  /** A job is active exactly when it has a next run, which is the one computed when it was last updated. */
  ghost predicate JobOk(cal: Calendar, job: Job) {
    && (job.status == Active <==> job.nextRunAt.Some?)
    && (job.nextRunAt.Some? ==> cal.nextRun(job.schedule, job.timezone, job.updatedAt) == Found(job.nextRunAt.value))
  }

  ghost predicate JobsOk(cal: Calendar, s: State) {
    forall id | id in s.store :: JobOk(cal, s.store[id])
  }

  /** A run whose outcome was saved is over for the minute it started in. */
  ghost predicate OncePerMinute(calls: seq<Call>) {
    forall i, j | 0 <= i < j < |calls| && calls[i].id == calls[j].id && calls[i].saved ::
      calls[i].at / MINUTE < calls[j].at / MINUTE
  }

  ghost predicate CallsBefore(calls: seq<Call>, clock: int) {
    forall c | c in calls :: c.at / MINUTE <= clock / MINUTE
  }

  ghost predicate NextRunsLater(s: State) {
    forall c | c in s.calls && c.saved && c.id in s.store && s.store[c.id].nextRunAt.Some? ::
      c.at / MINUTE < s.store[c.id].nextRunAt.value / MINUTE
  }

  ghost predicate Inv(cal: Calendar, s: State, clock: int) {
    && Cached(s) && JobsOk(cal, s)
    && OncePerMinute(s.calls) && CallsBefore(s.calls, clock) && NextRunsLater(s)
  }

  lemma SavedKeepsInv(cal: Calendar, s: State, id: string, job: Job, clock: int, now: int)
    requires Forward(cal) && Inv(cal, s, clock) && clock <= now
    requires JobOk(cal, job) && job.updatedAt == now
    ensures Inv(cal, Saved(s, id, job), now)
  {
    if job.nextRunAt.Some? {
      assert cal.nextRun(job.schedule, job.timezone, now).Found?;
      assert now / MINUTE < job.nextRunAt.value / MINUTE;
    }
  }

  lemma CallIsNew(cal: Calendar, s: State, id: string, clock: int, now: int, saves: bool)
    requires Inv(cal, s, clock) && clock <= now
    requires id in s.jobs && ExecutionDue(s.jobs[id], now)
    ensures OncePerMinute(s.calls + [Call(id, now, saves)]) && CallsBefore(s.calls + [Call(id, now, saves)], now)
  {
    forall i | 0 <= i < |s.calls| && s.calls[i].id == id && s.calls[i].saved
      ensures s.calls[i].at / MINUTE < now / MINUTE
    {
      assert s.calls[i] in s.calls;
    }
  }

  lemma AfterRunOk(cal: Calendar, job: Job, now: int, succeeded: bool)
    requires Forward(cal)
    ensures JobOk(cal, AfterRun(cal, job, now, succeeded))
    ensures AfterRun(cal, job, now, succeeded).nextRunAt.Some? ==>
              now / MINUTE < AfterRun(cal, job, now, succeeded).nextRunAt.value / MINUTE
  {
    var next := AfterRun(cal, job, now, succeeded);
    if next.nextRunAt.Some? {
      assert cal.nextRun(next.schedule, next.timezone, now).Found?;
    }
  }

  lemma VisitKeepsInv(cal: Calendar, s: State, id: string, clock: int, now: int, succeeds: bool, saves: bool)
    requires Forward(cal) && Inv(cal, s, clock) && clock <= now
    ensures Inv(cal, Visit(cal, s, id, now, succeeds, saves), now)
  {
    if id in s.jobs && ExecutionDue(s.jobs[id], now) {
      CallIsNew(cal, s, id, clock, now, saves);
      AfterRunOk(cal, s.jobs[id], now, succeeds);
    }
  }

  lemma {:induction false} VisitAllKeepsInv(cal: Calendar, s: State, todo: seq<string>, clock: int, now: int,
                                            succeeds: string -> bool, saves: string -> bool)
    requires Forward(cal) && Inv(cal, s, clock) && clock <= now
    ensures Inv(cal, VisitAll(cal, s, todo, now, succeeds, saves), now)
    decreases |todo|
  {
    if todo != [] {
      VisitKeepsInv(cal, s, todo[0], clock, now, succeeds(todo[0]), saves(todo[0]));
      VisitAllKeepsInv(cal, Visit(cal, s, todo[0], now, succeeds(todo[0]), saves(todo[0])), todo[1..], now, now,
                       succeeds, saves);
    }
  }

  lemma LaterClock(cal: Calendar, s: State, clock: int, now: int)
    requires Inv(cal, s, clock) && clock <= now
    ensures Inv(cal, s, now)
  {
  }

  lemma AdmittedOk(cal: Calendar, s: State, input: Input, uuid: string, now: int, io: Io)
    requires Forward(cal) && Admitted(cal, s, input, uuid, now, io).Ok?
    ensures var job := Admitted(cal, s, input, uuid, now, io).value; JobOk(cal, job) && job.updatedAt == now
  {
  }

  lemma CommitKeepsInv(cal: Calendar, s: State, id: string, r: Result<Job>, io: Io, now: int)
    requires Forward(cal) && Inv(cal, s, now)
    requires r.Ok? ==> JobOk(cal, r.value) && r.value.updatedAt == now
    ensures Inv(cal, Commit(s, id, r, io).0, now)
  {
    if r.Ok? {
      SavedKeepsInv(cal, s, id, r.value, now, now);
    }
  }

  lemma CreateKeepsInv(cal: Calendar, s: State, input: Input, uuid: string, clock: int, now: int, io: Io)
    requires Forward(cal) && Inv(cal, s, clock) && clock <= now
    ensures Inv(cal, Create(cal, s, input, uuid, now, io).0, now)
  {
    LaterClock(cal, s, clock, now);
    var r := Admitted(cal, s, input, uuid, now, io);
    if r.Ok? { AdmittedOk(cal, s, input, uuid, now, io); }
    CommitKeepsInv(cal, s, CreatedId(input, uuid), r, io, now);
  }

  lemma UpdateKeepsInv(cal: Calendar, s: State, id: string, patch: Patch, clock: int, now: int, io: Io)
    requires Forward(cal) && Inv(cal, s, clock) && clock <= now
    ensures Inv(cal, Update(cal, s, id, patch, now, io).0, now)
  {
    LaterClock(cal, s, clock, now);
    var (s1, existing) := Require(s, id, io);
    assert Inv(cal, s1, now);
    var r := if existing.Err? then existing else Revised(cal, id, existing.value, patch, now);
    if existing.Err? {
      assert Update(cal, s, id, patch, now, io).0 == s1;
    } else {
      CommitKeepsInv(cal, s1, id, r, io, now);
    }
  }

  lemma StepKeepsInv(cal: Calendar, s: State, op: Op, clock: int)
    requires Forward(cal) && Inv(cal, s, clock) && clock <= Clock(op, clock)
    ensures Inv(cal, Step(cal, s, op), Clock(op, clock))
  {
    match op {
      case OpCreate(input, uuid, now, io) => CreateKeepsInv(cal, s, input, uuid, clock, now, io);
      case OpUpdate(id, patch, now, io) => UpdateKeepsInv(cal, s, id, patch, clock, now, io);
      case OpTick(todo, now, succeeds, saves) =>
        LaterClock(cal, s, clock, now);
        if s.running { VisitAllKeepsInv(cal, s, todo, clock, now, succeeds, saves); }
      case _ =>
    }
  }

  lemma {:induction false} RunKeepsInv(cal: Calendar, s: State, ops: seq<Op>, clock: int)
    requires Forward(cal) && Inv(cal, s, clock) && Nondecreasing(ops, clock)
    ensures Inv(cal, Run(cal, s, ops), FinalClock(ops, clock))
    decreases |ops|
  {
    if ops != [] {
      StepKeepsInv(cal, s, ops[0], clock);
      RunKeepsInv(cal, Step(cal, s, ops[0]), ops[1..], Clock(ops[0], clock));
    }
  }

  /**
   Over every run from an empty store with a clock that never goes back, and whatever reads, saves and
   deletes fail: once a job's execution has been saved, that job is not executed again in the same minute.
   A job is active exactly when it has a next run, and that is the start of the earliest minute its
   schedule matches after the minute it was last updated in.
   */
  lemma NoDoubleRun(h: Host, systemZone: string, ops: seq<Op>, clock: int)
    requires Nondecreasing(ops, clock)
    ensures var s := Run(CalendarOf(h, systemZone), Empty, ops);
            && OncePerMinute(s.calls)
            && forall id | id in s.store :: NextRunCorrect(h, s.store[id])
  {
    var cal := CalendarOf(h, systemZone);
    CalendarForward(h, systemZone);
    RunKeepsInv(cal, Empty, ops, clock);
    var s := Run(cal, Empty, ops);
    forall id | id in s.store ensures NextRunCorrect(h, s.store[id]) {
      FoundIsLeast(h, s.store[id]);
    }
  }

  ghost predicate NextRunCorrect(h: Host, job: Job) {
    && (job.status == Active <==> job.nextRunAt.Some?)
    && (job.nextRunAt.Some? ==>
          var at := job.nextRunAt.value;
          at % MINUTE == 0 && LeastDue(h, job.schedule, job.timezone, job.updatedAt, at / MINUTE))
  }

  lemma MinuteMultiple(m: int)
    ensures m * MINUTE % MINUTE == 0 && m * MINUTE / MINUTE == m
  {
  }

  lemma FoundIsLeast(h: Host, job: Job)
    requires job.status == Active <==> job.nextRunAt.Some?
    requires job.nextRunAt.Some? ==>
               NextRunAt(h, job.schedule, job.timezone, job.updatedAt) == Found(job.nextRunAt.value)
    ensures NextRunCorrect(h, job)
  {
    if job.nextRunAt.Some? {
      var m := FoundMeans(h, job.schedule, job.timezone, job.updatedAt);
      MinuteMultiple(m);
    }
  }

  /** The operation is no tick and does not update, remove or overwrite job `id`. */
  predicate Quiet(op: Op, id: string) {
    !op.OpTick? && LeavesAlone(op, id)
  }

  ghost predicate Holds(s: State, id: string, job: Job) {
    Cached(s) && id in s.jobs && s.jobs[id] == job
  }

  /** The two states hold the same record for the job and have made the same calls. */
  ghost predicate SameJob(s: State, t: State, id: string, job: Job) {
    Holds(t, id, job) && t.calls == s.calls
  }

  lemma CommitKeepsJob(s: State, other: string, r: Result<Job>, io: Io, id: string, job: Job)
    requires Holds(s, id, job) && (r.Ok? ==> other != id)
    ensures SameJob(s, Commit(s, other, r, io).0, id, job)
  {
  }

  lemma CreateKeepsJob(cal: Calendar, s: State, input: Input, uuid: string, now: int, io: Io, id: string, job: Job)
    requires Holds(s, id, job) && (input.id.None? ==> uuid != id)
    ensures SameJob(s, Create(cal, s, input, uuid, now, io).0, id, job)
  {
    var r := Admitted(cal, s, input, uuid, now, io);
    assert CreatedId(input, uuid) == id ==> r.Err?;
    CommitKeepsJob(s, CreatedId(input, uuid), r, io, id, job);
  }

  lemma UpdateKeepsJob(cal: Calendar, s: State, other: string, patch: Patch, now: int, io: Io, id: string, job: Job)
    requires Holds(s, id, job) && other != id
    ensures SameJob(s, Update(cal, s, other, patch, now, io).0, id, job)
  {
    var (s1, existing) := Require(s, other, io);
    assert SameJob(s, s1, id, job);
    var revised := if existing.Err? then existing else Revised(cal, other, existing.value, patch, now);
    CommitKeepsJob(s1, other, revised, io, id, job);
  }

  lemma QuietKeepsJob(cal: Calendar, s: State, op: Op, id: string, job: Job)
    requires Holds(s, id, job) && Quiet(op, id)
    ensures SameJob(s, Step(cal, s, op), id, job)
  {
    match op {
      case OpCreate(input, uuid, now, io) => CreateKeepsJob(cal, s, input, uuid, now, io, id, job);
      case OpUpdate(other, patch, now, io) => UpdateKeepsJob(cal, s, other, patch, now, io, id, job);
      case _ =>
    }
  }

  lemma {:induction false} QuietRunKeepsJob(cal: Calendar, s: State, ops: seq<Op>, id: string, job: Job)
    requires Holds(s, id, job) && forall op | op in ops :: Quiet(op, id)
    ensures Holds(Run(cal, s, ops), id, job) && Run(cal, s, ops).calls == s.calls
    decreases |ops|
  {
    if ops != [] {
      assert ops[0] in ops;
      QuietKeepsJob(cal, s, ops[0], id, job);
      QuietRunKeepsJob(cal, Step(cal, s, ops[0]), ops[1..], id, job);
    }
  }

  /**
   A due job that is visited again later in the same minute, whatever operations on other jobs come in between, is
   executed a second time if and only if the save after the first execution failed.
   */
  lemma RunsTwiceIffSaveFails(cal: Calendar, s: State, id: string, clock: int, now: int, between: seq<Op>, later: int,
                              succeeds: bool, succeeds': bool, saves: bool, saves': bool)
    requires Forward(cal) && Inv(cal, s, clock) && clock <= now <= later && later / MINUTE == now / MINUTE
    requires id in s.jobs && ExecutionDue(s.jobs[id], now) && forall op | op in between :: Quiet(op, id)
    ensures var s2 := Run(cal, Visit(cal, s, id, now, succeeds, saves), between);
            && s2.calls == s.calls + [Call(id, now, saves)]
            && Visit(cal, s2, id, later, succeeds', saves').calls ==
               s2.calls + (if saves then [] else [Call(id, later, saves')])
  {
    var s1 := Visit(cal, s, id, now, succeeds, saves);
    AfterRunOk(cal, s.jobs[id], now, succeeds);
    QuietRunKeepsJob(cal, s1, between, id, s1.jobs[id]);
  }

  // ---- Memory as a cache of the store ----

  lemma {:induction false} VisitAllKeepsCache(cal: Calendar, s: State, todo: seq<string>, now: int,
                                              succeeds: string -> bool, saves: string -> bool)
    requires Cached(s)
    ensures Cached(VisitAll(cal, s, todo, now, succeeds, saves))
    decreases |todo|
  {
    if todo != [] {
      VisitAllKeepsCache(cal, Visit(cal, s, todo[0], now, succeeds(todo[0]), saves(todo[0])), todo[1..], now,
                         succeeds, saves);
    }
  }

  lemma StepKeepsCache(cal: Calendar, s: State, op: Op)
    requires Cached(s)
    ensures Cached(Step(cal, s, op))
  {
    match op {
      case OpUpdate(id, patch, now, io) => assert Cached(Require(s, id, io).0);
      case OpTick(todo, now, succeeds, saves) => VisitAllKeepsCache(cal, s, todo, now, succeeds, saves);
      case _ =>
    }
  }

  lemma {:induction false} RunKeepsCache(cal: Calendar, s: State, ops: seq<Op>)
    requires Cached(s)
    ensures Cached(Run(cal, s, ops))
    decreases |ops|
  {
    if ops != [] {
      StepKeepsCache(cal, s, ops[0]);
      RunKeepsCache(cal, Step(cal, s, ops[0]), ops[1..]);
    }
  }

  /** After any run, with any failures and any clock, `getJob` answers what the store would answer. */
  lemma GetAnswersStore(cal: Calendar, ops: seq<Op>, id: string, io: Io)
    ensures var s := Run(cal, Empty, ops);
            && (Get(s, id, io).Ok? ==> Get(s, id, io).value == Lookup(s.store, id))
            && (Get(s, id, io).Err? <==> !io.read && id !in s.jobs)
  {
    RunKeepsCache(cal, Empty, ops);
  }

  // ---- Bounded numbers of runs ----

  function SavedRuns(calls: seq<Call>, id: string): nat {
    if calls == [] then 0
    else SavedRuns(calls[..|calls| - 1], id)
         + (if calls[|calls| - 1].id == id && calls[|calls| - 1].saved then 1 else 0)
  }

  /** The operation does not update, remove or overwrite job `id`. */
  predicate LeavesAlone(op: Op, id: string) {
    match op
    case OpCreate(input, uuid, _, _) => input.id.None? ==> uuid != id
    case OpUpdate(other, _, _, _) => other != id
    case OpRemove(other, _) => other != id
    case _ => true
  }

  /** Job `id` may run at most `max` times in all, and has run all but `offset` of the saved calls. */
  ghost predicate Budgeted(s: State, id: string, max: int, offset: int) {
    && Cached(s) && id in s.store
    && var job := s.store[id];
       && job.maxRuns == Some(max) && job.runCount == SavedRuns(s.calls, id) + offset
       && job.runCount <= max && (job.status == Active ==> job.runCount < max)
  }

  lemma SavedRunsPush(calls: seq<Call>, call: Call, id: string)
    ensures SavedRuns(calls + [call], id) == SavedRuns(calls, id) + (if call.id == id && call.saved then 1 else 0)
  {
    assert (calls + [call])[..|calls|] == calls;
  }

  lemma VisitKeepsBudget(cal: Calendar, s: State, todo: string, now: int, succeeds: bool, saves: bool,
                         id: string, max: int, offset: int)
    requires Budgeted(s, id, max, offset)
    ensures Budgeted(Visit(cal, s, todo, now, succeeds, saves), id, max, offset)
  {
    if todo in s.jobs && ExecutionDue(s.jobs[todo], now) {
      SavedRunsPush(s.calls, Call(todo, now, saves), id);
      var next := AfterRun(cal, s.jobs[todo], now, succeeds);
      assert next.maxRuns == s.jobs[todo].maxRuns && next.runCount == s.jobs[todo].runCount + 1;
      assert next.status == Active && next.maxRuns.Some? ==> next.runCount < next.maxRuns.value;
    }
  }

  lemma {:induction false} VisitAllKeepsBudget(cal: Calendar, s: State, todo: seq<string>, now: int,
                                               succeeds: string -> bool, saves: string -> bool,
                                               id: string, max: int, offset: int)
    requires Budgeted(s, id, max, offset)
    ensures Budgeted(VisitAll(cal, s, todo, now, succeeds, saves), id, max, offset)
    decreases |todo|
  {
    if todo != [] {
      VisitKeepsBudget(cal, s, todo[0], now, succeeds(todo[0]), saves(todo[0]), id, max, offset);
      VisitAllKeepsBudget(cal, Visit(cal, s, todo[0], now, succeeds(todo[0]), saves(todo[0])), todo[1..], now,
                          succeeds, saves, id, max, offset);
    }
  }

  lemma CommitKeepsBudget(s: State, other: string, r: Result<Job>, io: Io, id: string, max: int, offset: int)
    requires Budgeted(s, id, max, offset) && (r.Ok? ==> other != id)
    ensures Budgeted(Commit(s, other, r, io).0, id, max, offset)
  {
  }

  lemma CreateKeepsBudget(cal: Calendar, s: State, input: Input, uuid: string, now: int, io: Io,
                          id: string, max: int, offset: int)
    requires Budgeted(s, id, max, offset) && (input.id.None? ==> uuid != id)
    ensures Budgeted(Create(cal, s, input, uuid, now, io).0, id, max, offset)
  {
    var r := Admitted(cal, s, input, uuid, now, io);
    if CreatedId(input, uuid) == id {
      assert r.Err?;
    } else {
      CommitKeepsBudget(s, CreatedId(input, uuid), r, io, id, max, offset);
    }
  }

  lemma UpdateKeepsBudget(cal: Calendar, s: State, other: string, patch: Patch, now: int, io: Io,
                          id: string, max: int, offset: int)
    requires Budgeted(s, id, max, offset) && other != id
    ensures Budgeted(Update(cal, s, other, patch, now, io).0, id, max, offset)
  {
    var (s1, existing) := Require(s, other, io);
    assert s1.store == s.store && s1.calls == s.calls;
    var revised := if existing.Err? then existing else Revised(cal, other, existing.value, patch, now);
    CommitKeepsBudget(s1, other, revised, io, id, max, offset);
  }

  lemma StepKeepsBudget(cal: Calendar, s: State, op: Op, id: string, max: int, offset: int)
    requires Budgeted(s, id, max, offset) && LeavesAlone(op, id)
    ensures Budgeted(Step(cal, s, op), id, max, offset)
  {
    match op {
      case OpTick(todo, now, succeeds, saves) =>
        VisitAllKeepsBudget(cal, s, todo, now, succeeds, saves, id, max, offset);
      case OpCreate(input, uuid, now, io) => CreateKeepsBudget(cal, s, input, uuid, now, io, id, max, offset);
      case OpUpdate(other, patch, now, io) => UpdateKeepsBudget(cal, s, other, patch, now, io, id, max, offset);
      case OpRemove(other, io) => assert Remove(s, other, io).0.calls == s.calls;
      case _ => assert Step(cal, s, op).calls == s.calls && Step(cal, s, op).store == s.store;
    }
  }

  lemma {:induction false} RunKeepsBudget(cal: Calendar, s: State, ops: seq<Op>, id: string, max: int, offset: int)
    requires Budgeted(s, id, max, offset) && forall op | op in ops :: LeavesAlone(op, id)
    ensures Budgeted(Run(cal, s, ops), id, max, offset)
    decreases |ops|
  {
    if ops != [] {
      assert ops[0] in ops;
      StepKeepsBudget(cal, s, ops[0], id, max, offset);
      RunKeepsBudget(cal, Step(cal, s, ops[0]), ops[1..], id, max, offset);
    }
  }

  /**
   A job created with `maxRuns` = n and then never updated, removed or overwritten has at most n saved
   executions over any further run.
   */
  lemma AtMostMaxRuns(cal: Calendar, s: State, input: Input, uuid: string, now: int, io: Io, ops: seq<Op>)
    requires Cached(s) && Create(cal, s, input, uuid, now, io).1.Ok? && input.maxRuns.Some?
    requires forall op | op in ops :: LeavesAlone(op, CreatedId(input, uuid))
    ensures var id, created := CreatedId(input, uuid), Create(cal, s, input, uuid, now, io).0;
            SavedRuns(Run(cal, created, ops).calls, id) <= SavedRuns(created.calls, id) + input.maxRuns.value
  {
    var id := CreatedId(input, uuid);
    var (created, r) := Create(cal, s, input, uuid, now, io);
    assert created == Saved(s, id, r.value);
    RunKeepsBudget(cal, created, ops, id, input.maxRuns.value, 0 - SavedRuns(s.calls, id));
  }

  predicate SavesSucceed(op: Op, id: string) {
    op.OpTick? ==> op.saves(id)
  }

  /** `after` extends `before`, and what it adds for job `id` was saved. */
  ghost predicate AddsSaved(before: seq<Call>, after: seq<Call>, id: string) {
    && before <= after
    && forall i | |before| <= i < |after| && after[i].id == id :: after[i].saved
  }

  /** With successful saves every execution of the job is a saved one. */
  lemma {:induction false} SuccessfulSaves(cal: Calendar, s: State, ops: seq<Op>, id: string)
    requires forall op | op in ops :: SavesSucceed(op, id)
    ensures AddsSaved(s.calls, Run(cal, s, ops).calls, id)
    decreases |ops|
  {
    if ops != [] {
      StepSaves(cal, s, ops[0], id);
      SuccessfulSaves(cal, Step(cal, s, ops[0]), ops[1..], id);
    }
  }

  lemma StepSaves(cal: Calendar, s: State, op: Op, id: string)
    requires SavesSucceed(op, id)
    ensures AddsSaved(s.calls, Step(cal, s, op).calls, id)
  {
    match op {
      case OpTick(todo, now, succeeds, saves) => TickSaves(cal, s, todo, now, succeeds, saves, id);
      case _ => assert Step(cal, s, op).calls == s.calls;
    }
  }

  lemma {:induction false} TickSaves(cal: Calendar, s: State, todo: seq<string>, now: int,
                                     succeeds: string -> bool, saves: string -> bool, id: string)
    requires saves(id)
    ensures AddsSaved(s.calls, VisitAll(cal, s, todo, now, succeeds, saves).calls, id)
    decreases |todo|
  {
    if todo != [] {
      var s1 := Visit(cal, s, todo[0], now, succeeds(todo[0]), saves(todo[0]));
      TickSaves(cal, s1, todo[1..], now, succeeds, saves, id);
    }
  }

  ghost predicate AllSavesSucceed(op: Op) {
    op.OpTick? ==> forall id :: op.saves(id)
  }

  /** With successful saves and a clock that never goes back, no job is executed twice in one minute, over any run. */
  lemma NeverTwiceAMinute(h: Host, systemZone: string, ops: seq<Op>, clock: int, i: nat, j: nat)
    requires Nondecreasing(ops, clock) && forall op | op in ops :: AllSavesSucceed(op)
    requires i < j < |Run(CalendarOf(h, systemZone), Empty, ops).calls|
    ensures var calls := Run(CalendarOf(h, systemZone), Empty, ops).calls;
            calls[i].id == calls[j].id ==> calls[i].at / MINUTE < calls[j].at / MINUTE
  {
    var cal := CalendarOf(h, systemZone);
    NoDoubleRun(h, systemZone, ops, clock);
    SuccessfulSaves(cal, Empty, ops, Run(cal, Empty, ops).calls[i].id);
  }

  function Executions(calls: seq<Call>, id: string): nat {
    if calls == [] then 0
    else Executions(calls[..|calls| - 1], id) + (if calls[|calls| - 1].id == id then 1 else 0)
  }

  lemma {:induction false} AllAddedAreSaved(before: seq<Call>, after: seq<Call>, id: string)
    requires AddsSaved(before, after, id)
    ensures Executions(after, id) - Executions(before, id) == SavedRuns(after, id) - SavedRuns(before, id)
  {
    if |after| > |before| {
      var front := after[..|after| - 1];
      assert forall i | |before| <= i < |front| && front[i].id == id :: after[i].saved;
      AllAddedAreSaved(before, front, id);
      assert after[|after| - 1].id == id ==> after[|after| - 1].saved;
    } else {
      assert after == before;
    }
  }

  /**
   With successful saves a job created with `maxRuns` = n and then never updated, removed or overwritten is executed
   at most n times, over any further run.
   */
  lemma ExecutesAtMostMaxRuns(cal: Calendar, s: State, input: Input, uuid: string, now: int, io: Io, ops: seq<Op>)
    requires Cached(s) && Create(cal, s, input, uuid, now, io).1.Ok? && input.maxRuns.Some?
    requires forall op | op in ops ::
               LeavesAlone(op, CreatedId(input, uuid)) && SavesSucceed(op, CreatedId(input, uuid))
    ensures var id, created := CreatedId(input, uuid), Create(cal, s, input, uuid, now, io).0;
            Executions(Run(cal, created, ops).calls, id) <= Executions(created.calls, id) + input.maxRuns.value
  {
    var id, created := CreatedId(input, uuid), Create(cal, s, input, uuid, now, io).0;
    AtMostMaxRuns(cal, s, input, uuid, now, io, ops);
    SuccessfulSaves(cal, created, ops, id);
    AllAddedAreSaved(created.calls, Run(cal, created, ops).calls, id);
  }

  // ---- What one tick does ----

  predicate Distinct(todo: seq<string>) {
    forall i, j | 0 <= i < j < |todo| :: todo[i] != todo[j]
  }

  /** `todo` lists the jobs in memory, each once. */
  predicate Walks(todo: seq<string>, jobs: map<string, Job>) {
    Distinct(todo) && (forall id | id in todo :: id in jobs) && forall id | id in jobs :: id in todo
  }

  predicate DueIn(s: State, id: string, now: int) {
    id in s.jobs && ExecutionDue(s.jobs[id], now)
  }

  /** What a tick makes of one job if it is due: one call, and the new record in memory and store if it can be saved. */
  ghost predicate Executed(cal: Calendar, s: State, t: State, id: string, due: bool, now: int, succeeds: bool,
                           saves: bool) {
    && Executions(t.calls, id) == Executions(s.calls, id) + (if due then 1 else 0)
    && (due && id in s.jobs && saves ==>
          Lookup(t.jobs, id) == Lookup(t.store, id) == Some(AfterRun(cal, s.jobs[id], now, succeeds)))
    && (!due || !saves ==> Lookup(t.jobs, id) == Lookup(s.jobs, id) && Lookup(t.store, id) == Lookup(s.store, id))
  }

  lemma ExecutionsPush(calls: seq<Call>, call: Call, id: string)
    ensures Executions(calls + [call], id) == Executions(calls, id) + (if call.id == id then 1 else 0)
  {
    assert (calls + [call])[..|calls|] == calls;
  }

  lemma VisitExecutes(cal: Calendar, s: State, first: string, now: int, succeeds: bool, saves: bool, id: string)
    ensures var t := Visit(cal, s, first, now, succeeds, saves);
            Executed(cal, s, t, id, id == first && DueIn(s, id, now), now, succeeds, saves)
  {
    if DueIn(s, first, now) {
      ExecutionsPush(s.calls, Call(first, now, saves), id);
    }
  }

  lemma {:induction false} VisitAllExecutes(cal: Calendar, s: State, todo: seq<string>, now: int,
                                            succeeds: string -> bool, saves: string -> bool, id: string)
    requires Distinct(todo)
    ensures var t := VisitAll(cal, s, todo, now, succeeds, saves);
            Executed(cal, s, t, id, id in todo && DueIn(s, id, now), now, succeeds(id), saves(id))
    decreases |todo|
  {
    if todo != [] {
      var first, rest := todo[0], todo[1..];
      var s1 := Visit(cal, s, first, now, succeeds(first), saves(first));
      VisitExecutes(cal, s, first, now, succeeds(first), saves(first), id);
      VisitAllExecutes(cal, s1, rest, now, succeeds, saves, id);
      assert id in todo <==> id == first || id in rest;
      if id != first {
        assert DueIn(s1, id, now) <==> DueIn(s, id, now);
      }
    }
  }

  /**
   A tick that walks the jobs in memory, in whatever order, calls `onExecute` exactly once for each due job and for no
   other one; it changes exactly the due jobs whose new record can be saved, in memory and in the store.
   */
  lemma TickMeans(cal: Calendar, s: State, todo: seq<string>, now: int, succeeds: string -> bool, saves: string -> bool,
                  id: string)
    requires s.running && Walks(todo, s.jobs)
    ensures Executed(cal, s, Tick(cal, s, todo, now, succeeds, saves), id, DueIn(s, id, now), now,
                     succeeds(id), saves(id))
  {
    VisitAllExecutes(cal, s, todo, now, succeeds, saves, id);
  }
}
