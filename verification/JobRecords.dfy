/** What becomes of job records. */
module JobRecords {
  import opened Text
  import opened CronExpression
  import opened NextRun
  import opened SchedulerModel

  /** A matching minute lies within the 366 days after `now`. */
  ghost predicate Upcoming(h: Host, schedule: string, timezone: string, now: int) {
    && |Fields(schedule)| == 5 && h.zoneValid(timezone)
    && exists m :: m <= now / 60_000 + 366 * 1440 && LeastDue(h, schedule, timezone, now, m)
  }

  /** The next run is the start of the earliest matching minute after `now`, and within 366 days. */
  ghost predicate RunsNext(h: Host, job: Job, now: int) {
    && job.nextRunAt.Some?
    && var at := job.nextRunAt.value;
       && at % 60_000 == 0 && at / 60_000 <= now / 60_000 + 366 * 1440
       && LeastDue(h, job.schedule, job.timezone, now, at / 60_000)
  }

  lemma LeastIsOne(p: int -> bool, after: int, m: int, n: int)
    requires Least(p, after, m) && Least(p, after, n)
    ensures m == n
  {
  }

  /** What the search for a next run comes to. */
  lemma SearchMeans(h: Host, schedule: string, timezone: string, now: int)
    ensures NextRunAt(h, schedule, timezone, now).Found? <==> Upcoming(h, schedule, timezone, now)
    ensures NextRunAt(h, schedule, timezone, now).Found? ==>
              var at := NextRunAt(h, schedule, timezone, now).at;
              && at % 60_000 == 0 && at / 60_000 <= now / 60_000 + 366 * 1440
              && LeastDue(h, schedule, timezone, now, at / 60_000)
  {
    if |Fields(schedule)| == 5 && h.zoneValid(timezone) {
      var due := Due(h, schedule, timezone);
      SearchIsLeast(due, now, 0);
      if NextRunAt(h, schedule, timezone, now).Found? {
        var m := FoundMeans(h, schedule, timezone, now);
        MinuteMultiple(m);
        SearchIsLeast(due, now, m);
      }
      if m :| m <= now / 60_000 + 366 * 1440 && LeastDue(h, schedule, timezone, now, m) {
        SearchIsLeast(due, now, m);
      }
    }
  }

  /** The scheduler's calendar is that of the runtime, with the validation and the search for a next run. */
  lemma CalendarMeans(h: Host, zone: string, text: string, timezone: string, now: int)
    ensures var cal := CalendarOf(h, zone);
            && cal.systemZone == zone && (cal.zoneValid(timezone) <==> h.zoneValid(timezone))
            && (cal.expressionValid(text) <==> ExpressionValid(h, text))
            && (cal.nextRun(text, timezone, now).Found? <==> Upcoming(h, text, timezone, now))
  {
    SearchMeans(h, text, timezone, now);
  }

  // ---- A run ----

  /** The number of runs that the job may have is used up by this one. */
  predicate LastRun(job: Job) {
    job.maxRuns.Some? && job.runCount + 1 >= job.maxRuns.value
  }

  /**
   `next` is what a run at `now` makes of `job`: one run more, completed exactly when the run succeeded and was the last
   one allowed, active with the next matching minute exactly when it succeeded, was not the last one and there is such a
   minute, failed otherwise; nothing else changes.
   */
  ghost predicate RanAs(h: Host, job: Job, next: Job, now: int, succeeded: bool) {
    && next.runCount == job.runCount + 1 && next.lastRunAt == Some(now) && next.updatedAt == now
    && next.name == job.name && next.action == job.action && next.maxRuns == job.maxRuns
    && next.schedule == job.schedule && next.timezone == job.timezone
    && (next.status == Completed <==> succeeded && LastRun(job))
    && (next.status == Active <==>
        succeeded && !LastRun(job) && Upcoming(h, job.schedule, job.timezone, now))
    && (next.status == Failed <==>
        !succeeded || (!LastRun(job) && !Upcoming(h, job.schedule, job.timezone, now)))
    && (if next.status == Active then RunsNext(h, next, now) else next.nextRunAt == None)
  }

  lemma AfterRunMeans(h: Host, zone: string, job: Job, now: int, succeeded: bool)
    ensures RanAs(h, job, AfterRun(CalendarOf(h, zone), job, now, succeeded), now, succeeded)
  {
    SearchMeans(h, job.schedule, job.timezone, now);
  }

  /** The job in memory is active and its next run has come. */
  predicate RunIsDue(s: State, id: string, now: int) {
    && id in s.jobs && s.jobs[id].status == Active
    && s.jobs[id].nextRunAt.Some? && s.jobs[id].nextRunAt.value <= now
  }

  /** Memory and store hold the same record of the job. */
  predicate Recorded(t: State, id: string) {
    id in t.jobs && id in t.store && t.jobs[id] == t.store[id]
  }

  /**
   A running tick that walks the jobs in memory, for every job: a due one is executed once, and if its record can be
   saved, memory and store hold what the run makes of it; otherwise both keep what they had. A job that is not due is
   not executed, and keeps its record.
   */
  lemma TickRecords(h: Host, zone: string, s: State, todo: seq<string>, now: int, succeeds: string -> bool,
                    saves: string -> bool, id: string)
    requires s.running && Walks(todo, s.jobs)
    ensures var t := Tick(CalendarOf(h, zone), s, todo, now, succeeds, saves);
            && Executions(t.calls, id) == Executions(s.calls, id) + (if RunIsDue(s, id, now) then 1 else 0)
            && if RunIsDue(s, id, now) && saves(id)
               then Recorded(t, id) && RanAs(h, s.jobs[id], t.jobs[id], now, succeeds(id))
               else Lookup(t.jobs, id) == Lookup(s.jobs, id) && Lookup(t.store, id) == Lookup(s.store, id)
  {
    TickMeans(CalendarOf(h, zone), s, todo, now, succeeds, saves, id);
    if id in s.jobs {
      AfterRunMeans(h, zone, s.jobs[id], now, succeeds(id));
    }
  }

  /** A scheduler that is stopped executes nothing. */
  lemma StoppedTick(cal: Calendar, s: State, todo: seq<string>, now: int, succeeds: string -> bool,
                    saves: string -> bool)
    requires !s.running
    ensures Tick(cal, s, todo, now, succeeds, saves) == s
  {
  }

  // ---- Creation ----

  /** What a job must have to be accepted. */
  ghost predicate WellFormedJob(cal: Calendar, name: string, action: string, schedule: string, timezone: string,
                                maxRuns: Option<int>) {
    && !Blank(name) && !Blank(action) && (maxRuns.Some? ==> maxRuns.value > 0)
    && cal.zoneValid(timezone) && cal.expressionValid(schedule)
  }

  /** What one reason for a refusal says about the job. */
  ghost predicate Refused(cal: Calendar, error: Error, id: string, name: string, action: string, schedule: string,
                          timezone: string, maxRuns: Option<int>, now: int) {
    match error
    case IdRequired => Blank(id)
    case NameRequired => Blank(name)
    case ActionRequired => Blank(action)
    case MaxRunsInvalid => maxRuns.Some? && maxRuns.value <= 0
    case TimezoneInvalid => !cal.zoneValid(timezone)
    case ExpressionInvalid => !cal.expressionValid(schedule)
    case NextRunFailed => !cal.nextRun(schedule, timezone, now).Found?
    case _ => false
  }

  lemma ValidateMeans(cal: Calendar, id: string, job: Job)
    ensures Validate(cal, id, job).None? <==>
            !Blank(id) && WellFormedJob(cal, job.name, job.action, job.schedule, job.timezone, job.maxRuns)
    ensures Validate(cal, id, job).Some? ==>
              forall now :: Refused(cal, Validate(cal, id, job).value, id, job.name, job.action,
                                    job.schedule, job.timezone, job.maxRuns, now)
  {
    TrimBlank(id);
    TrimBlank(job.name);
    TrimBlank(job.action);
  }

  /** The id asked for, without its padding, is free as far as memory and store tell; no id is asked for otherwise. */
  predicate IdFree(s: State, input: Input, readable: bool) {
    input.id.Some? ==>
      var id := Trim(input.id.value); id !in s.jobs && readable && id !in s.store
  }

  /** The record that `create` makes. */
  ghost predicate CreatedAs(cal: Calendar, input: Input, job: Job, now: int) {
    && job.name == Trim(input.name) && job.action == input.action && job.schedule == Trim(input.schedule)
    && job.timezone == (if input.timezone.Some? then input.timezone.value else cal.systemZone)
    && job.maxRuns == input.maxRuns && job.runCount == 0 && job.lastRunAt == None
    && job.status == Active && job.updatedAt == now
    && job.nextRunAt.Some? && cal.nextRun(input.schedule, job.timezone, now) == Found(job.nextRunAt.value)
  }

  lemma CandidateMeans(cal: Calendar, input: Input, id: string, timezone: string)
    requires !Blank(id) && timezone == if input.timezone.Some? then input.timezone.value else cal.systemZone
    ensures var candidate := NewJob(cal, input, 0, None).(name := input.name, schedule := input.schedule);
            var invalid := Validate(cal, id, candidate);
            && (invalid.None? <==>
                WellFormedJob(cal, input.name, input.action, input.schedule, timezone, input.maxRuns))
            && (invalid.Some? ==>
                  forall now :: Refused(cal, invalid.value, id, input.name, input.action, input.schedule, timezone,
                                        input.maxRuns, now))
  {
    ValidateMeans(cal, id, NewJob(cal, input, 0, None).(name := input.name, schedule := input.schedule));
  }

  /** The reason for which a creation is refused is the case. */
  ghost predicate CreateRefused(cal: Calendar, s: State, input: Input, now: int, io: Io, error: Error) {
    match error
    case AlreadyExists =>
      input.id.Some? && var id := Trim(input.id.value); id in s.jobs || id in s.store
    case StoreFailed => !io.read || !io.write
    case _ =>
      Refused(cal, error, "candidate", input.name, input.action, input.schedule,
              if input.timezone.Some? then input.timezone.value else cal.systemZone, input.maxRuns, now)
  }

  lemma AdmittedOkIff(cal: Calendar, s: State, input: Input, uuid: string, now: int, io: Io, timezone: string)
    requires timezone == if input.timezone.Some? then input.timezone.value else cal.systemZone
    ensures var r := Admitted(cal, s, input, uuid, now, io);
            && (r.Ok? <==>
                && WellFormedJob(cal, input.name, input.action, input.schedule, timezone, input.maxRuns)
                && IdFree(s, input, io.read) && cal.nextRun(input.schedule, timezone, now).Found?)
            && (r.Ok? ==> CreatedAs(cal, input, r.value, now))
  {
    assert !Blank("candidate") by { assert "candidate"[0] == 'c' && 'c' in "candidate"; }
    CandidateMeans(cal, input, "candidate", timezone);
  }

  lemma InvalidRefused(cal: Calendar, s: State, input: Input, now: int, io: Io, id: string, timezone: string)
    requires id == "candidate"
    requires timezone == if input.timezone.Some? then input.timezone.value else cal.systemZone
    ensures var candidate := NewJob(cal, input, 0, None).(name := input.name, schedule := input.schedule);
            var invalid := Validate(cal, id, candidate);
            invalid.Some? ==> CreateRefused(cal, s, input, now, io, invalid.value)
  {
    assert id[0] == 'c' && 'c' in id;
    CandidateMeans(cal, input, id, timezone);
  }

  lemma AdmittedRefused(cal: Calendar, s: State, input: Input, uuid: string, now: int, io: Io, timezone: string)
    requires timezone == if input.timezone.Some? then input.timezone.value else cal.systemZone
    ensures var r := Admitted(cal, s, input, uuid, now, io); r.Err? ==> CreateRefused(cal, s, input, now, io, r.error)
  {
    InvalidRefused(cal, s, input, now, io, "candidate", timezone);
  }

  /**
   `create` succeeds exactly when the job is well formed, the id is free, a matching minute lies ahead and the record
   can be saved; memory and store then hold the record under the id asked for, or the generated one, and are unchanged
   otherwise. A refusal names something that is the case.
   */
  lemma CreateMeans(cal: Calendar, s: State, input: Input, uuid: string, now: int, io: Io)
    ensures var (t, r) := Create(cal, s, input, uuid, now, io);
            var timezone := if input.timezone.Some? then input.timezone.value else cal.systemZone;
            var id := if input.id.Some? then Trim(input.id.value) else uuid;
            && (r.Ok? <==>
                && WellFormedJob(cal, input.name, input.action, input.schedule, timezone, input.maxRuns)
                && IdFree(s, input, io.read) && cal.nextRun(input.schedule, timezone, now).Found? && io.write)
            && (if r.Ok?
                then CreatedAs(cal, input, r.value, now)
                     && t == State(s.running, s.jobs[id := r.value], s.store[id := r.value], s.calls)
                else t == s && CreateRefused(cal, s, input, now, io, r.error))
  {
    var timezone := if input.timezone.Some? then input.timezone.value else cal.systemZone;
    AdmittedOkIff(cal, s, input, uuid, now, io, timezone);
    AdmittedRefused(cal, s, input, uuid, now, io, timezone);
    CommitMeans(s, CreatedId(input, uuid), Admitted(cal, s, input, uuid, now, io), io);
  }

  /** What is accepted is saved to store and memory, or to neither. */
  lemma CommitMeans(s: State, id: string, r: Result<Job>, io: Io)
    ensures Commit(s, id, r, io) ==
            if r.Err? then (s, r)
            else if !io.write then (s, Err(StoreFailed))
            else (State(s.running, s.jobs[id := r.value], s.store[id := r.value], s.calls), r)
  {
  }

  // ---- Updates ----

  /** What the patch names is taken from it, the rest stays. */
  predicate TakesPatch(job: Job, patch: Patch, next: Job) {
    && next.name == (if patch.name.Some? then Trim(patch.name.value) else job.name)
    && next.action == (if patch.action.Some? then patch.action.value else job.action)
    && next.schedule == (if patch.schedule.Some? then Trim(patch.schedule.value) else job.schedule)
    && next.timezone == (if patch.timezone.Some? then patch.timezone.value else job.timezone)
    && next.status == (if patch.status.Some? then patch.status.value else job.status)
    && next.maxRuns == (if patch.maxRuns.Some? then patch.maxRuns.value else job.maxRuns)
    && next.runCount == job.runCount && next.lastRunAt == job.lastRunAt
  }

  /** The record that `update` makes: an active one with its next run, any other one without. */
  ghost predicate PatchedAs(cal: Calendar, job: Job, patch: Patch, next: Job, now: int) {
    && TakesPatch(job, patch, next) && next.updatedAt == now
    && if next.status != Active then next.nextRunAt == None
       else next.nextRunAt.Some? && cal.nextRun(next.schedule, next.timezone, now) == Found(next.nextRunAt.value)
  }

  /** The record that `update` works on: that in memory, or that in the store. */
  function Current(s: State, id: string, readable: bool): Option<Job> {
    if id in s.jobs then Some(s.jobs[id]) else if readable && id in s.store then Some(s.store[id]) else None
  }

  /** The reason for which an update is refused is the case for the record with the patch. */
  ghost predicate UpdateRefused(cal: Calendar, id: string, job: Job, patch: Patch, now: int, error: Error) {
    forall next | TakesPatch(job, patch, next) ::
      Refused(cal, error, id, next.name, next.action, next.schedule, next.timezone, next.maxRuns, now)
  }

  lemma RevisedMeans(cal: Calendar, id: string, job: Job, patch: Patch, now: int)
    ensures var r := Revised(cal, id, job, patch, now);
            && (forall next | TakesPatch(job, patch, next) ::
                  r.Ok? <==>
                  && !Blank(id)
                  && WellFormedJob(cal, next.name, next.action, next.schedule, next.timezone, next.maxRuns)
                  && (next.status == Active ==> cal.nextRun(next.schedule, next.timezone, now).Found?))
            && (r.Ok? ==> PatchedAs(cal, job, patch, r.value, now))
  {
    var next := Patched(job, patch, now);
    ValidateMeans(cal, id, next);
    assert TakesPatch(job, patch, next);
  }

  lemma RevisedRefused(cal: Calendar, id: string, job: Job, patch: Patch, now: int)
    ensures var r := Revised(cal, id, job, patch, now);
            r.Err? ==> !r.error.StoreFailed? && UpdateRefused(cal, id, job, patch, now, r.error)
  {
    var next := Patched(job, patch, now);
    ValidateMeans(cal, id, next);
  }

  /** The outcome of an update of the record `job`. */
  ghost predicate Updated(cal: Calendar, s: State, id: string, job: Job, patch: Patch, now: int, io: Io, t: State,
                          r: Result<Job>) {
    match r
    case Ok(next) =>
      PatchedAs(cal, job, patch, next, now) && t == State(s.running, s.jobs[id := next], s.store[id := next], s.calls)
    case Err(error) =>
      && t == State(s.running, s.jobs[id := job], s.store, s.calls)
      && if error.StoreFailed? then !io.write else UpdateRefused(cal, id, job, patch, now, error)
  }

  lemma RequireMeans(s: State, id: string, io: Io)
    ensures var current := Current(s, id, io.read);
            Require(s, id, io) ==
            if current.Some? then (State(s.running, s.jobs[id := current.value], s.store, s.calls), Ok(current.value))
            else (s, Err(if io.read then NotFound else StoreFailed))
  {
    assert id in s.jobs ==> s.jobs[id := s.jobs[id]] == s.jobs;
  }

  lemma CommitUpdates(cal: Calendar, s: State, id: string, job: Job, patch: Patch, now: int, io: Io, r: Result<Job>)
    requires r.Ok? ==> PatchedAs(cal, job, patch, r.value, now)
    requires r.Err? ==> !r.error.StoreFailed? && UpdateRefused(cal, id, job, patch, now, r.error)
    ensures var s1 := State(s.running, s.jobs[id := job], s.store, s.calls);
            var (t, result) := Commit(s1, id, r, io);
            Updated(cal, s, id, job, patch, now, io, t, result) && (result.Ok? <==> io.write && r.Ok?)
  {
    var s1 := State(s.running, s.jobs[id := job], s.store, s.calls);
    CommitMeans(s1, id, r, io);
    if r.Ok? {
      assert s1.jobs[id := r.value] == s.jobs[id := r.value];
    }
  }

  lemma UpdatedWhenKnown(cal: Calendar, s: State, id: string, job: Job, patch: Patch, now: int, io: Io)
    ensures var s1 := State(s.running, s.jobs[id := job], s.store, s.calls);
            var (t, r) := Commit(s1, id, Revised(cal, id, job, patch, now), io);
            && Updated(cal, s, id, job, patch, now, io, t, r)
            && (r.Ok? <==> io.write && Revised(cal, id, job, patch, now).Ok?)
  {
    RevisedMeans(cal, id, job, patch, now);
    RevisedRefused(cal, id, job, patch, now);
    CommitUpdates(cal, s, id, job, patch, now, io, Revised(cal, id, job, patch, now));
  }

  /**
   `update` of a job that memory or store hold saves the patched record, in store and memory, or changes neither, except
   that a job found in the store only is brought into memory; the reason for a refusal is the case for the patched
   record. An unknown job is not found, and nothing changes.
   */
  lemma UpdateMeans(cal: Calendar, s: State, id: string, patch: Patch, now: int, io: Io)
    ensures var (t, r) := SchedulerModel.Update(cal, s, id, patch, now, io);
            var current := Current(s, id, io.read);
            if current.Some? then Updated(cal, s, id, current.value, patch, now, io, t, r)
            else t == s && r == Err(if io.read then NotFound else StoreFailed)
  {
    var current := Current(s, id, io.read);
    RequireMeans(s, id, io);
    if current.Some? {
      UpdatedWhenKnown(cal, s, id, current.value, patch, now, io);
    }
  }

  /** With `next` the patched record, the update succeeds exactly when it can be saved and `next` is well formed. */
  lemma UpdateSucceedsIff(cal: Calendar, s: State, id: string, patch: Patch, now: int, io: Io, job: Job,
                          next: Job)
    requires Current(s, id, io.read) == Some(job) && PatchedAs(cal, job, patch, next, now)
    ensures var r := SchedulerModel.Update(cal, s, id, patch, now, io).1;
            r.Ok? <==>
            && io.write && !Blank(id)
            && WellFormedJob(cal, next.name, next.action, next.schedule, next.timezone, next.maxRuns)
  {
    RequireMeans(s, id, io);
    RevisedMeans(cal, id, job, patch, now);
    UpdatedWhenKnown(cal, s, id, job, patch, now, io);
  }

  // ---- Removal and listing ----

  /** A successful removal takes the job out of memory and store and changes nothing else; a failed one, nothing. */
  lemma RemoveMeans(s: State, id: string, io: Io, other: string)
    ensures var (t, r) := Remove(s, id, io);
            && (r.Ok? <==> io.write)
            && t.running == s.running && t.calls == s.calls
            && Lookup(t.jobs, other) == (if r.Ok? && other == id then None else Lookup(s.jobs, other))
            && Lookup(t.store, other) == (if r.Ok? && other == id then None else Lookup(s.store, other))
  {
  }

  /** Starting and listing make memory what the store holds, and execute nothing. */
  lemma RefillMeans(s: State, io: Io)
    ensures ListJobs(s, io) == State(s.running, if io.read then s.store else s.jobs, s.store, s.calls)
    ensures SchedulerModel.Start(s, io) ==
            if s.running || !io.read then s else State(true, s.store, s.store, s.calls)
  {
  }
}
