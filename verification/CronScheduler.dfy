/** The scheduler object itself: every method does to its fields what `SchedulerModel` says. */
module CronScheduler {
  import opened Text
  import opened NextRun
  import opened SchedulerModel

  /** A job store whose reads and writes may fail; a failed write changes nothing. */
  class JobStore {
    var rows: map<string, Job>

    constructor ()
      ensures rows == map[]
    {
      rows := map[];
    }

    method Save(id: string, job: Job, io: Io) returns (ok: bool)
      modifies this
      ensures ok == io.write
      ensures rows == if ok then old(rows)[id := job] else old(rows)
    {
      ok := io.write;
      if ok { rows := rows[id := job]; }
    }

    method Get(id: string, io: Io) returns (r: Result<Option<Job>>)
      ensures r == if io.read then Ok(Lookup(rows, id)) else Err(StoreFailed)
    {
      if !io.read { return Err(StoreFailed); }
      r := Ok(if id in rows then Some(rows[id]) else None);
    }

    method List(io: Io) returns (r: Result<map<string, Job>>)
      ensures r == if io.read then Ok(rows) else Err(StoreFailed)
    {
      r := if io.read then Ok(rows) else Err(StoreFailed);
    }

    method Delete(id: string, io: Io) returns (ok: bool)
      modifies this
      ensures ok == io.write
      ensures rows == if ok then old(rows) - {id} else old(rows)
    {
      ok := io.write;
      if ok { rows := rows - {id}; }
    }
  }

  class Scheduler {
    const cal: Calendar
    const store: JobStore
    var jobs: map<string, Job>
    var running: bool
    /** The calls made to the `onExecute` callback, in order. */
    var calls: seq<Call>

    ghost function Snapshot(): State
      reads this, store
    {
      State(running, jobs, store.rows, calls)
    }

    constructor (cal: Calendar, store: JobStore)
      requires store.rows == map[]
      ensures this.cal == cal && this.store == store
      ensures Snapshot() == Empty
    {
      this.cal, this.store := cal, store;
      jobs, running, calls := map[], false, [];
    }

    method Start(io: Io) returns (ok: bool)
      modifies this`jobs, this`running
      ensures Snapshot() == SchedulerModel.Start(old(Snapshot()), io)
      ensures ok == (old(running) || io.read)
    {
      if running { return true; }
      var listed := store.List(io);
      if listed.Err? { return false; }
      jobs := listed.value;
      running := true;
      ok := true;
    }

    method Stop()
      modifies this`running
      ensures Snapshot() == old(Snapshot()).(running := false)
    {
      running := false;
    }

    method GetJob(id: string, io: Io) returns (r: Result<Option<Job>>)
      ensures r == Get(Snapshot(), id, io)
    {
      if id in jobs {
        return Ok(Some(jobs[id]));
      }
      r := store.Get(id, io);
    }

    method Create(input: Input, uuid: string, now: int, io: Io) returns (r: Result<Job>)
      modifies this`jobs, store
      ensures (Snapshot(), r) == SchedulerModel.Create(cal, old(Snapshot()), input, uuid, now, io)
    {
      var zone := GetOr(input.timezone, cal.systemZone);
      var candidate := Job(input.name, input.action, input.schedule, zone, Active, 0, None, None, 0, input.maxRuns);
      var invalid := Validate(cal, "candidate", candidate);
      if invalid.Some? {
        return Err(invalid.value);
      }
      var id := if input.id.Some? then Trim(input.id.value) else uuid;
      if input.id.Some? {
        var existing := GetJob(id, io);
        if existing.Err? { return Err(existing.error); }
        if existing.value.Some? { return Err(AlreadyExists); }
      }
      var next := cal.nextRun(input.schedule, zone, now);
      if !next.Found? {
        return Err(NextRunFailed);
      }
      var job := Job(Trim(input.name), input.action, Trim(input.schedule), zone,
                     Active, now, None, Some(next.at), 0, input.maxRuns);
      var saved := store.Save(id, job, io);
      if !saved {
        return Err(StoreFailed);
      }
      jobs := jobs[id := job];
      r := Ok(job);
    }

    method GetRequiredJob(id: string, io: Io) returns (r: Result<Job>)
      modifies this`jobs
      ensures (Snapshot(), r) == Require(old(Snapshot()), id, io)
    {
      if id in jobs {
        return Ok(jobs[id]);
      }
      var fromStore := store.Get(id, io);
      if fromStore.Err? { return Err(fromStore.error); }
      if fromStore.value.None? { return Err(NotFound); }
      jobs := jobs[id := fromStore.value.value];
      r := Ok(fromStore.value.value);
    }

    method Update(id: string, patch: Patch, now: int, io: Io) returns (r: Result<Job>)
      modifies this`jobs, store
      ensures (Snapshot(), r) == SchedulerModel.Update(cal, old(Snapshot()), id, patch, now, io)
    {
      var existing := GetRequiredJob(id, io);
      if existing.Err? {
        return existing;
      }
      var updated := Patched(existing.value, patch, now);
      var invalid := Validate(cal, id, updated);
      if invalid.Some? {
        return Err(invalid.value);
      }
      if updated.status == Active {
        var next := cal.nextRun(updated.schedule, updated.timezone, now);
        if !next.Found? { return Err(NextRunFailed); }
        updated := updated.(nextRunAt := Some(next.at));
      }
      if updated.status == Paused || updated.status == Failed || updated.status == Completed {
        updated := updated.(nextRunAt := None);
      }
      var saved := store.Save(id, updated, io);
      if !saved {
        return Err(StoreFailed);
      }
      jobs := jobs[id := updated];
      r := Ok(updated);
    }

    method Remove(id: string, io: Io) returns (r: Result<()>)
      modifies this`jobs, store
      ensures (Snapshot(), r) == SchedulerModel.Remove(old(Snapshot()), id, io)
    {
      var deleted := store.Delete(id, io);
      if !deleted {
        return Err(StoreFailed);
      }
      jobs := jobs - {id};
      r := Ok(());
    }

    method ListJobs(io: Io) returns (r: Result<map<string, Job>>)
      modifies this`jobs
      ensures Snapshot() == SchedulerModel.ListJobs(old(Snapshot()), io)
      ensures r == if io.read then Ok(jobs) else Err(StoreFailed)
    {
      r := store.List(io);
      if r.Ok? { jobs := r.value; }
    }

    /** Calls `onExecute` for a due job and saves what came of it. */
    method ExecuteJob(id: string, job: Job, now: int, succeeds: bool, saves: bool) returns (r: Result<Job>)
      modifies this`calls, store
      ensures calls == old(calls) + [Call(id, now, saves)]
      ensures saves ==> r == Ok(AfterRun(cal, job, now, succeeds)) && store.rows == old(store.rows)[id := r.value]
      ensures !saves ==> r == Err(StoreFailed) && store.rows == old(store.rows)
    {
      var next := job.(lastRunAt := Some(now), runCount := job.runCount + 1, updatedAt := now);
      calls := calls + [Call(id, now, saves)];
      if succeeds {
        if next.maxRuns.Some? && next.runCount >= next.maxRuns.value {
          next := next.(status := Completed, nextRunAt := None);
        } else {
          var nextRun := cal.nextRun(next.schedule, next.timezone, now);
          if !nextRun.Found? {
            next := next.(status := Failed, nextRunAt := None);
          } else {
            next := next.(status := Active, nextRunAt := Some(nextRun.at));
          }
        }
      } else {
        next := next.(status := Failed, nextRunAt := None);
      }
      var saved := store.Save(id, next, Io(true, saves));
      r := if saved then Ok(next) else Err(StoreFailed);
    }

    /** The loop of a tick. */
    method WalkJobs(order: seq<string>, now: int, succeeds: string -> bool, saves: string -> bool)
      requires running && forall id | id in order :: id in jobs
      modifies this`jobs, this`calls, store
      ensures Snapshot() == Tick(cal, old(Snapshot()), order, now, succeeds, saves)
    {
      for k := 0 to |order|
        invariant running && old(jobs.Keys) == jobs.Keys
        invariant VisitAll(cal, Snapshot(), order[k..], now, succeeds, saves) ==
                  VisitAll(cal, old(Snapshot()), order, now, succeeds, saves)
      {
        var id := order[k];
        ghost var before := Snapshot();
        assert order[k..][0] == id && order[k..][1..] == order[k + 1..];
        var job := jobs[id];
        if ExecutionDue(job, now) {
          var executed := ExecuteJob(id, job, now, succeeds(id), saves(id));
          if executed.Ok? {
            jobs := jobs[id := executed.value];
          }
        }
        assert Snapshot() == Visit(cal, before, id, now, succeeds(id), saves(id));
      }
    }

    /** One tick; `order` is the order in which the job map is walked. */
    method RunTick(order: seq<string>, now: int, succeeds: string -> bool, saves: string -> bool)
      requires Walks(order, jobs)
      modifies this`jobs, this`calls, store
      ensures Snapshot() == Tick(cal, old(Snapshot()), order, now, succeeds, saves)
      ensures old(running) ==>
                forall id :: Executed(cal, old(Snapshot()), Snapshot(), id, DueIn(old(Snapshot()), id, now), now,
                                      succeeds(id), saves(id))
    {
      if !running {
        return;
      }
      WalkJobs(order, now, succeeds, saves);
      forall id
        ensures Executed(cal, old(Snapshot()), Snapshot(), id, DueIn(old(Snapshot()), id, now), now,
                         succeeds(id), saves(id))
      {
        TickMeans(cal, old(Snapshot()), order, now, succeeds, saves, id);
      }
    }
  }
}
