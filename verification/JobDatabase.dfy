/** The job transactions as they run: look the row up, assign its columns, re-check, commit. */
module JobDatabase {
  import opened Common
  import opened JobState

  class AnalysisJobs {
    var jobs: map<Id, Job>
    var profiles: map<Target, Id>

    ghost function View(): Tables
      reads this
    {
      Tables(jobs, profiles)
    }

    constructor ()
      ensures View() == Tables(map[], map[])
    {
      jobs, profiles := map[], map[];
    }

    // -------------------------------------------------------------- creating jobs

    /** `active_job`: some queued or running job of the target, if there is one. */
    method ActiveJob(target: Target) returns (active: Option<Id>)
      ensures active.Some? ==> ActiveFor(jobs, target, active.value)
      ensures active.None? ==> !HasActive(jobs, target)
    {
      var todo := jobs.Keys;
      while todo != {}
        invariant todo <= jobs.Keys
        invariant forall id :: id in jobs.Keys - todo ==> !ActiveFor(jobs, target, id)
        decreases |todo|
      {
        var id :| id in todo;
        if ActiveFor(jobs, target, id) {
          return Some(id);
        }
        todo := todo - {id};
      }
      return None;
    }

    method InsertJob(id: Id, target: Target, mode: Mode, now: Time, stamp: Time) returns (result: Result<Creation>)
      requires !HasActive(jobs, target)
      modifies `jobs
      ensures var inserted := Insert(old(View()), id, target, mode, now, stamp);
              Reply(View(), result) ==
              Reply(inserted.tables, if inserted.result.Ok? then Ok(Created(id)) else Err(inserted.result.error))
    {
      if id in jobs {
        return Err(UniqueViolation);
      }
      jobs := jobs[id := Stamped(NewJob(target, mode, now), stamp)];
      return Ok(Created(id));
    }

    /** `create_or_reuse_job`. */
    method CreateOrReuse(id: Id, target: Target, mode: Mode, now: Time, stamp: Time) returns (result: Result<Creation>)
      modifies `jobs
      ensures Creates(old(View()), id, target, mode, true, now, stamp, Reply(View(), result))
    {
      if mode.Create? {
        if target in profiles {
          return Ok(ExistingProfile(profiles[target]));
        }
      }
      var active := ActiveJob(target);
      if active.Some? {
        return Ok(Reused(active.value));
      }
      result := InsertJob(id, target, mode, now, stamp);
    }

    /** `create_creator_seed_job`: the seed's profile exists already and does not stop the job. */
    method CreateCreatorSeed(id: Id, target: Target, now: Time, stamp: Time) returns (result: Result<Creation>)
      modifies `jobs
      ensures !target.kind.CreatorTarget? ==> result == Err(TargetInvalid) && jobs == old(jobs)
      ensures target.kind.CreatorTarget? ==>
              Creates(old(View()), id, target, Create, false, now, stamp, Reply(View(), result))
    {
      if !target.kind.CreatorTarget? {
        return Err(TargetInvalid);
      }
      var active := ActiveJob(target);
      if active.Some? {
        return Ok(Reused(active.value));
      }
      result := InsertJob(id, target, Create, now, stamp);
    }

    /** `retry_or_reuse_job`: a new job for the source job's target, in the source job's mode. */
    method RetryOrReuse(id: Id, source: Job, now: Time, stamp: Time) returns (result: Result<Creation>)
      modifies `jobs
      ensures Creates(old(View()), id, source.target, source.mode, false, now, stamp, Reply(View(), result))
    {
      var active := ActiveJob(source.target);
      if active.Some? {
        return Ok(Reused(active.value));
      }
      result := InsertJob(id, source.target, source.mode, now, stamp);
    }

    // -------------------------------------------------------------- progress

    method StartWork(id: Id, now: Time, stamp: Time) returns (result: Result<bool>)
      requires id in jobs && Active(jobs[id])
      modifies `jobs
      ensures Reply(View(), result) == Begin(old(View()), id, now, stamp)
    {
      var job := jobs[id];
      if !Valid(job) {
        return Err(PreCheck);
      }
      if job.status.Queued? {
        job := job.(status := Running);
        job := job.(stage := Some(FetchingData));
        job := job.(completedUnits := 0, totalUnits := TOTAL_UNITS);
        job := job.(startedAt := Some(now));
        if !Valid(job) {
          return Err(PostCheck);
        }
        jobs := jobs[id := Stamped(job, stamp)];
      }
      return Ok(true);
    }

    method Claim(id: Id, now: Time, stamp: Time) returns (result: Result<bool>)
      modifies `jobs
      ensures Reply(View(), result) == JobState.Claim(old(View()), id, now, stamp)
    {
      if id !in jobs {
        return Ok(false);
      }
      var job := jobs[id];
      if job.status.Failed? {
        if !Valid(job) {
          return Err(PreCheck);
        }
        return Ok(false);
      }
      if job.status.Succeeded? {
        result := FinishedJob(job);
        return;
      }
      result := StartWork(id, now, stamp);
    }

    /** What finding a succeeded job means: nothing left to do, once its result has been checked. */
    method FinishedJob(job: Job) returns (result: Result<bool>)
      ensures result == if !ValidResult(View(), job) then Err(ResultInvalid)
                        else if Valid(job) then Ok(false) else Err(PreCheck)
    {
      if job.profile.None? || job.payload != ProfileObject(job.profile.value) {
        return Err(ResultInvalid);
      }
      if job.target !in profiles || profiles[job.target] != job.profile.value {
        return Err(ResultInvalid);
      }
      if !Valid(job) {
        return Err(PreCheck);
      }
      return Ok(false);
    }

    method Start(kind: TargetType, id: Id, now: Time, stamp: Time) returns (result: Result<bool>)
      modifies `jobs
      ensures Reply(View(), result) == JobState.Start(old(View()), kind, id, now, stamp)
    {
      if id !in jobs {
        return Err(NotFound);
      }
      var job := jobs[id];
      if job.target.kind != kind {
        return Err(TargetInvalid);
      }
      if job.status.Succeeded? {
        result := FinishedJob(job);
        return;
      }
      if !job.status.Queued? && !job.status.Running? {
        return Err(StateInvalid);
      }
      result := StartWork(id, now, stamp);
    }

    method Advance(kind: TargetType, id: Id, units: int, stamp: Time) returns (result: Result<()>)
      modifies `jobs
      ensures Reply(View(), result) == JobState.Advance(old(View()), kind, id, units, stamp)
    {
      if units != 2 && units != 4 {
        return Err(UnitsInvalid);
      }
      if id !in jobs {
        return Err(NotFound);
      }
      var job := jobs[id];
      if job.target.kind != kind {
        return Err(TargetInvalid);
      }
      if job.status.Succeeded? {
        var finished := FinishedJob(job);
        return if finished.Ok? then Ok(()) else Err(finished.error);
      }
      if !job.status.Running? {
        return Err(StateInvalid);
      }
      if units > job.completedUnits {
        job := job.(completedUnits := units);
      }
      if job.completedUnits > job.totalUnits - 1 {
        job := job.(completedUnits := job.totalUnits - 1);
      }
      var requested := if units == 4 then Finalizing else Analyzing;
      if StageOrder(Some(requested)) > StageOrder(job.stage) {
        job := job.(stage := Some(requested));
      }
      if !Valid(job) {
        return Err(PostCheck);
      }
      if job != jobs[id] {
        jobs := jobs[id := Stamped(job, stamp)];
      }
      return Ok(());
    }

    method Finalize(kind: TargetType, id: Id, settingsOk: bool, created: Id, now: Time, stamp: Time)
      returns (result: Result<Id>)
      modifies this
      ensures Reply(View(), result) == JobState.Finalize(old(View()), kind, id, settingsOk, created, now, stamp)
    {
      if id !in jobs {
        return Err(NotFound);
      }
      var job := jobs[id];
      if job.target.kind != kind {
        return Err(TargetInvalid);
      }
      if job.status.Succeeded? {
        var finished := FinishedJob(job);
        return if finished.Ok? then Ok(job.profile.value) else Err(finished.error);
      }
      if !job.status.Running? {
        return Err(StateInvalid);
      }
      if job.stage != Some(Finalizing) {
        return Err(StageInvalid);
      }
      if !settingsOk {
        return Err(SettingsInvalid);
      }
      var profile := if job.target in profiles then profiles[job.target] else created;
      job := job.(status := Succeeded);
      job := job.(stage := Some(Finalizing));
      job := job.(completedUnits := job.totalUnits);
      job := job.(profile := Some(profile), payload := ProfileObject(profile));
      job := job.(completedAt := Some(now));
      job := job.(errorCode := None, errorMessage := None, retryable := false);
      if !Valid(job) {
        return Err(PostCheck);
      }
      jobs := jobs[id := Stamped(job, stamp)];
      profiles := profiles[job.target := profile];
      return Ok(profile);
    }

    method WriteTerminalFailure(id: Id, code: ErrorCode, preserveRunning: bool, now: Time, stamp: Time)
      returns (result: Result<bool>)
      modifies `jobs
      ensures Reply(View(), result) == JobState.WriteTerminalFailure(old(View()), id, code, preserveRunning, now, stamp)
    {
      var failure := PublicJobFailure(Some(code));
      if failure.None? {
        return Err(UnsafeFailure);
      }
      if id !in jobs {
        return Ok(false);
      }
      var job := jobs[id];
      if job.status.Failed? {
        return if Valid(job) then Ok(false) else Err(PreCheck);
      }
      if job.status.Succeeded? {
        result := FinishedJob(job);
        return;
      }
      if !Valid(job) {
        return Err(PreCheck);
      }
      if job.status.Running? && preserveRunning {
        return Ok(false);
      }
      job := job.(errorCode := Some(code));
      job := job.(errorMessage := Some(failure.value.message));
      job := job.(retryable := failure.value.retryable);
      job := job.(profile := None);
      job := job.(payload := if ResultPresent(job) then JsonNull else job.payload);
      job := job.(status := Failed);
      job := job.(completedAt := Some(now));
      if !Valid(job) {
        return Err(PostCheck);
      }
      jobs := jobs[id := Stamped(job, stamp)];
      return Ok(true);
    }
  }
}
