/**
 Analysis Jobs: the row, its state contract as Python checks it, and every transaction that writes
 one. Error codes are kept by class; what matters of a code is which public failure it maps to.
 */
module JobState {
  import opened Common

  type Id = nat
  type Time = int

  datatype TargetType = GameTarget | CreatorTarget
  datatype Target = Target(kind: TargetType, canonicalId: string)
  datatype Status = Queued | Running | Succeeded | Failed
  datatype Stage = FetchingData | Analyzing | Finalizing
  datatype Mode = Create | Reanalyze

  datatype ErrorCode =
    | PermanentCode(name: string)
    | RetryableCode(name: string)
    | InternalError
    | QueueUnavailable
    | UnlistedCode(name: string)

  /** The JSONB column: SQL NULL, the JSON value null, the published object, or anything else. */
  datatype Payload = SqlNull | JsonNull | ProfileObject(profile: Id) | OtherJson(text: string)

  datatype Job = Job(
    target: Target,
    mode: Mode,
    status: Status,
    stage: Option<Stage>,
    completedUnits: int,
    totalUnits: int,
    errorCode: Option<ErrorCode>,
    errorMessage: Option<string>,
    retryable: bool,
    profile: Option<Id>,
    payload: Payload,
    createdAt: Time,
    updatedAt: Time,
    startedAt: Option<Time>,
    completedAt: Option<Time>)

  const TOTAL_UNITS := 5

  const TEMPORARY_MESSAGE := "Analysis is temporarily unavailable. Please retry."
  const PERMANENT_MESSAGE := "Analysis could not be completed for this target."
  const INTERNAL_MESSAGE := "Analysis failed unexpectedly. Please retry."
  const QUEUE_MESSAGE := "Analysis could not be queued. Please retry."

  datatype PublicFailure = PublicFailure(message: string, retryable: bool)

  function PublicJobFailure(code: Option<ErrorCode>): Option<PublicFailure> {
    match code
    case None => None
    case Some(PermanentCode(_)) => Some(PublicFailure(PERMANENT_MESSAGE, false))
    case Some(RetryableCode(_)) => Some(PublicFailure(TEMPORARY_MESSAGE, true))
    case Some(InternalError) => Some(PublicFailure(INTERNAL_MESSAGE, true))
    case Some(QueueUnavailable) => Some(PublicFailure(QUEUE_MESSAGE, true))
    case Some(UnlistedCode(_)) => None
  }

  // ---------------------------------------------------------------- the Python contract

  predicate ResultPresent(job: Job) {
    !job.payload.SqlNull? && !job.payload.JsonNull?
  }

  predicate ValidTimes(job: Job) {
    && job.updatedAt >= job.createdAt
    && (job.startedAt.Some? ==> job.startedAt.value >= job.createdAt)
    && (job.completedAt.Some? ==>
          && job.completedAt.value >= job.createdAt
          && (job.startedAt.Some? ==> job.completedAt.value >= job.startedAt.value))
  }

  /** `valid_analysis_job_state`. */
  predicate Valid(job: Job) {
    && 0 <= job.completedUnits <= job.totalUnits
    && ValidTimes(job)
    && if job.status.Failed? then ValidFailure(job)
       else
         && job.errorCode.None? && job.errorMessage.None? && !job.retryable
         && match job.status
            case Queued =>
              && job.stage.None? && job.completedUnits == 0 && job.totalUnits == 0
              && job.profile.None? && !ResultPresent(job) && job.startedAt.None? && job.completedAt.None?
            case Running =>
              && job.stage.Some? && job.completedUnits < job.totalUnits
              && job.profile.None? && !ResultPresent(job) && job.startedAt.Some? && job.completedAt.None?
            case Succeeded =>
              && job.stage == Some(Finalizing) && job.completedUnits == job.totalUnits && job.totalUnits > 0
              && job.profile.Some? && ResultPresent(job) && job.startedAt.Some? && job.completedAt.Some?
  }

  predicate ValidFailure(job: Job)
    requires job.status.Failed?
  {
    var failure := PublicJobFailure(job.errorCode);
    && failure.Some?
    && job.errorMessage == Some(failure.value.message)
    && job.retryable == failure.value.retryable
    && job.completedAt.Some? && job.profile.None? && !ResultPresent(job)
    && if job.stage.None? then job.startedAt.None? && job.completedUnits == 0 && job.totalUnits == 0
       else job.startedAt.Some? && job.completedUnits < job.totalUnits
  }

  // ---------------------------------------------------------------- the tables

  /** All three state errors carry the same public code; which check raised is kept apart here. */
  datatype JobError = NotFound | StateInvalid | StageInvalid | UnitsInvalid | TargetInvalid | SettingsInvalid
                    | ResultInvalid | PreCheck | PostCheck | UniqueViolation | UnsafeFailure

  datatype Result<+T> = Ok(value: T) | Err(error: JobError)

  datatype Tables = Tables(jobs: map<Id, Job>, profiles: map<Target, Id>)

  datatype Reply<+T> = Reply(tables: Tables, result: Result<T>)

  /** The row's write hook: the change stamp never falls behind any time the row carries. */
  function Stamped(job: Job, stamp: Time): Job {
    var started := if job.startedAt.Some? then job.startedAt.value else job.createdAt;
    var completed := if job.completedAt.Some? then job.completedAt.value else job.createdAt;
    job.(updatedAt := Max(stamp, Max(Max(job.createdAt, job.updatedAt), Max(started, completed))))
  }

  /** Commits a changed row if it passes the post-check, and rolls back otherwise. */
  function Commit<T>(tables: Tables, id: Id, job: Job, stamp: Time, value: T): Reply<T> {
    if !Valid(job) then Reply(tables, Err(PostCheck))
    else Reply(tables.(jobs := tables.jobs[id := Stamped(job, stamp)]), Ok(value))
  }

  /** `require_valid_succeeded_job_result`: the published object names the target's profile. */
  predicate ValidResult(tables: Tables, job: Job) {
    && job.profile.Some?
    && job.payload == ProfileObject(job.profile.value)
    && job.target in tables.profiles && tables.profiles[job.target] == job.profile.value
  }

  // ---------------------------------------------------------------- the worker's transactions

  function StartedRow(job: Job, now: Time): Job {
    job.(status := Running, stage := Some(FetchingData), completedUnits := 0, totalUnits := TOTAL_UNITS,
         startedAt := Some(now))
  }

  /** What start and claim do to a job: nothing if finished, start it if queued. `true`: there is work. */
  function Begin(tables: Tables, id: Id, now: Time, stamp: Time): Reply<bool>
    requires id in tables.jobs
  {
    var job := tables.jobs[id];
    if !Valid(job) then Reply(tables, Err(PreCheck))
    else if job.status.Queued? then Commit(tables, id, StartedRow(job, now), stamp, true)
    else Reply(tables, Ok(true))
  }

  /** `AnalysisJobExecutor._claim`. */
  function Claim(tables: Tables, id: Id, now: Time, stamp: Time): Reply<bool> {
    if id !in tables.jobs then Reply(tables, Ok(false))
    else
      var job := tables.jobs[id];
      if job.status.Failed? then Reply(tables, if Valid(job) then Ok(false) else Err(PreCheck))
      else if job.status.Succeeded? then
        Reply(tables, if !ValidResult(tables, job) then Err(ResultInvalid)
                      else if Valid(job) then Ok(false) else Err(PreCheck))
      else Begin(tables, id, now, stamp)
  }

  /** `GameAnalysisService.start` and `CreatorAnalysisService.start`: `false` for a finished job. */
  function Start(tables: Tables, kind: TargetType, id: Id, now: Time, stamp: Time): Reply<bool> {
    if id !in tables.jobs then Reply(tables, Err(NotFound))
    else
      var job := tables.jobs[id];
      if job.target.kind != kind then Reply(tables, Err(TargetInvalid))
      else if job.status.Succeeded? then
        Reply(tables, if !ValidResult(tables, job) then Err(ResultInvalid)
                      else if Valid(job) then Ok(false) else Err(PreCheck))
      else if job.status.Failed? then Reply(tables, Err(StateInvalid))
      else Begin(tables, id, now, stamp)
  }

  function StageOrder(stage: Option<Stage>): nat {
    match stage
    case None => 0
    case Some(FetchingData) => 1
    case Some(Analyzing) => 2
    case Some(Finalizing) => 3
  }

  function AdvancedRow(job: Job, units: int): Job {
    var reached := if job.completedUnits >= units then job.completedUnits else units;
    var capped := if reached <= job.totalUnits - 1 then reached else job.totalUnits - 1;
    var requested := Some(if units == 4 then Finalizing else Analyzing);
    job.(completedUnits := capped,
         stage := if StageOrder(requested) > StageOrder(job.stage) then requested else job.stage)
  }

  function Advance(tables: Tables, kind: TargetType, id: Id, units: int, stamp: Time): Reply<()> {
    if units != 2 && units != 4 then Reply(tables, Err(UnitsInvalid))
    else if id !in tables.jobs then Reply(tables, Err(NotFound))
    else
      var job := tables.jobs[id];
      if job.target.kind != kind then Reply(tables, Err(TargetInvalid))
      else if job.status.Succeeded? then
        Reply(tables, if !ValidResult(tables, job) then Err(ResultInvalid)
                      else if Valid(job) then Ok(()) else Err(PreCheck))
      else if !job.status.Running? then Reply(tables, Err(StateInvalid))
      else if AdvancedRow(job, units) == job then Reply(tables, if Valid(job) then Ok(()) else Err(PostCheck))
      else Commit(tables, id, AdvancedRow(job, units), stamp, ())
  }

  function FinalizedRow(job: Job, profile: Id, now: Time): Job {
    job.(status := Succeeded, stage := Some(Finalizing), completedUnits := job.totalUnits, profile := Some(profile),
         payload := ProfileObject(profile), completedAt := Some(now), errorCode := None, errorMessage := None,
         retryable := false)
  }

  /** `finalize`: publishes the target's profile, created under `created` when there is none yet. */
  function Finalize(tables: Tables, kind: TargetType, id: Id, settingsOk: bool, created: Id, now: Time,
                    stamp: Time): Reply<Id> {
    if id !in tables.jobs then Reply(tables, Err(NotFound))
    else
      var job := tables.jobs[id];
      if job.target.kind != kind then Reply(tables, Err(TargetInvalid))
      else if job.status.Succeeded? then
        Reply(tables, if !ValidResult(tables, job) then Err(ResultInvalid)
                      else if Valid(job) then Ok(job.profile.value) else Err(PreCheck))
      else if !job.status.Running? then Reply(tables, Err(StateInvalid))
      else if job.stage != Some(Finalizing) then Reply(tables, Err(StageInvalid))
      else if !settingsOk then Reply(tables, Err(SettingsInvalid))
      else
        var profile := if job.target in tables.profiles then tables.profiles[job.target] else created;
        var reply := Commit(tables, id, FinalizedRow(job, profile, now), stamp, profile);
        if reply.result.Err? then reply
        else reply.(tables := reply.tables.(profiles := tables.profiles[job.target := profile]))
  }

  function FailedRow(job: Job, code: ErrorCode, failure: PublicFailure, now: Time): Job {
    job.(errorCode := Some(code), errorMessage := Some(failure.message), retryable := failure.retryable,
         profile := None, payload := if ResultPresent(job) then JsonNull else job.payload,
         status := Failed, completedAt := Some(now))
  }

  /** `_write_terminal_failure`, for a failure built from the public table. */
  function WriteTerminalFailure(tables: Tables, id: Id, code: ErrorCode, preserveRunning: bool, now: Time,
                                stamp: Time): Reply<bool> {
    var failure := PublicJobFailure(Some(code));
    if failure.None? then Reply(tables, Err(UnsafeFailure))
    else if id !in tables.jobs then Reply(tables, Ok(false))
    else
      var job := tables.jobs[id];
      if job.status.Failed? then Reply(tables, if Valid(job) then Ok(false) else Err(PreCheck))
      else if job.status.Succeeded? then
        Reply(tables, if !ValidResult(tables, job) then Err(ResultInvalid)
                      else if Valid(job) then Ok(false) else Err(PreCheck))
      else if !Valid(job) then Reply(tables, Err(PreCheck))
      else if job.status.Running? && preserveRunning then Reply(tables, Ok(false))
      else Commit(tables, id, FailedRow(job, code, failure.value, now), stamp, true)
  }

  // ---------------------------------------------------------------- creating jobs

  predicate Active(job: Job) {
    job.status.Queued? || job.status.Running?
  }

  predicate ActiveFor(jobs: map<Id, Job>, target: Target, id: Id) {
    id in jobs && jobs[id].target == target && Active(jobs[id])
  }

  predicate HasActive(jobs: map<Id, Job>, target: Target) {
    exists id :: id in jobs && ActiveFor(jobs, target, id)
  }

  function NewJob(target: Target, mode: Mode, now: Time): Job {
    Job(target, mode, Queued, None, 0, 0, None, None, false, None, SqlNull, now, now, None, None)
  }

  /** The insert itself: the primary key and the partial unique index refuse a second active job. */
  function Insert(tables: Tables, id: Id, target: Target, mode: Mode, now: Time, stamp: Time): Reply<Id> {
    if id in tables.jobs || HasActive(tables.jobs, target) then Reply(tables, Err(UniqueViolation))
    else Reply(tables.(jobs := tables.jobs[id := Stamped(NewJob(target, mode, now), stamp)]), Ok(id))
  }

  datatype Creation = ExistingProfile(profile: Id) | Reused(job: Id) | Created(job: Id)

  ghost predicate Creates(tables: Tables, id: Id, target: Target, mode: Mode, skipProfiled: bool, now: Time,
                          stamp: Time, reply: Reply<Creation>) {
    if skipProfiled && mode.Create? && target in tables.profiles then
      reply == Reply(tables, Ok(ExistingProfile(tables.profiles[target])))
    else if HasActive(tables.jobs, target) then
      reply.tables == tables && reply.result.Ok? && reply.result.value.Reused?
      && ActiveFor(tables.jobs, target, reply.result.value.job)
    else
      var inserted := Insert(tables, id, target, mode, now, stamp);
      reply == Reply(inserted.tables, if inserted.result.Ok? then Ok(Created(id)) else Err(inserted.result.error))
  }
}
