/**
 The table's CHECK constraints on an Analysis Job, evaluated as SQL does: comparisons with NULL are
 UNKNOWN, and a CHECK is violated only by FALSE. The contract is thus written twice, here in SQL
 and in JobState in Python; this module says exactly how the two relate.
 */
module JobSqlCheck {
  import opened Common
  import opened JobState
  import opened JobRuns

  datatype Truth = True | Unknown | False

  function Of(b: bool): Truth {
    if b then True else False
  }

  function And(a: Truth, b: Truth): Truth {
    if a.False? || b.False? then False else if a.True? && b.True? then True else Unknown
  }

  function Or(a: Truth, b: Truth): Truth {
    if a.True? || b.True? then True else if a.False? && b.False? then False else Unknown
  }

  function Not(a: Truth): Truth {
    match a
    case True => False
    case Unknown => Unknown
    case False => True
  }

  /** A comparison of a nullable column with a value. */
  function Compare<T>(column: Option<T>, test: T -> bool): Truth {
    if column.None? then Unknown else Of(test(column.value))
  }

  function NoResult(job: Job): Truth {
    Or(Of(job.payload.SqlNull?), if job.payload.SqlNull? then Unknown else Of(job.payload.JsonNull?))
  }

  function NoError(job: Job): Truth {
    And(Of(job.errorCode.None?),
    And(Of(job.errorMessage.None?),
    Not(Of(job.retryable))))
  }

  function QueuedShape(job: Job): Truth {
    And(Of(job.status.Queued?),
    And(Of(job.stage.None?),
    And(Of(job.completedUnits == 0),
    And(Of(job.totalUnits == 0),
    And(NoError(job),
    And(Of(job.profile.None?),
    And(NoResult(job),
    And(Of(job.startedAt.None?),
    Of(job.completedAt.None?)))))))))
  }

  function RunningShape(job: Job): Truth {
    And(Of(job.status.Running?),
    And(Of(job.stage.Some?),
    And(Of(job.totalUnits > 0),
    And(Of(job.completedUnits < job.totalUnits),
    And(NoError(job),
    And(Of(job.profile.None?),
    And(NoResult(job),
    And(Of(job.startedAt.Some?),
    And(Compare(job.startedAt, (t: Time) => t >= job.createdAt),
    Of(job.completedAt.None?))))))))))
  }

  /**
   `result_payload = jsonb_build_object('profile_id', profile_id::text)`; a NULL profile builds an object with a
   null.
   */
  function PublishedPayload(job: Job): Truth {
    if job.payload.SqlNull? then Unknown
    else Of(job.profile.Some? && job.payload == ProfileObject(job.profile.value))
  }

  function NotBefore(column: Option<Time>, other: Option<Time>): Truth {
    if column.None? || other.None? then Unknown else Of(column.value >= other.value)
  }

  function SucceededShape(job: Job): Truth {
    And(Of(job.status.Succeeded?),
    And(Compare(job.stage, (s: Stage) => s.Finalizing?),
    And(Of(job.totalUnits > 0),
    And(Of(job.completedUnits == job.totalUnits),
    And(NoError(job),
    And(Of(job.profile.Some?),
    And(PublishedPayload(job),
    And(Of(job.startedAt.Some?),
    And(Compare(job.startedAt, (t: Time) => t >= job.createdAt),
    And(Of(job.completedAt.Some?),
    NotBefore(job.completedAt, job.startedAt)))))))))))
  }

  function FailedShape(job: Job): Truth {
    And(Of(job.status.Failed?),
    And(Of(job.errorCode.Some?),
    And(Of(job.errorMessage.Some?),
    And(Of(job.profile.None?),
    And(NoResult(job),
    And(Of(job.completedAt.Some?),
    And(Compare(job.completedAt, (t: Time) => t >= job.createdAt),
    Or(NeverStarted(job), StoppedWhileRunning(job)))))))))
  }

  function NeverStarted(job: Job): Truth {
    And(Of(job.stage.None?),
    And(Of(job.completedUnits == 0),
    And(Of(job.totalUnits == 0),
    Of(job.startedAt.None?))))
  }

  function StoppedWhileRunning(job: Job): Truth {
    And(Of(job.stage.Some?),
    And(Of(job.totalUnits > 0),
    And(Of(job.completedUnits < job.totalUnits),
    And(Of(job.startedAt.Some?),
    And(Compare(job.startedAt, (t: Time) => t >= job.createdAt),
    NotBefore(job.completedAt, job.startedAt))))))
  }

  /** `ANALYSIS_JOB_STATUS_SHAPE_SQL`; the status column holds one of the four values. */
  function StatusShape(job: Job): Truth {
    And(Of(job.updatedAt >= job.createdAt),
        Or(Or(QueuedShape(job), RunningShape(job)), Or(SucceededShape(job), FailedShape(job))))
  }

  function Mapped(job: Job, codes: ErrorCode -> bool, message: string, retryable: bool): Truth {
    And(Compare(job.errorCode, codes),
      And(Compare(job.errorMessage, (m: string) => m == message), Of(job.retryable == retryable)))
  }

  /** `status <> 'failed' OR (PUBLIC_JOB_ERROR_MAPPING_SQL)`. */
  function ErrorMapping(job: Job): Truth {
    Or(Of(!job.status.Failed?),
       Or(Or(Mapped(job, (c: ErrorCode) => c.PermanentCode?, PERMANENT_MESSAGE, false),
             Mapped(job, (c: ErrorCode) => c.RetryableCode?, TEMPORARY_MESSAGE, true)),
          Or(Mapped(job, (c: ErrorCode) => c.InternalError?, INTERNAL_MESSAGE, true),
             Mapped(job, (c: ErrorCode) => c.QueueUnavailable?, QUEUE_MESSAGE, true))))
  }

  /** The counters' three CHECKs and the one that keeps `retryable` to failed jobs. */
  function Counters(job: Job): Truth {
    And(Of(job.completedUnits >= 0),
    And(Of(job.totalUnits >= 0),
    And(Of(job.completedUnits <= job.totalUnits),
    Of(job.status.Failed? || !job.retryable))))
  }

  predicate Passes(check: Truth) {
    !check.False?
  }

  predicate PassesChecks(job: Job) {
    Passes(StatusShape(job)) && Passes(ErrorMapping(job)) && Passes(Counters(job))
  }

  // ---------------------------------------------------------------- how the two contracts relate

  predicate AllTrue(job: Job) {
    StatusShape(job).True? && ErrorMapping(job).True? && Counters(job).True?
  }

  /** The published object names the job's own profile, which Python leaves to a check of its own. */
  predicate PayloadMatches(job: Job) {
    job.status.Succeeded? ==> job.profile.Some? && job.payload == ProfileObject(job.profile.value)
  }

  /** Every CHECK evaluates to TRUE exactly on the rows Python calls valid with a matching payload. */
  lemma ChecksAreTheContract(job: Job)
    ensures AllTrue(job) <==> Valid(job) && PayloadMatches(job)
  {
    match job.status
    case Queued =>
    case Running =>
    case Succeeded =>
    case Failed =>
  }

  /**
   The one gap: a CHECK admits UNKNOWN, so a succeeded row in order but for a NULL stage or a NULL
   payload is let through as well. Nothing else is.
   */
  predicate NullGap(job: Job) {
    && job.status.Succeeded?
    && (job.stage.None? || job.payload.SqlNull?)
    && (job.stage.None? || job.stage == Some(Finalizing))
    && job.profile.Some? && (job.payload.SqlNull? || job.payload == ProfileObject(job.profile.value))
    && job.totalUnits > 0 && job.completedUnits == job.totalUnits
    && job.errorCode.None? && job.errorMessage.None? && !job.retryable
    && job.startedAt.Some? && job.completedAt.Some? && ValidTimes(job)
  }

  lemma ChecksAdmit(job: Job)
    ensures PassesChecks(job) <==> (Valid(job) && PayloadMatches(job)) || NullGap(job)
  {
    match job.status
    case Queued =>
    case Running =>
    case Succeeded =>
    case Failed =>
  }

  /** A concrete row in the gap: succeeded with a NULL stage passes every CHECK and is not valid. */
  lemma GapIsReal()
    ensures exists job :: PassesChecks(job) && !Valid(job)
  {
    var job := Job(Target(GameTarget, "570"), Create, Succeeded, None, 5, 5, None, None, false, Some(1),
                   ProfileObject(1), 0, 2, Some(1), Some(2));
    assert NullGap(job);
    ChecksAdmit(job);
    assert PassesChecks(job) && !Valid(job);
  }

  /** Every row any run of the writers commits makes every CHECK TRUE, not merely UNKNOWN. */
  lemma CommittedRowsPassEveryCheck(start: System, es: seq<Event>, id: Id)
    requires NoJobs(start) && id in Run(start, es).tables.jobs
    ensures AllTrue(Run(start, es).tables.jobs[id])
  {
    CommittedJobs(start, es, id, id);
    ChecksAreTheContract(Run(start, es).tables.jobs[id]);
    hide Run, AllTrue, Valid, Lockstep;
  }
}
