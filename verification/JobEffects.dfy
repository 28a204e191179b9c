/** What each writer of the job table accepts and leaves behind, written out column by column. */
module JobEffects {
  import opened Common
  import opened JobState
  import opened JobRuns

  /** Everything but one job row stays; the row's change stamp is no older than any time it carries. */
  ghost predicate Writes(tables: Tables, after: Tables, id: Id, row: Job, stamp: Time) {
    && id in after.jobs
    && after.jobs == tables.jobs[id := after.jobs[id]]
    && after.jobs[id] == row.(updatedAt := after.jobs[id].updatedAt)
    && after.jobs[id].updatedAt >= stamp && after.jobs[id].updatedAt >= row.createdAt
    && (row.startedAt.Some? ==> after.jobs[id].updatedAt >= row.startedAt.value)
    && (row.completedAt.Some? ==> after.jobs[id].updatedAt >= row.completedAt.value)
  }

  /** A job is inserted exactly under a new id for a target without active job, and is queued in the mode asked for. */
  lemma InsertExactly(tables: Tables, id: Id, target: Target, mode: Mode, now: Time, stamp: Time)
    ensures var reply := Insert(tables, id, target, mode, now, stamp);
            && (reply.result.Ok? <==>
                  && id !in tables.jobs
                  && forall j :: j in tables.jobs && tables.jobs[j].target == target ==>
                       tables.jobs[j].status in {Succeeded, Failed})
            && (reply.result.Err? ==> reply.tables == tables)
            && (reply.result.Ok? ==>
                  && reply.tables.profiles == tables.profiles
                  && Writes(tables, reply.tables, id,
                            Job(target, mode, Queued, None, 0, 0, None, None, false, None, SqlNull, now, now,
                                None, None), stamp))
  {
    forall j | j in tables.jobs && tables.jobs[j].target == target
      ensures tables.jobs[j].status !in {Succeeded, Failed} ==> ActiveFor(tables.jobs, target, j)
    {
    }
    if HasActive(tables.jobs, target) {
      var j :| j in tables.jobs && ActiveFor(tables.jobs, target, j);
      assert tables.jobs[j].target == target && tables.jobs[j].status !in {Succeeded, Failed};
    }
  }

  /** A retry reuses the target's active job or adds a queued one of the same target and mode as its source. */
  lemma RetryKeepsMode(tables: Tables, id: Id, source: Job, now: Time, stamp: Time, reply: Reply<Creation>)
    requires Creates(tables, id, source.target, source.mode, false, now, stamp, reply) && reply.result.Ok?
    ensures match reply.result.value
            case ExistingProfile(_) => false
            case Reused(job) =>
              && reply.tables == tables && job in tables.jobs && tables.jobs[job].target == source.target
              && tables.jobs[job].status in {Queued, Running}
            case Created(job) =>
              && job == id && id in reply.tables.jobs
              && reply.tables.jobs[id].target == source.target && reply.tables.jobs[id].mode == source.mode
              && reply.tables.jobs[id].status == Queued
  {
    InsertExactly(tables, id, source.target, source.mode, now, stamp);
  }

  /** A queued job is started by whoever claims it first; a running one is work again, a finished one is not. */
  lemma ClaimExactly(sys: System, id: Id, now: Time, stamp: Time)
    requires Inv(sys) && sys.clock <= now
    ensures var tables, reply := sys.tables, Claim(sys.tables, id, now, stamp);
            && reply.result == Ok(id in tables.jobs && tables.jobs[id].status in {Queued, Running})
            && (if id in tables.jobs && tables.jobs[id].status == Queued then
                  && reply.tables.profiles == tables.profiles
                  && Writes(tables, reply.tables, id,
                            tables.jobs[id].(status := Running, stage := Some(FetchingData), completedUnits := 0,
                                             totalUnits := 5, startedAt := Some(now)), stamp)
                else reply.tables == tables)
  {
    hide OneActive, Lockstep;
  }

  /** Starting is claiming a known job of the right kind; a failed one is refused. */
  lemma StartExactly(sys: System, kind: TargetType, id: Id, now: Time, stamp: Time)
    requires Inv(sys) && sys.clock <= now
    ensures var tables, reply := sys.tables, Start(sys.tables, kind, id, now, stamp);
            if id !in tables.jobs then reply == Reply(tables, Err(NotFound))
            else if tables.jobs[id].target.kind != kind then reply == Reply(tables, Err(TargetInvalid))
            else if tables.jobs[id].status == Failed then reply == Reply(tables, Err(StateInvalid))
            else reply == Claim(tables, id, now, stamp)
  {
    hide OneActive, Lockstep, ValidTimes, Commit;
  }

  /** A running job advances to two or four of its five units and the stage that goes with them, never back. */
  lemma AdvanceExactly(sys: System, kind: TargetType, id: Id, units: int, now: Time, stamp: Time)
    requires Inv(sys) && id in sys.tables.jobs && sys.tables.jobs[id].target.kind == kind
    requires sys.tables.jobs[id].status == Running && units in {2, 4}
    ensures var was, reply := sys.tables.jobs[id], Advance(sys.tables, kind, id, units, stamp);
            && reply.result == Ok(()) && reply.tables.profiles == sys.tables.profiles
            && (if was.completedUnits >= units then reply.tables == sys.tables
                else Writes(sys.tables, reply.tables, id,
                            was.(completedUnits := units,
                                 stage := Some(if units == 4 then Finalizing else Analyzing)), stamp))
  {
    hide OneActive;
  }

  /** Only a running job in its last stage is finalized: all five units, the target's profile and its payload. */
  lemma FinalizeExactly(sys: System, kind: TargetType, id: Id, settingsOk: bool, created: Id, now: Time, stamp: Time)
    requires Inv(sys) && sys.clock <= now && id in sys.tables.jobs && sys.tables.jobs[id].target.kind == kind
    requires sys.tables.jobs[id].status == Running
    ensures var was, reply := sys.tables.jobs[id], Finalize(sys.tables, kind, id, settingsOk, created, now, stamp);
            var profile := if was.target in sys.tables.profiles then sys.tables.profiles[was.target] else created;
            && (reply.result.Ok? <==> was.stage == Some(Finalizing) && settingsOk)
            && (reply.result.Err? ==> reply.tables == sys.tables)
            && (reply.result.Ok? ==>
                  && reply.result.value == profile
                  && reply.tables.profiles == sys.tables.profiles[was.target := profile]
                  && Writes(sys.tables, reply.tables, id,
                            was.(status := Succeeded, completedUnits := 5, profile := Some(profile),
                                 payload := ProfileObject(profile), completedAt := Some(now)), stamp))
  {
    hide OneActive;
  }

  /** The public failure of a code, by its class. */
  lemma PublicFailures(code: ErrorCode)
    ensures PublicJobFailure(Some(code)) ==
            match code
            case PermanentCode(_) => Some(PublicFailure("Analysis could not be completed for this target.", false))
            case RetryableCode(_) => Some(PublicFailure("Analysis is temporarily unavailable. Please retry.", true))
            case InternalError => Some(PublicFailure("Analysis failed unexpectedly. Please retry.", true))
            case QueueUnavailable => Some(PublicFailure("Analysis could not be queued. Please retry.", true))
            case UnlistedCode(_) => None
  {
  }

  /** A listed failure ends a queued or running job with its public message, and keeps stage, units and start. */
  lemma FailureIsWritten(sys: System, id: Id, code: ErrorCode, preserve: bool, now: Time, stamp: Time)
    requires Inv(sys) && sys.clock <= now && id in sys.tables.jobs
    requires PublicJobFailure(Some(code)).Some?
    ensures var was, failure := sys.tables.jobs[id], PublicJobFailure(Some(code)).value;
            var reply := WriteTerminalFailure(sys.tables, id, code, preserve, now, stamp);
            var lands := was.status == Queued || (was.status == Running && !preserve);
            && reply.result == Ok(lands) && reply.tables.profiles == sys.tables.profiles
            && (if !lands then reply.tables == sys.tables
                else Writes(sys.tables, reply.tables, id,
                            was.(status := Failed, errorCode := Some(code), errorMessage := Some(failure.message),
                                 retryable := failure.retryable, completedAt := Some(now)), stamp))
  {
    hide OneActive, Lockstep, PublicJobFailure;
  }
}
