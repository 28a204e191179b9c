/** Whole runs of the job table: every writer, in any order, under a clock that does not go back. */
module JobRuns {
  import opened Common
  import opened JobState

  datatype Event =
    | EInsert(id: Id, target: Target, mode: Mode, now: Time, stamp: Time)
    | EClaim(id: Id, now: Time, stamp: Time)
    | EStart(kind: TargetType, id: Id, now: Time, stamp: Time)
    | EAdvance(kind: TargetType, id: Id, units: int, now: Time, stamp: Time)
    | EFinalize(kind: TargetType, id: Id, settingsOk: bool, created: Id, now: Time, stamp: Time)
    | EFail(id: Id, code: ErrorCode, preserveRunning: bool, now: Time, stamp: Time)

  datatype System = System(tables: Tables, clock: Time)

  /** The tables after a transaction, and the error it raised, if any. */
  function Transact(tables: Tables, e: Event): (Tables, Option<JobError>) {
    match e
    case EInsert(id, target, mode, now, stamp) => Ended(Insert(tables, id, target, mode, now, stamp))
    case EClaim(id, now, stamp) => Ended(Claim(tables, id, now, stamp))
    case EStart(kind, id, now, stamp) => Ended(Start(tables, kind, id, now, stamp))
    case EAdvance(kind, id, units, _, stamp) => Ended(Advance(tables, kind, id, units, stamp))
    case EFinalize(kind, id, settingsOk, created, now, stamp) =>
      Ended(Finalize(tables, kind, id, settingsOk, created, now, stamp))
    case EFail(id, code, preserve, now, stamp) => Ended(WriteTerminalFailure(tables, id, code, preserve, now, stamp))
  }

  function Ended<T>(reply: Reply<T>): (Tables, Option<JobError>) {
    (reply.tables, if reply.result.Err? then Some(reply.result.error) else None)
  }

  function Step(sys: System, e: Event): System {
    if e.now < sys.clock then sys else System(Transact(sys.tables, e).0, e.now)
  }

  function Run(sys: System, es: seq<Event>): System
    decreases |es|
  {
    if es == [] then sys else Run(Step(sys, es[0]), es[1..])
  }

  // ---------------------------------------------------------------- the invariant

  /** Stage and units move in lockstep, so the two clamps in `advance` never act. */
  predicate Lockstep(job: Job) {
    && job.totalUnits == (if job.stage.None? then 0 else TOTAL_UNITS)
    && job.completedUnits == match job.stage
                             case None => 0
                             case Some(FetchingData) => 0
                             case Some(Analyzing) => 2
                             case Some(Finalizing) => if job.status.Succeeded? then TOTAL_UNITS else 4
  }

  predicate JobInv(tables: Tables, clock: Time, job: Job) {
    && Valid(job) && Lockstep(job)
    && (job.status.Succeeded? ==> ValidResult(tables, job))
    && job.createdAt <= clock
    && (job.startedAt.Some? ==> job.startedAt.value <= clock)
  }

  ghost predicate OneActive(jobs: map<Id, Job>) {
    forall a, b :: a in jobs && b in jobs && Active(jobs[a]) && Active(jobs[b]) && jobs[a].target == jobs[b].target ==>
      a == b
  }

  ghost predicate Inv(sys: System) {
    && (forall id :: id in sys.tables.jobs ==> JobInv(sys.tables, sys.clock, sys.tables.jobs[id]))
    && OneActive(sys.tables.jobs)
  }

  predicate NoJobs(sys: System) {
    sys.tables.jobs == map[]
  }

  /** How a job may change from one committed state to a later one. */
  predicate Progress(was: Job, now: Job) {
    && now.target == was.target && now.mode == was.mode && now.createdAt == was.createdAt
    && (!Active(was) ==> now == was)
    && (was.status.Running? ==> !now.status.Queued?)
    && StageOrder(was.stage) <= StageOrder(now.stage)
    && was.completedUnits <= now.completedUnits
    && was.updatedAt <= now.updatedAt
    && (was.startedAt.Some? ==> now.startedAt == was.startedAt)
  }

  // ---------------------------------------------------------------- one row

  lemma StampKeeps(tables: Tables, clock: Time, job: Job, stamp: Time)
    requires JobInv(tables, clock, job)
    ensures JobInv(tables, clock, Stamped(job, stamp))
  {
  }

  lemma StartedKeeps(tables: Tables, clock: Time, job: Job, now: Time)
    requires JobInv(tables, clock, job) && job.status.Queued? && clock <= now
    ensures JobInv(tables, now, StartedRow(job, now)) && Progress(job, StartedRow(job, now))
  {
  }

  lemma AdvancedKeeps(tables: Tables, clock: Time, job: Job, units: int)
    requires JobInv(tables, clock, job) && job.status.Running? && (units == 2 || units == 4)
    ensures JobInv(tables, clock, AdvancedRow(job, units)) && Progress(job, AdvancedRow(job, units))
    ensures AdvancedRow(job, units).completedUnits == if job.completedUnits >= units then job.completedUnits else units
  {
  }

  lemma FinalizedKeeps(tables: Tables, clock: Time, job: Job, profile: Id, now: Time)
    requires JobInv(tables, clock, job) && job.status.Running? && job.stage == Some(Finalizing) && clock <= now
    requires job.target in tables.profiles ==> tables.profiles[job.target] == profile
    ensures JobInv(tables.(profiles := tables.profiles[job.target := profile]), now, FinalizedRow(job, profile, now))
    ensures Progress(job, FinalizedRow(job, profile, now))
  {
  }

  lemma FailedKeeps(tables: Tables, clock: Time, job: Job, code: ErrorCode, failure: PublicFailure, now: Time)
    requires JobInv(tables, clock, job) && Active(job) && clock <= now && PublicJobFailure(Some(code)) == Some(failure)
    ensures JobInv(tables, now, FailedRow(job, code, failure, now)) && Progress(job, FailedRow(job, code, failure, now))
  {
  }

  lemma InsertedKeeps(tables: Tables, target: Target, mode: Mode, now: Time)
    ensures JobInv(tables, now, NewJob(target, mode, now))
  {
  }

  // ---------------------------------------------------------------- one transaction

  /** What a transaction does to the table: nothing, one row moves on, or one row is added. */
  ghost predicate Effect(sys: System, after: System) {
    && sys.clock <= after.clock
    && (forall t :: t in sys.tables.profiles ==>
         t in after.tables.profiles && after.tables.profiles[t] == sys.tables.profiles[t])
    && (forall id :: id in sys.tables.jobs ==>
         id in after.tables.jobs && Progress(sys.tables.jobs[id], after.tables.jobs[id]))
    && (forall id :: id in after.tables.jobs ==>
          || (id in sys.tables.jobs && after.tables.jobs[id] == sys.tables.jobs[id])
          || JobInv(after.tables, after.clock, after.tables.jobs[id]))
    && (forall a, b :: a in after.tables.jobs.Keys - sys.tables.jobs.Keys && b in after.tables.jobs && b != a ==>
          Active(after.tables.jobs[b]) ==> after.tables.jobs[a].target != after.tables.jobs[b].target)
  }

  lemma EffectKeepsInv(sys: System, after: System)
    requires Inv(sys) && Effect(sys, after)
    ensures Inv(after)
  {
    forall a, b | a in after.tables.jobs && b in after.tables.jobs && Active(after.tables.jobs[a])
                  && Active(after.tables.jobs[b]) && after.tables.jobs[a].target == after.tables.jobs[b].target
      ensures a == b
    {
      hide Valid, Lockstep, ValidResult, JobInv;
      if a in sys.tables.jobs && b in sys.tables.jobs {
        assert Progress(sys.tables.jobs[a], after.tables.jobs[a]) && Progress(sys.tables.jobs[b], after.tables.jobs[b]);
      }
    }
    hide Valid, Lockstep, Progress;
  }

  /** One row replaced by a stamped later version of itself. */
  lemma ReplacedRow(sys: System, id: Id, job: Job, stamp: Time, profiles: map<Target, Id>, now: Time)
    requires Inv(sys) && id in sys.tables.jobs && sys.clock <= now
    requires forall t :: t in sys.tables.profiles ==> t in profiles && profiles[t] == sys.tables.profiles[t]
    requires JobInv(Tables(sys.tables.jobs, profiles), now, job) && Progress(sys.tables.jobs[id], job)
    requires Active(sys.tables.jobs[id])
    ensures Effect(sys, System(Tables(sys.tables.jobs[id := Stamped(job, stamp)], profiles), now))
  {
    StampKeeps(Tables(sys.tables.jobs, profiles), now, job, stamp);
    hide Valid, Lockstep;
  }

  predicate Trustworthy(error: Option<JobError>) {
    error != Some(PreCheck) && error != Some(PostCheck) && error != Some(ResultInvalid)
  }

  lemma BeginSteps(sys: System, id: Id, now: Time, stamp: Time)
    requires Inv(sys) && sys.clock <= now && id in sys.tables.jobs && Active(sys.tables.jobs[id])
    ensures var reply := Begin(sys.tables, id, now, stamp);
            Effect(sys, System(reply.tables, now)) && Trustworthy(Ended(reply).1)
  {
    var job := sys.tables.jobs[id];
    if job.status.Queued? {
      StartedKeeps(sys.tables, sys.clock, job, now);
      ReplacedRow(sys, id, StartedRow(job, now), stamp, sys.tables.profiles, now);
    }
    hide Effect, Progress, Lockstep, ValidTimes;
    if job.status.Running? {
      UnchangedSteps(sys, now);
    }
  }

  lemma UnchangedSteps(sys: System, now: Time)
    requires Inv(sys) && sys.clock <= now
    ensures Effect(sys, System(sys.tables, now))
  {
    hide Valid, Lockstep;
  }

  lemma AdvanceSteps(sys: System, kind: TargetType, id: Id, units: int, now: Time, stamp: Time)
    requires Inv(sys) && sys.clock <= now
    ensures var reply := Advance(sys.tables, kind, id, units, stamp);
            Effect(sys, System(reply.tables, now)) && Trustworthy(Ended(reply).1)
  {
    UnchangedSteps(sys, now);
    if id in sys.tables.jobs && sys.tables.jobs[id].status.Running? && (units == 2 || units == 4) {
      var job := sys.tables.jobs[id];
      AdvancedKeeps(sys.tables, sys.clock, job, units);
      AdvancedKeeps(sys.tables, now, job, units);
      ReplacedRow(sys, id, AdvancedRow(job, units), stamp, sys.tables.profiles, now);
    }
    hide Effect, Progress, Lockstep, ValidTimes, AdvancedRow;
  }

  lemma FinalizeSteps(sys: System, kind: TargetType, id: Id, settingsOk: bool, created: Id, now: Time, stamp: Time)
    requires Inv(sys) && sys.clock <= now
    ensures var reply := Finalize(sys.tables, kind, id, settingsOk, created, now, stamp);
            Effect(sys, System(reply.tables, now)) && Trustworthy(Ended(reply).1)
  {
    UnchangedSteps(sys, now);
    if id in sys.tables.jobs && sys.tables.jobs[id].status.Running? && sys.tables.jobs[id].stage == Some(Finalizing) {
      var job := sys.tables.jobs[id];
      var profile := if job.target in sys.tables.profiles then sys.tables.profiles[job.target] else created;
      FinalizedKeeps(sys.tables, sys.clock, job, profile, now);
      ReplacedRow(sys, id, FinalizedRow(job, profile, now), stamp, sys.tables.profiles[job.target := profile], now);
    }
    hide Effect, Progress, Lockstep, ValidTimes, FinalizedRow;
  }

  lemma FailSteps(sys: System, id: Id, code: ErrorCode, preserve: bool, now: Time, stamp: Time)
    requires Inv(sys) && sys.clock <= now
    ensures var reply := WriteTerminalFailure(sys.tables, id, code, preserve, now, stamp);
            Effect(sys, System(reply.tables, now)) && Trustworthy(Ended(reply).1)
  {
    UnchangedSteps(sys, now);
    var failure := PublicJobFailure(Some(code));
    if id in sys.tables.jobs && Active(sys.tables.jobs[id]) && failure.Some? {
      var job := sys.tables.jobs[id];
      FailedKeeps(sys.tables, sys.clock, job, code, failure.value, now);
      ReplacedRow(sys, id, FailedRow(job, code, failure.value, now), stamp, sys.tables.profiles, now);
    }
    hide Effect, Progress, Lockstep, ValidTimes, FailedRow, PublicJobFailure;
  }

  lemma InsertSteps(sys: System, id: Id, target: Target, mode: Mode, now: Time, stamp: Time)
    requires Inv(sys) && sys.clock <= now
    ensures var reply := Insert(sys.tables, id, target, mode, now, stamp);
            Effect(sys, System(reply.tables, now)) && Trustworthy(Ended(reply).1)
  {
    UnchangedSteps(sys, now);
    if id !in sys.tables.jobs && !HasActive(sys.tables.jobs, target) {
      InsertedKeeps(sys.tables, target, mode, now);
      StampKeeps(sys.tables, now, NewJob(target, mode, now), stamp);
      forall b | b in sys.tables.jobs && Active(sys.tables.jobs[b]) ensures sys.tables.jobs[b].target != target {
        assert ActiveFor(sys.tables.jobs, target, b) || sys.tables.jobs[b].target != target;
      }
      hide Valid, Lockstep, NewJob, HasActive;
    }
  }

  /** Every transaction keeps the invariant, and none of the state checks around it can fire. */
  lemma StepKeepsInv(sys: System, e: Event)
    requires Inv(sys)
    ensures Inv(Step(sys, e)) && Effect(sys, Step(sys, e))
    ensures sys.clock <= e.now ==> Trustworthy(Transact(sys.tables, e).1)
  {
    if e.now < sys.clock {
      UnchangedSteps(sys, sys.clock);
    } else {
      UnchangedSteps(sys, e.now);
      match e {
        case EInsert(id, target, mode, now, stamp) => InsertSteps(sys, id, target, mode, now, stamp);
        case EClaim(id, now, stamp) =>
          if id in sys.tables.jobs && Active(sys.tables.jobs[id]) { BeginSteps(sys, id, now, stamp); }
        case EStart(kind, id, now, stamp) =>
          if id in sys.tables.jobs && Active(sys.tables.jobs[id]) { BeginSteps(sys, id, now, stamp); }
        case EAdvance(kind, id, units, now, stamp) => AdvanceSteps(sys, kind, id, units, now, stamp);
        case EFinalize(kind, id, settingsOk, created, now, stamp) =>
          FinalizeSteps(sys, kind, id, settingsOk, created, now, stamp);
        case EFail(id, code, preserve, now, stamp) => FailSteps(sys, id, code, preserve, now, stamp);
      }
      hide Effect, Begin, Advance, Finalize, WriteTerminalFailure, Insert, Valid, Lockstep;
    }
    EffectKeepsInv(sys, Step(sys, e));
  }

  lemma {:induction false} RunKeepsInv(sys: System, es: seq<Event>)
    requires Inv(sys)
    ensures Inv(Run(sys, es)) && sys.clock <= Run(sys, es).clock
    decreases |es|
  {
    hide Inv, Step;
    if es != [] {
      StepKeepsInv(sys, es[0]);
      RunKeepsInv(Step(sys, es[0]), es[1..]);
    }
  }

  // ---------------------------------------------------------------- what holds over every run

  /** In every reachable state, no transaction is refused by a state check before or after its write. */
  lemma StateChecksNeverFire(start: System, es: seq<Event>, e: Event)
    requires NoJobs(start) && Run(start, es).clock <= e.now
    ensures Trustworthy(Transact(Run(start, es).tables, e).1)
  {
    RunKeepsInv(start, es);
    StepKeepsInv(Run(start, es), e);
  }

  /**
   Every committed job meets the state contract, with stage and units in lockstep, and no target has two active
   jobs.
   */
  lemma CommittedJobs(start: System, es: seq<Event>, a: Id, b: Id)
    requires NoJobs(start) && a in Run(start, es).tables.jobs && b in Run(start, es).tables.jobs
    ensures var jobs := Run(start, es).tables.jobs;
            && Valid(jobs[a]) && Lockstep(jobs[a])
            && (jobs[a].status.Succeeded? ==> ValidResult(Run(start, es).tables, jobs[a]))
            && (Active(jobs[a]) && Active(jobs[b]) && jobs[a].target == jobs[b].target ==> a == b)
  {
    RunKeepsInv(start, es);
    hide Run, Valid, Lockstep, ValidResult;
  }

  lemma ProgressTransitive(a: Job, b: Job, c: Job)
    requires Progress(a, b) && Progress(b, c)
    ensures Progress(a, c)
  {
  }

  /** Over any run stage and units never go back, and a finished job, succeeded or failed, is frozen. */
  lemma {:induction false} JobsOnlyProgress(sys: System, es: seq<Event>, id: Id)
    requires Inv(sys) && id in sys.tables.jobs
    ensures id in Run(sys, es).tables.jobs && Progress(sys.tables.jobs[id], Run(sys, es).tables.jobs[id])
    decreases |es|
  {
    if es != [] {
      var next := Step(sys, es[0]);
      StepKeepsInv(sys, es[0]);
      hide Step, Inv, Progress;
      JobsOnlyProgress(next, es[1..], id);
      ProgressTransitive(sys.tables.jobs[id], next.tables.jobs[id], Run(sys, es).tables.jobs[id]);
    }
  }

  /**
   Which writer wins: a terminal failure lands exactly on a job still active (for the publication
   failure: still queued), and on any other job it changes nothing.
   */
  lemma FailureLandsOnActive(start: System, es: seq<Event>, id: Id, code: ErrorCode, preserve: bool, now: Time,
                             stamp: Time)
    requires NoJobs(start) && Run(start, es).clock <= now && PublicJobFailure(Some(code)).Some?
    ensures var tables := Run(start, es).tables;
            var reply := WriteTerminalFailure(tables, id, code, preserve, now, stamp);
            var lands := id in tables.jobs &&
              (if preserve then tables.jobs[id].status.Queued? else Active(tables.jobs[id]));
            && reply.result == Ok(lands)
            && (!lands ==> reply.tables == tables)
            && (lands ==> id in reply.tables.jobs && reply.tables.jobs[id].status.Failed?
                          && reply.tables.jobs[id].errorCode == Some(code)
                          && reply.tables.jobs[id].stage == tables.jobs[id].stage
                          && reply.tables.jobs[id].completedUnits == tables.jobs[id].completedUnits)
  {
    RunKeepsInv(start, es);
    var sys := Run(start, es);
    FailSteps(sys, id, code, preserve, now, stamp);
    hide Run, Effect, Lockstep, ValidTimes, OneActive;
  }

  /** The job succeeded with the profile of its target, the existing one if there was one. */
  predicate Published(tables: Tables, id: Id, after: Tables)
    requires id in tables.jobs
  {
    && id in after.jobs && after.jobs[id].status.Succeeded? && ValidResult(after, after.jobs[id])
    && after.jobs[id].target == tables.jobs[id].target
    && (tables.jobs[id].target in tables.profiles ==>
          after.jobs[id].profile == Some(tables.profiles[tables.jobs[id].target]))
  }

  function Path(kind: TargetType, id: Id, created: Id, now: Time, stamp: Time): seq<Event> {
    [EClaim(id, now, stamp), EAdvance(kind, id, 2, now, stamp), EAdvance(kind, id, 4, now, stamp),
     EFinalize(kind, id, true, created, now, stamp)]
  }

  lemma RunFour(sys: System, path: seq<Event>)
    requires |path| == 4
    ensures Run(sys, path) == Step(Step(Step(Step(sys, path[0]), path[1]), path[2]), path[3])
  {
    hide Step;
    var p1, p2, p3 := path[1..], path[2..], path[3..];
    assert p1[1..] == p2 && p2[1..] == p3 && p3[1..] == [];
    var first := Step(sys, path[0]);
    assert Run(sys, path) == Run(first, p1);
    var second := Step(first, p1[0]);
    assert Run(first, p1) == Run(second, p2);
    var third := Step(second, p2[0]);
    assert Run(second, p2) == Run(third, p3);
    assert Run(third, p3) == Run(Step(third, p3[0]), []);
  }

  /** The path to success: claimed, advanced twice and finalized, a queued job ends with its target's profile. */
  lemma HappyPath(start: System, es: seq<Event>, id: Id, created: Id, now: Time, stamp: Time)
    requires NoJobs(start) && Run(start, es).clock <= now
    requires id in Run(start, es).tables.jobs && Active(Run(start, es).tables.jobs[id])
    ensures var sys := Run(start, es);
            Published(sys.tables, id, Run(sys, Path(sys.tables.jobs[id].target.kind, id, created, now, stamp)).tables)
  {
    RunKeepsInv(start, es);
    var sys := Run(start, es);
    var kind := sys.tables.jobs[id].target.kind;
    var path := Path(kind, id, created, now, stamp);
    ClaimRuns(sys, id, now, stamp);
    var claimed := Step(sys, path[0]);
    AdvanceReaches(claimed, id, 2, now, stamp);
    var half := Step(claimed, path[1]);
    AdvanceReaches(half, id, 4, now, stamp);
    var late := Step(half, path[2]);
    FinalizeSucceeds(late, id, created, now, stamp);
    RunFour(sys, path);
    hide Run, Inv, Step, ValidResult;
  }

  lemma ClaimRuns(sys: System, id: Id, now: Time, stamp: Time)
    requires Inv(sys) && sys.clock <= now && id in sys.tables.jobs && Active(sys.tables.jobs[id])
    ensures var after := Step(sys, EClaim(id, now, stamp));
            && Inv(after) && after.clock == now && after.tables.profiles == sys.tables.profiles
            && id in after.tables.jobs && after.tables.jobs[id].status.Running?
            && after.tables.jobs[id].target == sys.tables.jobs[id].target
  {
    StepKeepsInv(sys, EClaim(id, now, stamp));
    hide Effect, Lockstep, ValidTimes, OneActive, ValidResult;
  }

  lemma AdvanceReaches(sys: System, id: Id, units: int, now: Time, stamp: Time)
    requires Inv(sys) && sys.clock == now && id in sys.tables.jobs && sys.tables.jobs[id].status.Running?
    requires units == 2 || units == 4
    ensures var after := Step(sys, EAdvance(sys.tables.jobs[id].target.kind, id, units, now, stamp));
            && Inv(after) && after.clock == now && after.tables.profiles == sys.tables.profiles
            && id in after.tables.jobs && after.tables.jobs[id].status.Running?
            && after.tables.jobs[id].target == sys.tables.jobs[id].target
            && (units == 4 ==> after.tables.jobs[id].stage == Some(Finalizing))
  {
    StepKeepsInv(sys, EAdvance(sys.tables.jobs[id].target.kind, id, units, now, stamp));
    AdvancedKeeps(sys.tables, sys.clock, sys.tables.jobs[id], units);
    hide Effect, Lockstep, ValidTimes, OneActive, ValidResult, Valid;
  }

  lemma FinalizeSucceeds(sys: System, id: Id, created: Id, now: Time, stamp: Time)
    requires Inv(sys) && sys.clock == now && id in sys.tables.jobs && sys.tables.jobs[id].status.Running?
    requires sys.tables.jobs[id].stage == Some(Finalizing)
    ensures var after := Step(sys, EFinalize(sys.tables.jobs[id].target.kind, id, true, created, now, stamp));
            Published(sys.tables, id, after.tables)
  {
    var job := sys.tables.jobs[id];
    var profile := if job.target in sys.tables.profiles then sys.tables.profiles[job.target] else created;
    FinalizedKeeps(sys.tables, sys.clock, job, profile, now);
    hide Lockstep, ValidTimes, OneActive, Valid;
  }
}
