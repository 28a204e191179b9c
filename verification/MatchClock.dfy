/**
 Runs of a Match task under a clock that does not go back: the timestamp columns keep the order the
 table asks for.
 */
module MatchClock {
  import opened Common
  import opened MatchState
  import opened MatchInvariant
  import opened MatchRuns

  /** The clock once the transaction is done; three of them read no clock. */
  function ClockAfter(e: Event, clock: Time): Time {
    match e
    case EPrepare(_) => clock
    case ECompensate => clock
    case ELoadRanking => clock
    case ESupersede => clock
    case ELoadScreening(now) => now
    case EApplyScreening(_, now) => now
    case EClaim(_, now) => now
    case ESuccess(_, _, now) => now
    case EFailPair(_, _, now) => now
    case EFailTask(_, now) => now
    case EMark(now) => now
    case EPublish(_, now) => now
  }

  predicate Timely(es: seq<Event>, clock: Time)
    decreases |es|
  {
    es != [] ==> clock <= ClockAfter(es[0], clock) && Timely(es[1..], ClockAfter(es[0], clock))
  }

  /** When the task started, or was created if it has not. */
  function Begun(task: Task, created: Time): Time {
    if task.startedAt.Some? then task.startedAt.value else created
  }

  predicate Within(at: Option<Time>, from: Time, to: Time) {
    at.Some? ==> from <= at.value <= to
  }

  ghost predicate TaskTimes(task: Task, created: Time, clock: Time) {
    && created <= Begun(task, created) <= clock
    && Within(task.completedAt, Begun(task, created), clock)
    && Within(task.rankingEnqueuedAt, Begun(task, created), clock)
  }

  ghost predicate RecordTimes(rows: Rows, created: Time, clock: Time) {
    forall c :: c in rows.records ==> Within(rows.records[c].completedAt, Begun(rows.task, created), clock)
  }

  ghost predicate Times(rows: Rows, created: Time, clock: Time) {
    TaskTimes(rows.task, created, clock) && RecordTimes(rows, created, clock)
  }

  /** An aggregate completion time is the completion time of one of the failed records. */
  lemma RecomputedTimes(task: Task, records: map<Creator, PairRecord>, created: Time, clock: Time)
    requires TaskTimes(task, created, clock) && RecordsWithin(records, Begun(task, created), clock)
    ensures TaskTimes(Recompute(task, records), created, clock)
    ensures Recompute(task, records).startedAt == task.startedAt
  {
    if FailedPairs(records) != {} {
      FirstExists(records, FailedPairs(records));
      LatestExists(records, FailedPairs(records));
    }
  }

  predicate RecordsWithin(records: map<Creator, PairRecord>, from: Time, to: Time) {
    forall c :: c in records ==> Within(records[c].completedAt, from, to)
  }

  lemma ScreeningTimes(rows: Rows, e: Event, created: Time, clock: Time)
    requires Inv(rows) && Times(rows, created, clock) && clock <= ClockAfter(e, clock)
    requires e.ELoadScreening? || e.EApplyScreening?
    ensures Times(Step(rows, e), created, ClockAfter(e, clock))
  {
    hide SelectedOf, CreatorsOf, Elements, Distinct, AggregateOf, PublicationValid, DistinctResults, MarkSelected,
         Pruned, Kept;
  }

  lemma SuccessTimes(rows: Rows, c: Creator, brief: Brief, now: Time, created: Time, clock: Time)
    requires Times(rows, created, clock) && clock <= now
    ensures Times(ApplySuccess(rows, c, brief, now).rows, created, now)
  {
    hide AggregateOf, Recompute;
    if ApplySuccess(rows, c, brief, now).rows != rows {
      RecomputedTimes(rows.task, rows.records[c := SucceededRecord(rows.records[c], brief, now)], created, now);
    }
  }

  lemma FailPairTimes(rows: Rows, c: Creator, failure: Failure, now: Time, created: Time, clock: Time)
    requires Inv(rows) && Times(rows, created, clock) && clock <= now
    ensures Times(FailPair(rows, c, failure, now).rows, created, now)
  {
    hide AggregateOf, Recompute;
    if c in rows.records {
      RecomputedTimes(rows.task, rows.records[c := FailedRecord(rows.records[c], failure, now)], created, now);
    }
  }

  /** Fanning out and claiming leave the task alone and complete no record. */
  lemma PairTimes(rows: Rows, e: Event, created: Time, clock: Time)
    requires Times(rows, created, clock) && clock <= ClockAfter(e, clock)
    requires e.EPrepare? || e.EClaim?
    ensures Times(Step(rows, e), created, ClockAfter(e, clock))
  {
    hide SelectedOf, CreatorsOf, Elements, Distinct, Unfinished, StoredBrief, SucceededPairs;
    assert Step(rows, e).task == rows.task;
  }

  /** Every timestamp stays, is cleared, or is the current time; the start stays. */
  predicate Stamped(was: Task, task: Task, now: Time) {
    && task.startedAt == was.startedAt
    && task.completedAt in {was.completedAt, None, Some(now)}
    && task.rankingEnqueuedAt in {was.rankingEnqueuedAt, None, Some(now)}
  }

  /** The transactions that write the task row alone. */
  predicate TaskOnly(e: Event) {
    e.EFailTask? || e.EMark? || e.ECompensate? || e.ELoadRanking? || e.EPublish? || e.ESupersede?
  }

  lemma TaskOnlyStamps(rows: Rows, e: Event, clock: Time)
    requires TaskOnly(e)
    ensures Stamped(rows.task, Step(rows, e).task, ClockAfter(e, clock))
  {
    hide SelectedOf, CreatorsOf, Elements, Distinct, InputsValid, PublicationValid, DistinctResults, ResultRows,
         BriefsOf, ReadyToRank, SucceededPairs, Min;
  }

  lemma TaskOnlyTimes(rows: Rows, e: Event, created: Time, clock: Time)
    requires Times(rows, created, clock) && clock <= ClockAfter(e, clock) && TaskOnly(e)
    ensures Times(Step(rows, e), created, ClockAfter(e, clock))
  {
    OtherStepsKeepRecords(rows, e);
    TaskOnlyStamps(rows, e, clock);
    hide Step, ClockAfter;
  }

  lemma StepTimes(rows: Rows, e: Event, created: Time, clock: Time)
    requires Inv(rows) && Times(rows, created, clock) && clock <= ClockAfter(e, clock)
    ensures Times(Step(rows, e), created, ClockAfter(e, clock))
  {
    hide Inv, Times, ApplySuccess, FailPair;
    match e
    case ELoadScreening(_) => ScreeningTimes(rows, e, created, clock);
    case EApplyScreening(_, _) => ScreeningTimes(rows, e, created, clock);
    case EPrepare(_) => PairTimes(rows, e, created, clock);
    case EClaim(_, _) => PairTimes(rows, e, created, clock);
    case ESuccess(c, brief, now) => SuccessTimes(rows, c, brief, now, created, clock);
    case EFailPair(c, failure, now) => FailPairTimes(rows, c, failure, now, created, clock);
    case _ => TaskOnlyTimes(rows, e, created, clock);
  }

  lemma {:induction false} RunTimes(rows: Rows, es: seq<Event>, created: Time, clock: Time) returns (end: Time)
    requires Inv(rows) && Times(rows, created, clock) && Timely(es, clock)
    ensures Inv(Run(rows, es)) && Times(Run(rows, es), created, end)
    decreases |es|
  {
    hide Inv, Step, Times;
    end := clock;
    if es != [] {
      StepKeepsInv(rows, es[0]);
      StepTimes(rows, es[0], created, clock);
      end := RunTimes(Step(rows, es[0]), es[1..], created, ClockAfter(es[0], clock));
    }
  }

  /**
   The table's timestamp CHECK holds of every committed row of a task created at `created`: it starts no earlier,
   and completes and enters ranking no earlier than it started.
   */
  lemma TimestampsAreOrdered(start: Rows, es: seq<Event>, created: Time)
    requires Fresh(start) && Timely(es, created)
    ensures var task := Run(start, es).task;
            && (task.startedAt.Some? ==> created <= task.startedAt.value)
            && (task.completedAt.Some? ==> Begun(task, created) <= task.completedAt.value)
            && (task.rankingEnqueuedAt.Some? ==> Begun(task, created) <= task.rankingEnqueuedAt.value)
  {
    FreshInv(start);
    var end := RunTimes(start, es, created, created);
    hide Run, Step, Inv;
  }
}
