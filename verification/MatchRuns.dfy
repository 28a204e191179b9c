/**
 Whole runs of a Match task: any number of workers, redeliveries and interleavings is one
 sequence of transactions, in any order.
 */
module MatchRuns {
  import opened Common
  import opened MatchState
  import opened MatchInvariant

  datatype Event =
    | ELoadScreening(now: Time)
    | EApplyScreening(selections: seq<Creator>, now: Time)
    | EPrepare(creators: seq<Creator>)
    | EClaim(creator: Creator, now: Time)
    | ESuccess(creator: Creator, brief: Brief, now: Time)
    | EFailPair(creator: Creator, failure: Failure, now: Time)
    | EFailTask(failure: Failure, now: Time)
    | EMark(now: Time)
    | ECompensate
    | ELoadRanking
    | EPublish(items: seq<PublicationItem>, now: Time)
    | ESupersede

  ghost function Step(rows: Rows, e: Event): Rows {
    match e
    case ELoadScreening(now) => LoadScreening(rows, now).rows
    case EApplyScreening(selections, now) => ApplyScreening(rows, selections, now).rows
    case EPrepare(creators) => Prepare(rows, creators).rows
    case EClaim(c, now) => Claim(rows, c, now).rows
    case ESuccess(c, brief, now) => ApplySuccess(rows, c, brief, now).rows
    case EFailPair(c, failure, now) => FailPair(rows, c, failure, now).rows
    case EFailTask(failure, now) => FailTask(rows, failure, now).rows
    case EMark(now) => MarkRankingEnqueued(rows, now).rows
    case ECompensate => CompensateRankingEnqueue(rows).rows
    case ELoadRanking => LoadRanking(rows).rows
    case EPublish(items, now) => Publish(rows, items, now).rows
    case ESupersede => Supersede(rows).rows
  }

  ghost function Run(rows: Rows, es: seq<Event>): Rows
    decreases |es|
  {
    if es == [] then rows else Run(Step(rows, es[0]), es[1..])
  }

  lemma StepKeepsInv(rows: Rows, e: Event)
    requires Inv(rows)
    ensures Inv(Step(rows, e))
  {
    hide Inv;
    match e
    case ELoadScreening(now) => LoadScreeningKeeps(rows, now);
    case EApplyScreening(selections, now) => ApplyScreeningKeeps(rows, selections, now);
    case EPrepare(creators) => PrepareKeeps(rows, creators);
    case EClaim(c, now) => ClaimKeeps(rows, c, now);
    case ESuccess(c, brief, now) => ApplySuccessKeeps(rows, c, brief, now);
    case EFailPair(c, failure, now) => FailPairKeeps(rows, c, failure, now);
    case EFailTask(failure, now) => FailTaskKeeps(rows, failure, now);
    case EMark(now) => MarkRankingEnqueuedKeeps(rows, now);
    case ECompensate => CompensateKeeps(rows);
    case ELoadRanking =>
    case EPublish(items, now) => PublishKeeps(rows, items, now);
    case ESupersede => SupersedeKeeps(rows);
  }

  /** Every state any interleaving reaches from the locked task satisfies the invariant. */
  lemma {:induction false} RunKeepsInv(rows: Rows, es: seq<Event>)
    requires Inv(rows)
    ensures Inv(Run(rows, es))
    decreases |es|
  {
    hide Inv, Step;
    if es != [] {
      StepKeepsInv(rows, es[0]);
      RunKeepsInv(Step(rows, es[0]), es[1..]);
    }
  }

  lemma {:induction false} RunSplit(rows: Rows, es: seq<Event>, more: seq<Event>)
    ensures Run(rows, es + more) == Run(Run(rows, es), more)
    decreases |es|
  {
    hide Step;
    if es == [] {
      assert es + more == more;
    } else {
      assert (es + more)[0] == es[0] && (es + more)[1..] == es[1..] + more;
      RunSplit(Step(rows, es[0]), es[1..], more);
    }
  }

  /** The reachable rows, spelled out: what the progress and failure columns mean. */
  lemma ReachableRows(start: Rows, es: seq<Event>)
    requires Fresh(start)
    ensures var rows := Run(start, es);
            var task := rows.task;
            && (!task.stage.Screening? ==>
                  && Selected(rows) != {}
                  && rows.candidates.Keys == Selected(rows)
                  && rows.records.Keys <= Selected(rows)
                  && task.totalUnits == |Selected(rows)| + 2
                  && task.completedUnits == if task.status.Succeeded? then task.totalUnits
                                            else 1 + |SucceededPairs(rows.records)|)
            && (task.rankingEnqueuedAt.Some? <==> task.stage.Ranking?)
            && (task.stage.Ranking? ==> SucceededPairs(rows.records) == rows.records.Keys == Selected(rows))
            && (task.status.Running? && task.stage.Pairwise? ==> FailedPairs(rows.records) == {})
            && (task.status.Failed? && FailedPairs(rows.records) != {} ==> CarriesAggregate(task, rows.records))
  {
    hide Run, Step;
    FreshInv(start);
    RunKeepsInv(start, es);
    hide SelectedOf, CreatorsOf, Elements, Distinct;
  }

  /** The table's CHECK constraints on progress, error and status columns hold of every committed row. */
  lemma CommittedTaskPassesChecks(start: Rows, es: seq<Event>)
    requires Fresh(start)
    ensures var task := Run(start, es).task;
            && 0 <= task.completedUnits <= task.totalUnits
            && 0 <= task.resultCount <= task.totalUnits
            && (task.errorCode.Some? <==> task.errorMessage.Some?)
            && (task.status.Failed? || task.status.Superseded? || task.errorCode.None?)
            && (task.status.Failed? || !task.retryable)
            && match task.status
               case Queued => task.startedAt.None? && task.completedAt.None?
               case Running => task.startedAt.Some? && task.completedAt.None?
               case Succeeded => task.startedAt.Some? && task.completedAt.Some?
               case Failed => task.completedAt.Some?
               case Superseded => task.completedAt.Some?
  {
    hide Run, Step;
    FreshInv(start);
    RunKeepsInv(start, es);
    var rows := Run(start, es);
    SubsetCount(SucceededPairs(rows.records), rows.records.Keys);
    if !rows.task.stage.Screening? {
      SubsetCount(rows.records.Keys, Selected(rows));
    }
    SelectedDistinct(rows.screening);
    DistinctCount(SelectedOf(rows.screening));
    hide SelectedOf, CreatorsOf, Distinct;
  }

  // ---------------------------------------------------------------- what is final

  /** A succeeded task is frozen: no transaction changes any of its rows. */
  lemma SucceededIsFrozen(rows: Rows, e: Event)
    requires Inv(rows) && rows.task.status.Succeeded?
    ensures Step(rows, e) == rows
  {
    hide SelectedOf, CreatorsOf, Elements, Distinct, PublicationValid, Step;
    forall c | c in rows.records ensures rows.records[c].state.PairSucceeded? {
      assert c in SucceededPairs(rows.records);
    }
    FinishedIsFrozen(rows, e);
  }

  lemma FinishedIsFrozen(rows: Rows, e: Event)
    requires rows.task.status.Succeeded?
    requires forall c :: c in rows.records ==> rows.records[c].state.PairSucceeded?
    ensures Step(rows, e) == rows
  {
    hide SelectedOf, CreatorsOf, Elements, Distinct, AggregateOf, PublicationValid, InputsValid, DistinctResults,
         ResultRows, MarkSelected, Pruned, Kept, Unfinished, BriefsOf, StoredBrief, Settled, Recompute, FailedRecord,
         SucceededRecord, ClaimedRecord, ScreenedTask, PublishedTask;
  }

  lemma {:induction false} SucceededForever(rows: Rows, es: seq<Event>)
    requires Inv(rows) && rows.task.status.Succeeded?
    ensures Run(rows, es) == rows
    decreases |es|
  {
    hide Inv, Step;
    if es != [] {
      SucceededIsFrozen(rows, es[0]);
      SucceededForever(rows, es[1..]);
    }
  }

  /** Only four transactions write pair records. */
  lemma OtherStepsKeepRecords(rows: Rows, e: Event)
    requires !e.EPrepare? && !e.EClaim? && !e.ESuccess? && !e.EFailPair?
    ensures Step(rows, e).records == rows.records
  {
    hide SelectedOf, CreatorsOf, Elements, Distinct, AggregateOf, Kept, MarkSelected, Pruned, ScreenedTask, InputsValid,
         PublicationValid, DistinctResults, ResultRows, PublishedTask, ReadyToRank, SucceededPairs, BriefsOf;
  }

  /** A succeeded pair record never changes again, brief included. */
  lemma PairSuccessIsFinal(rows: Rows, e: Event, c: Creator)
    requires Inv(rows) && c in SucceededPairs(rows.records)
    ensures c in Step(rows, e).records && Step(rows, e).records[c] == rows.records[c]
  {
    hide Inv, SelectedOf, CreatorsOf, Elements, Distinct, Settled, Recompute, FailedRecord, SucceededRecord,
         ClaimedRecord, StoredBrief, Unfinished;
    if !e.EPrepare? && !e.EClaim? && !e.ESuccess? && !e.EFailPair? {
      OtherStepsKeepRecords(rows, e);
      hide Step;
    }
  }

  lemma {:induction false} BriefsAreWriteOnce(rows: Rows, es: seq<Event>, c: Creator)
    requires Inv(rows) && c in SucceededPairs(rows.records)
    ensures c in Run(rows, es).records && Run(rows, es).records[c] == rows.records[c]
    decreases |es|
  {
    hide Inv, Step;
    if es != [] {
      PairSuccessIsFinal(rows, es[0], c);
      StepKeepsInv(rows, es[0]);
      BriefsAreWriteOnce(Step(rows, es[0]), es[1..], c);
    }
  }

  /** No worker transaction leaves SUPERSEDED; the task row itself stays as it was. */
  lemma SupersededIsFinal(rows: Rows, e: Event)
    requires Inv(rows) && rows.task.status.Superseded?
    ensures Step(rows, e).task == rows.task && Step(rows, e).screening == rows.screening
    ensures Step(rows, e).results == [] && Step(rows, e).campaigns == 0
  {
    hide SelectedOf, CreatorsOf, Elements, Distinct, AggregateOf, PublicationValid, InputsValid, DistinctResults,
         ResultRows, MarkSelected, Pruned, Kept, Unfinished, BriefsOf, StoredBrief, ScreeningOk, FailureOk, StatusOk,
         Settled, FailedRecord, SucceededRecord, ClaimedRecord, ScreenedTask;
  }
}
