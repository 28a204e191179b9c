/**
 What each Match transaction accepts and leaves behind, written out column by column, and the path
 from a fresh task to its publication.
 */
module MatchEffects {
  import opened Common
  import opened MatchState
  import opened MatchInvariant
  import opened MatchRuns
  import opened MatchPublication

  // ---------------------------------------------------------------- screening

  /** A queued or running task takes an output of at most thirty distinct screened creators, and no other. */
  lemma ScreeningAccepts(rows: Rows, selections: seq<Creator>, now: Time)
    requires Inv(rows) && rows.task.stage.Screening? && (rows.task.status.Queued? || rows.task.status.Running?)
    ensures var reply := ApplyScreening(rows, selections, now);
            && (reply.outcome.Done? <==>
                  && |selections| <= 30 && Distinct(selections)
                  && forall c :: c in selections ==>
                       exists i :: 0 <= i < |rows.screening| && rows.screening[i].creator == c)
            && (reply.outcome.Raised? ==> reply.rows == rows)
  {
    DistinctCount(selections);
    OnlyScreened(rows.screening, selections);
    hide Elements, SelectedOf, CreatorsOf, Distinct, Kept, MarkSelected, Pruned, ScreenedTask, ProgressOk,
         FailureOk, StatusOk, PublicationOk, RecordOk;
  }

  lemma OnlyScreened(screening: seq<ScreeningRow>, selections: seq<Creator>)
    ensures Elements(selections) <= Elements(CreatorsOf(screening))
            <==> forall c :: c in selections ==> exists i :: 0 <= i < |screening| && screening[i].creator == c
  {
    forall c ensures c in CreatorsOf(screening) <==> exists i :: 0 <= i < |screening| && screening[i].creator == c {
      CreatorMembers(screening, c);
      if i :| 0 <= i < |screening| && screening[i].creator == c {
        assert screening[i] == ScreeningRow(c, true) || screening[i] == ScreeningRow(c, false);
      }
    }
    hide CreatorsOf;
    var known := CreatorsOf(screening);
    assert Elements(selections) <= Elements(known) <==> forall c :: c in selections ==> c in known by {
      assert forall c :: c in Elements(selections) <==> c in selections;
      assert forall c :: c in Elements(known) <==> c in known;
    }
  }

  /**
   What an accepted output leaves: the chosen rows are selected, only their snapshots stay, the answer lists them in
   screening order. With creators the fan-out starts at one of n + 2 units; without, the task is done.
   */
  lemma ScreeningApplies(rows: Rows, selections: seq<Creator>, now: Time)
    requires Inv(rows) && rows.task.stage.Screening? && (rows.task.status.Queued? || rows.task.status.Running?)
    requires ApplyScreening(rows, selections, now).outcome.Done?
    ensures var reply := ApplyScreening(rows, selections, now);
            var after, task := reply.rows, reply.rows.task;
            && |after.screening| == |rows.screening|
            && (forall i :: 0 <= i < |rows.screening| ==>
                  after.screening[i]
                  == ScreeningRow(rows.screening[i].creator, rows.screening[i].creator in selections))
            && reply.outcome == Done(SelectedOf(after.screening))
            && Elements(SelectedOf(after.screening)) == Elements(selections)
            && after.candidates.Keys == Elements(selections)
            && (forall c :: c in after.candidates ==> after.candidates[c] == rows.candidates[c])
            && after == rows.(screening := after.screening, candidates := after.candidates, task := task,
                              campaigns := if selections == [] then 1 else 0)
            && task.startedAt == (if rows.task.startedAt.Some? then rows.task.startedAt else Some(now))
            && (if selections != [] then
                  && task.status == Running && task.stage == Pairwise
                  && task.completedUnits == 1 && task.totalUnits == |Elements(selections)| + 2
                  && task.completedAt == None
                else
                  && task.status == Succeeded && task.stage == Screening
                  && task.completedUnits == 1 && task.totalUnits == 1 && task.completedAt == Some(now))
  {
    NoElements(selections);
    NoElements(SelectedOf(rows.screening));
    NothingSelected(rows.screening);
    var keep := Elements(selections);
    MarkedIsKept(rows.screening, keep);
    KeptElements(rows.screening, keep);
    assert keep <= Elements(CreatorsOf(rows.screening));
    assert keep * Elements(CreatorsOf(rows.screening)) == keep;
    assert forall c :: c in keep <==> c in selections;
    assert Pruned(rows.candidates, keep).Keys == keep;
    NoElements(Kept(rows.screening, keep));
    hide SelectedOf, CreatorsOf, Distinct, Kept, MarkSelected, FailureOk, StatusOk, RecordOk;
  }

  /** The selection in screening order: the creators of the selected rows, as they stand. */
  lemma {:induction false} SelectionFollowsScreening(screening: seq<ScreeningRow>)
    ensures |CreatorsOf(screening)| == |screening|
    ensures forall i :: 0 <= i < |screening| ==> CreatorsOf(screening)[i] == screening[i].creator
    ensures Subsequence(SelectedOf(screening), CreatorsOf(screening))
    ensures forall c :: c in SelectedOf(screening)
                        <==> exists i :: 0 <= i < |screening| && screening[i] == ScreeningRow(c, true)
  {
    forall c ensures c in SelectedOf(screening) <==> ScreeningRow(c, true) in screening {
      SelectedMembers(screening, c);
    }
    if screening != [] {
      SelectionFollowsScreening(screening[1..]);
    }
  }

  // ---------------------------------------------------------------- pairs

  /**
   The first prepare and every later one: afterwards each selected creator has a record, old ones are as they were,
   and new ones are queued and untried. The creators answered are those without a success.
   */
  lemma PrepareFansOut(rows: Rows)
    requires Inv(rows) && rows.task.status.Running? && rows.task.stage.Pairwise?
    ensures var selection := SelectedOf(rows.screening);
            var reply := Prepare(rows, selection);
            && reply.outcome.Done?
            && reply.rows == rows.(records := reply.rows.records)
            && (forall c :: c in reply.rows.records <==> c in selection)
            && (forall c :: c in rows.records ==> reply.rows.records[c] == rows.records[c])
            && (forall c :: c in selection && c !in rows.records ==>
                  reply.rows.records[c] == PairRecord(PairQueued, 0, None, None, None, None, None, false))
            && forall c :: c in reply.outcome.value
                           <==> c in selection && !(c in rows.records && rows.records[c].state == PairSucceeded)
  {
    var selection := SelectedOf(rows.screening);
    PrepareReplays(rows);
    SelectedDistinct(rows.screening);
    NoElements(selection);
    forall c ensures c in Unfinished(selection, rows.records)
                     <==> c in selection && !(c in rows.records && rows.records[c].state == PairSucceeded)
    {
      UnfinishedIsExact(selection, rows.records, c);
    }
    assert forall c :: c in Selected(rows) <==> c in selection;
    hide SelectedOf, CreatorsOf, Distinct, Elements, Unfinished, ProgressOk, FailureOk, StatusOk, PublicationOk;
  }

  /** A pair that has not succeeded can be claimed while the task runs; that counts one more attempt. */
  lemma ClaimTakesPair(rows: Rows, c: Creator, now: Time)
    requires Inv(rows) && rows.task.status.Running? && rows.task.stage.Pairwise?
    requires c in rows.records && rows.records[c].state != PairSucceeded
    requires rows.gameBriefUsable && rows.candidates[c]
    ensures c in rows.candidates
    ensures var record := rows.records[c];
            Claim(rows, c, now)
            == Reply(rows.(records := rows.records[c := PairRecord(
                 PairRunning, record.attempts + 1, if record.startedAt.Some? then record.startedAt else Some(now),
                 None, None, None, None, false)]), Done(Claimed))
  {
    SelectedMembers(rows.screening, c);
    assert c in Selected(rows);
    assert rows.records[c].state.PairFailed? ==> c in FailedPairs(rows.records);
    hide SelectedOf, CreatorsOf, Distinct, ProgressOk, StatusOk, PublicationOk;
  }

  /** A running pair of a running task takes a well-formed brief about its creator and counts one more unit. */
  lemma SuccessIsTaken(rows: Rows, c: Creator, brief: Brief, now: Time)
    requires Inv(rows) && rows.task.status.Running? && rows.task.stage.Pairwise?
    requires c in rows.records && rows.records[c].state == PairRunning
    requires brief.wellFormed && brief.creator == c
    ensures var record := rows.records[c];
            ApplySuccess(rows, c, brief, now)
            == Reply(rows.(records := rows.records[c := record.(
                             state := PairSucceeded, brief := Some(brief), errorCode := None, errorMessage := None,
                             retryable := false, completedAt := Some(now))],
                           task := rows.task.(completedUnits := rows.task.completedUnits + 1)), Done(brief))
  {
    RecordsAfterSuccess(rows, c, brief, now);
    var after := rows.records[c := SucceededRecord(rows.records[c], brief, now)];
    assert c !in SucceededPairs(rows.records);
    assert FailedPairs(after) == {};
    hide SelectedOf, CreatorsOf, Distinct, Elements, AggregateOf, SucceededPairs, FailedPairs, PublicationOk;
  }

  /** A failed pair carries its failure, a completion time and at least one attempt. */
  lemma FailureIsRecorded(rows: Rows, c: Creator, failure: Failure, now: Time)
    requires c in rows.records && rows.records[c].state != PairSucceeded
    ensures var reply := FailPair(rows, c, failure, now);
            var was := rows.records[c];
            && reply.outcome == Done(true)
            && reply.rows.records == rows.records[c := PairRecord(
                 PairFailed, if was.attempts == 0 then 1 else was.attempts,
                 if was.startedAt.Some? then was.startedAt else Some(now), Some(now), None,
                 Some(failure.code), Some(failure.message), failure.retryable)]
            && reply.rows.screening == rows.screening && reply.rows.candidates == rows.candidates
  {
    hide AggregateOf, FailedPairs;
  }

  /** A task still open takes a failure of its own; a finished one keeps what it has. */
  lemma TaskFailureIsRecorded(rows: Rows, failure: Failure, now: Time)
    ensures FailTask(rows, failure, now)
            == if rows.task.status in {Queued, Running} then
                 Reply(rows.(task := rows.task.(
                         status := Failed, errorCode := Some(failure.code), errorMessage := Some(failure.message),
                         retryable := failure.retryable, completedAt := Some(now), resultCount := 0)), Done(true))
               else Reply(rows, Done(false))
  {
  }

  /** Only a failed, retryable task is superseded; it keeps its failure as history and cannot be retried. */
  lemma SupersedeExactly(rows: Rows)
    ensures Supersede(rows)
            == if rows.task.status == Failed && rows.task.retryable then
                 Reply(rows.(task := rows.task.(status := Superseded, retryable := false)), Done(true))
               else Reply(rows, Done(false))
  {
  }

  // ---------------------------------------------------------------- ranking

  /** Opening the barrier sets the stage, the time and the units of all pairs but the ranking's own. */
  lemma MarkOpens(rows: Rows, now: Time)
    requires Inv(rows) && rows.task.status.Running? && rows.task.stage.Pairwise?
    requires forall c :: c in SelectedOf(rows.screening) ==>
               c in rows.records && rows.records[c].state == PairSucceeded
    ensures MarkRankingEnqueued(rows, now)
            == Reply(rows.(task := rows.task.(stage := Ranking, rankingEnqueuedAt := Some(now),
                                              completedUnits := rows.task.totalUnits - 1)), Done(true))
  {
    assert SucceededPairs(rows.records) == Selected(rows);
    BarrierExactly(rows, now);
    hide SelectedOf, CreatorsOf, Distinct, Elements, ReadyToRank;
  }

  /** In RANKING the load hands over every selected creator's stored brief, in screening order. */
  lemma RankingIsLoaded(rows: Rows)
    requires Inv(rows) && rows.task.status.Running? && rows.task.stage.Ranking?
    ensures var selection, reply := SelectedOf(rows.screening), LoadRanking(rows);
            && reply.rows == rows
            && reply.outcome.Done? && reply.outcome.value.ToRank?
            && |reply.outcome.value.briefs| == |selection|
            && forall i :: 0 <= i < |selection| ==>
                 selection[i] in rows.records && rows.records[selection[i]].brief == Some(reply.outcome.value.briefs[i])
  {
    InputsValidExactly(rows);
    assert InputsValid(rows) by {
      assert SucceededPairs(rows.records) == Selected(rows);
    }
    hide Inv, SelectedOf, CreatorsOf, Distinct, PublicationValid;
    assert rows.task.rankingEnqueuedAt.Some? by {
      assert Inv(rows);
    }
  }

  /** A publication in RANKING writes one result an item, with the stored brief of its creator, and closes the task. */
  lemma PublicationIsWritten(rows: Rows, items: seq<PublicationItem>, now: Time)
    requires Inv(rows) && rows.task.stage.Ranking? && (rows.task.status.Running? || rows.task.status.Failed?)
    requires Publish(rows, items, now).outcome.Done?
    ensures var reply := Publish(rows, items, now);
            && reply.outcome.value == |items| == |reply.rows.results|
            && (forall i :: 0 <= i < |items| ==>
                  && items[i].creator in rows.records
                  && reply.rows.results[i].creator == items[i].creator
                  && reply.rows.results[i].backendOrder == items[i].backendOrder
                  && reply.rows.results[i].score == items[i].score
                  && rows.records[items[i].creator].brief == Some(reply.rows.results[i].brief))
            && reply.rows == rows.(results := reply.rows.results, campaigns := 1,
                                   task := rows.task.(status := Succeeded, resultCount := |items|,
                                                      completedUnits := rows.task.totalUnits, errorCode := None,
                                                      errorMessage := None, retryable := false,
                                                      completedAt := Some(now)))
  {
    var reply := Publish(rows, items, now);
    assert reply.rows != rows by {
      PublicationMoves(rows, items, now);
    }
    PublishedShape(rows, items, now);
    assert rows.results == [];
    assert [] + ResultRows(items, rows.records) == ResultRows(items, rows.records);
    hide Inv, Publish, InputsValid, ItemCreators, Selected, DistinctResults;
  }

  lemma PublicationMoves(rows: Rows, items: seq<PublicationItem>, now: Time)
    requires Inv(rows) && rows.task.stage.Ranking? && (rows.task.status.Running? || rows.task.status.Failed?)
    requires Publish(rows, items, now).outcome.Done?
    ensures Publish(rows, items, now).rows.campaigns == 1 && rows.campaigns == 0
  {
    hide SelectedOf, CreatorsOf, Distinct, Elements, InputsValid, PublicationValid, DistinctResults, ResultRows,
         ScreeningOk, ProgressOk, FailureOk, StatusOk, RecordOk;
  }

  // ---------------------------------------------------------------- the whole path

  /** Claim and success of each listed creator, one after the other. */
  function PairEvents(creators: seq<Creator>, briefOf: Creator -> Brief, now: Time): seq<Event> {
    if creators == [] then []
    else [EClaim(creators[0], now), ESuccess(creators[0], briefOf(creators[0]), now)]
         + PairEvents(creators[1..], briefOf, now)
  }

  /** The fan-out with `todo` still queued and every other selected pair succeeded with its brief. */
  ghost predicate Working(rows: Rows, selection: seq<Creator>, todo: seq<Creator>, briefOf: Creator -> Brief) {
    && Inv(rows) && rows.task.status.Running? && rows.task.stage.Pairwise? && rows.gameBriefUsable
    && SelectedOf(rows.screening) == selection
    && (forall c :: c in rows.candidates ==> rows.candidates[c])
    && (forall c :: c in rows.records <==> c in selection)
    && (forall c :: c in rows.records && c in todo ==> rows.records[c].state == PairQueued)
    && forall c :: c in rows.records && c !in todo ==>
         rows.records[c].state == PairSucceeded && rows.records[c].brief == Some(briefOf(c))
  }

  lemma OnePair(rows: Rows, selection: seq<Creator>, todo: seq<Creator>, briefOf: Creator -> Brief, now: Time)
    requires Working(rows, selection, todo, briefOf) && todo != [] && Distinct(todo)
    requires forall c :: c in todo ==> c in selection
    requires forall c :: briefOf(c).wellFormed && briefOf(c).creator == c
    ensures var c := todo[0];
            Working(Step(Step(rows, EClaim(c, now)), ESuccess(c, briefOf(c), now)), selection, todo[1..], briefOf)
  {
    hide Inv, Claim, ApplySuccess, SelectedOf, Distinct;
    var c := todo[0];
    assert c in todo && c in rows.records && rows.records[c].state == PairQueued;
    HasSnapshot(rows, c);
    FinishOne(rows, c, briefOf(c), now);
    hide Working;
    var after := ApplySuccess(Claim(rows, c, now).rows, c, briefOf(c), now).rows;
    OneLess(rows, after, selection, todo, briefOf);
  }

  lemma HasSnapshot(rows: Rows, c: Creator)
    requires Inv(rows) && rows.task.stage.Pairwise? && c in rows.records
    ensures c in rows.candidates
  {
    hide SelectedOf, CreatorsOf;
    assert c in Selected(rows);
  }

  /** A queued pair claimed and finished. */
  lemma FinishOne(rows: Rows, c: Creator, brief: Brief, now: Time)
    requires Inv(rows) && rows.task.status.Running? && rows.task.stage.Pairwise?
    requires c in rows.records && rows.records[c].state == PairQueued
    requires rows.gameBriefUsable && c in rows.candidates && rows.candidates[c]
    requires brief.wellFormed && brief.creator == c
    ensures var after := ApplySuccess(Claim(rows, c, now).rows, c, brief, now).rows;
            && Inv(after) && c in after.records
            && after == rows.(records := rows.records[c := after.records[c]], task := after.task)
            && after.task.status.Running? && after.task.stage.Pairwise?
            && after.records[c].state == PairSucceeded && after.records[c].brief == Some(brief)
  {
    ClaimTakesPair(rows, c, now);
    ClaimKeeps(rows, c, now);
    var claimed := Claim(rows, c, now).rows;
    hide Inv, Claim, ApplySuccess;
    SuccessIsTaken(claimed, c, brief, now);
    ApplySuccessKeeps(claimed, c, brief, now);
  }

  lemma OneLess(rows: Rows, after: Rows, selection: seq<Creator>, todo: seq<Creator>, briefOf: Creator -> Brief)
    requires Working(rows, selection, todo, briefOf) && todo != [] && Distinct(todo)
    requires var c := todo[0];
             && Inv(after) && c in rows.records && c in after.records
             && after == rows.(records := rows.records[c := after.records[c]], task := after.task)
             && after.task.status.Running? && after.task.stage.Pairwise?
             && after.records[c].state == PairSucceeded && after.records[c].brief == Some(briefOf(c))
    ensures Working(after, selection, todo[1..], briefOf)
  {
    DistinctTail(todo);
    assert forall d :: d in todo <==> d == todo[0] || d in todo[1..];
    hide Inv, SelectedOf, Distinct;
  }

  lemma {:induction false} AllPairs(rows: Rows, selection: seq<Creator>, todo: seq<Creator>, briefOf: Creator -> Brief,
                                    now: Time)
    requires Working(rows, selection, todo, briefOf) && Distinct(todo)
    requires forall c :: c in todo ==> c in selection
    requires forall c :: briefOf(c).wellFormed && briefOf(c).creator == c
    ensures Working(Run(rows, PairEvents(todo, briefOf, now)), selection, [], briefOf)
    decreases |todo|
  {
    if todo != [] {
      OnePair(rows, selection, todo, briefOf, now);
      DistinctTail(todo);
      var c, rest := todo[0], PairEvents(todo[1..], briefOf, now);
      var claim, success := EClaim(c, now), ESuccess(c, briefOf(c), now);
      hide Working, Step, Distinct;
      AllPairs(Step(Step(rows, claim), success), selection, todo[1..], briefOf, now);
      TwoSteps(rows, claim, success, rest);
    }
  }

  lemma TwoSteps(rows: Rows, a: Event, b: Event, rest: seq<Event>)
    ensures Run(rows, [a, b] + rest) == Run(Step(Step(rows, a), b), rest)
  {
    hide Step;
    assert ([a, b] + rest)[1..] == [b] + rest && ([b] + rest)[1..] == rest;
    assert Run(rows, [a, b] + rest) == Run(Step(rows, a), [b] + rest);
  }

  /** Screening of a fresh task, and the fan-out of what it selected. */
  lemma PathToFanOut(start: Rows, selections: seq<Creator>, briefOf: Creator -> Brief, now: Time)
    returns (selection: seq<Creator>)
    requires Fresh(start) && forall c :: c in start.candidates ==> start.candidates[c]
    requires 1 <= |selections| <= 30 && Distinct(selections)
    requires forall c :: c in selections ==> exists i :: 0 <= i < |start.screening| && start.screening[i].creator == c
    ensures Elements(selection) == Elements(selections) && Distinct(selection)
    ensures var loaded := Step(start, ELoadScreening(now));
            var screened := Step(loaded, EApplyScreening(selections, now));
            && ApplyScreening(loaded, selections, now).outcome == Done(selection)
            && Working(Step(screened, EPrepare(selection)), selection, selection, briefOf)
  {
    hide Fresh, Inv, LoadScreening, ApplyScreening, Prepare, SelectedOf, Distinct, Elements, Working;
    var loaded := LoadedStart(start, now);
    selection := ScreenedFan(loaded, selections, now);
    var screened := ApplyScreening(loaded, selections, now).rows;
    FannedOut(screened, selection, briefOf);
  }

  lemma LoadedStart(start: Rows, now: Time) returns (loaded: Rows)
    requires Fresh(start)
    ensures loaded == LoadScreening(start, now).rows && Inv(loaded)
    ensures loaded == start.(task := start.task.(status := Running, startedAt := Some(now)))
    ensures loaded.task.stage == Screening && loaded.records == map[] && loaded.gameBriefUsable
  {
    FreshInv(start);
    loaded := LoadScreening(start, now).rows;
    LoadScreeningKeeps(start, now);
    hide Inv;
  }

  lemma ScreenedFan(loaded: Rows, selections: seq<Creator>, now: Time) returns (selection: seq<Creator>)
    requires Inv(loaded) && loaded.task.stage.Screening? && loaded.task.status.Running?
    requires 1 <= |selections| <= 30 && Distinct(selections)
    requires forall c :: c in selections ==> exists i :: 0 <= i < |loaded.screening| && loaded.screening[i].creator == c
    ensures Elements(selection) == Elements(selections) && Distinct(selection)
    ensures var reply := ApplyScreening(loaded, selections, now);
            && reply.outcome == Done(selection) && SelectedOf(reply.rows.screening) == selection
            && Inv(reply.rows) && reply.rows.task.status.Running? && reply.rows.task.stage.Pairwise?
            && reply.rows.records == loaded.records && reply.rows.gameBriefUsable == loaded.gameBriefUsable
            && forall c :: c in reply.rows.candidates ==>
                 c in loaded.candidates && reply.rows.candidates[c] == loaded.candidates[c]
  {
    ScreeningAccepts(loaded, selections, now);
    ScreeningApplies(loaded, selections, now);
    ApplyScreeningKeeps(loaded, selections, now);
    var screened := ApplyScreening(loaded, selections, now).rows;
    hide ApplyScreening, SelectedOf;
    selection := SelectedOf(screened.screening);
    SelectedDistinct(screened.screening);
    SnapshotsKnown(loaded, selections);
  }

  lemma SnapshotsKnown(rows: Rows, selections: seq<Creator>)
    requires Inv(rows) && rows.task.stage.Screening? && rows.task.status.Running?
    requires forall c :: c in selections ==> exists i :: 0 <= i < |rows.screening| && rows.screening[i].creator == c
    ensures forall c :: c in Elements(selections) ==> c in rows.candidates
  {
    OnlyScreened(rows.screening, selections);
    hide SelectedOf, CreatorsOf;
  }

  lemma FannedOut(screened: Rows, selection: seq<Creator>, briefOf: Creator -> Brief)
    requires Inv(screened) && screened.task.status.Running? && screened.task.stage.Pairwise?
    requires SelectedOf(screened.screening) == selection && screened.records == map[] && screened.gameBriefUsable
    requires forall c :: c in screened.candidates ==> screened.candidates[c]
    ensures Working(Prepare(screened, selection).rows, selection, selection, briefOf)
  {
    PrepareFansOut(screened);
    PrepareKeeps(screened, selection);
    hide Inv, Prepare, SelectedOf;
  }

  /**
   The path to success: a fresh task is screened, fanned out, every selected pair claimed and finished, the barrier
   opened, and the ranking loaded and published. It ends SUCCEEDED with exactly one result a selected creator, each
   with the brief of its pair.
   */
  lemma HappyPath(start: Rows, selections: seq<Creator>, briefOf: Creator -> Brief, items: seq<PublicationItem>,
                  now: Time)
    returns (selection: seq<Creator>)
    requires Fresh(start) && forall c :: c in start.candidates ==> start.candidates[c]
    requires 1 <= |selections| <= 30 && Distinct(selections)
    requires forall c :: c in selections ==> exists i :: 0 <= i < |start.screening| && start.screening[i].creator == c
    requires forall c :: briefOf(c).wellFormed && briefOf(c).creator == c
    requires Elements(ItemCreators(items)) == Elements(selections)
    requires Distinct(ItemCreators(items)) && Distinct(ItemOrders(items))
    ensures var path := [ELoadScreening(now), EApplyScreening(selections, now), EPrepare(selection)]
                        + PairEvents(selection, briefOf, now)
                        + [EMark(now), ELoadRanking, EPublish(items, now)];
            var end := Run(start, path);
            && end.task.status == Succeeded && end.campaigns == 1
            && |end.results| == |items| == |selections| == end.task.resultCount
            && forall i :: 0 <= i < |items| ==>
                 end.results[i] == ResultItem(items[i].creator, items[i].backendOrder, items[i].score,
                                              briefOf(items[i].creator))
  {
    selection := PathToFanOut(start, selections, briefOf, now);
    var pairs := PairEvents(selection, briefOf, now);
    var first, last := [ELoadScreening(now), EApplyScreening(selections, now), EPrepare(selection)],
      [EMark(now), ELoadRanking, EPublish(items, now)];
    ThreeSteps(start, ELoadScreening(now), EApplyScreening(selections, now), EPrepare(selection));
    var fanned := Run(start, first);
    AllPairs(fanned, selection, selection, briefOf, now);
    var paired := Run(fanned, pairs);
    RunSplit(start, first, pairs);
    RunSplit(start, first + pairs, last);
    ThreeSteps(paired, EMark(now), ELoadRanking, EPublish(items, now));
    DistinctCount(selections);
    DistinctCount(ItemCreators(items));
    hide Step, Run, Working, Fresh, Distinct, Elements;
    PathToPublication(paired, selection, briefOf, items, now);
  }

  lemma ThreeSteps(rows: Rows, a: Event, b: Event, c: Event)
    ensures Run(rows, [a, b, c]) == Step(Step(Step(rows, a), b), c)
  {
    hide Step;
    assert [a, b, c] == [a, b] + [c];
    TwoSteps(rows, a, b, [c]);
    assert [c][1..] == [];
    assert Run(Step(Step(rows, a), b), [c]) == Run(Step(Step(Step(rows, a), b), c), []);
  }

  /** From a finished fan-out through the barrier to the publication. */
  lemma PathToPublication(rows: Rows, selection: seq<Creator>, briefOf: Creator -> Brief, items: seq<PublicationItem>,
                          now: Time)
    requires Working(rows, selection, [], briefOf)
    requires Elements(ItemCreators(items)) == Elements(selection)
    requires Distinct(ItemCreators(items)) && Distinct(ItemOrders(items))
    ensures var end := Step(Step(Step(rows, EMark(now)), ELoadRanking), EPublish(items, now));
            && end.task.status == Succeeded && end.campaigns == 1
            && |end.results| == |items| == end.task.resultCount
            && forall i :: 0 <= i < |items| ==>
                 end.results[i] == ResultItem(items[i].creator, items[i].backendOrder, items[i].score,
                                              briefOf(items[i].creator))
  {
    hide Inv, Working, Publish, LoadRanking, MarkRankingEnqueued, SelectedOf, Distinct, Elements, ItemCreators,
         ItemOrders;
    var marked := MarkRankingEnqueued(rows, now).rows;
    Opened(rows, selection, briefOf, now);
    Published(marked, selection, briefOf, items, now);
    assert Step(rows, EMark(now)) == marked;
    assert Step(marked, ELoadRanking) == LoadRanking(marked).rows;
    assert Step(marked, EPublish(items, now)) == Publish(marked, items, now).rows;
  }

  lemma Opened(rows: Rows, selection: seq<Creator>, briefOf: Creator -> Brief, now: Time)
    requires Working(rows, selection, [], briefOf)
    ensures var marked := MarkRankingEnqueued(rows, now).rows;
            && Inv(marked) && marked.task.status.Running? && marked.task.stage.Ranking?
            && SelectedOf(marked.screening) == selection
            && forall c :: c in marked.records ==> marked.records[c].brief == Some(briefOf(c))
  {
    MarkOpens(rows, now);
    MarkRankingEnqueuedKeeps(rows, now);
    hide Inv, MarkRankingEnqueued, SelectedOf;
  }

  lemma Published(marked: Rows, selection: seq<Creator>, briefOf: Creator -> Brief, items: seq<PublicationItem>,
                  now: Time)
    requires Inv(marked) && marked.task.status.Running? && marked.task.stage.Ranking?
    requires SelectedOf(marked.screening) == selection
    requires forall c :: c in marked.records ==> marked.records[c].brief == Some(briefOf(c))
    requires Elements(ItemCreators(items)) == Elements(selection)
    requires Distinct(ItemCreators(items)) && Distinct(ItemOrders(items))
    ensures LoadRanking(marked).rows == marked
    ensures var end := Publish(marked, items, now).rows;
            && end.task.status == Succeeded && end.campaigns == 1
            && |end.results| == |items| == end.task.resultCount
            && forall i :: 0 <= i < |items| ==>
                 end.results[i] == ResultItem(items[i].creator, items[i].backendOrder, items[i].score,
                                              briefOf(items[i].creator))
  {
    RankingIsLoaded(marked);
    PublishInRanking(marked, items, now);
    PublicationIsWritten(marked, items, now);
    hide Inv, Publish, LoadRanking, SelectedOf, Distinct, Elements, ItemCreators, ItemOrders;
  }
}
