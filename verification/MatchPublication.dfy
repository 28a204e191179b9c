/** Screening replays, the ranking checks, and the one publication of a Match task. */
module MatchPublication {
  import opened Common
  import opened MatchState
  import opened MatchInvariant
  import opened MatchRuns

  // ---------------------------------------------------------------- replays

  /** Screening is over: its output has been applied, with or without creators. */
  predicate Screened(rows: Rows) {
    !rows.task.stage.Screening? || rows.task.status.Succeeded?
  }

  lemma ScreenedStep(rows: Rows, e: Event)
    requires Screened(rows)
    ensures Screened(Step(rows, e)) && Step(rows, e).screening == rows.screening
  {
    hide SelectedOf, CreatorsOf, Elements, Distinct, AggregateOf;
  }

  lemma {:induction false} SelectionIsFixed(rows: Rows, es: seq<Event>)
    requires Screened(rows)
    ensures Screened(Run(rows, es)) && Run(rows, es).screening == rows.screening
    decreases |es|
  {
    hide Step, Screened;
    if es != [] {
      ScreenedStep(rows, es[0]);
      SelectionIsFixed(Step(rows, es[0]), es[1..]);
    }
  }

  /**
   Whatever happens after the first application, applying any well-formed output or loading the
   screening input again hands back the first selection, in screening order, and changes nothing.
   */
  lemma ScreeningReplays(rows: Rows, first: seq<Creator>, now: Time, es: seq<Event>, again: seq<Creator>, later: Time)
    requires Inv(rows) && ApplyScreening(rows, first, now).rows != rows
    requires |again| <= MAX_SELECTIONS && |Elements(again)| == |again|
    ensures var reply := ApplyScreening(rows, first, now);
            var reached := Run(reply.rows, es);
            && ApplyScreening(reached, again, later) == Reply(reached, reply.outcome)
            && reply.outcome == Done(SelectedOf(reply.rows.screening))
            && LoadScreening(reached, later)
               == Reply(reached, if reached.task.status.Failed? || reached.task.status.Superseded?
                                 then Raised("match_task_not_screenable")
                                 else Done(Applied(reply.outcome.value)))
  {
    AppliedSelection(rows, first, now);
    var reply := ApplyScreening(rows, first, now);
    assert Screened(reply.rows);
    SelectionIsFixed(reply.rows, es);
    hide Run, Step, SelectedOf, CreatorsOf, Elements, Distinct;
  }

  /** A redelivered start asks for the selection it was given; only these answers are possible. */
  lemma PrepareReplays(rows: Rows)
    requires Inv(rows) && !rows.task.stage.Screening?
    ensures var selection := SelectedOf(rows.screening);
            Prepare(rows, selection).outcome ==
            if rows.task.status.Succeeded? || (rows.task.status.Running? && rows.task.stage.Ranking?) then Done([])
            else if rows.task.status.Running? then Done(Unfinished(selection, rows.records))
            else Raised("match_task_not_preparable")
  {
    SelectedDistinct(rows.screening);
    NoElements(SelectedOf(rows.screening));
    var selection := SelectedOf(rows.screening);
    if rows.task.stage.Ranking? {
      forall c | c in rows.records ensures ValidSucceeded(rows.records[c], c) {
        assert c in SucceededPairs(rows.records);
      }
    }
    UnfinishedAfterFanOut(selection, rows.records, Selected(rows));
  }

  lemma {:induction false} UnfinishedAfterFanOut(selection: seq<Creator>, records: map<Creator, PairRecord>,
                                                 added: set<Creator>)
    ensures Unfinished(selection, FanOut(records, added)) == Unfinished(selection, records)
  {
    if selection != [] {
      UnfinishedAfterFanOut(selection[1..], records, added);
    }
  }

  predicate Subsequence(part: seq<Creator>, whole: seq<Creator>) {
    part == []
    || (whole != [] && ((part[0] == whole[0] && Subsequence(part[1..], whole[1..])) || Subsequence(part, whole[1..])))
  }

  /** The unfinished creators: a subsequence of the selection, keeping exactly those without a success. */
  lemma {:induction false} UnfinishedIsExact(selection: seq<Creator>, records: map<Creator, PairRecord>, c: Creator)
    ensures c in Unfinished(selection, records) <==> c in selection && c !in SucceededPairs(records)
    ensures Distinct(selection) ==> Distinct(Unfinished(selection, records))
    ensures Subsequence(Unfinished(selection, records), selection)
  {
    if selection != [] {
      var rest := selection[1..];
      UnfinishedIsExact(rest, records, c);
      UnfinishedIsExact(rest, records, selection[0]);
      assert selection == [selection[0]] + rest;
      DistinctTail(selection);
      if selection[0] !in SucceededPairs(records) {
        assert Unfinished(selection, records)[1..] == Unfinished(rest, records);
        DistinctTail(Unfinished(selection, records));
      }
    }
  }

  // ---------------------------------------------------------------- the checks that never fire

  /** The ranking input check passes exactly when every selected pair has succeeded. */
  lemma InputsValidExactly(rows: Rows)
    requires Inv(rows)
    ensures InputsValid(rows) <==> !rows.task.stage.Screening? && SucceededPairs(rows.records) == Selected(rows)
  {
    SelectedDistinct(rows.screening);
    DistinctCount(SelectedOf(rows.screening));
    NoElements(SelectedOf(rows.screening));
    hide SelectedOf, CreatorsOf, Distinct;
    if InputsValid(rows) {
      assert SucceededPairs(rows.records) == Selected(rows) by {
        forall c | c in Selected(rows) ensures c in SucceededPairs(rows.records) {
          assert c in SelectedOf(rows.screening);
        }
      }
    }
    if !rows.task.stage.Screening? && SucceededPairs(rows.records) == Selected(rows) {
      assert rows.records.Keys == Selected(rows);
      forall c | c in SelectedOf(rows.screening) ensures ValidSucceeded(rows.records[c], c) {
        assert c in Selected(rows);
      }
    }
  }

  /** The barrier opens exactly when the task runs in PAIRWISE and every selected pair has succeeded. */
  lemma BarrierExactly(rows: Rows, now: Time)
    requires Inv(rows)
    ensures MarkRankingEnqueued(rows, now).outcome
            == Done(rows.task.status.Running? && rows.task.stage.Pairwise?
                    && SucceededPairs(rows.records) == Selected(rows))
  {
    hide SelectedOf, CreatorsOf, Distinct, Elements;
    if rows.task.status.Running? && rows.task.stage.Pairwise? && SucceededPairs(rows.records) == Selected(rows) {
      assert rows.records.Keys == Selected(rows);
      forall c | c in rows.records ensures ValidSucceeded(rows.records[c], c) {
        assert c in SucceededPairs(rows.records);
      }
    }
    if ReadyToRank(rows) {
      assert SucceededPairs(rows.records) == Selected(rows);
    }
  }

  // ---------------------------------------------------------------- one publication

  /** Results exist exactly after a non-empty selection was published, one row a selected creator. */
  lemma ResultsExactly(rows: Rows)
    requires Inv(rows)
    ensures rows.results != [] <==> rows.task.status.Succeeded? && rows.task.stage.Ranking?
    ensures Distinct(ResultCreators(rows.results)) && Distinct(ResultOrders(rows.results))
    ensures rows.results != [] ==> Elements(ResultCreators(rows.results)) == Selected(rows)
    ensures rows.campaigns == if rows.task.status.Succeeded? then 1 else 0
  {
    NoElements(ResultCreators(rows.results));
    NoElements(SelectedOf(rows.screening));
  }

  lemma ResultColumns(items: seq<PublicationItem>, records: map<Creator, PairRecord>)
    requires forall i :: 0 <= i < |items| ==> items[i].creator in records && records[items[i].creator].brief.Some?
    ensures ResultCreators([] + ResultRows(items, records)) == ItemCreators(items)
    ensures ResultOrders([] + ResultRows(items, records)) == ItemOrders(items)
  {
    assert [] + ResultRows(items, records) == ResultRows(items, records);
  }

  /** In RANKING the publication's own checks decide; the checkpoint checks have nothing left to say. */
  lemma PublishInRanking(rows: Rows, items: seq<PublicationItem>, now: Time)
    requires Inv(rows) && rows.task.stage.Ranking? && (rows.task.status.Running? || rows.task.status.Failed?)
    ensures Publish(rows, items, now).outcome.Done?
            <==> Elements(ItemCreators(items)) == Selected(rows)
                 && Distinct(ItemCreators(items)) && Distinct(ItemOrders(items))
    ensures !Publish(rows, items, now).outcome.Done? ==> Publish(rows, items, now).rows == rows
  {
    InputsValidExactly(rows);
    assert rows.results == [] && rows.campaigns == 0 && rows.task.rankingEnqueuedAt.Some?;
    assert InputsValid(rows) by {
      assert SucceededPairs(rows.records) == Selected(rows);
    }
    hide Inv, InputsValid;
    RankingBranches(rows, items, now);
  }

  lemma RankingBranches(rows: Rows, items: seq<PublicationItem>, now: Time)
    requires InputsValid(rows) && rows.results == [] && rows.campaigns == 0
    requires rows.task.stage.Ranking? && rows.task.rankingEnqueuedAt.Some?
    requires rows.task.status.Running? || rows.task.status.Failed?
    ensures Publish(rows, items, now).outcome.Done?
            <==> Elements(ItemCreators(items)) == Selected(rows)
                 && Distinct(ItemCreators(items)) && Distinct(ItemOrders(items))
    ensures !Publish(rows, items, now).outcome.Done? ==> Publish(rows, items, now).rows == rows
  {
    if Elements(ItemCreators(items)) == Selected(rows) {
      ItemsSucceeded(rows, items);
      FirstResults(rows, items);
    }
    hide InputsValid, DistinctResults, Elements, Distinct, ItemCreators, ItemOrders, Selected, ResultRows,
         PublishedTask, PublicationValid, SelectedOf;
  }

  /** The unique keys of the result table are met exactly by items without repeated creators or orders. */
  lemma FirstResults(rows: Rows, items: seq<PublicationItem>)
    requires rows.results == []
    requires forall i :: 0 <= i < |items| ==>
               items[i].creator in rows.records && rows.records[items[i].creator].brief.Some?
    ensures DistinctResults(rows.results + ResultRows(items, rows.records))
            <==> Distinct(ItemCreators(items)) && Distinct(ItemOrders(items))
  {
    ResultColumns(items, rows.records);
    assert rows.results + ResultRows(items, rows.records) == [] + ResultRows(items, rows.records);
    hide Distinct, ItemCreators, ItemOrders, ResultRows, ResultCreators, ResultOrders;
  }

  /** After publication, a redelivered load or publish of anything returns the same count and changes nothing. */
  lemma RedeliveredPublication(rows: Rows, items: seq<PublicationItem>, now: Time)
    requires Inv(rows) && rows.task.status.Succeeded? && rows.task.stage.Ranking?
    ensures Publish(rows, items, now) == Reply(rows, Done(|rows.results|))
    ensures LoadRanking(rows) == Reply(rows, Done(Published(|rows.results|)))
    ensures |rows.results| == |Selected(rows)| == rows.task.resultCount
  {
    InputsValidExactly(rows);
    SelectedDistinct(rows.screening);
    DistinctCount(SelectedOf(rows.screening));
    hide SelectedOf, CreatorsOf, Elements, Distinct;
  }

  /** A publication happens in a transaction that turns the task to SUCCEEDED with results. */
  ghost predicate Publishes(rows: Rows, e: Event) {
    rows.results == [] && Step(rows, e).results != []
  }

  ghost function Publications(rows: Rows, es: seq<Event>): nat
    decreases |es|
  {
    if es == [] then 0
    else (if Publishes(rows, es[0]) then 1 else 0) + Publications(Step(rows, es[0]), es[1..])
  }

  /** Over a whole run there is at most one publication, and exactly one when results exist at its end. */
  lemma {:induction false} PublishedOnce(rows: Rows, es: seq<Event>)
    requires Inv(rows)
    ensures Publications(rows, es) == (if rows.results == [] && Run(rows, es).results != [] then 1 else 0)
    decreases |es|
  {
    hide Inv, Step;
    if es != [] {
      StepKeepsInv(rows, es[0]);
      PublishedOnce(Step(rows, es[0]), es[1..]);
      if rows.results != [] {
        ResultsExactly(rows);
        SucceededForever(rows, es);
        SucceededIsFrozen(rows, es[0]);
      } else if Publishes(rows, es[0]) {
        ResultsExactly(Step(rows, es[0]));
        SucceededForever(Step(rows, es[0]), es[1..]);
      }
    }
  }
}
