/** The fan-in barrier over whole runs: the ranking is enqueued once, by whoever is there last. */
module MatchBarrier {
  import opened Common
  import opened MatchState
  import opened MatchInvariant
  import opened MatchRuns
  import opened MatchPublication

  /** A `mark_ranking_enqueued` transaction that returns true. */
  ghost predicate Opens(rows: Rows, e: Event) {
    e.EMark? && MarkRankingEnqueued(rows, e.now).outcome == Done(true)
  }

  ghost function Openings(rows: Rows, es: seq<Event>): nat
    decreases |es|
  {
    if es == [] then 0
    else (if Opens(rows, es[0]) then 1 else 0) + Openings(Step(rows, es[0]), es[1..])
  }

  predicate NoCompensation(es: seq<Event>) {
    forall i :: 0 <= i < |es| ==> !es[i].ECompensate?
  }

  /** No failure is recorded and nothing is taken back. */
  predicate Calm(es: seq<Event>) {
    forall i :: 0 <= i < |es| ==>
      !es[i].ECompensate? && !es[i].EFailPair? && !es[i].EFailTask? && !es[i].ESupersede?
  }

  /** Every selected creator has a succeeded pair. */
  ghost predicate Complete(rows: Rows) {
    !rows.task.stage.Screening? && SucceededPairs(rows.records) == Selected(rows)
  }

  lemma OpeningStep(rows: Rows, e: Event)
    requires !e.ECompensate?
    ensures Step(rows, e).task.stage.Ranking? <==> rows.task.stage.Ranking? || Opens(rows, e)
    ensures !(rows.task.stage.Ranking? && Opens(rows, e))
  {
    hide SelectedOf, CreatorsOf, Elements, Distinct, AggregateOf, PublicationValid, InputsValid, DistinctResults,
         ResultRows, MarkSelected, Pruned, Kept, Unfinished, BriefsOf, StoredBrief, SucceededPairs, FailedPairs,
         FailedRecord, SucceededRecord, ClaimedRecord;
  }

  /** Without compensation the barrier opens once over any run, failures or not. */
  lemma {:induction false} OpensAtMostOnce(rows: Rows, es: seq<Event>)
    requires NoCompensation(es)
    ensures rows.task.stage.Ranking? ==> Run(rows, es).task.stage.Ranking?
    ensures Openings(rows, es) == if Run(rows, es).task.stage.Ranking? && !rows.task.stage.Ranking? then 1 else 0
    decreases |es|
  {
    hide Step, Opens;
    if es != [] {
      OpeningStep(rows, es[0]);
      assert NoCompensation(es[1..]);
      OpensAtMostOnce(Step(rows, es[0]), es[1..]);
    }
  }

  ghost predicate Healthy(rows: Rows) {
    !rows.task.status.Failed? && !rows.task.status.Superseded?
  }

  lemma CalmStep(rows: Rows, e: Event)
    requires Inv(rows) && Healthy(rows)
    requires !e.ECompensate? && !e.EFailPair? && !e.EFailTask? && !e.ESupersede?
    ensures Healthy(Step(rows, e))
  {
    if e.ESuccess? {
      if Step(rows, e) != rows {
        AppliedSuccess(rows, e.creator, e.brief, e.now);
        SuccessShape(rows, e.creator, e.brief, e.now);
        hide ApplySuccess, Inv, Settled, SuccessEffect;
        CalmSuccess(rows, e.creator, Step(rows, e));
      }
    } else {
      CalmOther(rows, e);
    }
  }

  lemma CalmOther(rows: Rows, e: Event)
    requires Healthy(rows)
    requires !e.ESuccess? && !e.ECompensate? && !e.EFailPair? && !e.EFailTask? && !e.ESupersede?
    ensures Healthy(Step(rows, e))
  {
    hide SelectedOf, CreatorsOf, Elements, Distinct, AggregateOf, PublicationValid, InputsValid, DistinctResults,
         ResultRows, MarkSelected, Pruned, Kept, Unfinished, BriefsOf, StoredBrief, SucceededPairs, FailedPairs,
         ClaimedRecord, ReadyToRank;
  }

  lemma CalmSuccess(rows: Rows, c: Creator, after: Rows)
    requires Inv(rows) && rows.task.status.Running? && SuccessEffect(rows, c, after)
    requires after.task == Settled(rows.task, rows.records[c], after.records)
    ensures after.task.status.Running?
  {
    hide SelectedOf, CreatorsOf, Elements, Distinct, AggregateOf, SucceededPairs, PublicationOk, ScreeningOk;
    assert FailedPairs(after.records) == {};
  }

  lemma {:induction false} CalmRun(rows: Rows, es: seq<Event>)
    requires Inv(rows) && Healthy(rows) && Calm(es)
    ensures Inv(Run(rows, es)) && Healthy(Run(rows, es))
    decreases |es|
  {
    hide Inv, Step, Healthy;
    if es != [] {
      CalmStep(rows, es[0]);
      StepKeepsInv(rows, es[0]);
      assert Calm(es[1..]);
      CalmRun(Step(rows, es[0]), es[1..]);
    }
  }

  /** At a complete, healthy state a mark is either the one that opens or comes after it. */
  lemma MarkAtComplete(rows: Rows, now: Time)
    requires Inv(rows) && Healthy(rows) && Complete(rows)
    ensures MarkRankingEnqueued(rows, now).rows.task.stage.Ranking?
  {
    BarrierExactly(rows, now);
    hide SelectedOf, CreatorsOf, Elements, Distinct, SucceededPairs;
  }

  lemma PrefixRun(rows: Rows, es: seq<Event>, j: nat)
    requires j < |es|
    ensures Run(rows, es[..j + 1]) == Step(Run(rows, es[..j]), es[j])
  {
    hide Step;
    assert es[..j + 1] == es[..j] + [es[j]];
    RunSplit(rows, es[..j], [es[j]]);
    assert [es[j]][1..] == [];
    assert Run(Run(rows, es[..j]), [es[j]]) == Run(Step(Run(rows, es[..j]), es[j]), []);
  }

  /** In a calm run, once a mark meets complete pairs the barrier has opened exactly once, for good. */
  lemma OpensWhenComplete(rows: Rows, es: seq<Event>, j: nat)
    requires Inv(rows) && Healthy(rows) && !rows.task.stage.Ranking? && Calm(es)
    requires j < |es| && es[j].EMark? && Complete(Run(rows, es[..j]))
    ensures Openings(rows, es[..j + 1]) == 1 == Openings(rows, es)
  {
    hide Inv, Step, Opens, Complete;
    assert Calm(es[..j]) && NoCompensation(es[..j + 1]) && NoCompensation(es) && NoCompensation(es[j + 1..]);
    CalmRun(rows, es[..j]);
    PrefixRun(rows, es, j);
    MarkAtComplete(Run(rows, es[..j]), es[j].now);
    MarkStep(Run(rows, es[..j]), es[j]);
    OpensAtMostOnce(rows, es[..j + 1]);
    assert es == es[..j + 1] + es[j + 1..];
    RunSplit(rows, es[..j + 1], es[j + 1..]);
    OpensAtMostOnce(Run(rows, es[..j + 1]), es[j + 1..]);
    OpensAtMostOnce(rows, es);
  }

  lemma MarkStep(rows: Rows, e: Event)
    requires e.EMark?
    ensures Step(rows, e) == MarkRankingEnqueued(rows, e.now).rows
  {
  }

  /** This transaction gives a pair its success. */
  ghost predicate Advances(rows: Rows, e: Event) {
    SucceededPairs(Step(rows, e).records) != SucceededPairs(rows.records)
  }

  /** Completion changes only with a new success or with the first screening output. */
  lemma CompletionStep(rows: Rows, e: Event)
    requires Inv(rows) && !Advances(rows, e) && Complete(Step(rows, e))
    ensures Complete(rows)
  {
    if Step(rows, e).task.stage.Screening? != rows.task.stage.Screening? {
      LeavesScreening(rows, e);
      AppliedSelection(rows, e.selections, e.now);
    } else {
      StepKeepsSelection(rows, e);
    }
  }

  lemma LeavesScreening(rows: Rows, e: Event)
    requires Inv(rows)
    requires Step(rows, e).task.stage.Screening? != rows.task.stage.Screening?
    ensures e.EApplyScreening? && ApplyScreening(rows, e.selections, e.now).rows != rows
    ensures Step(rows, e).records == rows.records == map[]
    ensures Elements(e.selections) != {}
  {
    hide SelectedOf, CreatorsOf, Elements, Distinct, AggregateOf, PublicationValid, InputsValid, DistinctResults,
         ResultRows, MarkSelected, Pruned, Kept, Unfinished, BriefsOf, StoredBrief, PublicationOk, ProgressOk,
         FailureOk, StatusOk, RecordOk, FailedRecord, SucceededRecord, ClaimedRecord;
  }

  lemma StepKeepsSelection(rows: Rows, e: Event)
    requires Inv(rows) && !Step(rows, e).task.stage.Screening? && !rows.task.stage.Screening?
    ensures Selected(Step(rows, e)) == Selected(rows)
  {
    hide SelectedOf, CreatorsOf, Elements, Distinct, AggregateOf, PublicationValid, InputsValid, DistinctResults,
         ResultRows, MarkSelected, Pruned, Kept, Unfinished, BriefsOf, StoredBrief, SucceededPairs, FailedPairs, Inv,
         Settled, Recompute, FailedRecord, SucceededRecord, ClaimedRecord, PublishedTask, ReadyToRank;
  }

  /** If nothing succeeds after transaction i and the run ends complete, it was complete after i. */
  lemma {:induction false} CompleteSince(rows: Rows, es: seq<Event>, i: nat, j: nat)
    requires Inv(rows) && i <= j <= |es|
    requires forall k :: i <= k < |es| ==> !Advances(Run(rows, es[..k]), es[k])
    requires Complete(Run(rows, es))
    ensures Complete(Run(rows, es[..j]))
    decreases |es| - j
  {
    hide Inv, Step, Complete, Advances;
    if j == |es| {
      assert es[..j] == es;
    } else {
      CompleteSince(rows, es, i, j + 1);
      PrefixRun(rows, es, j);
      RunKeepsInv(rows, es[..j]);
      CompletionStep(Run(rows, es[..j]), es[j]);
    }
  }

  /**
   The barrier: in a run without failure or compensation that ends with every pair succeeded,
   let i be the last transaction that gave a pair its success. If the advance that follows it
   is ever delivered, at j, exactly one mark has returned true by then, and none does later.
   */
  lemma FanInBarrier(start: Rows, es: seq<Event>, i: nat, j: nat)
    requires Fresh(start) && Calm(es)
    requires Complete(Run(start, es))
    requires i < |es| && forall k :: i < k < |es| ==> !Advances(Run(start, es[..k]), es[k])
    requires i < j < |es| && es[j].EMark?
    ensures Openings(start, es[..j + 1]) == 1 == Openings(start, es)
  {
    hide Run, Step, Complete, Advances;
    FreshInv(start);
    assert Healthy(start) && !start.task.stage.Ranking?;
    hide Fresh, Inv;
    CompleteSince(start, es, i + 1, j);
    OpensWhenComplete(start, es, j);
  }
}
