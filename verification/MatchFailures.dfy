/** How pair failures add up on the task, and when a late success takes them back. */
module MatchFailures {
  import opened Common
  import opened MatchState
  import opened MatchInvariant

  /**
   The aggregate in words: one failed record lends its code and message, a permanent failure
   before a retryable one and then the least creator id; the task is retryable exactly when
   that record is, which is exactly when all are; and it completed with the last of them.
   */
  lemma AggregateMeaning(records: map<Creator, PairRecord>)
    requires FailedPairs(records) != {}
    requires forall c :: c in records ==> RecordOk(records[c], c)
    ensures var a := AggregateOf(records);
            exists first ::
              && first in FailedPairs(records)
              && a.errorCode == records[first].errorCode && a.errorMessage == records[first].errorMessage
              && a.retryable == records[first].retryable
              && (forall d :: d in FailedPairs(records) && records[d].retryable == a.retryable ==> first <= d)
    ensures var a := AggregateOf(records);
            && a.completedAt.Some?
            && (exists c :: c in FailedPairs(records) && records[c].completedAt == a.completedAt)
            && forall c :: c in FailedPairs(records) ==>
                 records[c].completedAt.Some? && records[c].completedAt.value <= a.completedAt.value
  {
    var failed := FailedPairs(records);
    FirstExists(records, failed);
    LatestExists(records, failed);
    var first :| IsFirst(records, failed, first);
    var latest :| IsLatest(records, failed, latest);
    AggregateUnique(records, first, latest);
    var a := AggregateOf(records);
    assert a.retryable == records[first].retryable by {
      if records[first].retryable {
        forall c | c in failed ensures records[c].retryable {
          assert OrderedBefore(records, first, c);
        }
      }
    }
    forall d | d in failed && records[d].retryable == a.retryable ensures first <= d {
      assert OrderedBefore(records, first, d);
    }
    assert records[first].completedAt.Some?;
  }

  /** A failing pair fails the task, which then carries the aggregate of all failures so far. */
  lemma FailPairAggregates(rows: Rows, c: Creator, failure: Failure, now: Time)
    requires Inv(rows)
    requires c in rows.records && !rows.records[c].state.PairSucceeded? && !rows.task.status.Superseded?
    ensures var after := FailPair(rows, c, failure, now).rows;
            && FailPair(rows, c, failure, now).outcome == Done(true)
            && FailedPairs(after.records) == FailedPairs(rows.records) + {c}
            && after.task.status.Failed? && after.task.stage.Pairwise?
            && CarriesAggregate(after.task, after.records)
  {
    hide SelectedOf, CreatorsOf, Elements, Distinct, AggregateOf, PublicationValid, DistinctResults;
    var after := FailPair(rows, c, failure, now).rows;
    assert c !in SucceededPairs(rows.records);
    assert FailedPairs(after.records) == FailedPairs(rows.records) + {c};
    assert c in FailedPairs(after.records);
  }

  /** Two failures leave the same rows in either order. */
  lemma FailPairsCommute(rows: Rows, c: Creator, f: Failure, s: Time, d: Creator, g: Failure, t: Time)
    requires c != d
    requires c in rows.records && !rows.records[c].state.PairSucceeded?
    requires d in rows.records && !rows.records[d].state.PairSucceeded?
    ensures FailPair(FailPair(rows, c, f, s).rows, d, g, t).rows == FailPair(FailPair(rows, d, g, t).rows, c, f, s).rows
  {
    var cd := FailPair(FailPair(rows, c, f, s).rows, d, g, t).rows;
    var dc := FailPair(FailPair(rows, d, g, t).rows, c, f, s).rows;
    assert cd.records == dc.records;
    hide AggregateOf;
    assert c in FailedPairs(cd.records);
    assert c in FailedPairs(FailPair(rows, c, f, s).rows.records);
    assert d in FailedPairs(FailPair(rows, d, g, t).rows.records);
  }

  /**
   A valid success that arrives after its own record failed is always accepted. It revives the
   task exactly when no other record failed; otherwise the task carries what the others say.
   */
  lemma LateSuccess(rows: Rows, c: Creator, brief: Brief, now: Time)
    requires Inv(rows)
    requires c in FailedPairs(rows.records) && rows.task.status.Failed?
    requires brief.wellFormed && brief.creator == c
    ensures var reply := ApplySuccess(rows, c, brief, now);
            && reply.outcome == Done(brief)
            && (reply.rows.task.status.Running? <==> FailedPairs(rows.records) == {c})
            && (FailedPairs(rows.records) == {c} ==>
                  && reply.rows.task.stage.Pairwise?
                  && reply.rows.task.errorCode.None? && reply.rows.task.errorMessage.None?
                  && reply.rows.task.completedAt.None? && !reply.rows.task.retryable)
            && (FailedPairs(rows.records) != {c} ==>
                  && reply.rows.task.status.Failed?
                  && FailedPairs(reply.rows.records) == FailedPairs(rows.records) - {c} != {}
                  && CarriesAggregate(reply.rows.task, reply.rows.records))
  {
    assert c !in SucceededPairs(rows.records);
    assert rows.records[c].state.PairFailed? && rows.task.stage.Pairwise?;
    RevivalGuard(rows, c, brief, now);
    RecordsAfterSuccess(rows, c, brief, now);
    hide Inv, SelectedOf, CreatorsOf, Elements, Distinct, AggregateOf, PublicationValid, DistinctResults,
         FailedPairs, SucceededPairs, TaskCarries;
  }

  /** A success on a pair still running never revives a failed task. */
  lemma RunningSuccessLeavesFailure(rows: Rows, c: Creator, brief: Brief, now: Time)
    requires Inv(rows)
    requires rows.task.status.Failed? && c in rows.records && rows.records[c].state.PairRunning?
    ensures ApplySuccess(rows, c, brief, now).rows.task.(completedUnits := rows.task.completedUnits) == rows.task
  {
    if ApplySuccess(rows, c, brief, now).rows != rows {
      RecordsAfterSuccess(rows, c, brief, now);
      var after := ApplySuccess(rows, c, brief, now).rows;
      hide SelectedOf, CreatorsOf, Elements, Distinct, AggregateOf, PublicationValid, DistinctResults;
      assert FailedPairs(after.records) == FailedPairs(rows.records);
      if FailedPairs(rows.records) != {} {
        AggregateFrame(rows.records, after.records);
      }
    }
  }

  /** A failed record is never claimed again, so only queued and running pairs reach the model. */
  lemma ClaimedPairsHadNotFailed(rows: Rows, c: Creator, now: Time)
    requires Inv(rows) && Claim(rows, c, now).outcome == Done(Claimed)
    ensures rows.records[c].state.PairQueued? || rows.records[c].state.PairRunning?
    ensures rows.task.status.Running? && rows.task.stage.Pairwise? && c in Selected(rows)
  {
    hide SelectedOf, CreatorsOf, Elements, Distinct;
    assert rows.records[c].state.PairFailed? ==> c in FailedPairs(rows.records);
  }

  /** Neither `min` on the progress counter ever cuts anything off. */
  lemma ClampsNeverAct(rows: Rows, c: Creator, brief: Brief, now: Time)
    requires Inv(rows) && rows.task.stage.Pairwise? && c in rows.records
    requires brief.wellFormed && brief.creator == c
    requires rows.records[c].state.PairRunning? || rows.records[c].state.PairFailed?
    ensures 1 + |SucceededPairs(rows.records[c := SucceededRecord(rows.records[c], brief, now)])| < rows.task.totalUnits
  {
    hide Inv;
    RecordsAfterSuccess(rows, c, brief, now);
  }

  lemma CompensationClampNeverActs(rows: Rows)
    requires Inv(rows) && rows.task.stage.Ranking?
    ensures 1 + |SucceededPairs(rows.records)| == rows.task.totalUnits - 1
    ensures rows.task.status.Running? ==>
              CompensateRankingEnqueue(rows).rows.task
              == rows.task.(stage := Pairwise, rankingEnqueuedAt := None)
  {
    hide SelectedOf, CreatorsOf, Elements, Distinct;
  }

  /** A mark whose dispatch fails is undone without a trace. */
  lemma CompensationUndoesMark(rows: Rows, now: Time)
    requires Inv(rows) && MarkRankingEnqueued(rows, now).outcome == Done(true)
    ensures CompensateRankingEnqueue(MarkRankingEnqueued(rows, now).rows) == Reply(rows, Done(true))
  {
    hide SelectedOf, CreatorsOf, Elements, Distinct;
    assert SucceededPairs(rows.records) == Selected(rows);
  }
}
