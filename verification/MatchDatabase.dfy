/**
 The transactions as the workers run them: fields assigned one after the other, rows visited in
 loops. Each method is tied to the step function that the invariants and run theorems speak of.
 */
module MatchDatabase {
  import opened Common
  import opened MatchState
  import opened MatchInvariant

  class MatchTaskRow {
    var status: Status
    var stage: Stage
    var completedUnits: int
    var totalUnits: int
    var resultCount: int
    var errorCode: Option<string>
    var errorMessage: Option<string>
    var retryable: bool
    var rankingEnqueuedAt: Option<Time>
    var startedAt: Option<Time>
    var completedAt: Option<Time>
    var screening: seq<ScreeningRow>
    var candidates: map<Creator, bool>
    var records: map<Creator, PairRecord>
    var results: seq<ResultItem>
    var campaigns: nat
    const gameBriefUsable: bool

    ghost function TaskView(): Task
      reads this
    {
      Task(status, stage, completedUnits, totalUnits, resultCount, errorCode, errorMessage, retryable,
           rankingEnqueuedAt, startedAt, completedAt)
    }

    ghost function View(): Rows
      reads this
    {
      Rows(TaskView(), screening, candidates, records, results, campaigns, gameBriefUsable)
    }

    /** `create_locked_task`: one screening row and one candidate snapshot per eligible creator, in shuffled order. */
    constructor (shuffled: seq<Creator>, profiles: map<Creator, bool>)
      requires Distinct(shuffled) && Elements(shuffled) == profiles.Keys
      ensures Fresh(View())
      ensures CreatorsOf(screening) == shuffled && candidates == profiles
    {
      status, stage := Queued, Screening;
      completedUnits, totalUnits, resultCount := 0, 0, 0;
      errorCode, errorMessage, retryable := None, None, false;
      rankingEnqueuedAt, startedAt, completedAt := None, None, None;
      screening := [];
      candidates := map[];
      records := map[];
      results := [];
      campaigns := 0;
      gameBriefUsable := true;
      new;
      for order := 0 to |shuffled|
        invariant |screening| == order && TaskView() == NewTask()
        invariant forall i :: 0 <= i < order ==> screening[i] == ScreeningRow(shuffled[i], false)
        invariant records == map[] && results == [] && campaigns == 0
      {
        screening := screening + [ScreeningRow(shuffled[order], false)];
      }
      CreatorColumn(screening);
      assert CreatorsOf(screening) == shuffled;
      candidates := profiles;
    }

    // -------------------------------------------------------------- screening

    method LoadScreening(now: Time) returns (outcome: Outcome<ScreeningInput>)
      modifies this
      ensures Reply(View(), outcome) == MatchState.LoadScreening(old(View()), now)
    {
      if status.Failed? || status.Superseded? {
        return Raised("match_task_not_screenable");
      }
      if !stage.Screening? || status.Succeeded? {
        return Done(Applied(SelectedOf(screening)));
      }
      if candidates.Keys != Elements(CreatorsOf(screening)) {
        return Raised("match_candidate_snapshot_invalid");
      }
      if status.Queued? {
        status := Running;
        startedAt := Some(now);
      }
      return Done(NotApplied(CreatorsOf(screening)));
    }

    method ApplyScreening(selections: seq<Creator>, now: Time) returns (outcome: Outcome<seq<Creator>>)
      modifies this
      ensures Reply(View(), outcome) == MatchState.ApplyScreening(old(View()), selections, now)
    {
      hide SelectedOf, CreatorsOf, Kept, MarkSelected, Pruned, Elements, ScreenedTask;
      var keep := Elements(selections);
      if |selections| > MAX_SELECTIONS || |selections| != |keep| {
        return Raised("screening_output_invalid");
      }
      if !stage.Screening? || status.Succeeded? {
        return Done(SelectedOf(screening));
      }
      if !status.Queued? && !status.Running? {
        return Raised("match_task_not_screenable");
      }
      if !(keep <= Elements(CreatorsOf(screening))) {
        return Raised("screening_output_unknown_creator");
      }
      if !(keep <= candidates.Keys) {
        return Raised("selected_candidate_snapshot_missing");
      }
      NothingKept(screening, keep);
      var kept := Kept(screening, keep);
      SelectRows(keep);
      candidates := Pruned(candidates, keep);
      FinishScreening(|keep|, now);
      if keep == {} && campaigns == 0 {
        campaigns := 1;
      }
      return Done(kept);
    }

    method FinishScreening(count: nat, now: Time)
      modifies `status, `stage, `completedUnits, `totalUnits, `resultCount, `startedAt, `completedAt
      ensures TaskView() == ScreenedTask(old(TaskView()), count, now)
    {
      startedAt := if startedAt.Some? then startedAt else Some(now);
      resultCount := 0;
      if count != 0 {
        status, stage := Running, Pairwise;
        completedUnits := 1;
        totalUnits := count + 2;
        completedAt := None;
      } else {
        status, stage := Succeeded, Screening;
        completedUnits := 1;
        totalUnits := 1;
        completedAt := Some(now);
      }
    }

    method SelectRows(keep: set<Creator>)
      modifies `screening
      ensures screening == MarkSelected(old(screening), keep)
    {
      for i := 0 to |screening|
        invariant |screening| == |old(screening)|
        invariant forall k :: 0 <= k < i ==>
          screening[k] == ScreeningRow(old(screening)[k].creator,
                                       old(screening)[k].selected || old(screening)[k].creator in keep)
        invariant forall k :: i <= k < |screening| ==> screening[k] == old(screening)[k]
      {
        if screening[i].creator in keep {
          screening := screening[i := ScreeningRow(screening[i].creator, true)];
        }
      }
    }

    // -------------------------------------------------------------- fan-out

    method Prepare(creators: seq<Creator>) returns (outcome: Outcome<seq<Creator>>)
      modifies this
      ensures Reply(View(), outcome) == MatchState.Prepare(old(View()), creators)
    {
      if creators == [] || !Distinct(creators) {
        return Raised("match_checkpoint_invalid");
      }
      if status.Succeeded? {
        return Done([]);
      }
      var redelivery := status.Running? && stage.Ranking? && rankingEnqueuedAt.Some?;
      if !redelivery && (!status.Running? || !stage.Pairwise?) {
        return Raised("match_task_not_preparable");
      }
      var selected := SelectedOf(screening);
      if selected != creators || candidates.Keys != Elements(selected) {
        return Raised("match_checkpoint_invalid");
      }
      if !(records.Keys <= Elements(selected)) {
        return Raised("match_checkpoint_invalid");
      }
      if redelivery {
        if records.Keys != Elements(selected) || exists c :: c in records && !ValidSucceeded(records[c], c) {
          return Raised("match_checkpoint_invalid");
        }
        return Done([]);
      }
      hide SelectedOf, Distinct, ValidSucceeded;
      QueueMissing(selected);
      return Done(Unfinished(selected, records));
    }

    method QueueMissing(selected: seq<Creator>)
      modifies `records
      ensures records == FanOut(old(records), Elements(selected))
    {
      for i := 0 to |selected|
        invariant records == FanOut(old(records), Elements(selected[..i]))
      {
        assert Elements(selected[..i + 1]) == Elements(selected[..i]) + {selected[i]};
        if selected[i] !in records {
          records := records[selected[i] := QueuedRecord()];
        }
      }
      assert selected[..|selected|] == selected;
    }

    // -------------------------------------------------------------- one pair

    method Claim(c: Creator, now: Time) returns (outcome: Outcome<PairInput>)
      modifies this
      ensures Reply(View(), outcome) == MatchState.Claim(old(View()), c, now)
    {
      if c !in records {
        return Raised("match_pair_not_found");
      }
      var record := records[c];
      if record.state.PairSucceeded? {
        match StoredBrief(record, c) {
          case Done(brief) => return Done(Completed(brief));
          case Raised(code) => return Raised(code);
        }
      }
      if status.Failed? && record.state.PairFailed? {
        return Raised("match_pair_terminal");
      }
      if !status.Running? || !stage.Pairwise? || (record.state.PairFailed? && !record.retryable) {
        return Raised("match_pair_not_runnable");
      }
      if ScreeningRow(c, true) !in screening || c !in candidates {
        return Raised("match_candidate_not_selected");
      }
      if !gameBriefUsable {
        return Raised("locked_game_brief_invalid");
      }
      if !candidates[c] {
        return Raised("locked_creator_profile_invalid");
      }
      record := record.(state := PairRunning);
      record := record.(attempts := record.attempts + 1);
      record := record.(startedAt := if record.startedAt.Some? then record.startedAt else Some(now));
      record := record.(completedAt := None, brief := None);
      record := record.(errorCode := None, errorMessage := None, retryable := false);
      records := records[c := record];
      return Done(Claimed);
    }

    /** Reads the failed records in any order and keeps the first by query order. */
    method FailedRecords() returns (first: Creator, allRetryable: bool, latest: Option<Time>)
      requires FailedPairs(records) != {}
      ensures first in records
      ensures AggregateOf(records)
              == Aggregate(records[first].errorCode, records[first].errorMessage, allRetryable, latest)
    {
      var failed := FailedPairs(records);
      first :| first in failed;
      allRetryable := records[first].retryable;
      latest := records[first].completedAt;
      var seen := {first};
      while seen != failed
        invariant first in seen && seen <= failed
        invariant IsFirst(records, seen, first)
        invariant allRetryable == (forall d :: d in seen ==> records[d].retryable)
        invariant IsLatest(records, seen, latest)
        decreases failed - seen
      {
        assert failed - seen != {};
        var c :| c in failed - seen;
        FirstOfMore(records, seen, first, c);
        LatestOfMore(records, seen, latest, c);
        seen := seen + {c};
        if OrderedBefore(records, c, first) {
          first := c;
        }
        allRetryable := allRetryable && records[c].retryable;
        latest := Later(latest, records[c].completedAt);
      }
      AggregateUnique(records, first, latest);
    }

    /** `recompute_pair_failure_task`. */
    method RecomputePairFailure() returns (any: bool)
      modifies `status, `errorCode, `errorMessage, `retryable, `completedAt, `resultCount
      ensures TaskView() == Recompute(old(TaskView()), records)
      ensures any <==> FailedPairs(records) != {}
    {
      hide AggregateOf;
      if FailedPairs(records) == {} {
        return false;
      }
      var first, allRetryable, latest := FailedRecords();
      status := Failed;
      errorCode := records[first].errorCode;
      errorMessage := records[first].errorMessage;
      retryable := allRetryable;
      completedAt := latest;
      resultCount := 0;
      return true;
    }

    method ApplySuccess(c: Creator, brief: Brief, now: Time) returns (outcome: Outcome<Brief>)
      modifies this
      ensures Reply(View(), outcome) == MatchState.ApplySuccess(old(View()), c, brief, now)
    {
      if !brief.wellFormed {
        return Raised("match_pair_checkpoint_invalid");
      }
      if brief.creator != c {
        return Raised("match_pair_identity_invalid");
      }
      if c !in records {
        return Raised("match_pair_not_found");
      }
      var record := records[c];
      if record.state.PairSucceeded? {
        return StoredBrief(record, c);
      }
      if record.state.PairQueued? || (!status.Running? && !status.Failed?) || !stage.Pairwise? {
        return Raised("match_pair_not_running");
      }
      StoreSuccess(c, brief, now);
      return Done(brief);
    }

    method StoreSuccess(c: Creator, brief: Brief, now: Time)
      requires c in records
      modifies `records, `status, `stage, `completedUnits, `resultCount, `errorCode, `errorMessage, `retryable,
        `completedAt
      ensures records == old(records)[c := SucceededRecord(old(records)[c], brief, now)]
      ensures TaskView() == Settled(old(TaskView()), old(records)[c], records)
    {
      hide AggregateOf, FailedPairs, SucceededPairs, Recompute, Min;
      var record := records[c];
      var carried := && status.Failed? && record.state.PairFailed?
                     && errorCode == record.errorCode && errorMessage == record.errorMessage
                     && retryable == record.retryable && completedAt == record.completedAt;
      record := record.(state := PairSucceeded, brief := Some(brief));
      record := record.(errorCode := None, errorMessage := None, retryable := false);
      record := record.(completedAt := Some(now));
      records := records[c := record];
      var failedSibling := RecomputePairFailure();
      if carried && !failedSibling {
        status, stage := Running, Pairwise;
        errorCode, errorMessage, retryable := None, None, false;
        completedAt := None;
      }
      completedUnits := Min(1 + |SucceededPairs(records)|, totalUnits);
    }

    method FailPair(c: Creator, failure: Failure, now: Time) returns (outcome: Outcome<bool>)
      modifies this
      ensures Reply(View(), outcome) == MatchState.FailPair(old(View()), c, failure, now)
    {
      if c !in records {
        return Done(false);
      }
      var record := records[c];
      if record.state.PairSucceeded? {
        return Done(false);
      }
      record := record.(state := PairFailed);
      record := record.(attempts := Max(record.attempts, 1));
      record := record.(startedAt := if record.startedAt.Some? then record.startedAt else Some(now));
      record := record.(completedAt := Some(now), brief := None);
      record := record.(errorCode := Some(failure.code), errorMessage := Some(failure.message));
      record := record.(retryable := failure.retryable);
      records := records[c := record];
      if !status.Succeeded? && !status.Superseded? {
        var _ := RecomputePairFailure();
      }
      return Done(true);
    }

    // -------------------------------------------------------------- the task

    method FailTask(failure: Failure, now: Time) returns (outcome: Outcome<bool>)
      modifies this
      ensures Reply(View(), outcome) == MatchState.FailTask(old(View()), failure, now)
    {
      if status.Succeeded? || status.Superseded? || status.Failed? {
        return Done(false);
      }
      status := Failed;
      errorCode := Some(failure.code);
      errorMessage := Some(failure.message);
      retryable := failure.retryable;
      completedAt := Some(now);
      resultCount := 0;
      return Done(true);
    }

    method MarkRankingEnqueued(now: Time) returns (outcome: Outcome<bool>)
      modifies this
      ensures Reply(View(), outcome) == MatchState.MarkRankingEnqueued(old(View()), now)
    {
      if !status.Running? || !stage.Pairwise? || rankingEnqueuedAt.Some? {
        return Done(false);
      }
      var selected := Elements(SelectedOf(screening));
      if selected == {} || candidates.Keys != selected || records.Keys != selected
         || totalUnits != |selected| + 2
      {
        return Done(false);
      }
      var todo := records.Keys;
      while todo != {}
        invariant todo <= records.Keys
        invariant forall c :: c in records && c !in todo ==> ValidSucceeded(records[c], c)
        invariant View() == old(View())
        decreases todo
      {
        var c :| c in todo;
        todo := todo - {c};
        if !records[c].state.PairSucceeded? {
          return Done(false);
        }
        if !ReadableBrief(records[c], c) {
          return Done(false);
        }
      }
      stage := Ranking;
      completedUnits := |selected| + 1;
      rankingEnqueuedAt := Some(now);
      return Done(true);
    }

    method CompensateRankingEnqueue() returns (outcome: Outcome<bool>)
      modifies this
      ensures Reply(View(), outcome) == MatchState.CompensateRankingEnqueue(old(View()))
    {
      if !status.Running? || !stage.Ranking? || rankingEnqueuedAt.None? {
        return Done(false);
      }
      stage := Pairwise;
      completedUnits := Min(1 + |SucceededPairs(records)|, totalUnits);
      rankingEnqueuedAt := None;
      return Done(true);
    }

    // -------------------------------------------------------------- ranking

    method ValidatedInputs() returns (ok: bool, selected: seq<Creator>, briefs: seq<Brief>)
      ensures ok <==> InputsValid(View())
      ensures selected == SelectedOf(screening)
      ensures ok ==> briefs == BriefsOf(selected, records)
    {
      selected := SelectedOf(screening);
      briefs := [];
      if selected == [] || !Distinct(selected) || candidates.Keys != Elements(selected)
         || records.Keys != Elements(selected) || totalUnits != |selected| + 2
      {
        return false, selected, [];
      }
      for i := 0 to |selected|
        invariant |briefs| == i
        invariant forall k :: 0 <= k < i ==> ValidSucceeded(records[selected[k]], selected[k])
        invariant forall k :: 0 <= k < i ==> briefs[k] == records[selected[k]].brief.value
      {
        assert selected[i] in Elements(selected);
        var record := records[selected[i]];
        if !ValidSucceeded(record, selected[i]) {
          return false, selected, [];
        }
        briefs := briefs + [record.brief.value];
      }
      return true, selected, briefs;
    }

    method ValidatedPublication(selected: seq<Creator>) returns (ok: bool)
      requires selected == SelectedOf(screening)
      ensures ok <==> PublicationValid(View())
    {
      return && resultCount == |selected|
             && |results| == |selected|
             && Elements(ResultCreators(results)) == Elements(selected)
             && |Elements(ResultOrders(results))| == |results|
             && campaigns == 1
             && completedAt.Some?
             && completedUnits == totalUnits;
    }

    method LoadRanking() returns (outcome: Outcome<RankingInput>)
      ensures Reply(View(), outcome) == MatchState.LoadRanking(View())
    {
      var ok, selected, briefs := ValidatedInputs();
      if !ok {
        return Raised("match_ranking_checkpoint_invalid");
      }
      if status.Succeeded? {
        var published := ValidatedPublication(selected);
        if !published {
          return Raised("match_publication_invalid");
        }
        return Done(Published(|results|));
      }
      if !status.Running? || !stage.Ranking? || rankingEnqueuedAt.None? {
        return Raised("match_task_not_rankable");
      }
      return Done(ToRank(briefs));
    }

    method NewResults(items: seq<PublicationItem>) returns (added: seq<ResultItem>)
      requires forall i :: 0 <= i < |items| ==> items[i].creator in records && records[items[i].creator].brief.Some?
      ensures added == ResultRows(items, records)
    {
      added := [];
      for i := 0 to |items|
        invariant |added| == i
        invariant forall k :: 0 <= k < i ==>
          added[k] == ResultItem(items[k].creator, items[k].backendOrder, items[k].score,
                                 records[items[k].creator].brief.value)
      {
        added := added + [ResultItem(items[i].creator, items[i].backendOrder, items[i].score,
                                     records[items[i].creator].brief.value)];
      }
    }

    method Publish(items: seq<PublicationItem>, now: Time) returns (outcome: Outcome<nat>)
      modifies this
      ensures Reply(View(), outcome) == MatchState.Publish(old(View()), items, now)
    {
      var ok, selected, briefs := ValidatedInputs();
      if !ok {
        return Raised("match_ranking_checkpoint_invalid");
      }
      if status.Succeeded? {
        var published := ValidatedPublication(selected);
        if !published {
          return Raised("match_publication_invalid");
        }
        return Done(|results|);
      }
      if (!status.Running? && !status.Failed?) || !stage.Ranking? || rankingEnqueuedAt.None? {
        return Raised("match_task_not_rankable");
      }
      if Elements(ItemCreators(items)) != Elements(selected) {
        return Raised("match_ranking_checkpoint_invalid");
      }
      ItemsSucceeded(View(), items);
      outcome := StorePublication(items, now);
    }

    method StorePublication(items: seq<PublicationItem>, now: Time) returns (outcome: Outcome<nat>)
      requires forall i :: 0 <= i < |items| ==> items[i].creator in records && records[items[i].creator].brief.Some?
      modifies `results, `campaigns, `status, `completedUnits, `resultCount, `errorCode, `errorMessage, `retryable,
        `completedAt
      ensures var added := old(results) + ResultRows(items, records);
              if !DistinctResults(added) || old(campaigns) != 0 then
                outcome == Raised("integrity_error") && View() == old(View())
              else
                && outcome == Done(|items|)
                && View() == old(View()).(results := added, campaigns := 1,
                                          task := PublishedTask(old(TaskView()), |items|, now))
    {
      hide DistinctResults, ResultRows;
      var added := NewResults(items);
      if !DistinctResults(results + added) || campaigns != 0 {
        return Raised("integrity_error");
      }
      results := results + added;
      campaigns := campaigns + 1;
      FinishPublication(|items|, now);
      return Done(|items|);
    }

    method FinishPublication(count: nat, now: Time)
      modifies `status, `completedUnits, `resultCount, `errorCode, `errorMessage, `retryable, `completedAt
      ensures TaskView() == PublishedTask(old(TaskView()), count, now)
    {
      status := Succeeded;
      resultCount := count;
      completedUnits := totalUnits;
      errorCode, errorMessage, retryable := None, None, false;
      completedAt := Some(now);
    }
  }

  function Later(a: Option<Time>, b: Option<Time>): Option<Time> {
    if b.Some? && (a.None? || a.value <= b.value) then b else a
  }

  lemma FirstOfMore(records: map<Creator, PairRecord>, seen: set<Creator>, first: Creator, c: Creator)
    requires seen <= records.Keys && IsFirst(records, seen, first) && c in records
    ensures IsFirst(records, seen + {c}, if OrderedBefore(records, c, first) then c else first)
  {
    forall d | d in seen ensures OrderedBefore(records, first, d) {}
  }

  lemma LatestOfMore(records: map<Creator, PairRecord>, seen: set<Creator>, latest: Option<Time>, c: Creator)
    requires seen <= records.Keys && IsLatest(records, seen, latest) && c in records
    ensures IsLatest(records, seen + {c}, Later(latest, records[c].completedAt))
  {
    var next := Later(latest, records[c].completedAt);
    if next.Some? && next == latest {
      var d :| d in seen && records[d].completedAt == latest;
      assert d in seen + {c};
    } else if next.Some? {
      assert c in seen + {c};
    }
  }

  lemma {:induction false} CreatorColumn(screening: seq<ScreeningRow>)
    ensures |CreatorsOf(screening)| == |screening|
    ensures forall i :: 0 <= i < |screening| ==> CreatorsOf(screening)[i] == screening[i].creator
  {
    if screening != [] {
      CreatorColumn(screening[1..]);
    }
  }

  lemma NothingKept(screening: seq<ScreeningRow>, keep: set<Creator>)
    ensures keep == {} ==> Kept(screening, keep) == []
  {
    if keep == {} {
      KeptElements(screening, keep);
      NoElements(Kept(screening, keep));
    }
  }
}
