/**
 The rows one Match task owns and the effect of every transaction that touches them, as
 functions from rows to rows. Each transaction runs under the task's row lock, so it is one
 atomic step; an exception rolls it back and leaves the rows alone.
 */
module MatchState {
  import opened Common

  type Creator = nat
  type Time = int

  datatype Status = Queued | Running | Succeeded | Failed | Superseded
  datatype Stage = Screening | Pairwise | Ranking
  datatype PairState = PairQueued | PairRunning | PairSucceeded | PairFailed

  /** A brief produced by the model; `wellFormed` stands for the schema's own validation. */
  datatype Brief = Brief(creator: Creator, wellFormed: bool, body: string)

  datatype Failure = Failure(code: string, message: string, retryable: bool)

  datatype PairRecord = PairRecord(
    state: PairState,
    attempts: nat,
    startedAt: Option<Time>,
    completedAt: Option<Time>,
    brief: Option<Brief>,
    errorCode: Option<string>,
    errorMessage: Option<string>,
    retryable: bool)

  datatype Task = Task(
    status: Status,
    stage: Stage,
    completedUnits: int,
    totalUnits: int,
    resultCount: int,
    errorCode: Option<string>,
    errorMessage: Option<string>,
    retryable: bool,
    rankingEnqueuedAt: Option<Time>,
    startedAt: Option<Time>,
    completedAt: Option<Time>)

  /** Screening rows are kept in screening order. */
  datatype ScreeningRow = ScreeningRow(creator: Creator, selected: bool)

  datatype ResultItem = ResultItem(creator: Creator, backendOrder: nat, score: int, brief: Brief)

  datatype PublicationItem = PublicationItem(creator: Creator, backendOrder: nat, score: int)

  /**
   `candidates` maps each kept candidate snapshot to whether the locked profile can still be
   turned into a prompt; `gameBriefUsable` says the same of the locked game brief.
   */
  datatype Rows = Rows(
    task: Task,
    screening: seq<ScreeningRow>,
    candidates: map<Creator, bool>,
    records: map<Creator, PairRecord>,
    results: seq<ResultItem>,
    campaigns: nat,
    gameBriefUsable: bool)

  /** The rows after a transaction and what it returned. */
  datatype Reply<+T> = Reply(rows: Rows, outcome: Outcome<T>)

  datatype ScreeningInput = NotApplied(creators: seq<Creator>) | Applied(selected: seq<Creator>)
  datatype PairInput = Completed(brief: Brief) | Claimed
  datatype RankingInput = Published(count: nat) | ToRank(briefs: seq<Brief>)

  const MAX_SELECTIONS := 30

  // ---------------------------------------------------------------- reading the rows

  function CreatorsOf(screening: seq<ScreeningRow>): seq<Creator> {
    if screening == [] then [] else [screening[0].creator] + CreatorsOf(screening[1..])
  }

  /** The selected creators in screening order. */
  function SelectedOf(screening: seq<ScreeningRow>): seq<Creator> {
    if screening == [] then []
    else
      var rest := SelectedOf(screening[1..]);
      if screening[0].selected then [screening[0].creator] + rest else rest
  }

  /** Marks the chosen rows; the order and the creators of the rows do not change. */
  function MarkSelected(screening: seq<ScreeningRow>, chosen: set<Creator>): (r: seq<ScreeningRow>)
    ensures |r| == |screening|
    ensures forall i :: 0 <= i < |r| ==>
      r[i] == ScreeningRow(screening[i].creator, screening[i].selected || screening[i].creator in chosen)
  {
    if screening == [] then []
    else [ScreeningRow(screening[0].creator, screening[0].selected || screening[0].creator in chosen)]
         + MarkSelected(screening[1..], chosen)
  }

  function Selected(rows: Rows): set<Creator> {
    Elements(SelectedOf(rows.screening))
  }

  function SucceededPairs(records: map<Creator, PairRecord>): set<Creator> {
    set c | c in records && records[c].state.PairSucceeded?
  }

  function FailedPairs(records: map<Creator, PairRecord>): set<Creator> {
    set c | c in records && records[c].state.PairFailed?
  }

  predicate ReadableBrief(record: PairRecord, creator: Creator) {
    record.brief.Some? && record.brief.value.wellFormed && record.brief.value.creator == creator
  }

  /** Reading a stored brief back: it must validate and it must be about the right creator. */
  function StoredBrief(record: PairRecord, creator: Creator): Outcome<Brief> {
    if record.brief.None? || !record.brief.value.wellFormed then Raised("match_pair_checkpoint_invalid")
    else if record.brief.value.creator != creator then Raised("match_pair_identity_invalid")
    else Done(record.brief.value)
  }

  predicate ValidSucceeded(record: PairRecord, creator: Creator) {
    record.state.PairSucceeded? && ReadableBrief(record, creator)
  }

  function Unfinished(selected: seq<Creator>, records: map<Creator, PairRecord>): seq<Creator> {
    if selected == [] then []
    else
      var rest := Unfinished(selected[1..], records);
      if selected[0] in records && records[selected[0]].state.PairSucceeded? then rest
      else [selected[0]] + rest
  }

  function BriefsOf(selected: seq<Creator>, records: map<Creator, PairRecord>): (r: seq<Brief>)
    requires forall c :: c in selected ==> c in records && records[c].brief.Some?
    ensures |r| == |selected|
    ensures forall i :: 0 <= i < |r| ==> r[i] == records[selected[i]].brief.value
  {
    if selected == [] then []
    else [records[selected[0]].brief.value] + BriefsOf(selected[1..], records)
  }

  // ---------------------------------------------------------------- the failure aggregate

  /** Query order of the failed records: not retryable first, then by creator id. */
  predicate OrderedBefore(records: map<Creator, PairRecord>, a: Creator, b: Creator)
    requires a in records && b in records
  {
    || (!records[a].retryable && records[b].retryable)
    || (records[a].retryable == records[b].retryable && a <= b)
  }

  ghost predicate IsFirst(records: map<Creator, PairRecord>, among: set<Creator>, first: Creator)
    requires among <= records.Keys
  {
    first in among && forall c :: c in among ==> OrderedBefore(records, first, c)
  }

  lemma {:induction false} FirstExists(records: map<Creator, PairRecord>, among: set<Creator>)
    requires among <= records.Keys && among != {}
    ensures exists first :: IsFirst(records, among, first)
    decreases among
  {
    var c :| c in among;
    if among == {c} {
      assert IsFirst(records, among, c);
    } else {
      FirstExists(records, among - {c});
      var d :| IsFirst(records, among - {c}, d);
      var first := if OrderedBefore(records, c, d) then c else d;
      forall x | x in among ensures OrderedBefore(records, first, x) {
        assert x == c || x in among - {c};
      }
      assert IsFirst(records, among, first);
    }
  }

  ghost predicate IsLatest(records: map<Creator, PairRecord>, among: set<Creator>, latest: Option<Time>)
    requires among <= records.Keys
  {
    && (forall c :: c in among && records[c].completedAt.Some? ==>
          latest.Some? && records[c].completedAt.value <= latest.value)
    && (latest.Some? ==> exists c :: c in among && records[c].completedAt == latest)
  }

  lemma {:induction false} LatestExists(records: map<Creator, PairRecord>, among: set<Creator>)
    requires among <= records.Keys
    ensures exists latest :: IsLatest(records, among, latest)
    decreases among
  {
    if among == {} {
      assert IsLatest(records, among, None);
    } else {
      var c :| c in among;
      LatestExists(records, among - {c});
      var rest :| IsLatest(records, among - {c}, rest);
      var mine := records[c].completedAt;
      var latest := if mine.Some? && (rest.None? || rest.value <= mine.value) then mine else rest;
      assert latest.Some? ==> (latest == mine && c in among) || latest == rest;
      assert IsLatest(records, among, latest);
    }
  }

  datatype Aggregate = Aggregate(
    errorCode: Option<string>,
    errorMessage: Option<string>,
    retryable: bool,
    completedAt: Option<Time>)

  /**
   What the failed records say about the task as a whole. It reads the records as a set, so no
   order in which they failed can show in it.
   */
  ghost function AggregateOf(records: map<Creator, PairRecord>): Aggregate
    requires FailedPairs(records) != {}
  {
    var failed := FailedPairs(records);
    FirstExists(records, failed);
    LatestExists(records, failed);
    var first :| IsFirst(records, failed, first);
    var latest :| IsLatest(records, failed, latest);
    Aggregate(
      records[first].errorCode,
      records[first].errorMessage,
      forall c :: c in failed ==> records[c].retryable,
      latest)
  }

  ghost function Recompute(task: Task, records: map<Creator, PairRecord>): Task {
    if FailedPairs(records) == {} then task
    else
      var a := AggregateOf(records);
      task.(status := Failed, errorCode := a.errorCode, errorMessage := a.errorMessage,
            retryable := a.retryable, completedAt := a.completedAt, resultCount := 0)
  }

  // ---------------------------------------------------------------- screening

  function NewTask(): Task {
    Task(Queued, Screening, 0, 0, 0, None, None, false, None, None, None)
  }

  /** The rows `create_locked_task` leaves behind: one screening row and one snapshot a creator. */
  ghost predicate Fresh(rows: Rows) {
    && rows.task == NewTask()
    && Distinct(CreatorsOf(rows.screening))
    && (forall i :: 0 <= i < |rows.screening| ==> !rows.screening[i].selected)
    && rows.candidates.Keys == Elements(CreatorsOf(rows.screening))
    && rows.records == map[]
    && rows.results == []
    && rows.campaigns == 0
    && rows.gameBriefUsable
  }

  function LoadScreening(rows: Rows, now: Time): Reply<ScreeningInput> {
    var task := rows.task;
    if task.status.Failed? || task.status.Superseded? then
      Reply(rows, Raised("match_task_not_screenable"))
    else if !task.stage.Screening? || task.status.Succeeded? then
      Reply(rows, Done(Applied(SelectedOf(rows.screening))))
    else if rows.candidates.Keys != Elements(CreatorsOf(rows.screening)) then
      Reply(rows, Raised("match_candidate_snapshot_invalid"))
    else
      var started := if task.status.Queued? then task.(status := Running, startedAt := Some(now)) else task;
      Reply(rows.(task := started), Done(NotApplied(CreatorsOf(rows.screening))))
  }

  function ApplyScreening(rows: Rows, selections: seq<Creator>, now: Time): Reply<seq<Creator>> {
    var task := rows.task;
    var keep := Elements(selections);
    if |selections| > MAX_SELECTIONS || |selections| != |keep| then
      Reply(rows, Raised("screening_output_invalid"))
    else if !task.stage.Screening? || task.status.Succeeded? then
      Reply(rows, Done(SelectedOf(rows.screening)))
    else if !task.status.Queued? && !task.status.Running? then
      Reply(rows, Raised("match_task_not_screenable"))
    else if !(keep <= Elements(CreatorsOf(rows.screening))) then
      Reply(rows, Raised("screening_output_unknown_creator"))
    else if !(keep <= rows.candidates.Keys) then
      Reply(rows, Raised("selected_candidate_snapshot_missing"))
    else
      var marked := MarkSelected(rows.screening, keep);
      var kept := Pruned(rows.candidates, keep);
      var applied := rows.(screening := marked, candidates := kept, task := ScreenedTask(task, |keep|, now));
      if keep != {} then Reply(applied, Done(Kept(rows.screening, keep)))
      else Reply(applied.(campaigns := if rows.campaigns == 0 then 1 else rows.campaigns), Done([]))
  }

  /** With creators to compare the fan-out starts; with none the task is already done. */
  function ScreenedTask(task: Task, count: nat, now: Time): Task {
    var started := task.(startedAt := if task.startedAt.Some? then task.startedAt else Some(now), resultCount := 0);
    if count != 0 then
      started.(status := Running, stage := Pairwise, completedUnits := 1, totalUnits := count + 2, completedAt := None)
    else
      started.(status := Succeeded, stage := Screening, completedUnits := 1, totalUnits := 1, completedAt := Some(now))
  }

  /** The candidate snapshots that survive the pruning delete. */
  function Pruned(candidates: map<Creator, bool>, keep: set<Creator>): map<Creator, bool> {
    map c | c in candidates && c in keep :: candidates[c]
  }

  /** The kept creators in screening order. */
  function Kept(screening: seq<ScreeningRow>, keep: set<Creator>): seq<Creator> {
    if screening == [] then []
    else
      var rest := Kept(screening[1..], keep);
      if screening[0].creator in keep then [screening[0].creator] + rest else rest
  }

  // ---------------------------------------------------------------- pairwise fan-out and fan-in

  function QueuedRecord(): PairRecord {
    PairRecord(PairQueued, 0, None, None, None, None, None, false)
  }

  /** Adds a queued record for every selected creator that has none. */
  function FanOut(records: map<Creator, PairRecord>, selected: set<Creator>): (r: map<Creator, PairRecord>)
    ensures r.Keys == records.Keys + selected
    ensures forall c :: c in records ==> r[c] == records[c]
    ensures forall c :: c in selected && c !in records ==> r[c] == QueuedRecord()
  {
    map c | c in records.Keys + selected :: if c in records then records[c] else QueuedRecord()
  }

  function Prepare(rows: Rows, creators: seq<Creator>): Reply<seq<Creator>> {
    var task := rows.task;
    var selected := SelectedOf(rows.screening);
    var redelivery := task.status.Running? && task.stage.Ranking? && task.rankingEnqueuedAt.Some?;
    if creators == [] || !Distinct(creators) then Reply(rows, Raised("match_checkpoint_invalid"))
    else if task.status.Succeeded? then Reply(rows, Done([]))
    else if !redelivery && (!task.status.Running? || !task.stage.Pairwise?) then
      Reply(rows, Raised("match_task_not_preparable"))
    else if selected != creators || rows.candidates.Keys != Selected(rows) then
      Reply(rows, Raised("match_checkpoint_invalid"))
    else if !(rows.records.Keys <= Selected(rows)) then
      Reply(rows, Raised("match_checkpoint_invalid"))
    else if redelivery then
      if rows.records.Keys != Selected(rows)
         || exists c :: c in rows.records && !ValidSucceeded(rows.records[c], c) then
        Reply(rows, Raised("match_checkpoint_invalid"))
      else Reply(rows, Done([]))
    else
      var records := FanOut(rows.records, Selected(rows));
      Reply(rows.(records := records), Done(Unfinished(selected, records)))
  }

  function ClaimedRecord(record: PairRecord, now: Time): PairRecord {
    PairRecord(PairRunning, record.attempts + 1,
               if record.startedAt.Some? then record.startedAt else Some(now),
               None, None, None, None, false)
  }

  function Claim(rows: Rows, c: Creator, now: Time): Reply<PairInput> {
    var task := rows.task;
    if c !in rows.records then Reply(rows, Raised("match_pair_not_found"))
    else
      var record := rows.records[c];
      if record.state.PairSucceeded? then
        match StoredBrief(record, c) {
          case Done(brief) => Reply(rows, Done(Completed(brief)))
          case Raised(code) => Reply(rows, Raised(code))
        }
      else if task.status.Failed? && record.state.PairFailed? then Reply(rows, Raised("match_pair_terminal"))
      else if !task.status.Running? || !task.stage.Pairwise? || (record.state.PairFailed? && !record.retryable) then
        Reply(rows, Raised("match_pair_not_runnable"))
      else if ScreeningRow(c, true) !in rows.screening || c !in rows.candidates then
        Reply(rows, Raised("match_candidate_not_selected"))
      else if !rows.gameBriefUsable then Reply(rows, Raised("locked_game_brief_invalid"))
      else if !rows.candidates[c] then Reply(rows, Raised("locked_creator_profile_invalid"))
      else Reply(rows.(records := rows.records[c := ClaimedRecord(record, now)]), Done(Claimed))
  }

  function SucceededRecord(record: PairRecord, brief: Brief, now: Time): PairRecord {
    record.(state := PairSucceeded, brief := Some(brief), errorCode := None, errorMessage := None,
            retryable := false, completedAt := Some(now))
  }

  /** The field-by-field guard that decides whether a late success revives a failed task. */
  predicate TaskCarries(task: Task, record: PairRecord) {
    && task.status.Failed?
    && record.state.PairFailed?
    && task.errorCode == record.errorCode
    && task.errorMessage == record.errorMessage
    && task.retryable == record.retryable
    && task.completedAt == record.completedAt
  }

  function Revived(task: Task): Task {
    task.(status := Running, stage := Pairwise, errorCode := None, errorMessage := None,
          retryable := false, completedAt := None)
  }

  ghost function ApplySuccess(rows: Rows, c: Creator, brief: Brief, now: Time): Reply<Brief> {
    var task := rows.task;
    if !brief.wellFormed then Reply(rows, Raised("match_pair_checkpoint_invalid"))
    else if brief.creator != c then Reply(rows, Raised("match_pair_identity_invalid"))
    else if c !in rows.records then Reply(rows, Raised("match_pair_not_found"))
    else
      var record := rows.records[c];
      if record.state.PairSucceeded? then Reply(rows, StoredBrief(record, c))
      else if || record.state.PairQueued?
              || (!task.status.Running? && !task.status.Failed?)
              || !task.stage.Pairwise? then
        Reply(rows, Raised("match_pair_not_running"))
      else
        var records := rows.records[c := SucceededRecord(record, brief, now)];
        Reply(rows.(records := records, task := Settled(task, record, records)), Done(brief))
  }

  /** The task after `record` succeeded: failure recomputed, revived if the guard says so, progress counted. */
  ghost function Settled(task: Task, record: PairRecord, records: map<Creator, PairRecord>): Task {
    var recomputed := Recompute(task, records);
    var settled := if TaskCarries(task, record) && FailedPairs(records) == {} then Revived(recomputed) else recomputed;
    settled.(completedUnits := Min(1 + |SucceededPairs(records)|, task.totalUnits))
  }

  function FailedRecord(record: PairRecord, failure: Failure, now: Time): PairRecord {
    PairRecord(PairFailed, if record.attempts >= 1 then record.attempts else 1,
               if record.startedAt.Some? then record.startedAt else Some(now),
               Some(now), None, Some(failure.code), Some(failure.message), failure.retryable)
  }

  ghost function FailPair(rows: Rows, c: Creator, failure: Failure, now: Time): Reply<bool> {
    if c !in rows.records || rows.records[c].state.PairSucceeded? then Reply(rows, Done(false))
    else
      var records := rows.records[c := FailedRecord(rows.records[c], failure, now)];
      var task := if rows.task.status.Succeeded? || rows.task.status.Superseded? then rows.task
                  else Recompute(rows.task, records);
      Reply(rows.(records := records, task := task), Done(true))
  }

  function FailTask(rows: Rows, failure: Failure, now: Time): Reply<bool> {
    if rows.task.status.Succeeded? || rows.task.status.Superseded? || rows.task.status.Failed? then
      Reply(rows, Done(false))
    else
      Reply(rows.(task := rows.task.(status := Failed, errorCode := Some(failure.code),
                                     errorMessage := Some(failure.message), retryable := failure.retryable,
                                     completedAt := Some(now), resultCount := 0)), Done(true))
  }

  /** Every check of the fan-in barrier. */
  predicate ReadyToRank(rows: Rows) {
    var task := rows.task;
    var selected := Selected(rows);
    && task.status.Running? && task.stage.Pairwise? && task.rankingEnqueuedAt.None?
    && selected != {}
    && rows.candidates.Keys == selected
    && rows.records.Keys == selected
    && task.totalUnits == |selected| + 2
    && forall c :: c in rows.records ==> ValidSucceeded(rows.records[c], c)
  }

  function MarkRankingEnqueued(rows: Rows, now: Time): Reply<bool> {
    if !ReadyToRank(rows) then Reply(rows, Done(false))
    else
      var selected := Selected(rows);
      Reply(rows.(task := rows.task.(stage := Ranking, completedUnits := |selected| + 1,
                                     rankingEnqueuedAt := Some(now))), Done(true))
  }

  function CompensateRankingEnqueue(rows: Rows): Reply<bool> {
    var task := rows.task;
    if !task.status.Running? || !task.stage.Ranking? || task.rankingEnqueuedAt.None? then
      Reply(rows, Done(false))
    else
      Reply(rows.(task := task.(stage := Pairwise, rankingEnqueuedAt := None,
                                completedUnits := Min(1 + |SucceededPairs(rows.records)|, task.totalUnits))),
            Done(true))
  }

  // ---------------------------------------------------------------- ranking and publication

  /** `_validated_inputs` passes exactly when this holds. */
  predicate InputsValid(rows: Rows) {
    var selected := SelectedOf(rows.screening);
    && selected != []
    && Distinct(selected)
    && rows.candidates.Keys == Selected(rows)
    && rows.records.Keys == Selected(rows)
    && rows.task.totalUnits == |selected| + 2
    && forall c :: c in selected ==> ValidSucceeded(rows.records[c], c)
  }

  function ResultCreators(results: seq<ResultItem>): seq<Creator> {
    seq(|results|, i requires 0 <= i < |results| => results[i].creator)
  }

  function ResultOrders(results: seq<ResultItem>): seq<nat> {
    seq(|results|, i requires 0 <= i < |results| => results[i].backendOrder)
  }

  /** `_validated_publication` passes exactly when this holds. */
  predicate PublicationValid(rows: Rows) {
    var selected := SelectedOf(rows.screening);
    && rows.task.resultCount == |selected|
    && |rows.results| == |selected|
    && Elements(ResultCreators(rows.results)) == Selected(rows)
    && |Elements(ResultOrders(rows.results))| == |rows.results|
    && rows.campaigns == 1
    && rows.task.completedAt.Some?
    && rows.task.completedUnits == rows.task.totalUnits
  }

  function LoadRanking(rows: Rows): Reply<RankingInput> {
    var task := rows.task;
    if !InputsValid(rows) then Reply(rows, Raised("match_ranking_checkpoint_invalid"))
    else if task.status.Succeeded? then
      if PublicationValid(rows) then Reply(rows, Done(Published(|rows.results|)))
      else Reply(rows, Raised("match_publication_invalid"))
    else if !task.status.Running? || !task.stage.Ranking? || task.rankingEnqueuedAt.None? then
      Reply(rows, Raised("match_task_not_rankable"))
    else Reply(rows, Done(ToRank(BriefsOf(SelectedOf(rows.screening), rows.records))))
  }

  function ItemCreators(items: seq<PublicationItem>): seq<Creator> {
    seq(|items|, i requires 0 <= i < |items| => items[i].creator)
  }

  /** The result table's unique keys: one row a creator, one row a backend order. */
  predicate DistinctResults(results: seq<ResultItem>) {
    Distinct(ResultCreators(results)) && Distinct(ResultOrders(results))
  }

  function ItemOrders(items: seq<PublicationItem>): seq<nat> {
    seq(|items|, i requires 0 <= i < |items| => items[i].backendOrder)
  }

  function ResultRows(items: seq<PublicationItem>, records: map<Creator, PairRecord>): (r: seq<ResultItem>)
    requires forall i :: 0 <= i < |items| ==> items[i].creator in records && records[items[i].creator].brief.Some?
    ensures |r| == |items|
    ensures forall i :: 0 <= i < |r| ==>
      r[i] == ResultItem(items[i].creator, items[i].backendOrder, items[i].score, records[items[i].creator].brief.value)
  {
    seq(|items|, i requires 0 <= i < |items| =>
      ResultItem(items[i].creator, items[i].backendOrder, items[i].score, records[items[i].creator].brief.value))
  }

  function PublishedTask(task: Task, count: nat, now: Time): Task {
    task.(status := Succeeded, resultCount := count, completedUnits := task.totalUnits,
          errorCode := None, errorMessage := None, retryable := false, completedAt := Some(now))
  }

  lemma ItemsSucceeded(rows: Rows, items: seq<PublicationItem>)
    requires InputsValid(rows) && Elements(ItemCreators(items)) == Selected(rows)
    ensures forall i :: 0 <= i < |items| ==>
      items[i].creator in rows.records && ValidSucceeded(rows.records[items[i].creator], items[i].creator)
  {
    hide SelectedOf, Distinct;
    forall i | 0 <= i < |items|
      ensures items[i].creator in rows.records && ValidSucceeded(rows.records[items[i].creator], items[i].creator)
    {
      assert ItemCreators(items)[i] in Elements(ItemCreators(items));
    }
  }

  function Publish(rows: Rows, items: seq<PublicationItem>, now: Time): Reply<nat> {
    var task := rows.task;
    var selected := SelectedOf(rows.screening);
    if !InputsValid(rows) then Reply(rows, Raised("match_ranking_checkpoint_invalid"))
    else if task.status.Succeeded? then
      if PublicationValid(rows) then Reply(rows, Done(|rows.results|))
      else Reply(rows, Raised("match_publication_invalid"))
    else if || (!task.status.Running? && !task.status.Failed?)
            || !task.stage.Ranking? || task.rankingEnqueuedAt.None? then
      Reply(rows, Raised("match_task_not_rankable"))
    else if Elements(ItemCreators(items)) != Selected(rows) then
      Reply(rows, Raised("match_ranking_checkpoint_invalid"))
    else
      ItemsSucceeded(rows, items);
      var results := rows.results + ResultRows(items, rows.records);
      if !DistinctResults(results) || rows.campaigns != 0 then Reply(rows, Raised("integrity_error"))
      else
        Reply(
          rows.(results := results, campaigns := 1, task := PublishedTask(task, |items|, now)),
          Done(|items|))
  }

  /** A failed, retryable task whose inputs expired is replaced by a new one and kept as history. */
  function Supersede(rows: Rows): Reply<bool> {
    if !rows.task.status.Failed? || !rows.task.retryable then Reply(rows, Done(false))
    else Reply(rows.(task := rows.task.(status := Superseded, retryable := false)), Done(true))
  }
}
