/** What every transaction on a Match task keeps. */
module MatchInvariant {
  import opened Common
  import opened MatchState

  /** The record shape the pairwise table's CHECK constraints ask for, plus a readable brief. */
  ghost predicate RecordOk(record: PairRecord, c: Creator) {
    && (!record.state.PairFailed? ==> record.errorCode.None? && record.errorMessage.None? && !record.retryable)
    && match record.state
       case PairQueued =>
         record.attempts == 0 && record.brief.None? && record.startedAt.None? && record.completedAt.None?
       case PairRunning =>
         record.attempts > 0 && record.brief.None? && record.startedAt.Some? && record.completedAt.None?
       case PairSucceeded =>
         record.attempts > 0 && ReadableBrief(record, c) && record.startedAt.Some? && record.completedAt.Some?
       case PairFailed =>
         && record.attempts > 0 && record.brief.None? && record.startedAt.Some? && record.completedAt.Some?
         && record.errorCode.Some? && record.errorMessage.Some?
  }

  ghost predicate CarriesAggregate(task: Task, records: map<Creator, PairRecord>)
    requires FailedPairs(records) != {}
  {
    Aggregate(task.errorCode, task.errorMessage, task.retryable, task.completedAt) == AggregateOf(records)
  }

  ghost predicate ScreeningOk(rows: Rows) {
    var selected := Selected(rows);
    var everyone := Elements(CreatorsOf(rows.screening));
    && Distinct(CreatorsOf(rows.screening))
    && (rows.task.stage.Screening? ==>
          && selected == {}
          && rows.records == map[]
          && rows.candidates.Keys == if rows.task.status.Succeeded? then {} else everyone)
    && (!rows.task.stage.Screening? ==>
          && selected != {}
          && |selected| <= MAX_SELECTIONS
          && rows.candidates.Keys == selected
          && rows.records.Keys <= selected)
  }

  ghost predicate ProgressOk(rows: Rows) {
    var task := rows.task;
    var selected := Selected(rows);
    && (task.rankingEnqueuedAt.Some? <==> task.stage.Ranking?)
    && (task.stage.Ranking? ==> rows.records.Keys == selected && SucceededPairs(rows.records) == selected)
    && (task.stage.Screening? ==>
          if task.status.Succeeded? then task.completedUnits == task.totalUnits == 1
          else task.completedUnits == task.totalUnits == 0)
    && (!task.stage.Screening? ==>
          && task.totalUnits == |selected| + 2
          && task.completedUnits == if task.status.Succeeded? then task.totalUnits
                                    else 1 + |SucceededPairs(rows.records)|)
  }

  ghost predicate FailureOk(rows: Rows) {
    var task := rows.task;
    && (task.status.Running? && task.stage.Pairwise? ==> FailedPairs(rows.records) == {})
    && (task.status.Failed? && FailedPairs(rows.records) != {} ==> CarriesAggregate(task, rows.records))
  }

  ghost predicate StatusOk(task: Task) {
    && (!task.stage.Screening? ==> task.startedAt.Some?)
    && (task.status.Queued? ==> task.stage.Screening? && task.startedAt.None? && task.completedAt.None?)
    && (task.status.Running? ==> task.startedAt.Some? && task.completedAt.None?)
    && (task.status.Succeeded? ==> !task.stage.Pairwise? && task.startedAt.Some? && task.completedAt.Some?)
    && (task.status.Failed? || task.status.Superseded? ==>
          task.completedAt.Some? && task.errorCode.Some? && task.errorMessage.Some?)
    && (!task.status.Failed? && !task.status.Superseded? ==> task.errorCode.None? && task.errorMessage.None?)
    && (!task.status.Failed? ==> !task.retryable)
  }

  ghost predicate PublicationOk(rows: Rows) {
    && (!rows.task.status.Succeeded? ==> rows.results == [] && rows.campaigns == 0 && rows.task.resultCount == 0)
    && (rows.task.status.Succeeded? ==> PublicationValid(rows) && DistinctResults(rows.results))
  }

  ghost predicate Inv(rows: Rows) {
    && ScreeningOk(rows)
    && (forall c :: c in rows.records ==> RecordOk(rows.records[c], c))
    && ProgressOk(rows)
    && FailureOk(rows)
    && StatusOk(rows.task)
    && PublicationOk(rows)
  }

  // ---------------------------------------------------------------- sequences and sets

  lemma {:induction false} DistinctCount<T>(s: seq<T>)
    ensures |Elements(s)| <= |s|
    ensures Distinct(s) <==> |Elements(s)| == |s|
  {
    if s != [] {
      var rest := s[1..];
      DistinctCount(rest);
      assert Elements(s) == {s[0]} + Elements(rest);
      DistinctTail(s);
    }
  }

  lemma DistinctTail<T>(s: seq<T>)
    requires s != []
    ensures Distinct(s) <==> Distinct(s[1..]) && s[0] !in s[1..]
  {
    var rest := s[1..];
    if Distinct(s) {
      forall i, j | 0 <= i < j < |rest| ensures rest[i] != rest[j] {
        assert rest[i] == s[i + 1] && rest[j] == s[j + 1];
      }
      forall j | 0 <= j < |rest| ensures rest[j] != s[0] {
        assert rest[j] == s[j + 1];
      }
    }
    if Distinct(rest) && s[0] !in rest {
      forall i, j | 0 <= i < j < |s| ensures s[i] != s[j] {
        assert s[j] == rest[j - 1];
        if i > 0 {
          assert s[i] == rest[i - 1];
        }
      }
    }
  }

  lemma {:induction false} SelectedMembers(screening: seq<ScreeningRow>, c: Creator)
    ensures c in SelectedOf(screening) <==> ScreeningRow(c, true) in screening
  {
    if screening != [] {
      SelectedMembers(screening[1..], c);
      assert screening == [screening[0]] + screening[1..];
    }
  }

  lemma {:induction false} CreatorMembers(screening: seq<ScreeningRow>, c: Creator)
    ensures c in CreatorsOf(screening) <==> ScreeningRow(c, true) in screening || ScreeningRow(c, false) in screening
  {
    if screening != [] {
      CreatorMembers(screening[1..], c);
      assert screening == [screening[0]] + screening[1..];
    }
  }

  lemma {:induction false} SelectedDistinct(screening: seq<ScreeningRow>)
    requires Distinct(CreatorsOf(screening))
    ensures Distinct(SelectedOf(screening))
  {
    if screening != [] {
      var rest := screening[1..];
      var first := screening[0].creator;
      DistinctTail(CreatorsOf(screening));
      assert CreatorsOf(screening)[1..] == CreatorsOf(rest);
      SelectedDistinct(rest);
      CreatorMembers(rest, first);
      SelectedMembers(rest, first);
      if screening[0].selected {
        assert SelectedOf(screening)[1..] == SelectedOf(rest);
        DistinctTail(SelectedOf(screening));
      }
    }
  }

  lemma {:induction false} NothingSelected(screening: seq<ScreeningRow>)
    ensures SelectedOf(screening) == [] <==> forall i :: 0 <= i < |screening| ==> !screening[i].selected
  {
    if screening != [] {
      NothingSelected(screening[1..]);
      assert screening == [screening[0]] + screening[1..];
    }
  }

  /** Marking rows of which none was selected selects exactly the kept creators, in the same order. */
  lemma {:induction false} MarkedIsKept(screening: seq<ScreeningRow>, keep: set<Creator>)
    requires SelectedOf(screening) == []
    ensures SelectedOf(MarkSelected(screening, keep)) == Kept(screening, keep)
    ensures CreatorsOf(MarkSelected(screening, keep)) == CreatorsOf(screening)
  {
    if screening != [] {
      MarkedIsKept(screening[1..], keep);
      assert MarkSelected(screening, keep)[1..] == MarkSelected(screening[1..], keep);
    }
  }

  lemma {:induction false} KeptElements(screening: seq<ScreeningRow>, keep: set<Creator>)
    ensures Elements(Kept(screening, keep)) == keep * Elements(CreatorsOf(screening))
  {
    if screening != [] {
      var first := screening[0].creator;
      var rest := screening[1..];
      KeptElements(rest, keep);
      assert Elements(CreatorsOf(screening)) == {first} + Elements(CreatorsOf(rest));
      assert Elements(Kept(screening, keep)) == (if first in keep then {first} else {}) + Elements(Kept(rest, keep));
    }
  }

  lemma NoElements<T>(s: seq<T>)
    ensures Elements(s) == {} <==> s == []
  {
    if s != [] {
      assert s[0] in Elements(s);
    }
  }

  // ---------------------------------------------------------------- the aggregate

  lemma FirstUnique(records: map<Creator, PairRecord>, among: set<Creator>, a: Creator, b: Creator)
    requires among <= records.Keys && IsFirst(records, among, a) && IsFirst(records, among, b)
    ensures a == b
  {
    assert OrderedBefore(records, a, b) && OrderedBefore(records, b, a);
  }

  lemma LatestUnique(records: map<Creator, PairRecord>, among: set<Creator>, a: Option<Time>, b: Option<Time>)
    requires among <= records.Keys && IsLatest(records, among, a) && IsLatest(records, among, b)
    ensures a == b
  {
    if a.Some? {
      var c :| c in among && records[c].completedAt == a;
    }
    if b.Some? {
      var c :| c in among && records[c].completedAt == b;
    }
  }

  /** The aggregate depends on nothing but the failed records themselves. */
  lemma AggregateUnique(records: map<Creator, PairRecord>, first: Creator, latest: Option<Time>)
    requires FailedPairs(records) != {}
    requires IsFirst(records, FailedPairs(records), first)
    requires IsLatest(records, FailedPairs(records), latest)
    ensures AggregateOf(records)
            == Aggregate(records[first].errorCode, records[first].errorMessage,
                         forall c :: c in FailedPairs(records) ==> records[c].retryable, latest)
  {
    forall f | IsFirst(records, FailedPairs(records), f) ensures f == first {
      FirstUnique(records, FailedPairs(records), f, first);
    }
    forall t | IsLatest(records, FailedPairs(records), t) ensures t == latest {
      LatestUnique(records, FailedPairs(records), t, latest);
    }
  }

  /** A lone failed record is its own aggregate. */
  lemma AggregateOfOne(records: map<Creator, PairRecord>, c: Creator)
    requires FailedPairs(records) == {c}
    ensures AggregateOf(records)
            == Aggregate(records[c].errorCode, records[c].errorMessage, records[c].retryable, records[c].completedAt)
  {
    assert c in FailedPairs(records);
    assert IsFirst(records, FailedPairs(records), c);
    assert IsLatest(records, FailedPairs(records), records[c].completedAt);
    AggregateUnique(records, c, records[c].completedAt);
    assert (forall d :: d in FailedPairs(records) ==> records[d].retryable) == records[c].retryable;
  }

  /** Records that fail alike aggregate alike. */
  lemma AggregateFrame(before: map<Creator, PairRecord>, after: map<Creator, PairRecord>)
    requires FailedPairs(before) == FailedPairs(after) != {}
    requires forall c :: c in FailedPairs(before) ==> before[c] == after[c]
    ensures AggregateOf(before) == AggregateOf(after)
  {
    var failed := FailedPairs(before);
    FirstExists(before, failed);
    LatestExists(before, failed);
    var first :| IsFirst(before, failed, first);
    var latest :| IsLatest(before, failed, latest);
    assert IsFirst(after, failed, first);
    assert IsLatest(after, failed, latest) by {
      if latest.Some? {
        var c :| c in failed && before[c].completedAt == latest;
        assert after[c].completedAt == latest;
      }
    }
    AggregateUnique(before, first, latest);
    AggregateUnique(after, first, latest);
  }

  /** Well-shaped failed records give the task a code, a message and a completion time. */
  lemma AggregateIsPresent(records: map<Creator, PairRecord>)
    requires FailedPairs(records) != {}
    requires forall c :: c in records ==> RecordOk(records[c], c)
    ensures var a := AggregateOf(records); a.errorCode.Some? && a.errorMessage.Some? && a.completedAt.Some?
  {
    var failed := FailedPairs(records);
    FirstExists(records, failed);
    LatestExists(records, failed);
    var first :| IsFirst(records, failed, first);
    var latest :| IsLatest(records, failed, latest);
    AggregateUnique(records, first, latest);
    assert records[first].state.PairFailed?;
  }

  // ---------------------------------------------------------------- every transaction keeps the invariant

  lemma FreshInv(rows: Rows)
    requires Fresh(rows)
    ensures Inv(rows)
  {
    NothingSelected(rows.screening);
    NoElements(SelectedOf(rows.screening));
  }

  lemma LoadScreeningKeeps(rows: Rows, now: Time)
    requires Inv(rows)
    ensures Inv(LoadScreening(rows, now).rows)
  {
  }

  lemma ApplyScreeningKeeps(rows: Rows, selections: seq<Creator>, now: Time)
    requires Inv(rows)
    ensures Inv(ApplyScreening(rows, selections, now).rows)
  {
    if ApplyScreening(rows, selections, now).rows != rows {
      AppliedSelection(rows, selections, now);
      var after := ApplyScreening(rows, selections, now).rows;
      hide *;
      ScreeningKeeps(rows, Elements(selections), now, after);
    }
  }

  lemma ScreeningKeeps(rows: Rows, keep: set<Creator>, now: Time, after: Rows)
    requires Inv(rows)
    requires ScreeningEffect(rows, keep, now, after)
    ensures Inv(after)
  {
    hide Elements, SelectedOf, CreatorsOf, Distinct, PublicationValid, DistinctResults, AggregateOf;
    assert SucceededPairs(after.records) == {} && FailedPairs(after.records) == {};
    if after.task.status.Succeeded? {
      NothingPublished(after);
    }
  }

  /** What the first application of a screening output does. */
  ghost predicate ScreeningEffect(rows: Rows, keep: set<Creator>, now: Time, after: Rows) {
    && rows.task.stage.Screening? && (rows.task.status.Queued? || rows.task.status.Running?)
    && after == rows.(screening := after.screening, candidates := after.candidates,
                      task := ScreenedTask(rows.task, |keep|, now), campaigns := if keep == {} then 1 else 0)
    && Selected(after) == keep
    && CreatorsOf(after.screening) == CreatorsOf(rows.screening)
    && after.candidates.Keys == keep
    && |keep| <= MAX_SELECTIONS
  }

  lemma AppliedSelection(rows: Rows, selections: seq<Creator>, now: Time)
    requires Inv(rows)
    requires ApplyScreening(rows, selections, now).rows != rows
    ensures var reply := ApplyScreening(rows, selections, now);
            && reply.outcome == Done(SelectedOf(reply.rows.screening))
            && ScreeningEffect(rows, Elements(selections), now, reply.rows)
  {
    hide CreatorsOf, Distinct, SelectedOf, Kept, MarkSelected;
    var keep := Elements(selections);
    NoElements(SelectedOf(rows.screening));
    MarkedIsKept(rows.screening, keep);
    KeptElements(rows.screening, keep);
    assert keep * Elements(CreatorsOf(rows.screening)) == keep;
    NoElements(Kept(rows.screening, keep));
  }

  lemma NothingPublished(rows: Rows)
    requires Selected(rows) == {} && rows.results == [] && rows.campaigns == 1 && rows.task.resultCount == 0
    requires rows.task.completedAt.Some? && rows.task.completedUnits == rows.task.totalUnits
    ensures PublicationValid(rows) && DistinctResults(rows.results)
  {
    NoElements(SelectedOf(rows.screening));
    assert ResultCreators(rows.results) == [] && ResultOrders(rows.results) == [];
  }

  lemma PrepareKeeps(rows: Rows, creators: seq<Creator>)
    requires Inv(rows)
    ensures Inv(Prepare(rows, creators).rows)
  {
    if Prepare(rows, creators).rows != rows {
      PreparedRows(rows, creators);
      hide *;
      FanOutKeeps(rows, Prepare(rows, creators).rows);
    }
  }

  /** A running fan-out gains queued records for selected creators and changes nothing else. */
  ghost predicate FanOutEffect(rows: Rows, after: Rows) {
    && rows.task.status.Running? && rows.task.stage.Pairwise?
    && after == rows.(records := after.records)
    && after.records.Keys == rows.records.Keys + Selected(rows)
    && SucceededPairs(after.records) == SucceededPairs(rows.records)
    && FailedPairs(after.records) == FailedPairs(rows.records)
    && forall c :: c in after.records ==> RecordOk(after.records[c], c)
  }

  lemma PreparedRows(rows: Rows, creators: seq<Creator>)
    requires Inv(rows) && Prepare(rows, creators).rows != rows
    ensures FanOutEffect(rows, Prepare(rows, creators).rows)
  {
    hide SelectedOf, CreatorsOf, Elements, Distinct, Unfinished, ScreeningOk, ProgressOk, FailureOk, StatusOk,
         PublicationOk;
    var after := Prepare(rows, creators).rows;
    assert SucceededPairs(after.records) == SucceededPairs(rows.records);
    assert FailedPairs(after.records) == FailedPairs(rows.records);
  }

  lemma FanOutKeeps(rows: Rows, after: Rows)
    requires Inv(rows) && FanOutEffect(rows, after)
    ensures Inv(after)
  {
    hide SelectedOf, CreatorsOf, Elements, Distinct, AggregateOf, PublicationValid, DistinctResults, SucceededPairs,
         FailedPairs, RecordOk, StatusOk;
  }

  lemma ClaimKeeps(rows: Rows, c: Creator, now: Time)
    requires Inv(rows)
    ensures Inv(Claim(rows, c, now).rows)
  {
    var after := Claim(rows, c, now).rows;
    if after != rows {
      assert SucceededPairs(after.records) == SucceededPairs(rows.records);
      assert FailedPairs(after.records) == {} by {
        assert FailedPairs(after.records) <= FailedPairs(rows.records);
      }
    }
  }

  lemma ApplySuccessKeeps(rows: Rows, c: Creator, brief: Brief, now: Time)
    requires Inv(rows)
    ensures Inv(ApplySuccess(rows, c, brief, now).rows)
  {
    if ApplySuccess(rows, c, brief, now).rows != rows {
      AppliedSuccess(rows, c, brief, now);
      var after := ApplySuccess(rows, c, brief, now).rows;
      hide *;
      SuccessKeeps(rows, c, after);
    }
  }

  lemma SuccessKeeps(rows: Rows, c: Creator, after: Rows)
    requires Inv(rows)
    requires SuccessEffect(rows, c, after)
    ensures Inv(after)
  {
    hide SelectedOf, CreatorsOf, Elements, Distinct, PublicationValid, DistinctResults, SucceededPairs,
         FailedPairs, AggregateOf, RecordOk;
  }

  ghost predicate SuccessEffect(rows: Rows, c: Creator, after: Rows) {
    && c in rows.records
    && c in after.records
    && rows.task.stage.Pairwise?
    && (rows.task.status.Running? || rows.task.status.Failed?)
    && after == rows.(records := rows.records[c := after.records[c]], task := after.task)
    && RecordOk(after.records[c], c)
    && SucceededPairs(after.records) == SucceededPairs(rows.records) + {c}
    && FailedPairs(after.records) == FailedPairs(rows.records) - {c}
    && after.task.completedUnits == 1 + |SucceededPairs(after.records)|
    && after.task.totalUnits == rows.task.totalUnits
    && after.task.rankingEnqueuedAt == rows.task.rankingEnqueuedAt
    && after.task.stage.Pairwise?
    && after.task.resultCount == 0
    && (after.task.status.Running? || after.task.status.Failed?)
    && StatusOk(after.task)
    && FailureOk(after)
  }

  /** What a first success does to the records and to the task. */
  lemma AppliedSuccess(rows: Rows, c: Creator, brief: Brief, now: Time)
    requires Inv(rows)
    requires ApplySuccess(rows, c, brief, now).rows != rows
    ensures SuccessEffect(rows, c, ApplySuccess(rows, c, brief, now).rows)
  {
    SuccessShape(rows, c, brief, now);
    var after := ApplySuccess(rows, c, brief, now).rows;
    RecordsAfterSuccess(rows, c, brief, now);
    RevivalGuard(rows, c, brief, now);
    if FailedPairs(after.records) != {} {
      AggregateIsPresent(after.records);
    }
    SettledIsSound(rows, c, after.records);
    hide Inv, ApplySuccess, Settled, SucceededRecord, AggregateOf, SucceededPairs, FailedPairs, RecordOk, StatusOk,
         FailureOk;
  }

  lemma SettledIsSound(rows: Rows, c: Creator, records: map<Creator, PairRecord>)
    requires Inv(rows) && c in rows.records
    requires rows.task.stage.Pairwise? && (rows.task.status.Running? || rows.task.status.Failed?)
    requires FailedPairs(records) == FailedPairs(rows.records) - {c} &&
             1 + |SucceededPairs(records)| < rows.task.totalUnits
    requires TaskCarries(rows.task, rows.records[c]) && FailedPairs(records) == {}
             <==> rows.task.status.Failed? && FailedPairs(rows.records) == {c}
    requires FailedPairs(records) != {} ==>
               AggregateOf(records).errorCode.Some? && AggregateOf(records).errorMessage.Some?
               && AggregateOf(records).completedAt.Some?
    ensures var task := Settled(rows.task, rows.records[c], records);
            && task.completedUnits == 1 + |SucceededPairs(records)|
            && task.totalUnits == rows.task.totalUnits
            && task.rankingEnqueuedAt == rows.task.rankingEnqueuedAt
            && task.stage.Pairwise?
            && task.resultCount == 0
            && (task.status.Running? || task.status.Failed?)
            && StatusOk(task)
            && FailureOk(rows.(records := records, task := task))
  {
    hide ScreeningOk, SucceededRecord, AggregateOf, SucceededPairs, FailedPairs, RecordOk, TaskCarries, Elements,
         SelectedOf, PublicationValid;
  }

  lemma SuccessShape(rows: Rows, c: Creator, brief: Brief, now: Time)
    requires ApplySuccess(rows, c, brief, now).rows != rows
    ensures c in rows.records && brief.wellFormed && brief.creator == c
    ensures rows.records[c].state.PairRunning? || rows.records[c].state.PairFailed?
    ensures rows.task.stage.Pairwise? && (rows.task.status.Running? || rows.task.status.Failed?)
    ensures var records := rows.records[c := SucceededRecord(rows.records[c], brief, now)];
            ApplySuccess(rows, c, brief, now).rows
            == rows.(records := records, task := Settled(rows.task, rows.records[c], records))
  {
    hide Settled, SucceededRecord;
  }

  lemma RecordsAfterSuccess(rows: Rows, c: Creator, brief: Brief, now: Time)
    requires Inv(rows)
    requires c in rows.records && brief.wellFormed && brief.creator == c
    requires rows.records[c].state.PairRunning? || rows.records[c].state.PairFailed?
    ensures var after := rows.records[c := SucceededRecord(rows.records[c], brief, now)];
            && (forall d :: d in after ==> RecordOk(after[d], d))
            && SucceededPairs(after) == SucceededPairs(rows.records) + {c}
            && FailedPairs(after) == FailedPairs(rows.records) - {c}
            && (rows.task.stage.Pairwise? ==> 1 + |SucceededPairs(after)| < rows.task.totalUnits)
  {
    hide SelectedOf, CreatorsOf, Elements, Distinct, PublicationOk, FailureOk, StatusOk;
    var after := rows.records[c := SucceededRecord(rows.records[c], brief, now)];
    assert SucceededPairs(after) == SucceededPairs(rows.records) + {c};
    assert SucceededPairs(after) <= rows.records.Keys;
    assert FailedPairs(after) == FailedPairs(rows.records) - {c};
    if rows.task.stage.Pairwise? {
      SubsetCount(SucceededPairs(after), Selected(rows));
    }
  }

  /**
   A success revives a failed task exactly when the record was its only failed one: with no
   failed sibling left, the field-by-field comparison adds nothing.
   */
  lemma RevivalGuard(rows: Rows, c: Creator, brief: Brief, now: Time)
    requires Inv(rows)
    requires c in rows.records
    ensures var record := rows.records[c];
            var after := rows.records[c := SucceededRecord(record, brief, now)];
            TaskCarries(rows.task, record) && FailedPairs(after) == {}
            <==> rows.task.status.Failed? && FailedPairs(rows.records) == {c}
  {
    var record := rows.records[c];
    var after := rows.records[c := SucceededRecord(record, brief, now)];
    assert FailedPairs(after) == FailedPairs(rows.records) - {c};
    if rows.task.status.Failed? && FailedPairs(rows.records) == {c} {
      assert c in FailedPairs(rows.records);
      AggregateOfOne(rows.records, c);
    }
    if TaskCarries(rows.task, record) && FailedPairs(after) == {} {
      assert c in FailedPairs(rows.records);
      assert FailedPairs(rows.records) == {c};
    }
  }

  lemma FailPairKeeps(rows: Rows, c: Creator, failure: Failure, now: Time)
    requires Inv(rows)
    ensures Inv(FailPair(rows, c, failure, now).rows)
  {
    if FailPair(rows, c, failure, now).rows != rows {
      FailedRows(rows, c, failure, now);
      hide *;
      FailureKeeps(rows, c, FailPair(rows, c, failure, now).rows);
    }
  }

  /** One record turns failed, and a task still open carries the new aggregate. */
  ghost predicate FailureEffect(rows: Rows, c: Creator, after: Rows) {
    && c in rows.records
    && after == rows.(records := after.records, task := after.task)
    && after.records.Keys == rows.records.Keys
    && SucceededPairs(after.records) == SucceededPairs(rows.records)
    && FailedPairs(after.records) == FailedPairs(rows.records) + {c}
    && c !in SucceededPairs(rows.records)
    && (forall d :: d in after.records ==> RecordOk(after.records[d], d))
    && (if rows.task.status.Succeeded? || rows.task.status.Superseded? then after.task == rows.task
        else
          && after.task.status.Failed? && after.task.completedAt.Some?
          && after.task.errorCode.Some? && after.task.errorMessage.Some? && after.task.resultCount == 0
          && after.task == rows.task.(status := Failed, errorCode := after.task.errorCode,
                                      errorMessage := after.task.errorMessage, retryable := after.task.retryable,
                                      completedAt := after.task.completedAt, resultCount := 0)
          && CarriesAggregate(after.task, after.records))
  }

  lemma FailedRows(rows: Rows, c: Creator, failure: Failure, now: Time)
    requires Inv(rows) && FailPair(rows, c, failure, now).rows != rows
    ensures FailureEffect(rows, c, FailPair(rows, c, failure, now).rows)
  {
    hide ScreeningOk, ProgressOk, FailureOk, StatusOk, PublicationOk;
    var after := FailPair(rows, c, failure, now).rows;
    assert SucceededPairs(after.records) == SucceededPairs(rows.records);
    assert FailedPairs(after.records) == FailedPairs(rows.records) + {c};
    AggregateIsPresent(after.records);
    hide AggregateOf, SucceededPairs;
  }

  lemma FailureKeeps(rows: Rows, c: Creator, after: Rows)
    requires Inv(rows) && FailureEffect(rows, c, after)
    ensures Inv(after)
  {
    hide SelectedOf, CreatorsOf, Elements, Distinct, AggregateOf, PublicationValid, DistinctResults, SucceededPairs,
         FailedPairs, RecordOk;
  }

  lemma FailTaskKeeps(rows: Rows, failure: Failure, now: Time)
    requires Inv(rows)
    ensures Inv(FailTask(rows, failure, now).rows)
  {
    if rows.task.stage.Ranking? {
      assert forall c :: c in rows.records ==> c in SucceededPairs(rows.records);
      assert FailedPairs(rows.records) == {};
    }
  }

  lemma MarkRankingEnqueuedKeeps(rows: Rows, now: Time)
    requires Inv(rows)
    ensures Inv(MarkRankingEnqueued(rows, now).rows)
  {
    if ReadyToRank(rows) {
      assert SucceededPairs(rows.records) == rows.records.Keys;
    }
  }

  lemma CompensateKeeps(rows: Rows)
    requires Inv(rows)
    ensures Inv(CompensateRankingEnqueue(rows).rows)
  {
    assert rows.task.stage.Ranking? ==>
      forall c :: c in rows.records ==> c in SucceededPairs(rows.records);
    assert rows.task.stage.Ranking? ==> FailedPairs(rows.records) == {};
  }

  lemma PublishKeeps(rows: Rows, items: seq<PublicationItem>, now: Time)
    requires Inv(rows)
    ensures Inv(Publish(rows, items, now).rows)
  {
    if Publish(rows, items, now).rows != rows {
      PublishedRows(rows, items, now);
      var after := Publish(rows, items, now).rows;
      hide *;
      PublicationKeeps(rows, items, now, after);
    }
  }

  lemma PublicationKeeps(rows: Rows, items: seq<PublicationItem>, now: Time, after: Rows)
    requires Inv(rows)
    requires PublicationEffect(rows, items, now, after)
    ensures Inv(after)
  {
    hide SelectedOf, CreatorsOf, Elements, Distinct, PublicationValid, DistinctResults, SucceededPairs,
         FailedPairs, AggregateOf, RecordOk, PublishedItems;
  }

  /** What a first publication writes. */
  ghost predicate PublicationEffect(rows: Rows, items: seq<PublicationItem>, now: Time, after: Rows) {
    && !rows.task.status.Succeeded? && rows.task.stage.Ranking?
    && after == rows.(results := after.results, campaigns := 1, task := PublishedTask(rows.task, |items|, now))
    && PublicationValid(after) && DistinctResults(after.results)
    && PublishedItems(rows, items, after.results)
  }

  lemma PublishedRows(rows: Rows, items: seq<PublicationItem>, now: Time)
    requires Inv(rows)
    requires Publish(rows, items, now).rows != rows
    ensures Publish(rows, items, now).outcome == Done(|items|)
    ensures PublicationEffect(rows, items, now, Publish(rows, items, now).rows)
  {
    PublishedShape(rows, items, now);
    ItemsSucceeded(rows, items);
    hide Publish, InputsValid, ScreeningOk, ProgressOk, FailureOk, StatusOk, RecordOk;
    var after := Publish(rows, items, now).rows;
    assert rows.results == [];
    WrittenRows(rows, items, now, after);
  }

  lemma WrittenRows(rows: Rows, items: seq<PublicationItem>, now: Time, after: Rows)
    requires Elements(ItemCreators(items)) == Selected(rows) && Distinct(SelectedOf(rows.screening))
    requires forall i :: 0 <= i < |items| ==>
               items[i].creator in rows.records && rows.records[items[i].creator].brief.Some?
    requires after == rows.(results := [] + ResultRows(items, rows.records), campaigns := 1,
                            task := PublishedTask(rows.task, |items|, now))
    requires DistinctResults(after.results)
    ensures PublicationValid(after) && PublishedItems(rows, items, after.results)
  {
    hide SelectedOf;
    assert ResultCreators(after.results) == ItemCreators(items);
    hide ResultCreators, ItemCreators, ResultOrders, ResultRows, Elements, Distinct;
    CountsAgree(SelectedOf(rows.screening), ItemCreators(items), ResultOrders(after.results));
  }

  lemma PublishedShape(rows: Rows, items: seq<PublicationItem>, now: Time)
    requires Publish(rows, items, now).rows != rows
    ensures InputsValid(rows) && Elements(ItemCreators(items)) == Selected(rows) && rows.campaigns == 0
    ensures Distinct(SelectedOf(rows.screening))
    ensures !rows.task.status.Succeeded? && rows.task.stage.Ranking?
    ensures forall i :: 0 <= i < |items| ==>
              items[i].creator in rows.records && rows.records[items[i].creator].brief.Some?
    ensures Publish(rows, items, now).rows ==
            rows.(results := rows.results + ResultRows(items, rows.records), campaigns := 1,
                  task := PublishedTask(rows.task, |items|, now))
    ensures DistinctResults(Publish(rows, items, now).rows.results)
    ensures Publish(rows, items, now).outcome == Done(|items|)
  {
    hide SelectedOf, Elements, ItemCreators, PublicationValid, DistinctResults, PublishedTask, Distinct;
    ItemsSucceeded(rows, items);
  }

  lemma CountsAgree(selected: seq<Creator>, creators: seq<Creator>, orders: seq<nat>)
    requires Distinct(selected) && Distinct(creators) && Distinct(orders)
    requires Elements(creators) == Elements(selected)
    ensures |creators| == |selected| && |Elements(orders)| == |orders|
  {
    DistinctCount(selected);
    DistinctCount(creators);
    DistinctCount(orders);
  }

  /** The result rows are the publication's items, each with the brief its pair checkpoint holds. */
  ghost predicate PublishedItems(rows: Rows, items: seq<PublicationItem>, results: seq<ResultItem>) {
    && |results| == |items|
    && forall i :: 0 <= i < |items| ==>
         && items[i].creator in rows.records
         && rows.records[items[i].creator].brief.Some?
         && results[i] == ResultItem(items[i].creator, items[i].backendOrder, items[i].score,
                                     rows.records[items[i].creator].brief.value)
  }

  lemma SupersedeKeeps(rows: Rows)
    requires Inv(rows)
    ensures Inv(Supersede(rows).rows)
  {
  }
}
