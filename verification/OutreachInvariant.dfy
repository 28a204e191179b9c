/**
 What holds of the Outreach rows in every reachable state: batch states are derived, a superseded
 delivery is finished, responses are recorded once, and resends form one chain per creator.
 */
module OutreachInvariant {
  import opened Common
  import opened OutreachState

  /** The CHECK constraints of the deliveries table. */
  predicate RowShape(row: Delivery) {
    && (match row.sendState
        case Queued => row.sendingAt.None? && row.sentAt.None? && row.failedAt.None?
        case Sending => row.sendingAt.Some? && row.sentAt.None? && row.failedAt.None?
        case Sent => row.sendingAt.Some? && row.sentAt.Some? && row.failedAt.None?
        case Failed => row.sendingAt.Some? && row.sentAt.None? && row.failedAt.Some?)
    && (row.sendState.Failed? || (row.errorCode.None? && !row.retryable))
    && (row.responseState.NoResponse? <==> row.respondedAt.None?)
    && (row.supersededAt.Some? ==> Terminal(row.sendState) && row.responseState.NoResponse?)
  }

  ghost predicate Shaped(rows: Rows) {
    forall d :: d in rows.deliveries ==> RowShape(rows.deliveries[d])
  }

  ghost predicate Batched(rows: Rows) {
    && (forall d :: d in rows.deliveries ==>
          && rows.deliveries[d].batch in rows.batches
          && rows.batches[rows.deliveries[d].batch].campaign == rows.deliveries[d].key.campaign)
    && (forall b :: b in rows.batches ==>
          && MembersOf(rows.deliveries, b) != {}
          && rows.batches[b].state == AggregateState(rows.deliveries, b))
  }

  /** A recorded response and the delivery it was given on name each other. */
  ghost predicate Answered(rows: Rows) {
    && (forall k :: Recorded(rows.responses, k) ==> FinalDelivery(rows, k))
    && (forall d :: d in rows.deliveries && !rows.deliveries[d].responseState.NoResponse? ==>
          && Recorded(rows.responses, rows.deliveries[d].key)
          && rows.responses[rows.deliveries[d].key].finalDelivery == Some(d))
  }

  ghost predicate FinalDelivery(rows: Rows, k: Key)
    requires k in rows.responses
  {
    && rows.responses[k].finalDelivery.Some?
    && rows.responses[k].respondedAt.Some?
    && var d := rows.responses[k].finalDelivery.value;
    && d in rows.deliveries
    && rows.deliveries[d].key == k
    && rows.deliveries[d].sendState.Sent?
    && rows.deliveries[d].supersededAt.None?
    && rows.deliveries[d].responseState == rows.responses[k].state
  }

  function DeliveriesOf(deliveries: map<Id, Delivery>, key: Key): set<Id> {
    set d | d in deliveries && deliveries[d].key == key
  }

  /** The deliveries of one creator, each resending the one before, only the last not superseded. */
  ghost predicate Chain(deliveries: map<Id, Delivery>, key: Key, links: seq<Id>) {
    && links != []
    && (forall d :: d in links <==> d in DeliveriesOf(deliveries, key))
    && (forall i, j :: 0 <= i < j < |links| ==> links[i] != links[j])
    && (forall i :: 0 <= i < |links| ==> LinkAt(deliveries, links, i))
  }

  ghost predicate LinkAt(deliveries: map<Id, Delivery>, links: seq<Id>, i: nat)
    requires i < |links|
  {
    && links[i] in deliveries
    && deliveries[links[i]].resends == (if i == 0 then None else Some(links[i - 1]))
    && (deliveries[links[i]].supersededAt.None? <==> i == |links| - 1)
  }

  ghost predicate HasChain(deliveries: map<Id, Delivery>, key: Key) {
    exists links :: Chain(deliveries, key, links)
  }

  ghost predicate Chained(rows: Rows) {
    forall key :: DeliveriesOf(rows.deliveries, key) != {} ==> HasChain(rows.deliveries, key)
  }

  ghost predicate Inv(rows: Rows) {
    Shaped(rows) && Batched(rows) && Answered(rows) && Chained(rows)
  }

  /** No delivery sent yet and no response recorded. */
  ghost predicate NothingSent(rows: Rows) {
    rows.deliveries == map[] && rows.batches == map[] && forall k :: !Recorded(rows.responses, k)
  }

  lemma NothingSentInv(rows: Rows)
    requires NothingSent(rows)
    ensures Inv(rows)
  {
  }

  // ---------------------------------------------------------------- aggregates

  lemma AggregateFrame(deliveries: map<Id, Delivery>, after: map<Id, Delivery>, batch: Id)
    requires MembersOf(deliveries, batch) == MembersOf(after, batch)
    requires forall d :: d in MembersOf(deliveries, batch) ==> after[d].sendState == deliveries[d].sendState
    ensures AggregateState(after, batch) == AggregateState(deliveries, batch)
  {
    var members := MembersOf(deliveries, batch);
    forall allowed ensures AllIn(after, members, allowed) == AllIn(deliveries, members, allowed) {
      forall d | d in members ensures after[d].sendState == deliveries[d].sendState {
      }
    }
  }

  /** What a batch state says of the batch's deliveries, and nothing less. */
  lemma AggregateMeaning(rows: Rows, b: Id)
    requires Batched(rows) && b in rows.batches
    ensures rows.batches[b].state.BatchSent? <==>
            forall d :: d in MembersOf(rows.deliveries, b) ==> rows.deliveries[d].sendState.Sent?
    ensures rows.batches[b].state.BatchFailed? <==>
            forall d :: d in MembersOf(rows.deliveries, b) ==> rows.deliveries[d].sendState.Failed?
    ensures rows.batches[b].state.BatchQueued? <==>
            forall d :: d in MembersOf(rows.deliveries, b) ==> rows.deliveries[d].sendState.Queued?
    ensures TerminalBatch(rows.batches[b].state) <==>
            forall d :: d in MembersOf(rows.deliveries, b) ==> Terminal(rows.deliveries[d].sendState)
    ensures rows.batches[b].state.BatchPartiallyFailed? ==>
            && (exists d :: d in MembersOf(rows.deliveries, b) && rows.deliveries[d].sendState.Sent?)
            && (exists d :: d in MembersOf(rows.deliveries, b) && rows.deliveries[d].sendState.Failed?)
  {
    var members := MembersOf(rows.deliveries, b);
    var one :| one in members;
    hide MembersOf;
  }

  predicate TerminalBatch(state: BatchState) {
    state.BatchSent? || state.BatchFailed? || state.BatchPartiallyFailed?
  }

  // ---------------------------------------------------------------- a delivery changes its send state

  /** The worker's four writes: only send columns change, and only while the delivery is open. */
  ghost predicate Moved(rows: Rows, d: Id, row: Delivery) {
    && d in rows.deliveries
    && var was := rows.deliveries[d];
    && was.supersededAt.None? && !Terminal(was.sendState)
    && row.key == was.key && row.batch == was.batch && row.resends == was.resends && row.letter == was.letter
    && row.responseState == was.responseState && row.respondedAt == was.respondedAt && row.supersededAt.None?
    && RowShape(row)
  }

  lemma StoreKeeps(rows: Rows, d: Id, row: Delivery)
    requires Inv(rows) && Moved(rows, d, row)
    ensures Inv(Store(rows, d, row))
    ensures Store(rows, d, row).deliveries == rows.deliveries[d := row]
  {
    StoreKeepsBatches(rows, d, row);
    StoreKeepsAnswers(rows, d, row);
    StoreKeepsChains(rows, d, row);
  }

  lemma StoreKeepsBatches(rows: Rows, d: Id, row: Delivery)
    requires Batched(rows) && Moved(rows, d, row)
    ensures Batched(Store(rows, d, row))
  {
    hide AggregateState, MembersOf, RowShape;
    var deliveries := rows.deliveries[d := row];
    forall b ensures MembersOf(deliveries, b) == MembersOf(rows.deliveries, b)
      ensures b in rows.batches && b != row.batch ==>
              AggregateState(deliveries, b) == AggregateState(rows.deliveries, b)
    {
      SameMembers(rows.deliveries, d, row, b);
    }
    assert MembersOf(rows.deliveries, row.batch) != {};
  }

  lemma SameMembers(deliveries: map<Id, Delivery>, d: Id, row: Delivery, b: Id)
    requires d in deliveries && row.batch == deliveries[d].batch
    ensures MembersOf(deliveries[d := row], b) == MembersOf(deliveries, b)
    ensures b != row.batch ==> AggregateState(deliveries[d := row], b) == AggregateState(deliveries, b)
  {
    hide AggregateState;
    forall x ensures x in MembersOf(deliveries[d := row], b) <==> x in MembersOf(deliveries, b) {
    }
    if b != row.batch {
      AggregateFrame(deliveries, deliveries[d := row], b);
    }
  }

  lemma StoreKeepsAnswers(rows: Rows, d: Id, row: Delivery)
    requires Shaped(rows) && Answered(rows) && Moved(rows, d, row)
    ensures Answered(Store(rows, d, row)) && Shaped(Store(rows, d, row))
  {
    hide AggregateState, MembersOf;
    var after := Store(rows, d, row);
    assert after.responses == rows.responses && after.deliveries == rows.deliveries[d := row];
    forall k | Recorded(after.responses, k) ensures FinalDelivery(after, k) {
      assert Recorded(rows.responses, k) && FinalDelivery(rows, k);
    }
  }

  lemma StoreKeepsChains(rows: Rows, d: Id, row: Delivery)
    requires Chained(rows) && Moved(rows, d, row)
    ensures Chained(Store(rows, d, row))
  {
    hide AggregateState, MembersOf;
    var after := Store(rows, d, row);
    forall key | DeliveriesOf(after.deliveries, key) != {} ensures HasChain(after.deliveries, key) {
      assert DeliveriesOf(after.deliveries, key) == DeliveriesOf(rows.deliveries, key);
      var links :| Chain(rows.deliveries, key, links);
      ChainFrame(rows.deliveries, after.deliveries, key, links);
    }
  }

  /** A chain only depends on the keys, the resend links and the superseded marks. */
  lemma ChainFrame(deliveries: map<Id, Delivery>, after: map<Id, Delivery>, key: Key, links: seq<Id>)
    requires Chain(deliveries, key, links)
    requires DeliveriesOf(after, key) == DeliveriesOf(deliveries, key)
    requires forall d :: d in DeliveriesOf(deliveries, key) ==>
               && after[d].resends == deliveries[d].resends
               && after[d].supersededAt == deliveries[d].supersededAt
    ensures Chain(after, key, links)
  {
    forall i | 0 <= i < |links| ensures LinkAt(after, links, i) {
      assert links[i] in links && LinkAt(deliveries, links, i);
      assert links[i] in DeliveriesOf(deliveries, key);
    }
  }

  lemma ClaimKeeps(rows: Rows, d: Id, now: Time)
    requires Inv(rows)
    ensures Inv(Claim(rows, d, now).rows)
  {
    hide Batched, Answered, Chained, Store;
    if InState(rows, d, Queued) {
      StoreKeeps(rows, d, rows.deliveries[d].(sendState := Sending, sendingAt := Some(now)));
    }
  }

  lemma ReleaseKeeps(rows: Rows, d: Id)
    requires Inv(rows)
    ensures Inv(ReleaseForRetry(rows, d).rows)
  {
    hide Batched, Answered, Chained, Store;
    if InState(rows, d, Sending) {
      StoreKeeps(rows, d, ReleasedRow(rows.deliveries[d]));
    }
  }

  lemma MarkSentKeeps(rows: Rows, d: Id, now: Time)
    requires Inv(rows)
    ensures Inv(MarkSent(rows, d, now).rows)
  {
    hide Batched, Answered, Chained, Store;
    if InState(rows, d, Sending) {
      StoreKeeps(rows, d, SentRow(rows.deliveries[d], now));
    }
  }

  lemma MarkFailedKeeps(rows: Rows, d: Id, failure: SmtpFailure, now: Time)
    requires Inv(rows)
    ensures Inv(MarkFailed(rows, d, failure, now).rows)
  {
    hide Batched, Answered, Chained, Store;
    if SafeFailure(failure) && InState(rows, d, Sending) {
      StoreKeeps(rows, d, FailedRow(rows.deliveries[d], failure, now));
    }
  }

  // ---------------------------------------------------------------- resending

  lemma ResendKeeps(rows: Rows, d: Id, replacement: Id, batch: Id, now: Time)
    requires Inv(rows)
    ensures Inv(ResendDelivery(rows, d, replacement, batch, now).rows)
  {
    if Resendable(rows, d) && batch !in rows.batches && replacement !in rows.deliveries {
      ResendKeepsBatches(rows, d, replacement, batch, now);
      ResendKeepsAnswers(rows, d, replacement, batch, now);
      ResendKeepsChains(rows, d, replacement, batch, now);
    }
  }

  lemma ResendKeepsBatches(rows: Rows, d: Id, replacement: Id, batch: Id, now: Time)
    requires Batched(rows)
    requires Resendable(rows, d) && batch !in rows.batches && replacement !in rows.deliveries
    ensures Batched(ResendDelivery(rows, d, replacement, batch, now).rows)
  {
    hide AggregateState, MembersOf;
    var after := ResendDelivery(rows, d, replacement, batch, now).rows;
    forall b | b in rows.batches
      ensures MembersOf(after.deliveries, b) == MembersOf(rows.deliveries, b)
      ensures AggregateState(after.deliveries, b) == AggregateState(rows.deliveries, b)
    {
      ResendFrame(rows.deliveries, after.deliveries, d, replacement, batch, b);
    }
    ResendBatch(rows.deliveries, after.deliveries, d, replacement, batch);
  }

  ghost predicate Resent(deliveries: map<Id, Delivery>, after: map<Id, Delivery>, d: Id, replacement: Id, batch: Id) {
    && d in deliveries && replacement !in deliveries
    && (forall x :: x in deliveries ==> deliveries[x].batch != batch)
    && exists now :: after == WithReplacement(deliveries, d, replacement, batch, now)
  }

  lemma ResendFrame(deliveries: map<Id, Delivery>, after: map<Id, Delivery>, d: Id, replacement: Id, batch: Id, b: Id)
    requires Resent(deliveries, after, d, replacement, batch) && b != batch
    ensures MembersOf(after, b) == MembersOf(deliveries, b)
    ensures AggregateState(after, b) == AggregateState(deliveries, b)
  {
    hide AggregateState;
    forall x ensures x in MembersOf(after, b) <==> x in MembersOf(deliveries, b) {
    }
    AggregateFrame(deliveries, after, b);
  }

  lemma ResendBatch(deliveries: map<Id, Delivery>, after: map<Id, Delivery>, d: Id, replacement: Id, batch: Id)
    requires Resent(deliveries, after, d, replacement, batch)
    ensures MembersOf(after, batch) == {replacement}
    ensures AggregateState(after, batch) == BatchQueued
  {
    forall x ensures x in MembersOf(after, batch) <==> x == replacement {
    }
  }

  lemma ResendKeepsAnswers(rows: Rows, d: Id, replacement: Id, batch: Id, now: Time)
    requires Shaped(rows) && Answered(rows)
    requires Resendable(rows, d) && batch !in rows.batches && replacement !in rows.deliveries
    ensures Answered(ResendDelivery(rows, d, replacement, batch, now).rows)
    ensures Shaped(ResendDelivery(rows, d, replacement, batch, now).rows)
  {
    var after := ResendDelivery(rows, d, replacement, batch, now).rows;
    forall k | Recorded(after.responses, k) ensures FinalDelivery(after, k) {
      assert Recorded(rows.responses, k) && FinalDelivery(rows, k);
    }
  }

  lemma ResendKeepsChains(rows: Rows, d: Id, replacement: Id, batch: Id, now: Time)
    requires Chained(rows)
    requires Resendable(rows, d) && batch !in rows.batches && replacement !in rows.deliveries
    ensures Chained(ResendDelivery(rows, d, replacement, batch, now).rows)
  {
    var after := ResendDelivery(rows, d, replacement, batch, now).rows;
    forall key | DeliveriesOf(after.deliveries, key) != {} ensures HasChain(after.deliveries, key) {
      if key == rows.deliveries[d].key {
        assert d in DeliveriesOf(rows.deliveries, key);
        var links :| Chain(rows.deliveries, key, links);
        ResendExtends(rows, d, replacement, batch, now, links);
      } else {
        assert DeliveriesOf(after.deliveries, key) == DeliveriesOf(rows.deliveries, key);
        var links :| Chain(rows.deliveries, key, links);
        ChainFrame(rows.deliveries, after.deliveries, key, links);
      }
    }
  }

  /** A resend appends the replacement to the end of its chain. */
  lemma ResendExtends(rows: Rows, d: Id, replacement: Id, batch: Id, now: Time, links: seq<Id>)
    requires Resendable(rows, d) && batch !in rows.batches && replacement !in rows.deliveries
    requires Chain(rows.deliveries, rows.deliveries[d].key, links)
    ensures Chain(ResendDelivery(rows, d, replacement, batch, now).rows.deliveries, rows.deliveries[d].key,
                  links + [replacement])
  {
    Appended(rows.deliveries, d, replacement, batch, now, links);
    hide Chain, WithReplacement;
  }

  lemma Appended(deliveries: map<Id, Delivery>, d: Id, replacement: Id, batch: Id, now: Time, links: seq<Id>)
    requires d in deliveries && deliveries[d].supersededAt.None? && replacement !in deliveries
    requires Chain(deliveries, deliveries[d].key, links)
    ensures Chain(WithReplacement(deliveries, d, replacement, batch, now), deliveries[d].key, links + [replacement])
  {
    var after := WithReplacement(deliveries, d, replacement, batch, now);
    var key, grown, last := deliveries[d].key, links + [replacement], |links| - 1;
    assert d in DeliveriesOf(deliveries, key) && d in links;
    var at :| 0 <= at < |links| && links[at] == d;
    assert LinkAt(deliveries, links, at) && at == last;
    assert DeliveriesOf(after, key) == DeliveriesOf(deliveries, key) + {replacement};
    forall i | 0 <= i < |grown| ensures LinkAt(after, grown, i) {
      if i < last {
        assert LinkAt(deliveries, links, i) && links[i] != d && links[i] != replacement;
        assert after[links[i]] == deliveries[links[i]] && grown[i] == links[i];
      } else if i == last {
        assert LinkAt(deliveries, links, i) && grown[i] == d;
        assert after[d].resends == deliveries[d].resends && after[d].supersededAt.Some?;
      } else {
        assert grown[i] == replacement && after[replacement].resends == Some(d) && grown[i - 1] == d;
      }
    }
    forall x ensures x in grown <==> x in DeliveriesOf(after, key) {
      assert x in grown <==> x in links || x == replacement;
    }
    hide LinkAt, DeliveriesOf, WithReplacement;
  }

  // ---------------------------------------------------------------- a new batch

  lemma {:induction false} WithItemsAt(deliveries: map<Id, Delivery>, campaign: Id, batch: Id, items: seq<Item>)
    requires DistinctItems(items)
    requires forall i :: 0 <= i < |items| ==> items[i].delivery !in deliveries
    ensures AddedRows(deliveries, campaign, batch, items, WithItems(deliveries, campaign, batch, items))
    decreases |items|
  {
    if items != [] {
      var rest, last := items[..|items| - 1], items[|items| - 1];
      WithItemsAt(deliveries, campaign, batch, rest);
      AddedLast(deliveries, campaign, batch, items, WithItems(deliveries, campaign, batch, rest));
      hide AddedRows;
    }
  }

  lemma AddedLast(deliveries: map<Id, Delivery>, campaign: Id, batch: Id, items: seq<Item>, before: map<Id, Delivery>)
    requires items != [] && DistinctItems(items)
    requires forall i :: 0 <= i < |items| ==> items[i].delivery !in deliveries
    requires AddedRows(deliveries, campaign, batch, items[..|items| - 1], before)
    ensures var last := items[|items| - 1];
            AddedRows(deliveries, campaign, batch, items,
                      before[last.delivery := NewDelivery(Key(campaign, last.creator), batch, None, last.letter)])
  {
    var rest, last := items[..|items| - 1], items[|items| - 1];
    var after := before[last.delivery := NewDelivery(Key(campaign, last.creator), batch, None, last.letter)];
    forall d | d in after && d !in deliveries ensures exists i :: 0 <= i < |items| && items[i].delivery == d {
      if d == last.delivery {
        assert items[|items| - 1].delivery == d;
      } else {
        var i :| 0 <= i < |rest| && rest[i].delivery == d;
        assert items[i].delivery == d;
      }
    }
    forall i | 0 <= i < |items| ensures NewAt(after, campaign, batch, items[i]) {
      if i < |rest| {
        assert NewAt(before, campaign, batch, rest[i]);
      }
    }
  }

  ghost predicate NewAt(after: map<Id, Delivery>, campaign: Id, batch: Id, item: Item) {
    && item.delivery in after
    && after[item.delivery] == NewDelivery(Key(campaign, item.creator), batch, None, item.letter)
  }

  /** What a new batch adds: one queued, first-of-its-chain row per item. */
  ghost predicate AddedRows(deliveries: map<Id, Delivery>, campaign: Id, batch: Id, items: seq<Item>,
                            after: map<Id, Delivery>) {
    && (forall d :: d in deliveries ==> d in after && after[d] == deliveries[d])
    && (forall i :: 0 <= i < |items| ==> NewAt(after, campaign, batch, items[i]))
    && (forall d :: d in after && d !in deliveries ==> exists i :: 0 <= i < |items| && items[i].delivery == d)
  }

  lemma CreateKeeps(rows: Rows, campaign: Id, batch: Id, items: seq<Item>)
    requires Inv(rows)
    ensures Inv(CreateSendBatch(rows, campaign, batch, items).rows)
  {
    var reply := CreateSendBatch(rows, campaign, batch, items);
    if reply.outcome.Done? {
      WithItemsAt(rows.deliveries, campaign, batch, items);
      hide WithItems;
      CreateKeepsBatches(rows, campaign, batch, items, reply.rows);
      CreateKeepsAnswers(rows, campaign, batch, items, reply.rows);
      CreateKeepsChains(rows, campaign, batch, items, reply.rows);
    }
  }

  ghost predicate Added(rows: Rows, campaign: Id, batch: Id, items: seq<Item>, after: Rows) {
    && items != [] && DistinctItems(items)
    && batch !in rows.batches
    && (forall i :: 0 <= i < |items| ==> items[i].delivery !in rows.deliveries)
    && after.responses == rows.responses
    && after.batches == rows.batches[batch := Batch(campaign, BatchQueued)]
    && AddedRows(rows.deliveries, campaign, batch, items, after.deliveries)
  }

  lemma CreateKeepsBatches(rows: Rows, campaign: Id, batch: Id, items: seq<Item>, after: Rows)
    requires Batched(rows) && Added(rows, campaign, batch, items, after)
    ensures Batched(after)
  {
    forall b | b in rows.batches
      ensures MembersOf(after.deliveries, b) == MembersOf(rows.deliveries, b)
      ensures AggregateState(after.deliveries, b) == AggregateState(rows.deliveries, b)
    {
      OldBatch(rows, campaign, batch, items, after, b);
    }
    NewBatch(rows, campaign, batch, items, after);
    forall d | d in after.deliveries
      ensures after.deliveries[d].batch in after.batches
      ensures after.batches[after.deliveries[d].batch].campaign == after.deliveries[d].key.campaign
    {
      RowBatch(rows, campaign, batch, items, after, d);
    }
    hide AggregateState, MembersOf, AddedRows;
  }

  lemma RowBatch(rows: Rows, campaign: Id, batch: Id, items: seq<Item>, after: Rows, d: Id)
    requires Batched(rows) && Added(rows, campaign, batch, items, after) && d in after.deliveries
    ensures after.deliveries[d].batch in after.batches
    ensures after.batches[after.deliveries[d].batch].campaign == after.deliveries[d].key.campaign
  {
    hide AggregateState, MembersOf;
    if d !in rows.deliveries {
      var i :| 0 <= i < |items| && items[i].delivery == d;
      assert NewAt(after.deliveries, campaign, batch, items[i]);
    }
  }

  lemma OldBatch(rows: Rows, campaign: Id, batch: Id, items: seq<Item>, after: Rows, b: Id)
    requires Batched(rows) && Added(rows, campaign, batch, items, after) && b in rows.batches
    ensures MembersOf(after.deliveries, b) == MembersOf(rows.deliveries, b)
    ensures AggregateState(after.deliveries, b) == AggregateState(rows.deliveries, b)
  {
    hide AggregateState;
    forall d ensures d in MembersOf(after.deliveries, b) <==> d in MembersOf(rows.deliveries, b) {
      if d in after.deliveries && d !in rows.deliveries {
        var i :| 0 <= i < |items| && items[i].delivery == d;
        assert NewAt(after.deliveries, campaign, batch, items[i]);
      }
    }
    AggregateFrame(rows.deliveries, after.deliveries, b);
  }

  lemma NewBatch(rows: Rows, campaign: Id, batch: Id, items: seq<Item>, after: Rows)
    requires Batched(rows) && Added(rows, campaign, batch, items, after)
    ensures MembersOf(after.deliveries, batch) != {} && AggregateState(after.deliveries, batch) == BatchQueued
  {
    assert NewAt(after.deliveries, campaign, batch, items[0]);
    assert items[0].delivery in MembersOf(after.deliveries, batch);
    forall d | d in MembersOf(after.deliveries, batch) ensures after.deliveries[d].sendState.Queued? {
    }
  }

  lemma CreateKeepsAnswers(rows: Rows, campaign: Id, batch: Id, items: seq<Item>, after: Rows)
    requires Shaped(rows) && Answered(rows) && Added(rows, campaign, batch, items, after)
    ensures Answered(after) && Shaped(after)
  {
    forall k | Recorded(after.responses, k) ensures FinalDelivery(after, k) {
      assert Recorded(rows.responses, k) && FinalDelivery(rows, k);
    }
  }

  lemma CreateKeepsChains(rows: Rows, campaign: Id, batch: Id, items: seq<Item>, after: Rows)
    requires Chained(rows) && Added(rows, campaign, batch, items, after)
    requires !HasPrior(rows, campaign, items)
    ensures Chained(after)
  {
    forall key | DeliveriesOf(after.deliveries, key) != {} ensures HasChain(after.deliveries, key) {
      if DeliveriesOf(rows.deliveries, key) != {} {
        forall d ensures d in DeliveriesOf(after.deliveries, key) <==> d in DeliveriesOf(rows.deliveries, key) {
          var old_ :| old_ in DeliveriesOf(rows.deliveries, key);
        }
        var links :| Chain(rows.deliveries, key, links);
        ChainFrame(rows.deliveries, after.deliveries, key, links);
      } else {
        var d :| d in DeliveriesOf(after.deliveries, key);
        assert d !in DeliveriesOf(rows.deliveries, key);
        assert DeliveriesOf(after.deliveries, key) == {d};
        assert Chain(after.deliveries, key, [d]);
      }
    }
  }

  // ---------------------------------------------------------------- responses

  lemma ConfirmKeeps(rows: Rows, d: Id, choice: ResponseState, now: Time)
    requires Inv(rows)
    ensures Inv(ConfirmResponse(rows, d, choice, now).rows)
  {
    if !choice.NoResponse? && ShowConfirmation(rows, d).Confirmable? {
      ConfirmKeepsAnswers(rows, d, choice, now);
      ConfirmKeepsBatches(rows, d, choice, now);
      ConfirmKeepsChains(rows, d, choice, now);
      hide Shaped, Batched, Answered, Chained;
    }
  }

  lemma ConfirmKeepsBatches(rows: Rows, d: Id, choice: ResponseState, now: Time)
    requires Batched(rows)
    requires !choice.NoResponse? && ShowConfirmation(rows, d).Confirmable?
    ensures Batched(ConfirmResponse(rows, d, choice, now).rows)
  {
    hide AggregateState;
    var after := ConfirmResponse(rows, d, choice, now).rows;
    forall b ensures MembersOf(after.deliveries, b) == MembersOf(rows.deliveries, b) {
      forall x ensures x in MembersOf(after.deliveries, b) <==> x in MembersOf(rows.deliveries, b) {
      }
    }
    forall b | b in rows.batches
      ensures AggregateState(after.deliveries, b) == AggregateState(rows.deliveries, b)
    {
      AggregateFrame(rows.deliveries, after.deliveries, b);
    }
    hide MembersOf;
  }

  lemma ConfirmKeepsChains(rows: Rows, d: Id, choice: ResponseState, now: Time)
    requires Chained(rows)
    requires !choice.NoResponse? && ShowConfirmation(rows, d).Confirmable?
    ensures Chained(ConfirmResponse(rows, d, choice, now).rows)
  {
    var after := ConfirmResponse(rows, d, choice, now).rows;
    forall key | DeliveriesOf(after.deliveries, key) != {} ensures HasChain(after.deliveries, key) {
      assert DeliveriesOf(after.deliveries, key) == DeliveriesOf(rows.deliveries, key);
      var links :| Chain(rows.deliveries, key, links);
      ChainFrame(rows.deliveries, after.deliveries, key, links);
    }
  }

  lemma ConfirmKeepsAnswers(rows: Rows, d: Id, choice: ResponseState, now: Time)
    requires Shaped(rows) && Answered(rows)
    requires !choice.NoResponse? && ShowConfirmation(rows, d).Confirmable?
    ensures Answered(ConfirmResponse(rows, d, choice, now).rows)
    ensures Shaped(ConfirmResponse(rows, d, choice, now).rows)
  {
    var after := ConfirmResponse(rows, d, choice, now).rows;
    var key := rows.deliveries[d].key;
    forall k | Recorded(after.responses, k) ensures FinalDelivery(after, k) {
      if k != key {
        assert Recorded(rows.responses, k) && FinalDelivery(rows, k);
      }
    }
  }
}
