/**
 Deliveries, send batches and recorded responses, and what each transaction does to them. The
 response token is derived from the delivery id and its digest is unique, so a digest is
 represented by the id of the delivery it belongs to.
 */
module OutreachState {
  import opened Common

  type Id = nat
  type Time = int

  datatype SendState = Queued | Sending | Sent | Failed
  datatype ResponseState = NoResponse | Accepted | Declined
  datatype BatchState = BatchQueued | BatchSending | BatchSent | BatchPartiallyFailed | BatchFailed

  datatype Key = Key(campaign: Id, creator: Id)

  /** `letter` stands for everything rendered once: recipient, subject, body, labels, sender. */
  datatype Delivery = Delivery(
    key: Key,
    batch: Id,
    resends: Option<Id>,
    letter: string,
    sendState: SendState,
    responseState: ResponseState,
    sendingAt: Option<Time>,
    sentAt: Option<Time>,
    failedAt: Option<Time>,
    errorCode: Option<string>,
    retryable: bool,
    respondedAt: Option<Time>,
    supersededAt: Option<Time>)

  datatype Batch = Batch(campaign: Id, state: BatchState)

  datatype Response = Response(state: ResponseState, finalDelivery: Option<Id>, respondedAt: Option<Time>)

  datatype Rows = Rows(deliveries: map<Id, Delivery>, batches: map<Id, Batch>, responses: map<Key, Response>)

  datatype Reply<+T> = Reply(rows: Rows, outcome: Outcome<T>)

  datatype Confirmation = NotFound | Final(state: ResponseState) | Inactive | Confirmable

  datatype SmtpFailure = SmtpFailure(code: string, retryable: bool)

  datatype Item = Item(creator: Id, delivery: Id, letter: string)

  predicate Terminal(state: SendState) {
    state.Sent? || state.Failed?
  }

  predicate Recorded(responses: map<Key, Response>, key: Key) {
    key in responses && !responses[key].state.NoResponse?
  }

  // ---------------------------------------------------------------- the batch aggregate

  function MembersOf(deliveries: map<Id, Delivery>, batch: Id): set<Id> {
    set d | d in deliveries && deliveries[d].batch == batch
  }

  predicate AllIn(deliveries: map<Id, Delivery>, members: set<Id>, allowed: set<SendState>)
    requires members <= deliveries.Keys
  {
    forall d :: d in members ==> deliveries[d].sendState in allowed
  }

  /** The five-way aggregate over the send states of a batch. */
  function AggregateState(deliveries: map<Id, Delivery>, batch: Id): BatchState {
    var members := MembersOf(deliveries, batch);
    if AllIn(deliveries, members, {Queued}) then BatchQueued
    else if AllIn(deliveries, members, {Sent}) then BatchSent
    else if AllIn(deliveries, members, {Failed}) then BatchFailed
    else if AllIn(deliveries, members, {Sent, Failed}) then BatchPartiallyFailed
    else BatchSending
  }

  /** `_recompute_batch`. */
  function Recomputed(rows: Rows, batch: Id): Rows {
    if batch !in rows.batches || MembersOf(rows.deliveries, batch) == {} then rows
    else rows.(batches := rows.batches[batch := rows.batches[batch].(state := AggregateState(rows.deliveries, batch))])
  }

  /** Stores a new version of one delivery and recomputes its batch. */
  function Store(rows: Rows, d: Id, row: Delivery): Rows {
    Recomputed(rows.(deliveries := rows.deliveries[d := row]), row.batch)
  }

  // ---------------------------------------------------------------- the worker's transactions

  predicate InState(rows: Rows, d: Id, state: SendState) {
    d in rows.deliveries && rows.deliveries[d].supersededAt.None? && rows.deliveries[d].sendState == state
  }

  function Claim(rows: Rows, d: Id, now: Time): Reply<bool> {
    if !InState(rows, d, Queued) then Reply(rows, Done(false))
    else Reply(Store(rows, d, rows.deliveries[d].(sendState := Sending, sendingAt := Some(now))), Done(true))
  }

  function ReleasedRow(row: Delivery): Delivery {
    row.(sendState := Queued, sendingAt := None, sentAt := None, failedAt := None,
         errorCode := None, retryable := false)
  }

  function ReleaseForRetry(rows: Rows, d: Id): Reply<bool> {
    if !InState(rows, d, Sending) then Reply(rows, Done(false))
    else Reply(Store(rows, d, ReleasedRow(rows.deliveries[d])), Done(true))
  }

  function SentRow(row: Delivery, now: Time): Delivery {
    row.(sendState := Sent, sentAt := Some(now), failedAt := None, errorCode := None, retryable := false)
  }

  function FailedRow(row: Delivery, failure: SmtpFailure, now: Time): Delivery {
    row.(sendState := Failed, failedAt := Some(now), sentAt := None,
         errorCode := Some(failure.code), retryable := failure.retryable)
  }

  function MarkSent(rows: Rows, d: Id, now: Time): Reply<bool> {
    if !InState(rows, d, Sending) then Reply(rows, Done(false))
    else Reply(Store(rows, d, SentRow(rows.deliveries[d], now)), Done(true))
  }

  const PERMANENT := SmtpFailure("smtp_rejected", false)
  const PREPARATION := SmtpFailure("outreach_delivery_invalid", false)
  const TEMPORARY := SmtpFailure("smtp_temporarily_unavailable", true)

  /** The three failures a worker may record. */
  predicate SafeFailure(failure: SmtpFailure) {
    failure == PERMANENT || failure == PREPARATION || failure == TEMPORARY
  }

  function MarkFailed(rows: Rows, d: Id, failure: SmtpFailure, now: Time): Reply<bool> {
    if !SafeFailure(failure) then Reply(rows, Raised("invalid safe Outreach failure"))
    else if !InState(rows, d, Sending) then Reply(rows, Done(false))
    else Reply(Store(rows, d, FailedRow(rows.deliveries[d], failure, now)), Done(true))
  }

  // ---------------------------------------------------------------- sending and resending

  function NewDelivery(key: Key, batch: Id, resends: Option<Id>, letter: string): Delivery {
    Delivery(key, batch, resends, letter, Queued, NoResponse, None, None, None, None, false, None, None)
  }

  const MAX_CREATORS := 30

  predicate DistinctItems(items: seq<Item>) {
    forall i, j :: 0 <= i < j < |items| ==>
      items[i].creator != items[j].creator && items[i].delivery != items[j].delivery
  }

  /** The deliveries with one queued row added for every composed item. */
  function WithItems(deliveries: map<Id, Delivery>, campaign: Id, batch: Id, items: seq<Item>): map<Id, Delivery> {
    if items == [] then deliveries
    else
      var last := items[|items| - 1];
      WithItems(deliveries, campaign, batch, items[..|items| - 1])
        [last.delivery := NewDelivery(Key(campaign, last.creator), batch, None, last.letter)]
  }

  predicate HasPrior(rows: Rows, campaign: Id, items: seq<Item>) {
    exists d, i :: d in rows.deliveries && 0 <= i < |items| && rows.deliveries[d].key == Key(campaign, items[i].creator)
  }

  predicate HasResponse(rows: Rows, campaign: Id, items: seq<Item>) {
    exists i :: 0 <= i < |items| && Recorded(rows.responses, Key(campaign, items[i].creator))
  }

  /**
   `create_send_batch` for an already composed request: a non-empty list of distinct creators,
   each with its chosen recipient and rendered letter. A request of another shape is refused by
   its schema, a reused id by the primary key.
   */
  function CreateSendBatch(rows: Rows, campaign: Id, batch: Id, items: seq<Item>): Reply<Id> {
    if items == [] || |items| > MAX_CREATORS || !DistinctItems(items) then Reply(rows, Raised("request_invalid"))
    else if HasPrior(rows, campaign, items) || HasResponse(rows, campaign, items) then
      Reply(rows, Raised("explicit_resend_required"))
    else if batch in rows.batches || exists i :: 0 <= i < |items| && items[i].delivery in rows.deliveries then
      Reply(rows, Raised("integrity_error"))
    else
      Reply(rows.(batches := rows.batches[batch := Batch(campaign, BatchQueued)],
                  deliveries := WithItems(rows.deliveries, campaign, batch, items)), Done(batch))
  }

  predicate Resendable(rows: Rows, d: Id) {
    && d in rows.deliveries
    && rows.deliveries[d].supersededAt.None?
    && Terminal(rows.deliveries[d].sendState)
    && rows.deliveries[d].responseState.NoResponse?
    && !Recorded(rows.responses, rows.deliveries[d].key)
  }

  /** The resent delivery superseded, and a queued copy of its letter pointing back at it. */
  function WithReplacement(deliveries: map<Id, Delivery>, d: Id, replacement: Id, batch: Id,
                           now: Time): map<Id, Delivery>
    requires d in deliveries
  {
    var row := deliveries[d];
    deliveries[d := row.(supersededAt := Some(now))][replacement := NewDelivery(row.key, batch, Some(d), row.letter)]
  }

  function ResendDelivery(rows: Rows, d: Id, replacement: Id, batch: Id, now: Time): Reply<Id> {
    if d !in rows.deliveries then Reply(rows, Raised("delivery_not_found"))
    else if !Resendable(rows, d) then Reply(rows, Raised("delivery_not_resendable"))
    else if batch in rows.batches || replacement in rows.deliveries then Reply(rows, Raised("integrity_error"))
    else
      var row := rows.deliveries[d];
      Reply(rows.(batches := rows.batches[batch := Batch(row.key.campaign, BatchQueued)],
                  deliveries := WithReplacement(rows.deliveries, d, replacement, batch, now)),
            Done(batch))
  }

  // ---------------------------------------------------------------- responses

  predicate Eligible(row: Delivery) {
    row.supersededAt.None? && row.sendState.Sent? && row.responseState.NoResponse?
  }

  function ShowConfirmation(rows: Rows, d: Id): Confirmation {
    if d !in rows.deliveries then NotFound
    else
      var row := rows.deliveries[d];
      if Recorded(rows.responses, row.key) then Final(rows.responses[row.key].state)
      else if !Eligible(row) then Inactive
      else Confirmable
  }

  function ConfirmResponse(rows: Rows, d: Id, choice: ResponseState, now: Time): Reply<Confirmation> {
    if choice.NoResponse? then Reply(rows, Raised("choice must be accepted or declined"))
    else if d !in rows.deliveries then Reply(rows, Done(NotFound))
    else
      var row := rows.deliveries[d];
      if Recorded(rows.responses, row.key) then Reply(rows, Done(Final(rows.responses[row.key].state)))
      else if !Eligible(row) then Reply(rows, Done(Inactive))
      else
        Reply(rows.(responses := rows.responses[row.key := Response(choice, Some(d), Some(now))],
                    deliveries := rows.deliveries[d := row.(responseState := choice, respondedAt := Some(now))]),
              Done(Final(choice)))
  }
}
