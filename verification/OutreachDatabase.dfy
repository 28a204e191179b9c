/**
 The Outreach transactions as they run: columns assigned one after the other, batch states
 recomputed from a scan. Each method is tied to the step function the run theorems speak of.
 */
module OutreachDatabase {
  import opened Common
  import opened OutreachState
  import opened OutreachInvariant

  /** How one attempt to send a claimed delivery ends. */
  datatype Attempt = Delivered | Rejected | Unprepared | Temporary(exhausted: bool)

  ghost function Attempted(rows: Rows, d: Id, attempt: Attempt, now: Time, later: Time): Rows {
    var claimed := Claim(rows, d, now);
    if claimed.outcome != Done(true) then claimed.rows
    else match attempt
      case Delivered => MarkSent(claimed.rows, d, later).rows
      case Rejected => MarkFailed(claimed.rows, d, PERMANENT, later).rows
      case Unprepared => MarkFailed(MarkFailed(claimed.rows, d, PREPARATION, later).rows, d, PERMANENT, later).rows
      case Temporary(exhausted) =>
        if exhausted then MarkFailed(claimed.rows, d, TEMPORARY, later).rows
        else ReleaseForRetry(claimed.rows, d).rows
  }

  class OutreachTables {
    var deliveries: map<Id, Delivery>
    var batches: map<Id, Batch>
    var responses: map<Key, Response>

    ghost function View(): Rows
      reads this
    {
      Rows(deliveries, batches, responses)
    }

    constructor ()
      ensures NothingSent(View())
    {
      deliveries, batches, responses := map[], map[], map[];
    }

    // -------------------------------------------------------------- the batch aggregate

    /** The send states of one batch, read row by row. */
    method SendStates(batch: Id) returns (states: set<SendState>)
      ensures states == set d | d in MembersOf(deliveries, batch) :: deliveries[d].sendState
    {
      states := {};
      var todo := MembersOf(deliveries, batch);
      while todo != {}
        invariant todo <= MembersOf(deliveries, batch)
        invariant states == set d | d in MembersOf(deliveries, batch) - todo :: deliveries[d].sendState
        decreases |todo|
      {
        var d :| d in todo;
        states := states + {deliveries[d].sendState};
        todo := todo - {d};
      }
    }

    method RecomputeBatch(batch: Id)
      modifies `batches
      ensures View() == Recomputed(old(View()), batch)
    {
      if batch !in batches {
        return;
      }
      var states := SendStates(batch);
      StatesDecide(deliveries, batch, states);
      hide AggregateState, MembersOf;
      if states == {} {
        return;
      }
      var state := BatchSending;
      if states <= {Queued} {
        state := BatchQueued;
      } else if states <= {Sent} {
        state := BatchSent;
      } else if states <= {Failed} {
        state := BatchFailed;
      } else if states <= {Sent, Failed} {
        state := BatchPartiallyFailed;
      }
      batches := batches[batch := batches[batch].(state := state)];
    }

    // -------------------------------------------------------------- the worker

    method Claim(d: Id, now: Time) returns (outcome: Outcome<bool>)
      modifies this
      ensures Reply(View(), outcome) == OutreachState.Claim(old(View()), d, now)
    {
      if d !in deliveries || deliveries[d].supersededAt.Some? {
        return Done(false);
      }
      if !deliveries[d].sendState.Queued? {
        return Done(false);
      }
      var row := deliveries[d];
      row := row.(sendState := Sending);
      row := row.(sendingAt := Some(now));
      deliveries := deliveries[d := row];
      RecomputeBatch(row.batch);
      return Done(true);
    }

    method ReleaseForRetry(d: Id) returns (outcome: Outcome<bool>)
      modifies this
      ensures Reply(View(), outcome) == OutreachState.ReleaseForRetry(old(View()), d)
    {
      if d !in deliveries || deliveries[d].supersededAt.Some? || !deliveries[d].sendState.Sending? {
        return Done(false);
      }
      var row := deliveries[d];
      row := row.(sendState := Queued);
      row := row.(sendingAt := None, sentAt := None, failedAt := None);
      row := row.(errorCode := None, retryable := false);
      deliveries := deliveries[d := row];
      RecomputeBatch(row.batch);
      return Done(true);
    }

    method MarkSent(d: Id, now: Time) returns (outcome: Outcome<bool>)
      modifies this
      ensures Reply(View(), outcome) == OutreachState.MarkSent(old(View()), d, now)
    {
      if d !in deliveries || deliveries[d].supersededAt.Some? || !deliveries[d].sendState.Sending? {
        return Done(false);
      }
      var row := deliveries[d];
      row := row.(sendState := Sent);
      row := row.(sentAt := Some(now), failedAt := None);
      row := row.(errorCode := None, retryable := false);
      deliveries := deliveries[d := row];
      RecomputeBatch(row.batch);
      return Done(true);
    }

    method MarkFailed(d: Id, failure: SmtpFailure, now: Time) returns (outcome: Outcome<bool>)
      modifies this
      ensures Reply(View(), outcome) == OutreachState.MarkFailed(old(View()), d, failure, now)
    {
      if failure != PERMANENT && failure != PREPARATION && failure != TEMPORARY {
        return Raised("invalid safe Outreach failure");
      }
      if d !in deliveries || deliveries[d].supersededAt.Some? || !deliveries[d].sendState.Sending? {
        return Done(false);
      }
      var row := deliveries[d];
      row := row.(sendState := Failed);
      row := row.(failedAt := Some(now), sentAt := None);
      row := row.(errorCode := Some(failure.code), retryable := failure.retryable);
      deliveries := deliveries[d := row];
      RecomputeBatch(row.batch);
      return Done(true);
    }

    /** One undisturbed run of the delivery task, as the executor and its retry wrapper order it. */
    method SendDelivery(d: Id, attempt: Attempt, now: Time, later: Time)
      modifies this
      ensures View() == Attempted(old(View()), d, attempt, now, later)
    {
      hide OutreachState.Claim, OutreachState.MarkSent, OutreachState.MarkFailed, OutreachState.ReleaseForRetry;
      var claimed := Claim(d, now);
      if claimed != Done(true) {
        return;
      }
      match attempt {
        case Delivered =>
          var _ := MarkSent(d, later);
        case Rejected =>
          var _ := MarkFailed(d, PERMANENT, later);
        case Unprepared =>
          var _ := MarkFailed(d, PREPARATION, later);
          var _ := MarkFailed(d, PERMANENT, later);
        case Temporary(exhausted) =>
          if exhausted {
            var _ := MarkFailed(d, TEMPORARY, later);
          } else {
            var _ := ReleaseForRetry(d);
          }
      }
    }

    // -------------------------------------------------------------- sending and resending

    method CreateSendBatch(campaign: Id, batch: Id, items: seq<Item>) returns (outcome: Outcome<Id>)
      modifies this
      ensures Reply(View(), outcome) == OutreachState.CreateSendBatch(old(View()), campaign, batch, items)
    {
      if items == [] || |items| > MAX_CREATORS || !DistinctItems(items) {
        return Raised("request_invalid");
      }
      var prior := exists d | d in deliveries :: exists i ::
        0 <= i < |items| && deliveries[d].key == Key(campaign, items[i].creator);
      var confirmed := exists i :: 0 <= i < |items| && Recorded(responses, Key(campaign, items[i].creator));
      assert prior == HasPrior(View(), campaign, items);
      if prior || confirmed {
        return Raised("explicit_resend_required");
      }
      if batch in batches || exists i :: 0 <= i < |items| && items[i].delivery in deliveries {
        return Raised("integrity_error");
      }
      batches := batches[batch := Batch(campaign, BatchQueued)];
      for i := 0 to |items|
        invariant deliveries == WithItems(old(deliveries), campaign, batch, items[..i])
        invariant batches == old(batches)[batch := Batch(campaign, BatchQueued)] && responses == old(responses)
      {
        assert items[..i + 1][..i] == items[..i];
        deliveries := deliveries[items[i].delivery :=
          NewDelivery(Key(campaign, items[i].creator), batch, None, items[i].letter)];
      }
      assert items[..|items|] == items;
      return Done(batch);
    }

    method ResendDelivery(d: Id, replacement: Id, batch: Id, now: Time) returns (outcome: Outcome<Id>)
      modifies this
      ensures Reply(View(), outcome) == OutreachState.ResendDelivery(old(View()), d, replacement, batch, now)
    {
      if d !in deliveries {
        return Raised("delivery_not_found");
      }
      var row := deliveries[d];
      var allowed := row.sendState.Sent? || row.sendState.Failed?;
      if row.supersededAt.Some? || !allowed || !row.responseState.NoResponse?
         || (row.key in responses && !responses[row.key].state.NoResponse?) {
        return Raised("delivery_not_resendable");
      }
      if batch in batches || replacement in deliveries {
        return Raised("integrity_error");
      }
      batches := batches[batch := Batch(row.key.campaign, BatchQueued)];
      deliveries := deliveries[d := row.(supersededAt := Some(now))];
      deliveries := deliveries[replacement := NewDelivery(row.key, batch, Some(d), row.letter)];
      return Done(batch);
    }

    // -------------------------------------------------------------- responses

    method ConfirmResponse(d: Id, choice: ResponseState, now: Time) returns (outcome: Outcome<Confirmation>)
      modifies this
      ensures Reply(View(), outcome) == OutreachState.ConfirmResponse(old(View()), d, choice, now)
    {
      if choice.NoResponse? {
        return Raised("choice must be accepted or declined");
      }
      if d !in deliveries {
        return Done(NotFound);
      }
      var row := deliveries[d];
      if row.key in responses && !responses[row.key].state.NoResponse? {
        return Done(Final(responses[row.key].state));
      }
      if row.supersededAt.Some? || !row.sendState.Sent? || !row.responseState.NoResponse? {
        return Done(Inactive);
      }
      var response := if row.key in responses then responses[row.key] else Response(NoResponse, None, None);
      response := response.(state := choice);
      response := response.(finalDelivery := Some(d));
      response := response.(respondedAt := Some(now));
      responses := responses[row.key := response];
      deliveries := deliveries[d := row.(responseState := choice, respondedAt := Some(now))];
      return Done(Final(choice));
    }
  }

  // ---------------------------------------------------------------- what the methods rest on

  lemma StatesDecide(deliveries: map<Id, Delivery>, batch: Id, states: set<SendState>)
    requires states == set d | d in MembersOf(deliveries, batch) :: deliveries[d].sendState
    ensures states == {} <==> MembersOf(deliveries, batch) == {}
    ensures AggregateState(deliveries, batch)
            == if states <= {Queued} then BatchQueued
               else if states <= {Sent} then BatchSent
               else if states <= {Failed} then BatchFailed
               else if states <= {Sent, Failed} then BatchPartiallyFailed
               else BatchSending
  {
    var members := MembersOf(deliveries, batch);
    forall d | d in members ensures deliveries[d].sendState in states {
    }
    forall allowed ensures AllIn(deliveries, members, allowed) == (states <= allowed) {
    }
  }

  lemma ClaimTakes(rows: Rows, d: Id, now: Time)
    ensures var reply := Claim(rows, d, now);
            if InState(rows, d, Queued) then
              && reply.outcome == Done(true)
              && InState(reply.rows, d, Sending)
              && reply.rows.deliveries == rows.deliveries[d := reply.rows.deliveries[d]]
              && reply.rows.responses == rows.responses
            else reply == Reply(rows, Done(false))
  {
  }

  lemma MarkTakes(rows: Rows, d: Id, failure: SmtpFailure, now: Time)
    requires InState(rows, d, Sending) && SafeFailure(failure)
    ensures MarkSent(rows, d, now).rows.deliveries == rows.deliveries[d := SentRow(rows.deliveries[d], now)]
    ensures MarkSent(rows, d, now).rows.responses == rows.responses
    ensures MarkFailed(rows, d, failure, now).rows.deliveries
            == rows.deliveries[d := FailedRow(rows.deliveries[d], failure, now)]
    ensures MarkFailed(rows, d, failure, now).rows.responses == rows.responses
  {
  }

  /** Marking a delivery failed a second time changes nothing: the first code stays. */
  lemma MarkRepeats(rows: Rows, d: Id, failure: SmtpFailure, again: SmtpFailure, now: Time)
    requires SafeFailure(failure) && SafeFailure(again)
    ensures var once := MarkFailed(rows, d, failure, now).rows;
            MarkFailed(once, d, again, now) == Reply(once, Done(false))
  {
  }

  /**
   What one undisturbed attempt leaves behind. A delivery that is not queued is left alone, a
   temporary failure with retries left restores every row, and a failed preparation keeps its own
   code although it is marked twice.
   */
  lemma AttemptMeaning(rows: Rows, d: Id, attempt: Attempt, now: Time, later: Time)
    requires Inv(rows)
    ensures var after := Attempted(rows, d, attempt, now, later);
            if !InState(rows, d, Queued) || attempt == Temporary(false) then after == rows
            else
              && d in after.deliveries
              && after.deliveries == rows.deliveries[d := after.deliveries[d]]
              && after.responses == rows.responses
              && after.deliveries[d].sendState == (if attempt.Delivered? then Sent else Failed)
              && after.deliveries[d].errorCode == (match attempt
                                                   case Delivered => None
                                                   case Rejected => Some("smtp_rejected")
                                                   case Unprepared => Some("outreach_delivery_invalid")
                                                   case Temporary(_) => Some("smtp_temporarily_unavailable"))
              && after.deliveries[d].retryable == (attempt == Temporary(true))
  {
    hide Inv, Claim, MarkSent, MarkFailed, ReleaseForRetry, Store, InState;
    ClaimTakes(rows, d, now);
    if InState(rows, d, Queued) {
      var held := Claim(rows, d, now).rows;
      if attempt == Temporary(false) {
        ReleaseUndoesClaim(rows, d, now);
      } else {
        var failure := if attempt.Rejected? then PERMANENT else if attempt.Unprepared? then PREPARATION else TEMPORARY;
        MarkTakes(held, d, failure, later);
        MarkRepeats(held, d, failure, PERMANENT, later);
        var after := Attempted(rows, d, attempt, now, later);
        assert after.deliveries == held.deliveries[d := after.deliveries[d]];
      }
    }
  }

  /** Releasing a delivery for a retry undoes its claim completely, the batch state included. */
  lemma ReleaseUndoesClaim(rows: Rows, d: Id, now: Time)
    requires Inv(rows) && InState(rows, d, Queued)
    ensures ReleaseForRetry(Claim(rows, d, now).rows, d) == Reply(rows, Done(true))
  {
    var row := rows.deliveries[d];
    var taken := row.(sendState := Sending, sendingAt := Some(now));
    hide Chained, Answered, AggregateState, MembersOf;
    assert RowShape(row) && ReleasedRow(taken) == row;
    assert rows.batches[row.batch].state == AggregateState(rows.deliveries, row.batch);
    assert MembersOf(rows.deliveries, row.batch) != {};
    hide Inv, Shaped, Batched;
    StoreBack(rows, d, taken);
  }

  /** Writing a row back recomputes the batch state it had. */
  lemma StoreBack(rows: Rows, d: Id, taken: Delivery)
    requires d in rows.deliveries && taken.batch == rows.deliveries[d].batch && taken.batch in rows.batches
    requires MembersOf(rows.deliveries, taken.batch) != {}
    requires rows.batches[taken.batch].state == AggregateState(rows.deliveries, taken.batch)
    ensures Store(Store(rows, d, taken), d, rows.deliveries[d]) == rows
  {
    var b := taken.batch;
    var held := Store(rows, d, taken);
    assert held.deliveries == rows.deliveries[d := taken];
    assert held.deliveries[d := rows.deliveries[d]] == rows.deliveries;
    assert forall x :: x in held.batches <==> x in rows.batches;
    assert forall x :: x in rows.batches && x != b ==> held.batches[x] == rows.batches[x];
    assert held.batches[b].campaign == rows.batches[b].campaign;
    hide AggregateState, MembersOf;
    assert Store(held, d, rows.deliveries[d]).batches == rows.batches;
  }
}
