/**
 What each Outreach transaction accepts and leaves behind, written out column by column, the letter
 a chain of resends carries, and the path from a queued delivery to a recorded response.
 */
module OutreachEffects {
  import opened Common
  import opened OutreachState
  import opened OutreachInvariant
  import opened OutreachRuns

  /** A delivery as it is first stored. */
  predicate NewlyQueued(row: Delivery, key: Key, batch: Id, resends: Option<Id>, letter: string) {
    && row.key == key && row.batch == batch && row.resends == resends && row.letter == letter
    && row.sendState == Queued && row.responseState == NoResponse
    && row.sendingAt == None && row.sentAt == None && row.failedAt == None && row.errorCode == None && !row.retryable
    && row.respondedAt == None && row.supersededAt == None
  }

  /** Nothing was ever sent to, or answered by, one of the creators. */
  ghost predicate Untouched(rows: Rows, campaign: Id, items: seq<Item>) {
    forall i :: 0 <= i < |items| ==>
      && (forall d :: d in rows.deliveries ==> rows.deliveries[d].key != Key(campaign, items[i].creator))
      && (Key(campaign, items[i].creator) in rows.responses ==>
            rows.responses[Key(campaign, items[i].creator)].state == NoResponse)
  }

  /**
   A batch is accepted exactly for one to thirty distinct creators not written to before, under new ids. It adds one
   queued delivery for each, with that creator's letter, and a queued batch.
   */
  lemma CreateExactly(rows: Rows, campaign: Id, batch: Id, items: seq<Item>)
    ensures var reply := CreateSendBatch(rows, campaign, batch, items);
            && (reply.outcome.Done? <==>
                  && 1 <= |items| <= 30
                  && (forall i, j :: 0 <= i < j < |items| ==>
                        items[i].creator != items[j].creator && items[i].delivery != items[j].delivery)
                  && Untouched(rows, campaign, items)
                  && batch !in rows.batches
                  && forall i :: 0 <= i < |items| ==> items[i].delivery !in rows.deliveries)
            && (reply.outcome.Raised? ==> reply.rows == rows)
            && (reply.outcome.Done? ==>
                  && reply.outcome.value == batch
                  && reply.rows.batches == rows.batches[batch := Batch(campaign, BatchQueued)]
                  && reply.rows.responses == rows.responses
                  && (forall d :: d in rows.deliveries ==>
                        d in reply.rows.deliveries && reply.rows.deliveries[d] == rows.deliveries[d])
                  && (forall d :: d in reply.rows.deliveries ==>
                        d in rows.deliveries || exists i :: 0 <= i < |items| && items[i].delivery == d)
                  && forall i :: 0 <= i < |items| ==>
                       && items[i].delivery in reply.rows.deliveries
                       && NewlyQueued(reply.rows.deliveries[items[i].delivery], Key(campaign, items[i].creator),
                                      batch, None, items[i].letter))
  {
    assert HasPrior(rows, campaign, items) || HasResponse(rows, campaign, items)
           <==> !Untouched(rows, campaign, items);
    if CreateSendBatch(rows, campaign, batch, items).outcome.Done? {
      WithItemsAt(rows.deliveries, campaign, batch, items);
    }
    hide WithItems, HasPrior, HasResponse, Untouched;
  }

  /**
   A delivery is resent exactly if it is sent or failed, current and unanswered, like its creator. The replacement is
   queued in a batch of its own with the same letter for the same creator; the old one is superseded.
   */
  lemma ResendExactly(rows: Rows, d: Id, replacement: Id, batch: Id, now: Time)
    ensures var reply := ResendDelivery(rows, d, replacement, batch, now);
            && (reply.outcome.Done? <==>
                  && d in rows.deliveries
                  && rows.deliveries[d].supersededAt == None
                  && rows.deliveries[d].sendState in {Sent, Failed}
                  && rows.deliveries[d].responseState == NoResponse
                  && (rows.deliveries[d].key in rows.responses ==>
                        rows.responses[rows.deliveries[d].key].state == NoResponse)
                  && batch !in rows.batches && replacement !in rows.deliveries)
            && (reply.outcome.Raised? ==> reply.rows == rows)
            && (reply.outcome.Done? ==>
                  var row := rows.deliveries[d];
                  && reply.rows.batches == rows.batches[batch := Batch(row.key.campaign, BatchQueued)]
                  && reply.rows.responses == rows.responses
                  && reply.rows.deliveries.Keys == rows.deliveries.Keys + {replacement}
                  && NewlyQueued(reply.rows.deliveries[replacement], row.key, batch, Some(d), row.letter)
                  && reply.rows.deliveries[d] == row.(supersededAt := Some(now))
                  && forall x :: x in rows.deliveries && x != d ==> reply.rows.deliveries[x] == rows.deliveries[x])
  {
  }

  // ---------------------------------------------------------------- the worker's transactions

  predicate Current(rows: Rows, d: Id, state: SendState) {
    d in rows.deliveries && rows.deliveries[d].supersededAt == None && rows.deliveries[d].sendState == state
  }

  /** One delivery is written and nothing else but the batch state that follows from it. */
  ghost predicate Rewrites(rows: Rows, after: Rows, d: Id, row: Delivery) {
    && after.deliveries == rows.deliveries[d := row]
    && after.responses == rows.responses
    && after.batches.Keys == rows.batches.Keys
    && forall b :: b in rows.batches ==>
         && after.batches[b].campaign == rows.batches[b].campaign
         && (b != row.batch ==> after.batches[b] == rows.batches[b])
  }

  /** A queued delivery can be claimed, a claimed one released, and released it is as it was queued. */
  lemma ClaimAndReleaseExactly(rows: Rows, d: Id, now: Time)
    ensures var reply := Claim(rows, d, now);
            && reply.outcome == Done(Current(rows, d, Queued))
            && (if !Current(rows, d, Queued) then reply.rows == rows
                else Rewrites(rows, reply.rows, d, rows.deliveries[d].(sendState := Sending, sendingAt := Some(now))))
    ensures var reply := ReleaseForRetry(rows, d);
            && reply.outcome == Done(Current(rows, d, Sending))
            && (if !Current(rows, d, Sending) then reply.rows == rows
                else Rewrites(rows, reply.rows, d,
                              rows.deliveries[d].(sendState := Queued, sendingAt := None, sentAt := None,
                                                  failedAt := None, errorCode := None, retryable := false)))
  {
    hide AggregateState, MembersOf;
  }

  /** A claimed delivery can be marked, sent or with one of the three failures a worker may record. */
  lemma MarkExactly(rows: Rows, d: Id, failure: SmtpFailure, now: Time)
    ensures var reply := MarkSent(rows, d, now);
            && reply.outcome == Done(Current(rows, d, Sending))
            && (if !Current(rows, d, Sending) then reply.rows == rows
                else Rewrites(rows, reply.rows, d,
                              rows.deliveries[d].(sendState := Sent, sentAt := Some(now), failedAt := None,
                                                  errorCode := None, retryable := false)))
    ensures var reply := MarkFailed(rows, d, failure, now);
            && (reply.outcome.Raised? <==>
                  failure !in {SmtpFailure("smtp_rejected", false), SmtpFailure("outreach_delivery_invalid", false),
                               SmtpFailure("smtp_temporarily_unavailable", true)})
            && (reply.outcome.Done? ==> reply.outcome.value == Current(rows, d, Sending))
            && (if reply.outcome != Done(true) then reply.rows == rows
                else Rewrites(rows, reply.rows, d,
                              rows.deliveries[d].(sendState := Failed, failedAt := Some(now), sentAt := None,
                                                  errorCode := Some(failure.code), retryable := failure.retryable)))
  {
    hide AggregateState, MembersOf;
  }

  // ---------------------------------------------------------------- the letter of a chain

  /** A resent delivery carries the letter of the one it resends, to the same creator. */
  ghost predicate Copied(deliveries: map<Id, Delivery>) {
    forall d :: d in deliveries && deliveries[d].resends.Some? ==>
      var source := deliveries[d].resends.value;
      source in deliveries && deliveries[source].key == deliveries[d].key
      && deliveries[source].letter == deliveries[d].letter
  }

  lemma StepKeepsCopies(sys: System, e: Event)
    requires Inv(sys.rows) && Copied(sys.rows.deliveries)
    ensures Copied(Step(sys, e).rows.deliveries)
  {
    var after := Step(sys, e).rows.deliveries;
    forall d | d in sys.rows.deliveries ensures d in after && RowKept(sys.rows.deliveries[d], after[d]) {
      StepKeepsRow(sys, e, d);
    }
    forall d | d in after && d !in sys.rows.deliveries && after[d].resends.Some?
      ensures after[d].resends.value in sys.rows.deliveries
              && sys.rows.deliveries[after[d].resends.value].key == after[d].key
              && sys.rows.deliveries[after[d].resends.value].letter == after[d].letter
    {
      NewDeliveries(sys, e, d);
    }
    hide Inv, Step, RowShape;
  }

  lemma NewDeliveries(sys: System, e: Event, d: Id)
    requires d in Step(sys, e).rows.deliveries && d !in sys.rows.deliveries
    ensures var row := Step(sys, e).rows.deliveries[d];
            row.resends.Some? ==>
              && row.resends.value in sys.rows.deliveries
              && sys.rows.deliveries[row.resends.value].key == row.key
              && sys.rows.deliveries[row.resends.value].letter == row.letter
  {
    hide AggregateState, MembersOf, WithItems;
    if e.ECreate? {
      CreateExactly(sys.rows, e.campaign, e.batch, e.items);
      hide CreateSendBatch;
    } else if e.EResend? {
      ResendExactly(sys.rows, e.delivery, e.replacement, e.batch, e.now);
      hide ResendDelivery;
    }
  }

  lemma {:induction false} RunKeepsCopies(sys: System, es: seq<Event>)
    requires SystemInv(sys) && Copied(sys.rows.deliveries)
    ensures Copied(Run(sys, es).rows.deliveries)
    decreases |es|
  {
    hide Step, Inv, Exclusive, Copied;
    if es != [] {
      StepKeepsCopies(sys, es[0]);
      StepKeepsSystem(sys, es[0]);
      RunKeepsCopies(Step(sys, es[0]), es[1..]);
    }
  }

  /** In every reachable state all links of a chain carry the letter of the first. */
  lemma ChainCarriesOneLetter(start: System, es: seq<Event>, key: Key, links: seq<Id>)
    requires Fresh(start) && Chain(Run(start, es).rows.deliveries, key, links)
    ensures var deliveries := Run(start, es).rows.deliveries;
            forall i :: 0 <= i < |links| ==>
              && links[i] in deliveries && links[0] in deliveries
              && deliveries[links[i]].letter == deliveries[links[0]].letter
              && deliveries[links[i]].key == deliveries[links[0]].key
  {
    NothingSentInv(start.rows);
    RunKeepsCopies(start, es);
    var deliveries := Run(start, es).rows.deliveries;
    hide Run, Step, Inv, Copied;
    for i := 0 to |links|
      invariant forall k :: 0 <= k < i ==>
                  && links[k] in deliveries && links[0] in deliveries
                  && deliveries[links[k]].letter == deliveries[links[0]].letter
                  && deliveries[links[k]].key == deliveries[links[0]].key
    {
      LinkCopies(deliveries, links, i);
    }
  }

  lemma LinkCopies(deliveries: map<Id, Delivery>, links: seq<Id>, i: nat)
    requires Copied(deliveries) && i < |links| && LinkAt(deliveries, links, i)
    ensures i > 0 ==>
              && links[i - 1] in deliveries
              && deliveries[links[i]].letter == deliveries[links[i - 1]].letter
              && deliveries[links[i]].key == deliveries[links[i - 1]].key
  {
  }

  // ---------------------------------------------------------------- from queued to answered

  /** A queued delivery of an unanswered creator can be claimed, sent and answered, by any free worker. */
  lemma DeliveryPath(sys: System, d: Id, w: Worker, choice: ResponseState, claimed: Time, sent: Time, answered: Time)
    requires SystemInv(sys) && w !in sys.workers && Current(sys.rows, d, Queued) && choice in {Accepted, Declined}
    requires sys.rows.deliveries[d].key in sys.rows.responses ==>
               sys.rows.responses[sys.rows.deliveries[d].key].state == NoResponse
    ensures var row := sys.rows.deliveries[d];
            var after := Run(sys, [EClaim(w, d, claimed), ESent(w, sent), EConfirm(d, choice, answered)]);
            && after.workers == sys.workers
            && after.rows.deliveries == sys.rows.deliveries[d :=
                 row.(sendState := Sent, sendingAt := Some(claimed), sentAt := Some(sent), responseState := choice,
                      respondedAt := Some(answered))]
            && after.rows.responses == sys.rows.responses[row.key := Response(choice, Some(d), Some(answered))]
  {
    var row := sys.rows.deliveries[d];
    assert RowShape(row) && row.responseState == NoResponse by {
      hide Batched, Chained;
    }
    hide Inv, Exclusive;
    Delivers(sys, d, w, claimed, sent);
    var delivered := Step(Step(sys, EClaim(w, d, claimed)), ESent(w, sent));
    Answers(delivered, d, choice, answered);
    RunOfThree(sys, EClaim(w, d, claimed), ESent(w, sent), EConfirm(d, choice, answered));
    hide Step, Run;
  }

  lemma RunOfThree(sys: System, a: Event, b: Event, c: Event)
    ensures Run(sys, [a, b, c]) == Step(Step(Step(sys, a), b), c)
  {
    hide Step;
    assert [a, b, c][1..] == [b, c] && [b, c][1..] == [c] && [c][1..] == [];
    assert Run(sys, [a, b, c]) == Run(Step(sys, a), [b, c]);
    assert Run(Step(sys, a), [b, c]) == Run(Step(Step(sys, a), b), [c]);
    assert Run(Step(Step(sys, a), b), [c]) == Run(Step(Step(Step(sys, a), b), c), []);
  }

  lemma Delivers(sys: System, d: Id, w: Worker, claimed: Time, sent: Time)
    requires w !in sys.workers && Current(sys.rows, d, Queued) && RowShape(sys.rows.deliveries[d])
    ensures var row := sys.rows.deliveries[d];
            var after := Step(Step(sys, EClaim(w, d, claimed)), ESent(w, sent));
            && after.workers == sys.workers
            && after.rows.deliveries
               == sys.rows.deliveries[d := row.(sendState := Sent, sendingAt := Some(claimed), sentAt := Some(sent))]
            && after.rows.responses == sys.rows.responses
  {
    ClaimAndReleaseExactly(sys.rows, d, claimed);
    var held := Step(sys, EClaim(w, d, claimed));
    MarkExactly(held.rows, d, SmtpFailure("smtp_rejected", false), sent);
    assert held.workers == sys.workers[w := Holding(d)];
    assert held.workers - {w} == sys.workers;
    hide Claim, MarkSent;
  }

  lemma Answers(sys: System, d: Id, choice: ResponseState, answered: Time)
    requires Current(sys.rows, d, Sent) && sys.rows.deliveries[d].responseState == NoResponse
    requires choice in {Accepted, Declined}
    requires sys.rows.deliveries[d].key in sys.rows.responses ==>
               sys.rows.responses[sys.rows.deliveries[d].key].state == NoResponse
    ensures var row := sys.rows.deliveries[d];
            var after := Step(sys, EConfirm(d, choice, answered));
            && after.workers == sys.workers
            && after.rows.deliveries
               == sys.rows.deliveries[d := row.(responseState := choice, respondedAt := Some(answered))]
            && after.rows.responses == sys.rows.responses[row.key := Response(choice, Some(d), Some(answered))]
  {
  }
}
