/** What stays true for good: resend chains, finished batches and the first recorded response. */
module OutreachHistory {
  import opened Common
  import opened OutreachState
  import opened OutreachInvariant
  import opened OutreachRuns

  // ---------------------------------------------------------------- the resend chain

  /** If every delivery keeps its creator and its link, an older chain is a prefix of a newer one. */
  lemma {:induction false} ChainPrefix(deliveries: map<Id, Delivery>, after: map<Id, Delivery>, key: Key,
                                       links: seq<Id>, grown: seq<Id>, i: nat)
    requires Chain(deliveries, key, links) && Chain(after, key, grown) && i < |links|
    requires forall d :: d in DeliveriesOf(deliveries, key) ==>
               d in after && after[d].key == key && after[d].resends == deliveries[d].resends
    ensures i < |grown| && links[i] == grown[i]
    decreases i
  {
    var d := links[i];
    assert d in links;
    assert d in DeliveriesOf(deliveries, key) && d in DeliveriesOf(after, key) && d in grown;
    var p :| 0 <= p < |grown| && grown[p] == d;
    assert after[d].resends == deliveries[d].resends;
    assert LinkAt(deliveries, links, i) && LinkAt(after, grown, p);
    if i > 0 {
      ChainPrefix(deliveries, after, key, links, grown, i - 1);
      assert grown[p - 1] == grown[i - 1];
    }
  }

  /**
   The deliveries of a creator in a campaign form one chain: the first resends nothing, each other
   resends the one before, all but the last are superseded. Running on only appends to it.
   */
  lemma ChainOnlyGrows(start: System, es: seq<Event>, more: seq<Event>, d: Id) returns (links: seq<Id>, grown: seq<Id>)
    requires Fresh(start) && d in Run(start, es).rows.deliveries
    ensures var key := Run(start, es).rows.deliveries[d].key;
            && Chain(Run(start, es).rows.deliveries, key, links)
            && Chain(Run(Run(start, es), more).rows.deliveries, key, grown)
            && links <= grown
  {
    NothingSentInv(start.rows);
    RunKeepsSystem(start, es);
    var sys := Run(start, es);
    var key := sys.rows.deliveries[d].key;
    RunKeepsSystem(sys, more);
    var after := Run(sys, more);
    forall x | x in sys.rows.deliveries
      ensures x in after.rows.deliveries && RowKept(sys.rows.deliveries[x], after.rows.deliveries[x])
    {
      RunKeepsRow(sys, more, x);
    }
    hide Run, Step, Inv, Exclusive, Chain;
    assert HasChain(sys.rows.deliveries, key) && HasChain(after.rows.deliveries, key) by {
      ChainExists(sys.rows, d);
      ChainExists(after.rows, d);
    }
    links :| Chain(sys.rows.deliveries, key, links);
    grown :| Chain(after.rows.deliveries, key, grown);
    ChainIsPrefix(sys.rows.deliveries, after.rows.deliveries, key, links, grown);
  }

  lemma ChainExists(rows: Rows, d: Id)
    requires Inv(rows) && d in rows.deliveries
    ensures HasChain(rows.deliveries, rows.deliveries[d].key)
  {
    hide Shaped, Batched, Answered, HasChain;
    assert d in DeliveriesOf(rows.deliveries, rows.deliveries[d].key);
  }

  lemma ChainIsPrefix(deliveries: map<Id, Delivery>, after: map<Id, Delivery>, key: Key, links: seq<Id>, grown: seq<Id>)
    requires Chain(deliveries, key, links) && Chain(after, key, grown)
    requires forall d :: d in DeliveriesOf(deliveries, key) ==>
               d in after && after[d].key == key && after[d].resends == deliveries[d].resends
    ensures links <= grown
  {
    forall i | 0 <= i < |links| ensures i < |grown| && links[i] == grown[i] {
      ChainPrefix(deliveries, after, key, links, grown, i);
    }
    ChainPrefix(deliveries, after, key, links, grown, |links| - 1);
  }

  /** A creator has at most one delivery still in flight, and it is the end of the chain. */
  lemma OneOpenDelivery(rows: Rows, a: Id, b: Id)
    requires Inv(rows) && a in rows.deliveries && b in rows.deliveries
    requires rows.deliveries[a].key == rows.deliveries[b].key
    requires rows.deliveries[a].supersededAt.None? && rows.deliveries[b].supersededAt.None?
    ensures a == b
  {
    hide Shaped, Batched, Answered;
    var key := rows.deliveries[a].key;
    assert a in DeliveriesOf(rows.deliveries, key) && b in DeliveriesOf(rows.deliveries, key);
    var links :| Chain(rows.deliveries, key, links);
    assert a in links && b in links;
    hide Inv, DeliveriesOf;
    var i :| 0 <= i < |links| && links[i] == a;
    var j :| 0 <= j < |links| && links[j] == b;
    assert LinkAt(rows.deliveries, links, i) && LinkAt(rows.deliveries, links, j);
  }

  // ---------------------------------------------------------------- finished batches

  lemma StepKeepsMembers(sys: System, e: Event, b: Id)
    requires SystemInv(sys) && b in sys.rows.batches
    ensures b in Step(sys, e).rows.batches
    ensures MembersOf(Step(sys, e).rows.deliveries, b) == MembersOf(sys.rows.deliveries, b)
  {
    var after := Step(sys, e).rows;
    StepKeepsBatch(sys, e, b);
    forall d ensures d in MembersOf(after.deliveries, b) <==> d in MembersOf(sys.rows.deliveries, b) {
      if d in sys.rows.deliveries {
        StepKeepsRow(sys, e, d);
      } else if d in after.deliveries {
        NewRowsAreInNewBatches(sys, e, d);
      }
    }
  }

  lemma StepKeepsBatch(sys: System, e: Event, b: Id)
    requires b in sys.rows.batches
    ensures b in Step(sys, e).rows.batches
  {
    hide AggregateState, MembersOf, WithItems;
  }

  lemma NewRowsAreInNewBatches(sys: System, e: Event, d: Id)
    requires d in Step(sys, e).rows.deliveries && d !in sys.rows.deliveries
    ensures Step(sys, e).rows.deliveries[d].batch !in sys.rows.batches
  {
    hide AggregateState, MembersOf;
    if e.ECreate? {
      WithItemsAt(sys.rows.deliveries, e.campaign, e.batch, e.items);
      hide WithItems;
      var i :| 0 <= i < |e.items| && e.items[i].delivery == d;
      assert NewAt(Step(sys, e).rows.deliveries, e.campaign, e.batch, e.items[i]);
    }
  }

  lemma {:induction false} RunKeepsMembers(sys: System, es: seq<Event>, b: Id)
    requires SystemInv(sys) && b in sys.rows.batches
    ensures b in Run(sys, es).rows.batches
    ensures MembersOf(Run(sys, es).rows.deliveries, b) == MembersOf(sys.rows.deliveries, b)
    decreases |es|
  {
    hide Step, Inv, Exclusive, MembersOf;
    if es != [] {
      StepKeepsMembers(sys, es[0], b);
      StepKeepsSystem(sys, es[0]);
      RunKeepsMembers(Step(sys, es[0]), es[1..], b);
    }
  }

  /** Once sent, failed or partially failed, a batch stays exactly that. */
  lemma TerminalBatchIsFinal(sys: System, es: seq<Event>, b: Id)
    requires SystemInv(sys) && b in sys.rows.batches && TerminalBatch(sys.rows.batches[b].state)
    ensures b in Run(sys, es).rows.batches
    ensures Run(sys, es).rows.batches[b].state == sys.rows.batches[b].state
  {
    var after := Run(sys, es);
    RunKeepsMembers(sys, es, b);
    RunKeepsSystem(sys, es);
    AggregateMeaning(sys.rows, b);
    forall d | d in MembersOf(sys.rows.deliveries, b)
      ensures after.rows.deliveries[d].sendState == sys.rows.deliveries[d].sendState
    {
      RunKeepsRow(sys, es, d);
    }
    AggregateFrame(sys.rows.deliveries, after.rows.deliveries, b);
    hide Run, Step, Shaped, Answered, Chained, AggregateState, MembersOf;
  }

  // ---------------------------------------------------------------- what a crash leaves behind

  predicate HoldsIt(sys: System, w: Worker, d: Id) {
    Holds(sys, w) && sys.workers[w].delivery == d
  }

  /** SENDING with no worker to mark or release it. */
  ghost predicate Stuck(sys: System, d: Id) {
    InState(sys.rows, d, Sending) && forall w :: !HoldsIt(sys, w, d)
  }

  /** The worker that claimed `d` dies before it marks or releases it. */
  predicate CrashesOn(sys: System, e: Event, d: Id) {
    e.ECrash? && HoldsIt(sys, e.worker, d)
  }

  ghost predicate CrashedOn(sys: System, es: seq<Event>, d: Id)
    decreases |es|
  {
    es != [] && (CrashesOn(sys, es[0], d) || CrashedOn(Step(sys, es[0]), es[1..], d))
  }

  /** The worker marks or releases `d`. */
  predicate Finishes(sys: System, e: Event, d: Id) {
    match e
    case ESent(w, _) => HoldsIt(sys, w, d)
    case ERejected(w, _) => HoldsIt(sys, w, d)
    case EExhausted(w, _) => HoldsIt(sys, w, d)
    case EPreparationFailed(w, _) => HoldsIt(sys, w, d)
    case EReleased(w) => HoldsIt(sys, w, d)
    case _ => false
  }

  predicate Claims(sys: System, e: Event, d: Id) {
    e.EClaim? && e.worker !in sys.workers && e.delivery == d && InState(sys.rows, d, Queued)
  }

  /** What each transaction does to a delivery being SENDING. */
  lemma SendingAfter(sys: System, e: Event, d: Id)
    requires Exclusive(sys)
    ensures InState(Step(sys, e).rows, d, Sending)
            <==> Claims(sys, e, d) || (InState(sys.rows, d, Sending) && !Finishes(sys, e, d))
  {
    hide AggregateState, MembersOf, WithItems;
    if e.ECreate? {
      CreateSends(sys.rows, e.campaign, e.batch, e.items, d);
      hide CreateSendBatch;
    }
  }

  lemma CreateSends(rows: Rows, campaign: Id, batch: Id, items: seq<Item>, d: Id)
    ensures InState(CreateSendBatch(rows, campaign, batch, items).rows, d, Sending) <==> InState(rows, d, Sending)
  {
    if CreateSendBatch(rows, campaign, batch, items).outcome.Done? {
      WithItemsAt(rows.deliveries, campaign, batch, items);
      hide WithItems;
    }
  }

  /** Who holds `d` after a transaction. */
  lemma HolderOf(sys: System, e: Event, d: Id, w: Worker)
    requires Exclusive(sys)
    ensures HoldsIt(Step(sys, e), w, d)
            <==> (Claims(sys, e, d) && e.worker == w)
                 || (HoldsIt(sys, w, d) && !((Finishes(sys, e, d) || e.ECrash?) && e.worker == w))
  {
    hide Store, CreateSendBatch, ResendDelivery, ConfirmResponse, MarkSent, MarkFailed, ReleaseForRetry;
    if e.EClaim? {
      ClaimedWasQueued(sys.rows, e.delivery, e.now);
      hide Claim;
    }
  }

  lemma OneWorkerHolds(sys: System, e: Event, d: Id)
    requires Exclusive(sys)
    ensures forall v, w :: HoldsIt(sys, v, d) && HoldsIt(sys, w, d) ==> v == w
    ensures Finishes(sys, e, d) ==> HoldsIt(sys, e.worker, d)
    ensures forall w :: HoldsIt(sys, w, d) ==> d in sys.rows.deliveries && sys.rows.deliveries[d].sendState.Sending?
  {
  }

  /** A delivery gets stuck by such a crash and in no other way, and nothing frees it again. */
  lemma StepStuck(sys: System, e: Event, d: Id)
    requires SystemInv(sys)
    ensures Stuck(Step(sys, e), d) <==> Stuck(sys, d) || CrashesOn(sys, e, d)
  {
    SendingAfter(sys, e, d);
    forall w {
      HolderOf(sys, e, d, w);
    }
    OneWorkerHolds(sys, e, d);
    assert Claims(sys, e, d) ==> HoldsIt(Step(sys, e), e.worker, d) && !InState(sys.rows, d, Sending);
    hide Step, Inv, Exclusive, HoldsIt, InState, Finishes, Claims;
    if w: Worker :| HoldsIt(sys, w, d) {
      assert HoldsIt(Step(sys, e), w, d) || Finishes(sys, e, d) || CrashesOn(sys, e, d);
    }
  }

  /** Over whole runs: stuck at the end exactly if it was at the start or its holder crashed on the way. */
  lemma {:induction false} StuckByCrashExactly(sys: System, es: seq<Event>, d: Id)
    requires SystemInv(sys)
    ensures Stuck(Run(sys, es), d) <==> Stuck(sys, d) || CrashedOn(sys, es, d)
    decreases |es|
  {
    hide SystemInv, Step, Stuck, CrashesOn;
    if es != [] {
      StepStuck(sys, es[0], d);
      StepKeepsSystem(sys, es[0]);
      StuckByCrashExactly(Step(sys, es[0]), es[1..], d);
    }
  }

  /** The batch of a stuck delivery never finishes. */
  lemma StuckBatchNeverEnds(sys: System, es: seq<Event>, d: Id)
    requires SystemInv(sys) && Stuck(sys, d)
    ensures var after := Run(sys, es);
            && Stuck(after, d)
            && sys.rows.deliveries[d].batch in after.rows.batches
            && !TerminalBatch(after.rows.batches[sys.rows.deliveries[d].batch].state)
  {
    StuckByCrashExactly(sys, es, d);
    RunKeepsSystem(sys, es);
    RunKeepsRow(sys, es, d);
    var after, b := Run(sys, es), sys.rows.deliveries[d].batch;
    assert d in MembersOf(after.rows.deliveries, b);
    hide Run, Step, Shaped, Answered, Chained, AggregateState, CrashedOn;
    AggregateMeaning(after.rows, b);
  }

  // ---------------------------------------------------------------- the first response

  lemma StepKeepsResponse(sys: System, e: Event, k: Key)
    requires Recorded(sys.rows.responses, k)
    ensures k in Step(sys, e).rows.responses && Step(sys, e).rows.responses[k] == sys.rows.responses[k]
  {
    hide AggregateState, MembersOf, WithItems;
  }

  lemma {:induction false} RunKeepsResponse(sys: System, es: seq<Event>, k: Key)
    requires Recorded(sys.rows.responses, k)
    ensures k in Run(sys, es).rows.responses && Run(sys, es).rows.responses[k] == sys.rows.responses[k]
    decreases |es|
  {
    hide Step;
    if es != [] {
      StepKeepsResponse(sys, es[0], k);
      RunKeepsResponse(Step(sys, es[0]), es[1..], k);
    }
  }

  /**
   The first confirmed response wins: whatever runs afterwards, the record stays, the delivery it
   names stays sent and current, no other delivery of the chain ever carries a response, and every
   link of the chain shows and returns that response.
   */
  lemma FirstResponseWins(start: System, es: seq<Event>, more: seq<Event>, k: Key, d: Id,
                          choice: ResponseState, now: Time)
    requires Fresh(start)
    requires Recorded(Run(start, es).rows.responses, k)
    ensures var first := Run(start, es).rows.responses[k];
            var rows := Run(Run(start, es), more).rows;
            && k in rows.responses && rows.responses[k] == first
            && FinalDelivery(rows, k)
            && (d in rows.deliveries && rows.deliveries[d].key == k ==>
                  && (rows.deliveries[d].responseState.NoResponse? <==> Some(d) != first.finalDelivery)
                  && ShowConfirmation(rows, d) == Final(first.state)
                  && (!choice.NoResponse? ==>
                        ConfirmResponse(rows, d, choice, now) == Reply(rows, Done(Final(first.state))))
                  && !Resendable(rows, d))
  {
    NothingSentInv(start.rows);
    RunKeepsSystem(start, es);
    RunKeepsSystem(Run(start, es), more);
    RunKeepsResponse(Run(start, es), more, k);
    hide Run, Step, Shaped, Batched, Chained, Exclusive;
  }

  /** What the response page shows is what confirming does, and the first confirmation is what all pages show next. */
  lemma ShownIsConfirmed(rows: Rows, d: Id, choice: ResponseState, now: Time, other: Id)
    requires !choice.NoResponse?
    ensures var reply := ConfirmResponse(rows, d, choice, now);
            match ShowConfirmation(rows, d)
            case Confirmable =>
              && reply.outcome == Done(Final(choice))
              && (other in rows.deliveries && rows.deliveries[other].key == rows.deliveries[d].key ==>
                    ShowConfirmation(reply.rows, other) == Final(choice))
              && reply.rows.responses[rows.deliveries[d].key].finalDelivery == Some(d)
            case shown => reply == Reply(rows, Done(shown))
  {
  }

  /** A response is only ever recorded for a delivery that was sent and not resent. */
  lemma ResponseNeedsSentDelivery(sys: System, e: Event, k: Key)
    requires !Recorded(sys.rows.responses, k) && Recorded(Step(sys, e).rows.responses, k)
    ensures && e.EConfirm? && !e.choice.NoResponse? && e.delivery in sys.rows.deliveries
            && sys.rows.deliveries[e.delivery].key == k
            && Eligible(sys.rows.deliveries[e.delivery])
            && Step(sys, e).rows.responses[k] == Response(e.choice, Some(e.delivery), Some(e.now))
  {
    hide AggregateState, MembersOf, WithItems;
  }
}
