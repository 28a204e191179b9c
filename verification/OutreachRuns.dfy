/**
 Whole runs of the Outreach tables with any number of workers. A worker that claimed a delivery
 holds it until it marks it, releases it or crashes; every other transaction may fall in between.
 */
module OutreachRuns {
  import opened Common
  import opened OutreachState
  import opened OutreachInvariant

  type Worker = nat

  /** Where a worker stands: between claim and mark, or between the two marks of a preparation failure. */
  datatype Hold = Holding(delivery: Id) | Repeating(delivery: Id)

  datatype System = System(rows: Rows, workers: map<Worker, Hold>)

  datatype Event =
    | EClaim(worker: Worker, delivery: Id, now: Time)
    | ESent(worker: Worker, now: Time)
    | ERejected(worker: Worker, now: Time)
    | EExhausted(worker: Worker, now: Time)
    | EPreparationFailed(worker: Worker, now: Time)
    | ERepeated(worker: Worker, now: Time)
    | EReleased(worker: Worker)
    | ECrash(worker: Worker)
    | ECreate(campaign: Id, batch: Id, items: seq<Item>)
    | EResend(delivery: Id, replacement: Id, batch: Id, now: Time)
    | EConfirm(delivery: Id, choice: ResponseState, now: Time)

  predicate Holds(sys: System, w: Worker) {
    w in sys.workers && sys.workers[w].Holding?
  }

  ghost function Step(sys: System, e: Event): System {
    match e
    case EClaim(w, d, now) =>
      if w in sys.workers then sys
      else
        var reply := Claim(sys.rows, d, now);
        System(reply.rows, if reply.outcome == Done(true) then sys.workers[w := Holding(d)] else sys.workers)
    case ESent(w, now) =>
      if !Holds(sys, w) then sys
      else System(MarkSent(sys.rows, sys.workers[w].delivery, now).rows, sys.workers - {w})
    case ERejected(w, now) =>
      if !Holds(sys, w) then sys
      else System(MarkFailed(sys.rows, sys.workers[w].delivery, PERMANENT, now).rows, sys.workers - {w})
    case EExhausted(w, now) =>
      if !Holds(sys, w) then sys
      else System(MarkFailed(sys.rows, sys.workers[w].delivery, TEMPORARY, now).rows, sys.workers - {w})
    case EPreparationFailed(w, now) =>
      if !Holds(sys, w) then sys
      else
        var d := sys.workers[w].delivery;
        System(MarkFailed(sys.rows, d, PREPARATION, now).rows, sys.workers[w := Repeating(d)])
    case ERepeated(w, now) =>
      if w !in sys.workers || !sys.workers[w].Repeating? then sys
      else System(MarkFailed(sys.rows, sys.workers[w].delivery, PERMANENT, now).rows, sys.workers - {w})
    case EReleased(w) =>
      if !Holds(sys, w) then sys
      else System(ReleaseForRetry(sys.rows, sys.workers[w].delivery).rows, sys.workers - {w})
    case ECrash(w) => sys.(workers := sys.workers - {w})
    case ECreate(campaign, batch, items) => sys.(rows := CreateSendBatch(sys.rows, campaign, batch, items).rows)
    case EResend(d, replacement, batch, now) => sys.(rows := ResendDelivery(sys.rows, d, replacement, batch, now).rows)
    case EConfirm(d, choice, now) => sys.(rows := ConfirmResponse(sys.rows, d, choice, now).rows)
  }

  ghost function Run(sys: System, es: seq<Event>): System
    decreases |es|
  {
    if es == [] then sys else Run(Step(sys, es[0]), es[1..])
  }

  /** Every holder's delivery is SENDING and held by nobody else; a repeated mark finds it FAILED. */
  ghost predicate Exclusive(sys: System) {
    && (forall w :: w in sys.workers ==>
          && sys.workers[w].delivery in sys.rows.deliveries
          && sys.rows.deliveries[sys.workers[w].delivery].sendState
             == (if sys.workers[w].Holding? then Sending else Failed))
    && forall v, w :: Holds(sys, v) && Holds(sys, w) && v != w ==> sys.workers[v].delivery != sys.workers[w].delivery
  }

  ghost predicate SystemInv(sys: System) {
    Inv(sys.rows) && Exclusive(sys)
  }

  ghost predicate Fresh(sys: System) {
    NothingSent(sys.rows) && sys.workers == map[]
  }

  // ---------------------------------------------------------------- invariance

  lemma StepKeepsRows(sys: System, e: Event)
    requires Inv(sys.rows)
    ensures Inv(Step(sys, e).rows)
  {
    hide Inv, Claim, MarkSent, MarkFailed, ReleaseForRetry, CreateSendBatch, ResendDelivery, ConfirmResponse;
    match e
    case EClaim(w, d, now) => ClaimKeeps(sys.rows, d, now);
    case ESent(w, now) => if Holds(sys, w) { MarkSentKeeps(sys.rows, sys.workers[w].delivery, now); }
    case ERejected(w, now) => if Holds(sys, w) { MarkFailedKeeps(sys.rows, sys.workers[w].delivery, PERMANENT, now); }
    case EExhausted(w, now) => if Holds(sys, w) { MarkFailedKeeps(sys.rows, sys.workers[w].delivery, TEMPORARY, now); }
    case EPreparationFailed(w, now) =>
      if Holds(sys, w) { MarkFailedKeeps(sys.rows, sys.workers[w].delivery, PREPARATION, now); }
    case ERepeated(w, now) =>
      if w in sys.workers { MarkFailedKeeps(sys.rows, sys.workers[w].delivery, PERMANENT, now); }
    case EReleased(w) => if Holds(sys, w) { ReleaseKeeps(sys.rows, sys.workers[w].delivery); }
    case ECrash(w) =>
    case ECreate(campaign, batch, items) => CreateKeeps(sys.rows, campaign, batch, items);
    case EResend(d, replacement, batch, now) => ResendKeeps(sys.rows, d, replacement, batch, now);
    case EConfirm(d, choice, now) => ConfirmKeeps(sys.rows, d, choice, now);
  }

  /** What any transaction leaves alone, seen from one delivery row. */
  ghost predicate RowKept(was: Delivery, now: Delivery) {
    && now.key == was.key && now.batch == was.batch && now.resends == was.resends && now.letter == was.letter
    && (Terminal(was.sendState) ==> now.sendState == was.sendState)
    && (was.supersededAt.Some? ==> now == was)
    && (!was.responseState.NoResponse? ==> now == was)
  }

  lemma NewRowsOnlyAdd(rows: Rows, campaign: Id, batch: Id, items: seq<Item>, d: Id)
    requires d in rows.deliveries
    ensures var after := CreateSendBatch(rows, campaign, batch, items).rows;
            d in after.deliveries && after.deliveries[d] == rows.deliveries[d]
  {
    if CreateSendBatch(rows, campaign, batch, items).outcome.Done? {
      WithItemsAt(rows.deliveries, campaign, batch, items);
      hide WithItems;
    }
  }

  lemma StepKeepsRow(sys: System, e: Event, d: Id)
    requires Inv(sys.rows) && d in sys.rows.deliveries
    ensures d in Step(sys, e).rows.deliveries
    ensures RowKept(sys.rows.deliveries[d], Step(sys, e).rows.deliveries[d])
  {
    AnsweredWasSent(sys.rows, d);
    hide Inv;
    if e.ECreate? {
      NewRowsOnlyAdd(sys.rows, e.campaign, e.batch, e.items, d);
      hide CreateSendBatch;
    } else if e.EResend? {
      ResendKeepsRow(sys.rows, e.delivery, e.replacement, e.batch, e.now, d);
      hide ResendDelivery;
    } else if e.EConfirm? {
      ConfirmKeepsRow(sys.rows, e.delivery, e.choice, e.now, d);
      hide ConfirmResponse;
    } else {
      WorkerKeepsRow(sys, e, d);
      hide Step;
    }
  }

  lemma AnsweredWasSent(rows: Rows, d: Id)
    requires Inv(rows) && d in rows.deliveries
    ensures !rows.deliveries[d].responseState.NoResponse? ==> rows.deliveries[d].sendState.Sent?
  {
    hide Batched, Chained, Shaped;
  }

  lemma ResendKeepsRow(rows: Rows, resent: Id, replacement: Id, batch: Id, now: Time, d: Id)
    requires d in rows.deliveries
    ensures var after := ResendDelivery(rows, resent, replacement, batch, now).rows;
            d in after.deliveries && RowKept(rows.deliveries[d], after.deliveries[d])
  {
  }

  lemma ConfirmKeepsRow(rows: Rows, confirmed: Id, choice: ResponseState, now: Time, d: Id)
    requires d in rows.deliveries
    ensures var after := ConfirmResponse(rows, confirmed, choice, now).rows;
            d in after.deliveries && RowKept(rows.deliveries[d], after.deliveries[d])
  {
  }

  lemma WorkerKeepsRow(sys: System, e: Event, d: Id)
    requires d in sys.rows.deliveries && !e.ECreate? && !e.EResend? && !e.EConfirm?
    requires !sys.rows.deliveries[d].responseState.NoResponse? ==> sys.rows.deliveries[d].sendState.Sent?
    ensures d in Step(sys, e).rows.deliveries
    ensures RowKept(sys.rows.deliveries[d], Step(sys, e).rows.deliveries[d])
  {
    hide AggregateState, MembersOf;
  }

  /** A worker's own transactions touch its delivery only. */
  lemma WorkerTouchesOwn(sys: System, e: Event, d: Id)
    requires d in sys.rows.deliveries
    requires match e
             case EClaim(w, claimed, _) => w in sys.workers || claimed != d
             case ESent(w, _) => !Holds(sys, w) || sys.workers[w].delivery != d
             case ERejected(w, _) => !Holds(sys, w) || sys.workers[w].delivery != d
             case EExhausted(w, _) => !Holds(sys, w) || sys.workers[w].delivery != d
             case EPreparationFailed(w, _) => !Holds(sys, w) || sys.workers[w].delivery != d
             case ERepeated(w, _) => w !in sys.workers || sys.workers[w].delivery != d
             case EReleased(w) => !Holds(sys, w) || sys.workers[w].delivery != d
             case _ => true
    ensures d in Step(sys, e).rows.deliveries
    ensures Step(sys, e).rows.deliveries[d].sendState == sys.rows.deliveries[d].sendState
  {
    hide AggregateState, MembersOf, DeliveriesOf, WithItems;
    if e.ECreate? {
      NewRowsOnlyAdd(sys.rows, e.campaign, e.batch, e.items, d);
      hide CreateSendBatch;
    }
  }

  lemma StepKeepsExclusive(sys: System, e: Event)
    requires SystemInv(sys)
    ensures Exclusive(Step(sys, e))
  {
    var after := Step(sys, e);
    forall w | w in after.workers
      ensures after.workers[w].delivery in after.rows.deliveries
      ensures after.rows.deliveries[after.workers[w].delivery].sendState
              == if after.workers[w].Holding? then Sending else Failed
    {
      HolderAfter(sys, e, w);
    }
    HoldersDistinct(sys, e);
    hide Inv, Step;
  }

  /** A claim is the only step that adds a holder, and it finds a delivery nobody holds. */
  lemma HoldersDistinct(sys: System, e: Event)
    requires Exclusive(sys)
    ensures var after := Step(sys, e);
            forall v, w :: Holds(after, v) && Holds(after, w) && v != w ==>
              after.workers[v].delivery != after.workers[w].delivery
  {
    hide Claim, MarkSent, MarkFailed, ReleaseForRetry, CreateSendBatch, ResendDelivery, ConfirmResponse;
    var after := Step(sys, e);
    if e.EClaim? && e.worker !in sys.workers {
      ClaimedWasQueued(sys.rows, e.delivery, e.now);
    } else {
      assert forall w :: Holds(after, w) ==> Holds(sys, w) && after.workers[w] == sys.workers[w];
    }
  }

  lemma ClaimedWasQueued(rows: Rows, d: Id, now: Time)
    ensures Claim(rows, d, now).outcome == Done(true) <==> InState(rows, d, Queued)
    ensures InState(rows, d, Queued) ==> Claim(rows, d, now).rows.deliveries == rows.deliveries[d :=
              rows.deliveries[d].(sendState := Sending, sendingAt := Some(now))]
  {
  }

  lemma HolderAfter(sys: System, e: Event, w: Worker)
    requires SystemInv(sys) && w in Step(sys, e).workers
    ensures var after := Step(sys, e);
            && after.workers[w].delivery in after.rows.deliveries
            && after.rows.deliveries[after.workers[w].delivery].sendState
               == if after.workers[w].Holding? then Sending else Failed
  {
    hide Batched, Answered, Chained, AggregateState, MembersOf, DeliveriesOf, WithItems;
    if w in sys.workers && sys.workers[w] == Step(sys, e).workers[w] {
      var d := sys.workers[w].delivery;
      if e.ERepeated? && e.worker in sys.workers && sys.workers[e.worker].delivery == d {
        assert Step(sys, e).rows == sys.rows || sys.workers[e.worker].Holding?;
      } else if e.EClaim? && e.delivery == d {
        ClaimedWasQueued(sys.rows, d, e.now);
        assert Step(sys, e).rows == sys.rows;
      } else if sys.workers[w].Repeating? {
        StepKeepsRow(sys, e, d);
      } else {
        hide Inv;
        WorkerTouchesOwn(sys, e, d);
      }
    }
  }

  lemma StepKeepsSystem(sys: System, e: Event)
    requires SystemInv(sys)
    ensures SystemInv(Step(sys, e))
  {
    hide Inv, Exclusive, Step;
    StepKeepsRows(sys, e);
    StepKeepsExclusive(sys, e);
  }

  /** Every interleaving of workers, crashes, sends, resends and responses keeps the invariant. */
  lemma {:induction false} RunKeepsSystem(sys: System, es: seq<Event>)
    requires SystemInv(sys)
    ensures SystemInv(Run(sys, es))
    decreases |es|
  {
    hide SystemInv, Step;
    if es != [] {
      StepKeepsSystem(sys, es[0]);
      RunKeepsSystem(Step(sys, es[0]), es[1..]);
    }
  }

  // ---------------------------------------------------------------- mutual exclusion

  /**
   Whoever holds a delivery finds it SENDING and current: its mark or release takes effect. Only
   the second mark after a preparation failure finds nothing to do, and changes nothing.
   */
  lemma HolderSucceeds(start: System, es: seq<Event>, w: Worker, failure: SmtpFailure, now: Time)
    requires Fresh(start) && SafeFailure(failure)
    ensures var sys := Run(start, es);
            w in sys.workers ==>
              var d := sys.workers[w].delivery;
              if sys.workers[w].Holding? then
                && InState(sys.rows, d, Sending)
                && MarkSent(sys.rows, d, now).outcome == Done(true)
                && MarkFailed(sys.rows, d, failure, now).outcome == Done(true)
                && ReleaseForRetry(sys.rows, d).outcome == Done(true)
              else
                MarkFailed(sys.rows, d, failure, now) == Reply(sys.rows, Done(false))
  {
    NothingSentInv(start.rows);
    RunKeepsSystem(start, es);
    hide Run, Step, Batched, Answered, Chained, Store;
  }

  /** At most one worker is between claiming a delivery and marking or releasing it. */
  lemma OneHolder(start: System, es: seq<Event>, v: Worker, w: Worker)
    requires Fresh(start)
    ensures var sys := Run(start, es);
            Holds(sys, v) && Holds(sys, w) && sys.workers[v].delivery == sys.workers[w].delivery ==> v == w
  {
    NothingSentInv(start.rows);
    RunKeepsSystem(start, es);
    hide Run, Step, Inv;
  }

  // ---------------------------------------------------------------- what is final

  lemma RowKeptTransitive(a: Delivery, b: Delivery, c: Delivery)
    requires RowKept(a, b) && RowKept(b, c)
    ensures RowKept(a, c)
  {
  }

  /**
   Over any run: SENT and FAILED are absorbing, a superseded or answered delivery is frozen, and no
   delivery ever leaves its creator, batch or place in the resend chain.
   */
  lemma {:induction false} RunKeepsRow(sys: System, es: seq<Event>, d: Id)
    requires SystemInv(sys) && d in sys.rows.deliveries
    ensures d in Run(sys, es).rows.deliveries
    ensures RowKept(sys.rows.deliveries[d], Run(sys, es).rows.deliveries[d])
    decreases |es|
  {
    if es != [] {
      hide Step, Inv, Exclusive, RowKept;
      var next := Step(sys, es[0]);
      StepKeepsRow(sys, es[0], d);
      StepKeepsSystem(sys, es[0]);
      RunKeepsRow(next, es[1..], d);
      RowKeptTransitive(sys.rows.deliveries[d], next.rows.deliveries[d], Run(sys, es).rows.deliveries[d]);
    }
  }
}
