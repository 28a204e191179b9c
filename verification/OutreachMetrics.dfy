/** Campaign metrics and the campaign state, computed from delivery rows and checked against the protocol. */
module OutreachMetrics {
  import opened Common
  import opened OutreachState
  import opened OutreachInvariant
  import opened OutreachRuns
  import OutreachHistory

  datatype Projection = Projection(creator: Id, sendState: SendState, responseState: ResponseState, isCurrent: bool)

  datatype Tally = Tally(sent: bool, currentFailed: bool, responses: set<ResponseState>)

  datatype Metrics = Metrics(sentCreators: int, accepted: int, declined: int, noResponse: int, failed: int,
                             responseRate: real)

  datatype CampaignState = NotStarted | CampaignQueued | CampaignSending | Completed | CampaignFailed

  // ---------------------------------------------------------------- what is counted

  function SentCreators(rows: seq<Projection>): set<Id> {
    set i | 0 <= i < |rows| && rows[i].sendState.Sent? :: rows[i].creator
  }

  function Answering(rows: seq<Projection>, state: ResponseState): set<Id> {
    set i | 0 <= i < |rows| && rows[i].responseState == state :: rows[i].creator
  }

  function FailingCreators(rows: seq<Projection>): set<Id> {
    set i | 0 <= i < |rows| && rows[i].isCurrent && rows[i].sendState.Failed? :: rows[i].creator
  }

  function AcceptedCreators(rows: seq<Projection>): set<Id> {
    SentCreators(rows) * Answering(rows, Accepted)
  }

  function DeclinedCreators(rows: seq<Projection>): set<Id> {
    SentCreators(rows) * Answering(rows, Declined)
  }

  function FailedCreators(rows: seq<Projection>): set<Id> {
    FailingCreators(rows) - SentCreators(rows) - Answering(rows, Accepted) - Answering(rows, Declined)
  }

  function Rate(responded: int, sent: int): real
    requires sent >= 0
  {
    if sent == 0 then 0.0 else responded as real / sent as real
  }

  function Summary(sent: set<Id>, accepted: set<Id>, declined: set<Id>, failed: set<Id>): Outcome<Metrics> {
    if accepted * declined != {} then Raised("a Creator cannot have conflicting final responses")
    else
      var responded := |accepted| + |declined|;
      Done(Metrics(|sent|, |accepted|, |declined|, |sent| - responded, |failed|, Rate(responded, |sent|)))
  }

  function MetricsOf(rows: seq<Projection>): Outcome<Metrics> {
    Summary(SentCreators(rows), AcceptedCreators(rows), DeclinedCreators(rows), FailedCreators(rows))
  }

  // ---------------------------------------------------------------- the accumulating pass

  predicate TallyOf(rows: seq<Projection>, creator: Id, tally: Tally) {
    && (tally.sent <==> creator in SentCreators(rows))
    && (tally.currentFailed <==> creator in FailingCreators(rows))
    && (Accepted in tally.responses <==> creator in Answering(rows, Accepted))
    && (Declined in tally.responses <==> creator in Answering(rows, Declined))
    && NoResponse !in tally.responses
  }

  function Added(tally: Tally, row: Projection): Tally {
    Tally(tally.sent || row.sendState.Sent?,
          tally.currentFailed || (row.isCurrent && row.sendState.Failed?),
          if row.responseState.NoResponse? then tally.responses else tally.responses + {row.responseState})
  }

  lemma CountedOneMore(rows: seq<Projection>, n: nat, creator: Id, tally: Tally)
    requires n < |rows| && TallyOf(rows[..n], creator, tally)
    ensures TallyOf(rows[..n + 1], creator, if rows[n].creator == creator then Added(tally, rows[n]) else tally)
  {
    var was, now := rows[..n], rows[..n + 1];
    assert now == was + [rows[n]];
    forall c
      ensures c in SentCreators(now)
        <==> (c in SentCreators(was) || (c == rows[n].creator && rows[n].sendState.Sent?))
    {
      assert now[n] == rows[n] && forall i :: 0 <= i < n ==> now[i] == was[i];
    }
    forall c
      ensures c in FailingCreators(now)
        <==> (c in FailingCreators(was) || (c == rows[n].creator && rows[n].isCurrent && rows[n].sendState.Failed?))
    {
      assert now[n] == rows[n] && forall i :: 0 <= i < n ==> now[i] == was[i];
    }
    forall c, state
      ensures c in Answering(now, state)
        <==> (c in Answering(was, state) || (c == rows[n].creator && rows[n].responseState == state))
    {
      assert now[n] == rows[n] && forall i :: 0 <= i < n ==> now[i] == was[i];
    }
  }

  function CreatorsUpTo(rows: seq<Projection>, n: nat): set<Id>
    requires n <= |rows|
  {
    set i | 0 <= i < n :: rows[i].creator
  }

  /** The pass over the rows: one accumulator per creator, created on first sight. */
  method Tallies(rows: seq<Projection>) returns (creators: map<Id, Tally>)
    ensures creators.Keys == CreatorsUpTo(rows, |rows|)
    ensures forall c :: c in creators ==> TallyOf(rows, c, creators[c])
  {
    creators := map[];
    for n := 0 to |rows|
      invariant creators.Keys == CreatorsUpTo(rows, n)
      invariant forall c :: c in creators ==> TallyOf(rows[..n], c, creators[c])
    {
      var row := rows[n];
      var tally := if row.creator in creators then creators[row.creator] else Tally(false, false, {});
      assert row.creator !in creators ==> TallyOf(rows[..n], row.creator, tally);
      forall c | c in creators || c == row.creator
        ensures var t := if c in creators then creators[c] else tally;
                TallyOf(rows[..n + 1], c, if c == row.creator then Added(t, row) else t)
      {
        CountedOneMore(rows, n, c, if c in creators then creators[c] else tally);
      }
      hide TallyOf;
      if row.sendState.Sent? {
        tally := tally.(sent := true);
      }
      if row.isCurrent && row.sendState.Failed? {
        tally := tally.(currentFailed := true);
      }
      if row.responseState.Accepted? || row.responseState.Declined? {
        tally := tally.(responses := tally.responses + {row.responseState});
      }
      creators := creators[row.creator := tally];
    }
    assert rows[..|rows|] == rows;
  }

  method CalculateCampaignMetrics(rows: seq<Projection>) returns (outcome: Outcome<Metrics>)
    ensures outcome == MetricsOf(rows)
  {
    var creators := Tallies(rows);
    TalliesClassify(rows, creators);
    hide *;
    outcome := Summarize(SentIn(creators), AnsweringIn(creators, Accepted), AnsweringIn(creators, Declined),
      FailedIn(creators));
    MetricsFromClasses(rows);
  }

  lemma MetricsFromClasses(rows: seq<Projection>)
    ensures MetricsOf(rows)
            == Summary(SentCreators(rows), AcceptedCreators(rows), DeclinedCreators(rows), FailedCreators(rows))
  {
    hide Summary, SentCreators, AcceptedCreators, DeclinedCreators, FailedCreators;
  }

  method Summarize(sent: set<Id>, accepted: set<Id>, declined: set<Id>, failed: set<Id>)
    returns (outcome: Outcome<Metrics>)
    ensures outcome == Summary(sent, accepted, declined, failed)
  {
    hide Rate;
    if accepted * declined != {} {
      return Raised("a Creator cannot have conflicting final responses");
    }
    var responded := |accepted| + |declined|;
    return Done(Metrics(|sent|, |accepted|, |declined|, |sent| - responded, |failed|, Rate(responded, |sent|)));
  }

  function SentIn(creators: map<Id, Tally>): set<Id> {
    set c | c in creators && creators[c].sent
  }

  function AnsweringIn(creators: map<Id, Tally>, state: ResponseState): set<Id> {
    set c | c in SentIn(creators) && state in creators[c].responses
  }

  function FailedIn(creators: map<Id, Tally>): set<Id> {
    set c | c in creators && creators[c].currentFailed && c !in SentIn(creators) && creators[c].responses == {}
  }

  /** The accumulators decide every class. */
  lemma TalliesClassify(rows: seq<Projection>, creators: map<Id, Tally>)
    requires creators.Keys == CreatorsUpTo(rows, |rows|)
    requires forall c :: c in creators ==> TallyOf(rows, c, creators[c])
    ensures SentIn(creators) == SentCreators(rows)
    ensures AnsweringIn(creators, Accepted) == AcceptedCreators(rows)
    ensures AnsweringIn(creators, Declined) == DeclinedCreators(rows)
    ensures FailedIn(creators) == FailedCreators(rows)
  {
    forall c | c in creators
      ensures creators[c].responses == {} <==> Accepted !in creators[c].responses && Declined !in creators[c].responses
    {
      NoResponses(creators[c].responses);
    }
    forall c | c in SentCreators(rows) + FailingCreators(rows) + Answering(rows, Accepted) + Answering(rows, Declined)
      ensures c in creators
    {
    }
    hide SentCreators, FailingCreators, Answering, CreatorsUpTo;
    assert SentIn(creators) == SentCreators(rows);
  }

  lemma NoResponses(responses: set<ResponseState>)
    requires NoResponse !in responses
    ensures responses == {} <==> Accepted !in responses && Declined !in responses
  {
    if responses != {} {
      var r :| r in responses;
      match r
      case NoResponse => assert false;
      case Accepted =>
      case Declined =>
    }
  }

  // ---------------------------------------------------------------- the campaign state

  function CurrentStates(rows: seq<Projection>): set<SendState> {
    set i | 0 <= i < |rows| && rows[i].isCurrent :: rows[i].sendState
  }

  function DeriveCampaignState(rows: seq<Projection>): CampaignState {
    if rows == [] then NotStarted
    else if Sending in CurrentStates(rows) then CampaignSending
    else if Queued in CurrentStates(rows) then CampaignQueued
    else if exists i :: 0 <= i < |rows| && rows[i].sendState.Sent? then Completed
    else if Failed in CurrentStates(rows) then CampaignFailed
    else NotStarted
  }

  // ---------------------------------------------------------------- the rows of a reachable campaign

  ghost predicate Listed(rows: Rows, campaign: Id, ids: seq<Id>) {
    forall d :: d in ids <==> d in rows.deliveries && rows.deliveries[d].key.campaign == campaign
  }

  function ResponseOf(rows: Rows, key: Key): ResponseState {
    if key in rows.responses then rows.responses[key].state else NoResponse
  }

  /** The campaign's deliveries as the campaign page hands them to the metrics. */
  ghost function Projected(rows: Rows, ids: seq<Id>): seq<Projection>
    requires forall d :: d in ids ==> d in rows.deliveries
  {
    seq(|ids|, i requires 0 <= i < |ids| =>
      var row := rows.deliveries[ids[i]];
      Projection(row.key.creator, row.sendState, ResponseOf(rows, row.key), row.supersededAt.None?))
  }

  /** The creators of a campaign with a sent delivery, straight from the tables. */
  ghost function EverSent(rows: Rows, campaign: Id): set<Id> {
    set d | d in rows.deliveries && rows.deliveries[d].key.campaign == campaign && rows.deliveries[d].sendState.Sent?
      :: rows.deliveries[d].key.creator
  }

  /** The creators of a campaign with this recorded final response, straight from the tables. */
  ghost function RecordedAs(rows: Rows, campaign: Id, state: ResponseState): set<Id> {
    set k | k in rows.responses && k.campaign == campaign && rows.responses[k].state == state :: k.creator
  }

  /** The creators of a campaign whose current delivery has failed. */
  ghost function FailingNow(rows: Rows, campaign: Id): set<Id> {
    set d | d in rows.deliveries && rows.deliveries[d].key.campaign == campaign
            && rows.deliveries[d].supersededAt.None? && rows.deliveries[d].sendState.Failed?
      :: rows.deliveries[d].key.creator
  }

  lemma ProjectedFailing(rows: Rows, campaign: Id, ids: seq<Id>)
    requires Listed(rows, campaign, ids)
    ensures FailingCreators(Projected(rows, ids)) == FailingNow(rows, campaign)
  {
    var list := Projected(rows, ids);
    forall c | c in FailingNow(rows, campaign) ensures c in FailingCreators(list) {
      var d :| d in rows.deliveries && rows.deliveries[d].key == Key(campaign, c)
               && rows.deliveries[d].supersededAt.None? && rows.deliveries[d].sendState.Failed?;
      assert d in ids;
      var i :| 0 <= i < |ids| && ids[i] == d;
      assert list[i].creator == c && list[i].isCurrent && list[i].sendState.Failed?;
    }
    forall c | c in FailingCreators(list) ensures c in FailingNow(rows, campaign) {
      var i :| 0 <= i < |list| && list[i].isCurrent && list[i].sendState.Failed? && list[i].creator == c;
      assert ids[i] in ids;
    }
  }

  lemma ProjectedSent(rows: Rows, campaign: Id, ids: seq<Id>)
    requires Listed(rows, campaign, ids)
    ensures SentCreators(Projected(rows, ids)) == EverSent(rows, campaign)
  {
    var list := Projected(rows, ids);
    forall c | c in EverSent(rows, campaign) ensures c in SentCreators(list) {
      var d :| d in rows.deliveries && rows.deliveries[d].key == Key(campaign, c) && rows.deliveries[d].sendState.Sent?;
      assert d in ids;
      var i :| 0 <= i < |ids| && ids[i] == d;
      assert list[i].creator == c && list[i].sendState.Sent?;
    }
    forall c | c in SentCreators(list) ensures c in EverSent(rows, campaign) {
      var i :| 0 <= i < |list| && list[i].sendState.Sent? && list[i].creator == c;
      assert ids[i] in ids;
    }
  }

  lemma ProjectedAnswers(rows: Rows, campaign: Id, ids: seq<Id>, state: ResponseState)
    requires Answered(rows) && Listed(rows, campaign, ids) && !state.NoResponse?
    ensures Answering(Projected(rows, ids), state) == RecordedAs(rows, campaign, state)
    ensures RecordedAs(rows, campaign, state) <= EverSent(rows, campaign)
  {
    var list := Projected(rows, ids);
    forall c | c in RecordedAs(rows, campaign, state)
      ensures c in Answering(list, state) && c in EverSent(rows, campaign)
    {
      var k := Key(campaign, c);
      assert Recorded(rows.responses, k) && FinalDelivery(rows, k);
      var d := rows.responses[k].finalDelivery.value;
      assert d in ids;
      var i :| 0 <= i < |ids| && ids[i] == d;
      assert list[i].creator == c && list[i].responseState == state;
    }
    forall c | c in Answering(list, state) ensures c in RecordedAs(rows, campaign, state) {
      var i :| 0 <= i < |list| && list[i].responseState == state && list[i].creator == c;
      assert ids[i] in ids;
      assert Key(campaign, c) in rows.responses;
    }
  }

  ghost predicate ExactMetrics(rows: Rows, campaign: Id, m: Metrics) {
    var sent, yes, no :=
      EverSent(rows, campaign), RecordedAs(rows, campaign, Accepted), RecordedAs(rows, campaign, Declined);
    && m.sentCreators == |sent| && m.accepted == |yes| && m.declined == |no|
    && m.noResponse == |sent - yes - no|
    && m.accepted + m.declined + m.noResponse == m.sentCreators
    && m.failed == |FailingNow(rows, campaign) - sent|
    && RateIs(m.responseRate, m.accepted + m.declined, m.sentCreators)
  }

  /** The rate is the responses per creator sent to, and zero if there is none. */
  predicate RateIs(rate: real, responded: int, sent: int) {
    0.0 <= rate <= 1.0 && rate * sent as real == responded as real && (sent == 0 ==> rate == 0.0)
  }

  /**
   On the rows of any reachable campaign the metrics never raise, and they count what the tables
   record: every response once, every creator in one class, as failed those never sent to whose current delivery
   has failed, and as the rate the responses per creator sent to.
   */
  lemma MetricsAreExact(rows: Rows, campaign: Id, ids: seq<Id>)
    requires Inv(rows) && Listed(rows, campaign, ids)
    ensures MetricsOf(Projected(rows, ids)).Done?
    ensures ExactMetrics(rows, campaign, MetricsOf(Projected(rows, ids)).value)
    ensures FailedCreators(Projected(rows, ids)) == FailingNow(rows, campaign) - EverSent(rows, campaign)
  {
    hide Inv, EverSent, FailingNow, FailingCreators, RecordedAs, SentCreators, Answering, FailedCreators,
         MetricsOf, ExactMetrics;
    var list := Projected(rows, ids);
    ProjectedClasses(rows, campaign, ids, list);
    ExactFromClasses(rows, campaign, list);
  }

  lemma ExactFromClasses(rows: Rows, campaign: Id, list: seq<Projection>)
    requires var sent, yes, no :=
               EverSent(rows, campaign), RecordedAs(rows, campaign, Accepted), RecordedAs(rows, campaign, Declined);
             && SentCreators(list) == sent && Answering(list, Accepted) == yes && Answering(list, Declined) == no
             && FailingCreators(list) == FailingNow(rows, campaign)
             && yes <= sent && no <= sent && yes !! no
    ensures MetricsOf(list).Done? && ExactMetrics(rows, campaign, MetricsOf(list).value)
    ensures FailedCreators(list) == FailingNow(rows, campaign) - EverSent(rows, campaign)
  {
    var sent, yes, no, failing := EverSent(rows, campaign), RecordedAs(rows, campaign, Accepted),
      RecordedAs(rows, campaign, Declined), FailingNow(rows, campaign);
    hide *;
    ClassesAre(list, sent, yes, no);
    CountClasses(sent, yes, no);
    RateBounds(|yes| + |no|, |sent|);
    ExactNumbers(rows, campaign, MetricsOf(list).value);
  }

  lemma ExactNumbers(rows: Rows, campaign: Id, m: Metrics)
    requires var sent, yes, no, failing := EverSent(rows, campaign), RecordedAs(rows, campaign, Accepted),
               RecordedAs(rows, campaign, Declined), FailingNow(rows, campaign);
             && m == Metrics(|sent|, |yes|, |no|, |sent| - (|yes| + |no|), |failing - sent|, m.responseRate)
             && |sent - yes - no| == |sent| - |yes| - |no|
    requires RateIs(m.responseRate, m.accepted + m.declined, m.sentCreators)
    ensures ExactMetrics(rows, campaign, m)
  {
    hide EverSent, RecordedAs, FailingNow, RateIs;
  }

  lemma ProjectedClasses(rows: Rows, campaign: Id, ids: seq<Id>, list: seq<Projection>)
    requires Inv(rows) && Listed(rows, campaign, ids) && list == Projected(rows, ids)
    ensures var sent, yes, no :=
              EverSent(rows, campaign), RecordedAs(rows, campaign, Accepted), RecordedAs(rows, campaign, Declined);
            && SentCreators(list) == sent && Answering(list, Accepted) == yes && Answering(list, Declined) == no
            && FailingCreators(list) == FailingNow(rows, campaign)
            && yes <= sent && no <= sent && yes !! no
  {
    ProjectedSent(rows, campaign, ids);
    ProjectedFailing(rows, campaign, ids);
    ProjectedAnswers(rows, campaign, ids, Accepted);
    ProjectedAnswers(rows, campaign, ids, Declined);
    OneAnswerEach(rows, campaign);
    hide EverSent, RecordedAs, FailingNow, SentCreators, Answering, FailingCreators;
  }

  lemma ClassesAre(list: seq<Projection>, sent: set<Id>, yes: set<Id>, no: set<Id>)
    requires SentCreators(list) == sent && Answering(list, Accepted) == yes && Answering(list, Declined) == no
    requires yes <= sent && no <= sent && yes !! no
    ensures MetricsOf(list) == Done(Metrics(|sent|, |yes|, |no|, |sent| - (|yes| + |no|), |FailedCreators(list)|,
                                            Rate(|yes| + |no|, |sent|)))
    ensures FailedCreators(list) == FailingCreators(list) - sent
  {
    hide SentCreators, Answering, FailingCreators, Rate;
    assert AcceptedCreators(list) == yes && DeclinedCreators(list) == no;
  }

  lemma RateBounds(responded: nat, sent: nat)
    requires responded <= sent
    ensures RateIs(Rate(responded, sent), responded, sent)
  {
  }

  lemma OneAnswerEach(rows: Rows, campaign: Id)
    ensures RecordedAs(rows, campaign, Accepted) !! RecordedAs(rows, campaign, Declined)
  {
    forall c | c in RecordedAs(rows, campaign, Accepted) ensures c !in RecordedAs(rows, campaign, Declined) {
      assert Key(campaign, c) in rows.responses && rows.responses[Key(campaign, c)].state.Accepted?;
    }
  }

  lemma CountClasses(sent: set<Id>, yes: set<Id>, no: set<Id>)
    requires yes <= sent && no <= sent && yes !! no
    ensures |yes| + |no| <= |sent| && |sent - yes - no| == |sent| - |yes| - |no|
  {
    assert sent == (yes + no) + (sent - yes - no);
    assert |yes + no| == |yes| + |no|;
  }

  // ---------------------------------------------------------------- over a run

  /** Sent, accepted and declined creators never decrease, whatever happens next. */
  lemma CountsNeverDecrease(sys: System, es: seq<Event>, campaign: Id, ids: seq<Id>, later: seq<Id>)
    requires SystemInv(sys)
    requires Listed(sys.rows, campaign, ids) && Listed(Run(sys, es).rows, campaign, later)
    ensures var m := MetricsOf(Projected(sys.rows, ids));
            var n := MetricsOf(Projected(Run(sys, es).rows, later));
            && m.Done? && n.Done?
            && m.value.sentCreators <= n.value.sentCreators
            && m.value.accepted <= n.value.accepted
            && m.value.declined <= n.value.declined
  {
    var after := Run(sys, es);
    RunKeepsSystem(sys, es);
    MetricsAreExact(sys.rows, campaign, ids);
    MetricsAreExact(after.rows, campaign, later);
    SentOnlyGrows(sys, es, campaign);
    AnswersOnlyGrow(sys, es, campaign, Accepted);
    AnswersOnlyGrow(sys, es, campaign, Declined);
    hide Run, Inv, Exclusive, EverSent, RecordedAs, MetricsOf, Projected, Listed;
    SubsetCount(EverSent(sys.rows, campaign), EverSent(after.rows, campaign));
    SubsetCount(RecordedAs(sys.rows, campaign, Accepted), RecordedAs(after.rows, campaign, Accepted));
    SubsetCount(RecordedAs(sys.rows, campaign, Declined), RecordedAs(after.rows, campaign, Declined));
  }

  lemma SentOnlyGrows(sys: System, es: seq<Event>, campaign: Id)
    requires SystemInv(sys)
    ensures EverSent(sys.rows, campaign) <= EverSent(Run(sys, es).rows, campaign)
  {
    forall d | d in sys.rows.deliveries
      ensures d in Run(sys, es).rows.deliveries && RowKept(sys.rows.deliveries[d], Run(sys, es).rows.deliveries[d])
    {
      RunKeepsRow(sys, es, d);
    }
    hide Run, Inv, Exclusive;
  }

  lemma AnswersOnlyGrow(sys: System, es: seq<Event>, campaign: Id, state: ResponseState)
    requires SystemInv(sys) && !state.NoResponse?
    ensures RecordedAs(sys.rows, campaign, state) <= RecordedAs(Run(sys, es).rows, campaign, state)
  {
    forall k | Recorded(sys.rows.responses, k)
      ensures k in Run(sys, es).rows.responses && Run(sys, es).rows.responses[k] == sys.rows.responses[k]
    {
      OutreachHistory.RunKeepsResponse(sys, es, k);
    }
    hide Run, Inv, Exclusive;
    forall c | c in RecordedAs(sys.rows, campaign, state) ensures c in RecordedAs(Run(sys, es).rows, campaign, state) {
      assert Recorded(sys.rows.responses, Key(campaign, c));
    }
  }

  /**
   On reachable rows a campaign that has deliveries is never NOT_STARTED: every creator's chain
   ends in a current delivery, so the last return of the derivation cannot be reached.
   */
  lemma StartedCampaignsHaveAState(rows: Rows, campaign: Id, ids: seq<Id>)
    requires Inv(rows) && Listed(rows, campaign, ids)
    ensures DeriveCampaignState(Projected(rows, ids)).NotStarted? <==> ids == []
  {
    if ids != [] {
      var d := ids[0];
      assert d in ids;
      var last := CurrentEnd(rows, d);
      assert last in ids;
      hide Inv;
      CurrentIsSeen(rows, ids, last);
    }
  }

  lemma CurrentIsSeen(rows: Rows, ids: seq<Id>, last: Id)
    requires forall d :: d in ids ==> d in rows.deliveries
    requires last in ids && rows.deliveries[last].supersededAt.None?
    ensures !DeriveCampaignState(Projected(rows, ids)).NotStarted?
  {
    var list := Projected(rows, ids);
    var i :| 0 <= i < |ids| && ids[i] == last;
    assert list[i].isCurrent;
    assert list[i].sendState in CurrentStates(list);
    hide CurrentStates, Projected;
    if list[i].sendState.Sent? {
      assert exists k :: 0 <= k < |list| && list[k].sendState.Sent?;
    }
  }

  lemma CurrentEnd(rows: Rows, d: Id) returns (last: Id)
    requires Inv(rows) && d in rows.deliveries
    ensures last in rows.deliveries && rows.deliveries[last].key == rows.deliveries[d].key
    ensures rows.deliveries[last].supersededAt.None?
  {
    hide Shaped, Batched, Answered;
    var key := rows.deliveries[d].key;
    assert d in DeliveriesOf(rows.deliveries, key);
    assert HasChain(rows.deliveries, key);
    var links :| Chain(rows.deliveries, key, links);
    last := links[|links| - 1];
    assert last in links && LinkAt(rows.deliveries, links, |links| - 1);
  }

  lemma SomeSent(list: seq<Projection>)
    ensures SentCreators(list) != {} <==> exists i :: 0 <= i < |list| && list[i].sendState.Sent?
  {
    if i :| 0 <= i < |list| && list[i].sendState.Sent? {
      assert list[i].creator in SentCreators(list);
    }
  }

  /** A delivery in flight is current, so the current states show it. */
  lemma CurrentOnes(rows: Rows, ids: seq<Id>)
    requires Shaped(rows) && forall d :: d in ids ==> d in rows.deliveries
    ensures var list := Projected(rows, ids);
            && |list| == |ids|
            && (forall d :: d in ids ==> exists i :: 0 <= i < |ids| && ids[i] == d)
            && (forall i :: 0 <= i < |ids| ==>
                  ids[i] in ids && list[i].sendState == rows.deliveries[ids[i]].sendState)
            && (Sending in CurrentStates(list) <==> exists d :: d in ids && rows.deliveries[d].sendState.Sending?)
            && (Queued in CurrentStates(list) <==> exists d :: d in ids && rows.deliveries[d].sendState.Queued?)
  {
    var list := Projected(rows, ids);
    forall d | d in ids && !Terminal(rows.deliveries[d].sendState)
      ensures rows.deliveries[d].sendState in CurrentStates(list)
    {
      var i :| 0 <= i < |ids| && ids[i] == d;
      assert list[i].isCurrent && list[i].sendState == rows.deliveries[d].sendState;
    }
    forall s | s in CurrentStates(list) ensures exists d :: d in ids && rows.deliveries[d].sendState == s {
      var i :| 0 <= i < |list| && list[i].isCurrent && list[i].sendState == s;
      assert ids[i] in ids;
    }
  }

  /** The derived state in protocol terms: in flight first, then whether anything was ever sent. */
  lemma CampaignStateMeaning(rows: Rows, campaign: Id, ids: seq<Id>)
    requires Inv(rows) && Listed(rows, campaign, ids)
    ensures var state := DeriveCampaignState(Projected(rows, ids));
            && (state.CampaignSending? <==> exists d :: d in ids && rows.deliveries[d].sendState.Sending?)
            && (state.CampaignQueued? <==> (exists d :: d in ids && rows.deliveries[d].sendState.Queued?)
                                           && forall d :: d in ids ==> !rows.deliveries[d].sendState.Sending?)
            && (state.Completed? <==> (forall d :: d in ids ==> Terminal(rows.deliveries[d].sendState))
                                      && EverSent(rows, campaign) != {})
            && (state.CampaignFailed? <==> ids != [] && forall d :: d in ids ==> rows.deliveries[d].sendState.Failed?)
  {
    StartedCampaignsHaveAState(rows, campaign, ids);
    var list := Projected(rows, ids);
    ProjectedSent(rows, campaign, ids);
    SomeSent(list);
    CurrentOnes(rows, ids);
    hide Inv, EverSent, Projected, CurrentStates, Listed, SentCreators;
    StateFromStates(rows, ids, list);
  }

  lemma StateFromStates(rows: Rows, ids: seq<Id>, list: seq<Projection>)
    requires |list| == |ids| && forall d :: d in ids ==> d in rows.deliveries
    requires forall d :: d in ids ==> exists i :: 0 <= i < |ids| && ids[i] == d
    requires forall i :: 0 <= i < |ids| ==> ids[i] in ids && list[i].sendState == rows.deliveries[ids[i]].sendState
    requires Sending in CurrentStates(list) <==> exists d :: d in ids && rows.deliveries[d].sendState.Sending?
    requires Queued in CurrentStates(list) <==> exists d :: d in ids && rows.deliveries[d].sendState.Queued?
    requires DeriveCampaignState(list).NotStarted? <==> ids == []
    ensures var state := DeriveCampaignState(list);
            && (state.CampaignSending? <==> exists d :: d in ids && rows.deliveries[d].sendState.Sending?)
            && (state.CampaignQueued? <==> (exists d :: d in ids && rows.deliveries[d].sendState.Queued?)
                                           && forall d :: d in ids ==> !rows.deliveries[d].sendState.Sending?)
            && (state.Completed? <==> (forall d :: d in ids ==> Terminal(rows.deliveries[d].sendState))
                                      && exists i :: 0 <= i < |list| && list[i].sendState.Sent?)
            && (state.CampaignFailed? <==> ids != [] && forall d :: d in ids ==> rows.deliveries[d].sendState.Failed?)
  {
    hide CurrentStates;
    var state := DeriveCampaignState(list);
    if ids != [] {
      assert ids[0] in ids;
    }
  }
}
