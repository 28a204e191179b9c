/** From a ranking output to a publication that the rows accept. */
module MatchRanking {
  import opened Common
  import opened MatchState
  import opened MatchInvariant
  import opened MatchPublication

  /** One item of the model's ranking; scores are exact decimals. */
  datatype RankingItem = RankingItem(creator: Creator, backendOrder: nat, totalScore: real, recommended: bool)

  /** Scores are stored in units of the quantum 0.0001. */
  const QUANTA_PER_UNIT := 10000

  function Floor(x: real): int {
    x.Floor
  }

  /** ROUND_HALF_UP to the quantum; halves move away from zero. */
  function RoundHalfUp(score: real): int {
    if score >= 0.0 then Floor(score * 10000.0 + 0.5) else -Floor(-score * 10000.0 + 0.5)
  }

  function QuantizeScore(score: real): (r: Outcome<int>)
    ensures r.Done? ==> 0 <= r.value <= QUANTA_PER_UNIT
  {
    var quanta := RoundHalfUp(score);
    if 0 <= quanta <= QUANTA_PER_UNIT then Done(quanta) else Raised("deepseek_model_output_invalid")
  }

  /**
   A score is accepted exactly if it rounds into [0, 1]; what is stored is the nearest multiple of 0.0001, an exact
   half going up.
   */
  lemma QuantizedIsNearest(score: real)
    ensures QuantizeScore(score).Done? <==> -0.00005 < score < 1.00005
    ensures QuantizeScore(score).Done? ==>
              var stored := QuantizeScore(score).value as real / 10000.0;
              0.0 <= stored <= 1.0 && -0.00005 < stored - score <= 0.00005
  {
    var scaled := (if score >= 0.0 then score else -score) * 10000.0 + 0.5;
    assert Floor(scaled) as real <= scaled < Floor(scaled) as real + 1.0;
    var quanta := RoundHalfUp(score);
    assert quanta as real / 10000.0 * 10000.0 == quanta as real;
  }

  function Creators(items: seq<RankingItem>): seq<Creator> {
    seq(|items|, i requires 0 <= i < |items| => items[i].creator)
  }

  function Orders(items: seq<RankingItem>): seq<nat> {
    seq(|items|, i requires 0 <= i < |items| => items[i].backendOrder)
  }

  /** The output schema's own checks and the exact-identity check. */
  predicate OneToOne(items: seq<RankingItem>, expected: seq<Creator>) {
    && |items| <= MAX_SELECTIONS
    && Distinct(Creators(items)) && Distinct(Orders(items))
    && Distinct(expected)
    && Elements(Creators(items)) == Elements(expected)
  }

  lemma OneToOneSpelled(items: seq<RankingItem>, expected: seq<Creator>)
    ensures OneToOne(items, expected)
            <==> && |items| <= 30 && Distinct(expected)
                 && (forall i, j :: 0 <= i < j < |items| ==>
                       items[i].creator != items[j].creator && items[i].backendOrder != items[j].backendOrder)
                 && (forall i :: 0 <= i < |items| ==> items[i].creator in expected)
                 && forall c :: c in expected ==> exists i :: 0 <= i < |items| && items[i].creator == c
  {
    var creators := Creators(items);
    assert Distinct(creators) && Distinct(Orders(items))
           <==> forall i, j :: 0 <= i < j < |items| ==>
                  items[i].creator != items[j].creator && items[i].backendOrder != items[j].backendOrder by {
      if Distinct(creators) && Distinct(Orders(items)) {
        forall i, j | 0 <= i < j < |items|
          ensures items[i].creator != items[j].creator && items[i].backendOrder != items[j].backendOrder
        {
          assert creators[i] != creators[j] && Orders(items)[i] != Orders(items)[j];
        }
      }
    }
    hide Distinct;
    forall c ensures c in Elements(creators) <==> exists i :: 0 <= i < |items| && items[i].creator == c {
      if i :| 0 <= i < |items| && items[i].creator == c {
        assert creators[i] == c;
      }
    }
    assert forall c :: c in Elements(expected) <==> c in expected;
    if Elements(creators) == Elements(expected) {
      forall i | 0 <= i < |items| ensures items[i].creator in expected {
        assert items[i].creator in Elements(creators);
      }
    }
  }

  predicate GroupFits(item: RankingItem, threshold: real) {
    QuantizeScore(item.totalScore).Done?
    && (item.recommended <==> QuantizeScore(item.totalScore).value as real / 10000.0 >= threshold)
  }

  /** `_validated_output`: the group must agree with the quantized score, item by item. */
  method ValidatedOutput(items: seq<RankingItem>, expected: seq<Creator>, threshold: real)
    returns (publication: Outcome<seq<PublicationItem>>)
    ensures publication.Done? <==>
              && |items| <= 30 && Distinct(expected)
              && (forall i, j :: 0 <= i < j < |items| ==>
                    items[i].creator != items[j].creator && items[i].backendOrder != items[j].backendOrder)
              && (forall i :: 0 <= i < |items| ==> items[i].creator in expected)
              && (forall c :: c in expected ==> exists i :: 0 <= i < |items| && items[i].creator == c)
              && forall i :: 0 <= i < |items| ==>
                   && QuantizeScore(items[i].totalScore).Done?
                   && (items[i].recommended
                       <==> QuantizeScore(items[i].totalScore).value as real / 10000.0 >= threshold)
    ensures publication.Done? ==>
              && |publication.value| == |items|
              && forall i :: 0 <= i < |items| ==>
                   publication.value[i] == PublicationItem(items[i].creator, items[i].backendOrder,
                                                           QuantizeScore(items[i].totalScore).value)
  {
    OneToOneSpelled(items, expected);
    hide OneToOne, QuantizeScore;
    if !OneToOne(items, expected) {
      return Raised("deepseek_model_output_invalid");
    }
    var kept: seq<PublicationItem> := [];
    for i := 0 to |items|
      invariant |kept| == i
      invariant forall k :: 0 <= k < i ==> GroupFits(items[k], threshold)
      invariant forall k :: 0 <= k < i ==>
        kept[k] == PublicationItem(items[k].creator, items[k].backendOrder, QuantizeScore(items[k].totalScore).value)
    {
      var score := QuantizeScore(items[i].totalScore);
      if score.Raised? {
        return Raised(score.code);
      }
      if items[i].recommended != (score.value as real / 10000.0 >= threshold) {
        return Raised("deepseek_model_output_invalid");
      }
      kept := kept + [PublicationItem(items[i].creator, items[i].backendOrder, score.value)];
    }
    return Done(kept);
  }

  /**
   A validated output for the selection that was loaded is never refused while the task is in
   RANKING: no missing creator, no duplicate row, no second campaign.
   */
  lemma ValidatedOutputPublishes(rows: Rows, items: seq<RankingItem>, publication: seq<PublicationItem>, now: Time)
    requires Inv(rows) && rows.task.stage.Ranking? && (rows.task.status.Running? || rows.task.status.Failed?)
    requires OneToOne(items, SelectedOf(rows.screening))
    requires |publication| == |items|
    requires forall i :: 0 <= i < |items| ==>
               publication[i].creator == items[i].creator && publication[i].backendOrder == items[i].backendOrder
    ensures Publish(rows, publication, now).outcome == Done(|publication|)
    ensures |publication| == |Selected(rows)|
  {
    assert ItemCreators(publication) == Creators(items);
    assert ItemOrders(publication) == Orders(items);
    PublishInRanking(rows, publication, now);
    if Publish(rows, publication, now).rows != rows {
      PublishedRows(rows, publication, now);
    }
    DistinctCount(Creators(items));
    hide Inv, SelectedOf, Distinct, Elements, InputsValid, PublicationValid;
  }
}
