/**
 Representative thumbnails: records deduplicated by id, then the newest and the most viewed taken in
 turn. Ids, and the record's remaining stable fields, are kept as positions in their order.
 */
module Thumbnails {
  import opened Common

  type Id = nat

  datatype Raw = Cleared | Raw(nat)

  /**
   `published` and `views` are absent when not valid. `details` stands for the stable fields compared before
   `thumbnails`, the tuple of thumbnail URLs; no tuple comes before the empty one.
   */
  datatype Video = Video(id: Id, published: Option<int>, views: Option<nat>, details: nat, thumbnails: nat, raw: Raw)

  /** The position of the empty id, whose records are skipped. */
  const NO_ID: Id := 0
  /** The position of the empty tuple of thumbnail URLs. */
  const NO_THUMBNAILS := 0
  const SAMPLE := 50
  const MAX_COUNT := 12

  // ---------------------------------------------------------------- orders

  /** Present before absent, larger before smaller. */
  predicate DescendingBefore(a: Option<int>, b: Option<int>) {
    a.Some? && (b.None? || a.value > b.value)
  }

  predicate RecencyBefore(a: Video, b: Video) {
    DescendingBefore(a.published, b.published) || (a.published == b.published && a.id < b.id)
  }

  predicate PerformanceBefore(a: Video, b: Video) {
    || DescendingBefore(a.views, b.views)
    || (a.views == b.views && RecencyBefore(a, b))
  }

  /** The canonical record order; `raw` plays no part in it. */
  predicate CanonicalBefore(a: Video, b: Video) {
    || RecencyBefore(a, b)
    || (a.published == b.published && a.id == b.id
        && (|| DescendingBefore(a.views, b.views)
            || (a.views == b.views
                && (a.details < b.details || (a.details == b.details && a.thumbnails < b.thumbnails)))))
  }

  predicate SameRecord(a: Video, b: Video) {
    a.(raw := Cleared) == b.(raw := Cleared)
  }

  lemma CanonicalIsTotal(a: Video, b: Video, c: Video)
    ensures CanonicalBefore(a, b) || CanonicalBefore(b, a) || SameRecord(a, b)
    ensures !(CanonicalBefore(a, b) && CanonicalBefore(b, a)) && !(CanonicalBefore(a, b) && SameRecord(a, b))
    ensures CanonicalBefore(a, b) && CanonicalBefore(b, c) ==> CanonicalBefore(a, c)
    ensures CanonicalBefore(a, b) && SameRecord(b, c) ==> CanonicalBefore(a, c)
  {
  }

  // ---------------------------------------------------------------- deduplication

  /** One more record met: the smaller one wins, and of two equal ones only what they agree on is kept. */
  function Met(byId: map<Id, Video>, video: Video): map<Id, Video> {
    if video.id == NO_ID then byId
    else if video.id !in byId then byId[video.id := video]
    else if CanonicalBefore(video, byId[video.id]) then byId[video.id := video]
    else if SameRecord(video, byId[video.id]) then byId[video.id := byId[video.id].(raw := Cleared)]
    else byId
  }

  function Dedup(videos: seq<Video>): map<Id, Video> {
    if videos == [] then map[] else Met(Dedup(videos[..|videos| - 1]), videos[|videos| - 1])
  }

  /** `w` comes first among the records of its id. */
  ghost predicate First(records: multiset<Video>, w: Video) {
    w in records && forall u :: u in records && u.id == w.id ==> !CanonicalBefore(u, w)
  }

  /** `w` occurs once, and no other record equals it but for `raw`. */
  ghost predicate Alone(records: multiset<Video>, w: Video) {
    records[w] == 1 && forall u :: u in records && SameRecord(u, w) ==> u == w
  }

  /** What an id is left with: its first record, `raw` kept only if no other record ties with it. */
  ghost predicate Chosen(records: multiset<Video>, id: Id, v: Video) {
    exists w: Video :: w.id == id && First(records, w) && v == (if Alone(records, w) then w else w.(raw := Cleared))
  }

  lemma ChosenIsUnique(records: multiset<Video>, id: Id, a: Video, b: Video)
    requires Chosen(records, id, a) && Chosen(records, id, b)
    ensures a == b
  {
    var u: Video :| u.id == id && First(records, u) && a == (if Alone(records, u) then u else u.(raw := Cleared));
    var w: Video :| w.id == id && First(records, w) && b == (if Alone(records, w) then w else w.(raw := Cleared));
    CanonicalIsTotal(u, w, u);
    assert SameRecord(u, w) && SameRecord(w, u);
    if u != w {
      assert !Alone(records, u) && !Alone(records, w);
    }
  }

  predicate Mentions(videos: seq<Video>, id: Id) {
    exists i :: 0 <= i < |videos| && videos[i].id == id
  }

  lemma {:induction false} DedupKeys(videos: seq<Video>)
    ensures forall id :: id in Dedup(videos) <==> id != NO_ID && Mentions(videos, id)
    decreases |videos|
  {
    hide CanonicalBefore, SameRecord;
    if videos != [] {
      var front := videos[..|videos| - 1];
      DedupKeys(front);
      forall id ensures Mentions(videos, id) <==> Mentions(front, id) || id == videos[|videos| - 1].id {
        if Mentions(front, id) {
          var i :| 0 <= i < |front| && front[i].id == id;
          assert videos[i].id == id;
        }
        if Mentions(videos, id) && id != videos[|videos| - 1].id {
          var i :| 0 <= i < |videos| && videos[i].id == id;
          assert front[i].id == id;
        }
      }
    }
  }

  /** The loop keeps, for every id met, exactly the chosen record of the prefix. */
  lemma {:induction false} DedupChooses(videos: seq<Video>, id: Id)
    requires id in Dedup(videos)
    ensures Chosen(multiset(videos), id, Dedup(videos)[id])
    decreases |videos|
  {
    var front, last := videos[..|videos| - 1], videos[|videos| - 1];
    assert multiset(videos) == multiset(front) + multiset{last} by {
      assert videos == front + [last];
    }
    DedupKeys(videos);
    DedupKeys(front);
    MetAt(Dedup(front), last, id);
    if id in Dedup(front) {
      hide *;
      DedupChooses(front, id);
      OneMoreRecord(multiset(front), last, id, Dedup(front)[id]);
    } else {
      NotMentioned(front, id);
      hide *;
      NewId(multiset(front), last);
    }
  }

  lemma MetAt(byId: map<Id, Video>, video: Video, id: Id)
    requires id != NO_ID && id in Met(byId, video)
    ensures Met(byId, video)[id] ==
            if id !in byId then video
            else if video.id == id && CanonicalBefore(video, byId[id]) then video
            else if video.id == id && SameRecord(video, byId[id]) then byId[id].(raw := Cleared)
            else byId[id]
    ensures id !in byId ==> video.id == id
    ensures byId.Keys <= Met(byId, video).Keys
  {
    hide CanonicalBefore, SameRecord;
  }

  lemma NotMentioned(videos: seq<Video>, id: Id)
    requires !Mentions(videos, id)
    ensures forall v: Video :: v in multiset(videos) ==> v.id != id
  {
    forall v: Video | v in multiset(videos) ensures Mentions(videos, v.id) {
      var i :| 0 <= i < |videos| && videos[i] == v;
      assert videos[i].id == v.id;
    }
  }

  lemma OneMoreRecord(records: multiset<Video>, video: Video, id: Id, kept: Video)
    requires Chosen(records, id, kept)
    ensures Chosen(records + multiset{video}, id,
                   if video.id == id && CanonicalBefore(video, kept) then video
                   else if video.id == id && SameRecord(video, kept) then kept.(raw := Cleared) else kept)
  {
    hide CanonicalBefore, SameRecord, First, Alone;
    if id != video.id {
      OtherId(records, video, id, kept);
    } else {
      var w: Video :| w.id == id && First(records, w) && kept == (if Alone(records, w) then w else w.(raw := Cleared));
      SameId(records, video, w, kept);
    }
  }

  lemma OtherId(records: multiset<Video>, video: Video, id: Id, kept: Video)
    requires Chosen(records, id, kept) && video.id != id
    ensures Chosen(records + multiset{video}, id, kept)
  {
    var more := records + multiset{video};
    var w: Video :| w.id == id && First(records, w) && kept == (if Alone(records, w) then w else w.(raw := Cleared));
    hide CanonicalBefore;
    assert First(more, w) && more[w] == records[w];
    assert Alone(more, w) <==> Alone(records, w);
  }

  lemma NewId(records: multiset<Video>, video: Video)
    requires forall v :: v in records ==> v.id != video.id
    ensures Chosen(records + multiset{video}, video.id, video)
  {
    var more := records + multiset{video};
    CanonicalIsTotal(video, video, video);
    assert First(more, video) && more[video] == 1 && Alone(more, video);
  }

  lemma SameId(records: multiset<Video>, video: Video, w: Video, kept: Video)
    requires w.id == video.id && First(records, w) && kept == (if Alone(records, w) then w else w.(raw := Cleared))
    ensures var more := records + multiset{video};
            Chosen(more, w.id, if CanonicalBefore(video, kept) then video
                               else if SameRecord(video, kept) then kept.(raw := Cleared) else kept)
  {
    var more := records + multiset{video};
    CanonicalIsTotal(video, w, w);
    CanonicalIsTotal(video, kept, w);
    assert SameRecord(kept, w);
    if CanonicalBefore(video, kept) {
      forall u | u in records && u.id == w.id ensures !CanonicalBefore(u, video) && !SameRecord(u, video) {
        CanonicalIsTotal(u, video, w);
        CanonicalIsTotal(video, u, w);
        CanonicalIsTotal(u, w, u);
      }
      assert First(more, video) && Alone(more, video);
    } else if SameRecord(video, kept) {
      CanonicalIsTotal(video, w, video);
      assert First(more, w);
      assert !Alone(more, w) by {
        if video == w {
          assert more[w] >= 2;
        } else {
          assert video in more && SameRecord(video, w);
        }
      }
    } else {
      assert First(more, w) && more[w] == records[w];
      assert Alone(more, w) <==> Alone(records, w);
    }
  }

  /**
   The kept record of an id, written out: no record of that id is newer, among the newest none has more views, among
   those none has smaller details, and among those none a smaller tuple of thumbnails.
   */
  lemma KeptIsBest(videos: seq<Video>, id: Id, u: Video)
    requires id in Dedup(videos) && u in videos && u.id == id
    ensures var v := Dedup(videos)[id];
            && v.id == id
            && (u.published.Some? ==> v.published.Some? && v.published.value >= u.published.value)
            && (u.published == v.published ==>
                  && (u.views.Some? ==> v.views.Some? && v.views.value >= u.views.value)
                  && (u.views == v.views ==>
                        v.details <= u.details && (u.details == v.details ==> v.thumbnails <= u.thumbnails)))
  {
    DedupChooses(videos, id);
    var records, v := multiset(videos), Dedup(videos)[id];
    var w: Video :| w.id == id && First(records, w) && v == (if Alone(records, w) then w else w.(raw := Cleared));
    assert u in records && !CanonicalBefore(u, w);
    hide Dedup, First, Alone;
  }

  /** Deduplication does not depend on the order of the input, ties included. */
  lemma DedupIgnoresOrder(a: seq<Video>, b: seq<Video>)
    requires multiset(a) == multiset(b)
    ensures Dedup(a) == Dedup(b)
  {
    DedupKeys(a);
    DedupKeys(b);
    SameMentions(a, b);
    SameMentions(b, a);
    hide Chosen, Dedup, Mentions;
    var x, y := Dedup(a), Dedup(b);
    assert x.Keys == y.Keys;
    forall id | id in x ensures x[id] == y[id] {
      DedupChooses(a, id);
      DedupChooses(b, id);
      ChosenIsUnique(multiset(a), id, x[id], y[id]);
    }
  }

  lemma SameMentions(a: seq<Video>, b: seq<Video>)
    requires multiset(a) == multiset(b)
    ensures forall id :: Mentions(a, id) ==> Mentions(b, id)
  {
    forall id | Mentions(a, id) ensures Mentions(b, id) {
      var i :| 0 <= i < |a| && a[i].id == id;
      assert a[i] in multiset(b);
      var j :| 0 <= j < |b| && b[j] == a[i];
    }
  }

  // ---------------------------------------------------------------- sorting

  datatype Order = ById | ByRecency | ByPerformance

  predicate Before(order: Order, a: Video, b: Video) {
    match order
    case ById => a.id < b.id
    case ByRecency => RecencyBefore(a, b)
    case ByPerformance => PerformanceBefore(a, b)
  }

  /** Distinct ids, so that each of the three orders is strict and total. */
  ghost predicate DistinctIds(videos: set<Video>) {
    forall a, b :: a in videos && b in videos && a.id == b.id ==> a == b
  }

  ghost predicate SortedBy(order: Order, list: seq<Video>) {
    forall i, j :: 0 <= i < j < |list| ==> Before(order, list[i], list[j])
  }

  lemma OrderIsStrict(order: Order, a: Video, b: Video, c: Video)
    ensures !(Before(order, a, b) && Before(order, b, a))
    ensures Before(order, a, b) && Before(order, b, c) ==> Before(order, a, c)
    ensures a.id != b.id ==> Before(order, a, b) || Before(order, b, a)
  {
  }

  /** A set of videos has one sorted listing only. */
  lemma {:induction false} SortedIsUnique(order: Order, a: seq<Video>, b: seq<Video>)
    requires SortedBy(order, a) && SortedBy(order, b) && Elements(a) == Elements(b)
    ensures a == b
    decreases |a|
  {
    HeadIsElement(a);
    HeadIsElement(b);
    if a != [] {
      assert a[0] in Elements(a) && a[0] in b;
      var i :| 0 <= i < |b| && b[i] == a[0];
      assert b[0] in Elements(b) && b[0] in a;
      var j :| 0 <= j < |a| && a[j] == b[0];
      if i > 0 && j > 0 {
        OrderIsStrict(order, a[0], b[0], a[0]);
      }
      assert a[0] == b[0];
      TailElements(order, a);
      TailElements(order, b);
      SortedIsUnique(order, a[1..], b[1..]);
    }
  }

  lemma HeadIsElement(list: seq<Video>)
    ensures list != [] ==> list[0] in Elements(list)
    ensures list == [] ==> Elements(list) == {}
  {
  }

  lemma TailElements(order: Order, list: seq<Video>)
    requires SortedBy(order, list) && list != []
    ensures SortedBy(order, list[1..]) && Elements(list[1..]) == Elements(list) - {list[0]}
  {
    forall i | 0 < i < |list| ensures list[i] != list[0] {
      OrderIsStrict(order, list[0], list[i], list[0]);
    }
    forall v ensures v in Elements(list[1..]) <==> v in Elements(list) - {list[0]} {
    }
  }

  /** `sorted`, as repeated selection of the next element. */
  method Sort(order: Order, videos: set<Video>) returns (list: seq<Video>)
    requires DistinctIds(videos)
    ensures SortedBy(order, list) && Elements(list) == videos && |list| == |videos|
  {
    list := [];
    var todo := videos;
    EmptyPrefix(order, videos);
    hide SortedPrefix, DistinctIds;
    while todo != {}
      invariant todo <= videos && SortedPrefix(order, videos, todo, list)
      decreases |todo|
    {
      var next := Least(order, todo);
      NextInOrder(order, videos, todo, list, next);
      list := list + [next];
      todo := todo - {next};
    }
    WholePrefix(order, videos, list);
  }

  /** `list` is sorted, holds what is not in `todo`, and all of it comes before what is. */
  ghost predicate SortedPrefix(order: Order, videos: set<Video>, todo: set<Video>, list: seq<Video>) {
    && SortedBy(order, list) && Elements(list) == videos - todo && |list| == |videos| - |todo|
    && forall a, b :: a in list && b in todo ==> Before(order, a, b)
  }

  lemma EmptyPrefix(order: Order, videos: set<Video>)
    ensures SortedPrefix(order, videos, videos, [])
  {
  }

  lemma WholePrefix(order: Order, videos: set<Video>, list: seq<Video>)
    requires SortedPrefix(order, videos, {}, list)
    ensures SortedBy(order, list) && Elements(list) == videos && |list| == |videos|
  {
    assert videos - {} == videos;
  }

  lemma NextInOrder(order: Order, videos: set<Video>, todo: set<Video>, list: seq<Video>, next: Video)
    requires DistinctIds(videos) && todo <= videos && SortedPrefix(order, videos, todo, list)
    requires next in todo && forall v :: v in todo ==> !Before(order, v, next)
    ensures SortedPrefix(order, videos, todo - {next}, list + [next])
  {
    forall b | b in todo && b != next ensures Before(order, next, b) {
      OrderIsStrict(order, next, b, next);
    }
    hide Before, DistinctIds;
    var more := list + [next];
    forall i, j | 0 <= i < j < |more| ensures Before(order, more[i], more[j]) {
      if j == |list| {
        assert list[i] in list;
      }
    }
    assert Elements(more) == Elements(list) + {next};
  }

  method Least(order: Order, videos: set<Video>) returns (least: Video)
    requires videos != {}
    ensures least in videos && forall v :: v in videos ==> !Before(order, v, least)
  {
    least :| least in videos;
    var todo := videos;
    while todo != {}
      invariant least in videos && todo <= videos
      invariant forall v :: v in videos - todo ==> !Before(order, v, least)
      decreases |todo|
    {
      var v :| v in todo;
      if Before(order, v, least) {
        forall u | u in videos - todo ensures !Before(order, u, v) {
          OrderIsStrict(order, u, v, least);
        }
        OrderIsStrict(order, v, v, v);
        least := v;
      } else {
        OrderIsStrict(order, v, v, v);
      }
      todo := todo - {v};
    }
  }

  // ---------------------------------------------------------------- from the input to the eligible videos

  ghost predicate KeysMatch(byId: map<Id, Video>) {
    forall id :: id in byId ==> byId[id].id == id
  }

  lemma DedupKeysMatch(videos: seq<Video>)
    ensures KeysMatch(Dedup(videos))
  {
    forall id | id in Dedup(videos) ensures Dedup(videos)[id].id == id {
      DedupChooses(videos, id);
    }
  }

  /** `_unique_videos`: one record per id, in id order. */
  method UniqueVideos(videos: seq<Video>) returns (unique: seq<Video>)
    ensures SortedBy(ById, unique) && Elements(unique) == Dedup(videos).Values
  {
    var byId: map<Id, Video> := map[];
    for i := 0 to |videos|
      invariant byId == Dedup(videos[..i])
    {
      var video := videos[i];
      assert videos[..i + 1][..i] == videos[..i];
      if video.id == NO_ID {
        continue;
      }
      if video.id !in byId {
        byId := byId[video.id := video];
        continue;
      }
      var existing := byId[video.id];
      if CanonicalBefore(video, existing) {
        byId := byId[video.id := video];
      } else if SameRecord(video, existing) {
        byId := byId[video.id := existing.(raw := Cleared)];
      }
    }
    assert videos[..|videos|] == videos;
    DedupKeysMatch(videos);
    ValuesAreDistinct(byId);
    unique := Sort(ById, byId.Values);
  }

  lemma ValuesAreDistinct(byId: map<Id, Video>)
    requires KeysMatch(byId)
    ensures DistinctIds(byId.Values)
  {
  }

  function Eligible(unique: seq<Video>): set<Video> {
    set i | 0 <= i < |unique| && i < SAMPLE && unique[i].thumbnails != NO_THUMBNAILS :: unique[i]
  }

  /** The eligible videos: those among the first fifty, in id order, that have thumbnails. */
  lemma EligibleExactly(unique: seq<Video>, v: Video)
    ensures v in Eligible(unique)
            <==> v.thumbnails != 0 && exists i :: 0 <= i < |unique| && i < 50 && unique[i] == v
  {
  }

  lemma EligibleIsDistinct(unique: seq<Video>)
    requires SortedBy(ById, unique)
    ensures DistinctIds(Eligible(unique))
  {
    forall a, b | a in Eligible(unique) && b in Eligible(unique) && a.id == b.id ensures a == b {
      var i :| 0 <= i < |unique| && unique[i] == a;
      var j :| 0 <= j < |unique| && unique[j] == b;
      assert i < j ==> Before(ById, a, b);
      assert j < i ==> Before(ById, b, a);
    }
  }

  // ---------------------------------------------------------------- taking in turn

  function With(selected: seq<Video>, video: Video, count: nat): seq<Video> {
    if |selected| < count && video !in selected then selected + [video] else selected
  }

  /** The loop from index `k` in both listings. */
  function InTurn(recent: seq<Video>, viewed: seq<Video>, k: nat, selected: seq<Video>, count: nat): seq<Video>
    requires |recent| == |viewed|
    decreases |recent| - k
  {
    if |selected| >= count || k >= |recent| then selected
    else
      var one := With(selected, recent[k], count);
      if |one| >= count then one
      else InTurn(recent, viewed, k + 1, With(one, viewed[k], count), count)
  }

  function Selection(recent: seq<Video>, viewed: seq<Video>, count: nat): seq<Video>
    requires |recent| == |viewed| && count > 0
  {
    if recent == [] then []
    else
      var one := With([], recent[0], count);
      InTurn(recent, viewed, 1, if count > 1 then With(one, viewed[0], count) else one, count)
  }

  /** `select_representative_thumbnails`, the part after deduplication. */
  method SelectInTurn(unique: seq<Video>, count: nat, ghost recent: seq<Video>, ghost viewed: seq<Video>)
    returns (selected: seq<Video>)
    requires 1 <= count <= MAX_COUNT && SortedBy(ById, unique)
    requires SortedBy(ByRecency, recent) && Elements(recent) == Eligible(unique)
    requires SortedBy(ByPerformance, viewed) && Elements(viewed) == Eligible(unique) && |recent| == |viewed|
    ensures selected == Selection(recent, viewed, count)
  {
    var eligible := Eligible(unique);
    if eligible == {} {
      HeadIsElement(recent);
      return [];
    }
    EligibleIsDistinct(unique);
    var byRecency := Sort(ByRecency, eligible);
    var byPerformance := Sort(ByPerformance, eligible);
    SortedIsUnique(ByRecency, byRecency, recent);
    SortedIsUnique(ByPerformance, byPerformance, viewed);
    hide SortedBy, Before, Eligible, DistinctIds;
    selected := With([], byRecency[0], count);
    if count > 1 {
      selected := With(selected, byPerformance[0], count);
    }
    var recencyIndex, performanceIndex := 1, 1;
    while |selected| < count && (recencyIndex < |byRecency| || performanceIndex < |byPerformance|)
      invariant 1 <= recencyIndex == performanceIndex <= |byRecency|
      invariant InTurn(recent, viewed, recencyIndex, selected, count) == Selection(recent, viewed, count)
      decreases |byRecency| - recencyIndex
    {
      if recencyIndex < |byRecency| {
        selected := With(selected, byRecency[recencyIndex], count);
        recencyIndex := recencyIndex + 1;
      }
      if |selected| >= count {
        return;
      }
      if performanceIndex < |byPerformance| {
        selected := With(selected, byPerformance[performanceIndex], count);
        performanceIndex := performanceIndex + 1;
      }
    }
  }

  lemma WithElement(selected: seq<Video>, video: Video, count: nat)
    requires Distinct(selected) && |selected| < count
    ensures Distinct(With(selected, video, count)) && |With(selected, video, count)| <= count
    ensures Elements(With(selected, video, count)) == Elements(selected) + {video}
  {
  }

  lemma TakeElements(list: seq<Video>, k: nat)
    requires k < |list|
    ensures Elements(list[..k + 1]) == Elements(list[..k]) + {list[k]}
  {
  }

  /** A duplicate-free list that is not full yet has found all there is to find. */
  lemma {:induction false} InTurnTakes(recent: seq<Video>, viewed: seq<Video>, k: nat, selected: seq<Video>, count: nat)
    returns (i: nat, j: nat)
    requires |recent| == |viewed| && k <= |recent| && Distinct(selected) && |selected| <= count
    requires Elements(selected) == Elements(recent[..k]) + Elements(viewed[..k])
    ensures var result := InTurn(recent, viewed, k, selected, count);
            && Distinct(result) && |result| <= count
            && j <= i <= j + 1 && i <= |recent| && k <= j
            && Elements(result) == Elements(recent[..i]) + Elements(viewed[..j])
            && (|result| < count ==> i == j == |recent|)
    decreases |recent| - k
  {
    hide Elements, Distinct, With;
    if |selected| >= count || k >= |recent| {
      i, j := k, k;
    } else {
      WithElement(selected, recent[k], count);
      TakeElements(recent, k);
      TakeElements(viewed, k);
      var one := With(selected, recent[k], count);
      if |one| >= count {
        i, j := k + 1, k;
      } else {
        WithElement(one, viewed[k], count);
        i, j := InTurnTakes(recent, viewed, k + 1, With(one, viewed[k], count), count);
      }
    }
  }

  lemma {:induction false} CountElements(list: seq<Video>)
    requires Distinct(list)
    ensures |Elements(list)| == |list|
    decreases |list|
  {
    if list == [] {
      HeadIsElement(list);
    } else {
      var front, last := list[..|list| - 1], list[|list| - 1];
      CountElements(front);
      assert Elements(list) == Elements(front) + {last};
      assert last !in Elements(front);
    }
  }

  lemma SortedIsDistinct(order: Order, list: seq<Video>)
    requires SortedBy(order, list)
    ensures Distinct(list)
  {
    forall i, j | 0 <= i < j < |list| ensures list[i] != list[j] {
      assert Before(order, list[i], list[j]);
      OrderIsStrict(order, list[i], list[j], list[i]);
    }
  }

  /**
   What is selected: no video twice, as many as asked for or as there are, and exactly the `i` newest
   together with the `j` most viewed for some `i` that is `j` or one more. No video left out of either list's head
   is newer, or more viewed, than one in it.
   */
  lemma SelectionIsBalanced(recent: seq<Video>, viewed: seq<Video>, count: nat) returns (i: nat, j: nat)
    requires count > 0 && SortedBy(ByRecency, recent) && SortedBy(ByPerformance, viewed)
    requires Elements(recent) == Elements(viewed)
    ensures |recent| == |viewed|
    ensures var result := Selection(recent, viewed, count);
            && Distinct(result)
            && |result| == (if count <= |recent| then count else |recent|)
            && j <= i <= j + 1 && i <= |recent|
            && Elements(result) == Elements(recent[..i]) + Elements(viewed[..j])
    ensures forall a, b :: a in recent[..i] && b in recent[i..] ==> NewerOrFirst(a, b)
    ensures forall a, b :: a in viewed[..j] && b in viewed[j..] ==> MoreViewedOrNewer(a, b)
  {
    SortedIsDistinct(ByRecency, recent);
    SortedIsDistinct(ByPerformance, viewed);
    CountElements(recent);
    CountElements(viewed);
    hide SortedBy, Before;
    if recent == [] {
      i, j := 0, 0;
    } else {
      i, j := TurnsTaken(recent, viewed, count);
      NewestFirst(recent, i);
      MostViewedFirst(viewed, j);
      hide Selection, Elements, Distinct;
      FullOrExhausted(recent, viewed, Selection(recent, viewed, count), count, i, j);
    }
  }

  /** Published no earlier, a known time before an unknown one; at the same time the smaller id. */
  predicate NewerOrFirst(a: Video, b: Video) {
    && (b.published.Some? ==> a.published.Some? && a.published.value >= b.published.value)
    && (a.published == b.published ==> a.id < b.id)
  }

  /** Viewed no less, a known count before an unknown one; at the same count the newer. */
  predicate MoreViewedOrNewer(a: Video, b: Video) {
    && (b.views.Some? ==> a.views.Some? && a.views.value >= b.views.value)
    && (a.views == b.views ==> NewerOrFirst(a, b))
  }

  lemma NewestFirst(recent: seq<Video>, i: nat)
    requires SortedBy(ByRecency, recent) && i <= |recent|
    ensures forall a, b :: a in recent[..i] && b in recent[i..] ==> NewerOrFirst(a, b)
  {
    forall a, b | a in recent[..i] && b in recent[i..] ensures Before(ByRecency, a, b) {
      var k :| 0 <= k < i && recent[..i][k] == a;
      var l :| 0 <= l < |recent| - i && recent[i..][l] == b;
      assert recent[k] == a && recent[i + l] == b;
    }
    hide SortedBy;
  }

  lemma MostViewedFirst(viewed: seq<Video>, j: nat)
    requires SortedBy(ByPerformance, viewed) && j <= |viewed|
    ensures forall a, b :: a in viewed[..j] && b in viewed[j..] ==> MoreViewedOrNewer(a, b)
  {
    forall a, b | a in viewed[..j] && b in viewed[j..] ensures Before(ByPerformance, a, b) {
      var k :| 0 <= k < j && viewed[..j][k] == a;
      var l :| 0 <= l < |viewed| - j && viewed[j..][l] == b;
      assert viewed[k] == a && viewed[j + l] == b;
    }
    hide SortedBy;
  }

  lemma FullOrExhausted(recent: seq<Video>, viewed: seq<Video>, result: seq<Video>, count: nat, i: nat, j: nat)
    requires Elements(recent) == Elements(viewed) && |recent| == |viewed| && Distinct(recent)
    requires Distinct(result) && |result| <= count && j <= i <= |recent|
    requires Elements(result) == Elements(recent[..i]) + Elements(viewed[..j])
    requires |result| < count ==> i == |recent|
    ensures |result| == if count <= |recent| then count else |recent|
  {
    CountElements(result);
    CountElements(recent);
    PrefixElements(recent, i);
    PrefixElements(viewed, j);
    SubsetCount(Elements(result), Elements(recent));
    if |result| < count {
      assert recent[..i] == recent;
      hide Elements, Distinct;
      assert Elements(result) == Elements(recent);
    }
  }

  lemma PrefixElements(list: seq<Video>, k: nat)
    requires k <= |list|
    ensures Elements(list[..k]) <= Elements(list)
  {
  }

  lemma TurnsTaken(recent: seq<Video>, viewed: seq<Video>, count: nat) returns (i: nat, j: nat)
    requires count > 0 && recent != [] && |recent| == |viewed|
    ensures var result := Selection(recent, viewed, count);
            && Distinct(result) && |result| <= count
            && j <= i <= j + 1 && i <= |recent|
            && Elements(result) == Elements(recent[..i]) + Elements(viewed[..j])
            && (|result| < count ==> i == |recent|)
  {
    WithElement([], recent[0], count);
    TakeElements(recent, 0);
    TakeElements(viewed, 0);
    assert recent[..0] == [] && viewed[..0] == [];
    var one := With([], recent[0], count);
    if count == 1 {
      i, j := 1, 0;
    } else {
      WithElement(one, viewed[0], count);
      i, j := InTurnTakes(recent, viewed, 1, With(one, viewed[0], count), count);
    }
  }

  // ---------------------------------------------------------------- the whole function

  /** `list` is what the selection returns for these videos. */
  ghost predicate IsSelection(videos: seq<Video>, count: nat, list: seq<Video>) {
    exists unique, recent, viewed ::
      && SortedBy(ById, unique) && Elements(unique) == Dedup(videos).Values
      && SortedBy(ByRecency, recent) && Elements(recent) == Eligible(unique)
      && SortedBy(ByPerformance, viewed) && Elements(viewed) == Eligible(unique)
      && |recent| == |viewed| && count > 0 && list == Selection(recent, viewed, count)
  }

  /** `select_representative_thumbnails`. */
  method SelectRepresentativeThumbnails(videos: seq<Video>, count: int) returns (outcome: Outcome<seq<Video>>)
    ensures outcome.Raised? <==> !(1 <= count <= 12)
    ensures outcome.Done? ==> IsSelection(videos, count, outcome.value)
  {
    if count < 1 || count > MAX_COUNT {
      return Raised("thumbnail count must be an integer from 1 through 12");
    }
    var unique := UniqueVideos(videos);
    EligibleIsDistinct(unique);
    ghost var recent := Sorted(ByRecency, Eligible(unique));
    ghost var viewed := Sorted(ByPerformance, Eligible(unique));
    var selected := SelectInTurn(unique, count, recent, viewed);
    return Done(selected);
  }

  /** Every set of distinct ids has a sorted listing. */
  lemma Sorted(order: Order, videos: set<Video>) returns (list: seq<Video>)
    requires DistinctIds(videos)
    ensures SortedBy(order, list) && Elements(list) == videos && |list| == |videos|
    decreases |videos|
  {
    if videos == {} {
      list := [];
    } else {
      var next := LeastExists(order, videos);
      var rest := Sorted(order, videos - {next});
      list := [next] + rest;
      hide SortedBy, Before;
      LeastFirst(order, videos, next, rest);
    }
  }

  lemma LeastFirst(order: Order, videos: set<Video>, next: Video, rest: seq<Video>)
    requires DistinctIds(videos) && next in videos && forall v :: v in videos ==> !Before(order, v, next)
    requires SortedBy(order, rest) && Elements(rest) == videos - {next}
    ensures SortedBy(order, [next] + rest) && Elements([next] + rest) == videos
  {
    forall v | v in rest ensures Before(order, next, v) {
      assert v in Elements(rest);
      OrderIsStrict(order, v, next, v);
    }
    hide Before;
    assert Elements([next] + rest) == Elements(rest) + {next};
  }

  lemma LeastExists(order: Order, videos: set<Video>) returns (least: Video)
    requires videos != {}
    ensures least in videos && forall v :: v in videos ==> !Before(order, v, least)
    decreases |videos|
  {
    var one :| one in videos;
    OrderIsStrict(order, one, one, one);
    if videos == {one} {
      least := one;
    } else {
      var rest := videos - {one};
      assert rest != {} by {
        assert videos != {one};
      }
      least := LeastExists(order, rest);
      if Before(order, one, least) {
        forall v | v in rest ensures !Before(order, v, one) {
          OrderIsStrict(order, v, one, least);
        }
        least := one;
      }
    }
  }

  /** The selection is the same for every order in which the videos are supplied. */
  lemma SelectionIgnoresOrder(a: seq<Video>, b: seq<Video>, count: nat, x: seq<Video>, y: seq<Video>)
    requires multiset(a) == multiset(b) && IsSelection(a, count, x) && IsSelection(b, count, y)
    ensures x == y
  {
    DedupIgnoresOrder(a, b);
    var u, r, p :| SortedBy(ById, u) && Elements(u) == Dedup(a).Values
      && SortedBy(ByRecency, r) && Elements(r) == Eligible(u)
      && SortedBy(ByPerformance, p) && Elements(p) == Eligible(u)
      && |r| == |p| && count > 0 && x == Selection(r, p, count);
    var v, s, q :| SortedBy(ById, v) && Elements(v) == Dedup(b).Values
      && SortedBy(ByRecency, s) && Elements(s) == Eligible(v)
      && SortedBy(ByPerformance, q) && Elements(q) == Eligible(v)
      && |s| == |q| && count > 0 && y == Selection(s, q, count);
    hide SortedBy, Elements, Dedup, Eligible, Selection;
    SortedIsUnique(ById, u, v);
    SortedIsUnique(ByRecency, r, s);
    SortedIsUnique(ByPerformance, p, q);
  }
}
