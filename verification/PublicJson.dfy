/**
 Public profile JSON: validation against fixed budgets, and the projection that drops every key
 whose words are restricted where it stands. The words of a key are a parameter.
 */
module PublicJson {
  import opened Common

  datatype Json =
    | Null
    | Boolean(truth: bool)
    | Integer(int)
    | Float(finite: bool, text: string)
    | Text(string)
    | List(items: seq<Json>)
    | Object(fields: seq<Field>)
    | Unsupported

  /** `textual` is false for a key that is not a string. */
  datatype Field = Field(key: string, textual: bool, value: Json)

  const MAX_KEY_LENGTH := 512
  const MAX_DEPTH := 32
  const MAX_NODES := 10000
  const MAX_KEYS := 2000

  // ---------------------------------------------------------------- key classification

  const SECURITY_WORDS: set<string> :=
    {"authorization", "jwt", "passwd", "password", "pwd", "bearer", "cookie", "secret", "credential", "token"}
  const QUALIFIER_WORDS: set<string> :=
    {"api", "access", "private", "signing", "encryption", "auth", "authentication", "session"}
  const SESSION_WORDS: set<string> := {"id", "data", "value", "header"}
  const RESTRICTED_WORDS: set<string> := {"match", "private", "internal", "hidden", "backend", "numeric"}
  const METRIC_WORDS: set<string> := {"score", "scoring", "rank", "ranking", "order", "ordering"}

  predicate SecurityKey(words: set<string>) {
    || SECURITY_WORDS * words != {}
    || ("header" in words && ("auth" in words || "authentication" in words))
    || ("key" in words && QUALIFIER_WORDS * words != {})
    || ("session" in words && SESSION_WORDS * words != {})
  }

  type Words = string -> set<string>

  /** Whether the values under a key stand in a restricted context. */
  predicate ChildContext(key: string, restricted: bool, words: Words) {
    restricted || RESTRICTED_WORDS * words(key) != {}
  }

  predicate Removable(key: string, restricted: bool, words: Words) {
    SecurityKey(words(key)) || (ChildContext(key, restricted, words) && METRIC_WORDS * words(key) != {})
  }

  // ---------------------------------------------------------------- the projection

  function Project(item: Json, restricted: bool, words: Words): Json
    decreases item, 1
  {
    match item
    case List(items) => List(ProjectItems(items, restricted, words))
    case Object(fields) => Object(ProjectFields(fields, restricted, words))
    case _ => item
  }

  function ProjectItems(items: seq<Json>, restricted: bool, words: Words): seq<Json>
    decreases items
  {
    if items == [] then [] else [Project(items[0], restricted, words)] + ProjectItems(items[1..], restricted, words)
  }

  function ProjectFields(fields: seq<Field>, restricted: bool, words: Words): seq<Field>
    decreases fields
  {
    if fields == [] then []
    else
      var field, rest := fields[0], ProjectFields(fields[1..], restricted, words);
      if Removable(field.key, restricted, words) then rest
      else [field.(value := Project(field.value, ChildContext(field.key, restricted, words), words))] + rest
  }

  // ---------------------------------------------------------------- paths

  datatype PathStep = Member(key: string) | Element(index: nat)

  function Find(fields: seq<Field>, key: string): Option<Json> {
    if fields == [] then None else if fields[0].key == key then Some(fields[0].value) else Find(fields[1..], key)
  }

  /** The value at a path, if the path leads anywhere. */
  function Lookup(item: Json, path: seq<PathStep>): Option<Json>
    decreases |path|
  {
    if path == [] then Some(item)
    else match path[0]
      case Member(key) =>
        if !item.Object? then None
        else
          var child := Find(item.fields, key);
          if child.None? then None else Lookup(child.value, path[1..])
      case Element(index) =>
        if !item.List? || index >= |item.items| then None else Lookup(item.items[index], path[1..])
  }

  /** No key on the path is removable where it stands. */
  predicate Survives(path: seq<PathStep>, restricted: bool, words: Words)
    decreases |path|
  {
    path == [] || (match path[0]
                   case Member(key) =>
                     !Removable(key, restricted, words) &&
                       Survives(path[1..], ChildContext(key, restricted, words), words)
                   case Element(_) => Survives(path[1..], restricted, words))
  }

  predicate ContextAt(path: seq<PathStep>, restricted: bool, words: Words)
    decreases |path|
  {
    if path == [] then restricted
    else match path[0]
      case Member(key) => ContextAt(path[1..], ChildContext(key, restricted, words), words)
      case Element(_) => ContextAt(path[1..], restricted, words)
  }

  lemma {:induction false} ProjectedItem(items: seq<Json>, restricted: bool, words: Words, i: nat)
    ensures |ProjectItems(items, restricted, words)| == |items|
    ensures i < |items| ==> ProjectItems(items, restricted, words)[i] == Project(items[i], restricted, words)
    decreases |items|
  {
    if items != [] {
      ProjectedItem(items[1..], restricted, words, if i == 0 then 0 else i - 1);
    }
  }

  lemma {:induction false} ProjectedField(fields: seq<Field>, restricted: bool, words: Words, key: string)
    ensures var context := ChildContext(key, restricted, words);
            Find(ProjectFields(fields, restricted, words), key) ==
            if Removable(key, restricted, words) || Find(fields, key).None? then None
            else Some(Project(Find(fields, key).value, context, words))
    decreases |fields|
  {
    if fields != [] {
      ProjectedField(fields[1..], restricted, words, key);
      var rest := ProjectFields(fields[1..], restricted, words);
      hide Removable, ChildContext;
      if !Removable(fields[0].key, restricted, words) {
        assert ProjectFields(fields, restricted, words)[1..] == rest;
      }
    }
  }

  /**
   The projection, path by path: a path leads somewhere afterwards exactly when it did before and no
   key on it is removable in the context it stands in; what it leads to is the projection of what
   was there, in that context.
   */
  lemma {:induction false} ProjectionAtPath(item: Json, path: seq<PathStep>, restricted: bool, words: Words)
    ensures Lookup(Project(item, restricted, words), path) ==
            if Survives(path, restricted, words) && Lookup(item, path).Some? then
              Some(Project(Lookup(item, path).value, ContextAt(path, restricted, words), words))
            else None
    decreases |path|
  {
    if path != [] {
      match path[0]
      case Member(key) =>
        if item.Object? {
          ProjectedField(item.fields, restricted, words, key);
          var child := Find(item.fields, key);
          if child.Some? {
            ProjectionAtPath(child.value, path[1..], ChildContext(key, restricted, words), words);
          }
          hide Removable, ChildContext;
        }
      case Element(index) =>
        if item.List? {
          ProjectedItem(item.items, restricted, words, index);
          if index < |item.items| {
            ProjectionAtPath(item.items[index], path[1..], restricted, words);
          }
        }
    }
  }

  /** No path to a removable key is left, at any depth. */
  lemma NothingRestrictedIsLeft(item: Json, path: seq<PathStep>, key: string, words: Words)
    requires Lookup(Project(item, false, words), path).Some?
    requires Lookup(Project(item, false, words), path).value.Object?
    requires Find(Lookup(Project(item, false, words), path).value.fields, key).Some?
    ensures !Removable(key, ContextAt(path, false, words), words)
  {
    ProjectionAtPath(item, path, false, words);
    var below := Lookup(item, path).value;
    ProjectedField(below.fields, ContextAt(path, false, words), words, key);
  }

  // ---------------------------------------------------------------- what is dropped, written out

  predicate Secret(words: set<string>) {
    || "authorization" in words || "jwt" in words || "passwd" in words || "password" in words || "pwd" in words
    || "bearer" in words || "cookie" in words || "secret" in words || "credential" in words || "token" in words
    || ("header" in words && ("auth" in words || "authentication" in words))
    || ("key" in words && (|| "api" in words || "access" in words || "private" in words || "signing" in words
                           || "encryption" in words || "auth" in words || "authentication" in words
                           || "session" in words))
    || ("session" in words && ("id" in words || "data" in words || "value" in words || "header" in words))
  }

  predicate Internal(words: set<string>) {
    || "match" in words || "private" in words || "internal" in words || "hidden" in words || "backend" in words
    || "numeric" in words
  }

  predicate Metric(words: set<string>) {
    || "score" in words || "scoring" in words || "rank" in words || "ranking" in words || "order" in words
    || "ordering" in words
  }

  /** The key at step `i` is public: not secret, and no metric at or below an internal key. */
  predicate PublicAt(path: seq<PathStep>, i: nat, restricted: bool, words: Words)
    requires i < |path|
  {
    path[i].Member? ==>
      && !Secret(words(path[i].key))
      && (Metric(words(path[i].key)) ==>
            !restricted && forall j :: 0 <= j <= i && path[j].Member? ==> !Internal(words(path[j].key)))
  }

  lemma WordSets(words: set<string>)
    ensures SecurityKey(words) <==> Secret(words)
    ensures RESTRICTED_WORDS * words != {} <==> Internal(words)
    ensures METRIC_WORDS * words != {} <==> Metric(words)
  {
    Meets(SECURITY_WORDS, words);
    Meets(QUALIFIER_WORDS, words);
    Meets(SESSION_WORDS, words);
    Meets(RESTRICTED_WORDS, words);
    Meets(METRIC_WORDS, words);
  }

  lemma Meets(listed: set<string>, words: set<string>)
    ensures listed * words != {} <==> exists w :: w in listed && w in words
  {
    if w :| w in listed && w in words {
      assert w in listed * words;
    }
  }

  lemma {:induction false} SurvivesExactly(path: seq<PathStep>, restricted: bool, words: Words)
    ensures Survives(path, restricted, words) <==> forall i :: 0 <= i < |path| ==> PublicAt(path, i, restricted, words)
    decreases |path|
  {
    if path != [] {
      var rest := path[1..];
      var inner := match path[0] case Member(key) => ChildContext(key, restricted, words) case Element(_) => restricted;
      SurvivesExactly(rest, inner, words);
      if path[0].Member? {
        WordSets(words(path[0].key));
      }
      hide SecurityKey, Secret, Internal, Metric;
      forall i | 0 <= i < |rest|
        ensures PublicAt(path, 0, restricted, words) ==>
                  PublicAt(path, i + 1, restricted, words) == PublicAt(rest, i, inner, words)
      {
        OneStepDown(path, i, restricted, inner, words);
      }
      PublicFromHere(path, restricted, inner, words);
    }
  }

  lemma OneStepDown(path: seq<PathStep>, i: nat, restricted: bool, inner: bool, words: Words)
    requires path != [] && i < |path[1..]|
    requires inner == (restricted || (path[0].Member? && Internal(words(path[0].key))))
    ensures PublicAt(path, i + 1, restricted, words) == PublicAt(path[1..], i, inner, words)
  {
    hide Secret, Internal, Metric;
    var rest := path[1..];
    assert path[i + 1] == rest[i];
    if PublicAt(path, i + 1, restricted, words) && path[i + 1].Member? && Metric(words(path[i + 1].key)) {
      forall j | 0 <= j <= i && rest[j].Member? ensures !Internal(words(rest[j].key)) {
        assert rest[j] == path[j + 1];
      }
    }
    if PublicAt(rest, i, inner, words) && rest[i].Member? && Metric(words(rest[i].key)) {
      forall j | 0 <= j <= i + 1 && path[j].Member? ensures !Internal(words(path[j].key)) {
        assert j > 0 ==> path[j] == rest[j - 1];
      }
    }
  }

  lemma PublicFromHere(path: seq<PathStep>, restricted: bool, inner: bool, words: Words)
    requires path != []
    requires forall i :: 0 <= i < |path[1..]| && PublicAt(path, 0, restricted, words) ==>
               PublicAt(path, i + 1, restricted, words) == PublicAt(path[1..], i, inner, words)
    ensures (forall i :: 0 <= i < |path| ==> PublicAt(path, i, restricted, words))
            <==> PublicAt(path, 0, restricted, words)
                 && forall i :: 0 <= i < |path[1..]| ==> PublicAt(path[1..], i, inner, words)
  {
    hide PublicAt;
    if PublicAt(path, 0, restricted, words)
       && forall i :: 0 <= i < |path[1..]| ==> PublicAt(path[1..], i, inner, words)
    {
      forall i | 0 <= i < |path| ensures PublicAt(path, i, restricted, words) {
        if i > 0 {
          assert PublicAt(path[1..], i - 1, inner, words);
          assert PublicAt(path, i - 1 + 1, restricted, words);
        }
      }
    }
    if forall i :: 0 <= i < |path| ==> PublicAt(path, i, restricted, words) {
      forall i | 0 <= i < |path[1..]| ensures PublicAt(path[1..], i, inner, words) {
        assert PublicAt(path, i + 1, restricted, words);
      }
    }
  }

  /**
   A public document, written out: a path is left exactly if it was there and every key on it is public, and a value
   that is no container is left as it was.
   */
  lemma PublicPathsExactly(item: Json, path: seq<PathStep>, words: Words)
    ensures var public := Project(item, false, words);
            && (Lookup(public, path).Some?
                <==> Lookup(item, path).Some? && forall i :: 0 <= i < |path| ==> PublicAt(path, i, false, words))
            && (Lookup(public, path).Some? && !Lookup(item, path).value.Object? && !Lookup(item, path).value.List? ==>
                  Lookup(public, path) == Lookup(item, path))
            && (Lookup(public, path).Some? && Lookup(item, path).value.List? ==>
                  Lookup(public, path).value.List?
                  && |Lookup(public, path).value.items| == |Lookup(item, path).value.items|)
  {
    ProjectionAtPath(item, path, false, words);
    SurvivesExactly(path, false, words);
    if Lookup(item, path).Some? && Lookup(item, path).value.List? {
      ProjectedItem(Lookup(item, path).value.items, ContextAt(path, false, words), words, 0);
    }
  }

  // ---------------------------------------------------------------- idempotence

  lemma {:induction false} ProjectTwice(item: Json, restricted: bool, words: Words)
    ensures Project(Project(item, restricted, words), restricted, words) == Project(item, restricted, words)
    decreases item, 1
  {
    match item
    case List(items) => ProjectItemsTwice(items, restricted, words);
    case Object(fields) => ProjectFieldsTwice(fields, restricted, words);
    case _ =>
  }

  lemma {:induction false} ProjectItemsTwice(items: seq<Json>, restricted: bool, words: Words)
    ensures ProjectItems(ProjectItems(items, restricted, words), restricted, words)
            == ProjectItems(items, restricted, words)
    decreases items
  {
    if items != [] {
      ProjectTwice(items[0], restricted, words);
      ProjectItemsTwice(items[1..], restricted, words);
      assert ProjectItems(items, restricted, words)[1..] == ProjectItems(items[1..], restricted, words);
    }
  }

  lemma {:induction false} ProjectFieldsTwice(fields: seq<Field>, restricted: bool, words: Words)
    ensures ProjectFields(ProjectFields(fields, restricted, words), restricted, words)
            == ProjectFields(fields, restricted, words)
    decreases fields
  {
    if fields != [] {
      var field := fields[0];
      ProjectFieldsTwice(fields[1..], restricted, words);
      if !Removable(field.key, restricted, words) {
        ProjectTwice(field.value, ChildContext(field.key, restricted, words), words);
        hide Removable, ChildContext;
        assert ProjectFields(fields, restricted, words)[1..] == ProjectFields(fields[1..], restricted, words);
      }
    }
  }

  // ---------------------------------------------------------------- budgets

  function Nodes(item: Json): nat
    decreases item, 1
  {
    match item
    case List(items) => 1 + NodesOfItems(items)
    case Object(fields) => 1 + NodesOfFields(fields)
    case _ => 1
  }

  function NodesOfItems(items: seq<Json>): nat
    decreases items
  {
    if items == [] then 0 else Nodes(items[0]) + NodesOfItems(items[1..])
  }

  function NodesOfFields(fields: seq<Field>): nat
    decreases fields
  {
    if fields == [] then 0 else Nodes(fields[0].value) + NodesOfFields(fields[1..])
  }

  function Keys(item: Json): nat
    decreases item, 1
  {
    match item
    case List(items) => KeysOfItems(items)
    case Object(fields) => KeysOfFields(fields)
    case _ => 0
  }

  function KeysOfItems(items: seq<Json>): nat
    decreases items
  {
    if items == [] then 0 else Keys(items[0]) + KeysOfItems(items[1..])
  }

  function KeysOfFields(fields: seq<Field>): nat
    decreases fields
  {
    if fields == [] then 0 else 1 + Keys(fields[0].value) + KeysOfFields(fields[1..])
  }

  /** Containers nested below the item. */
  function Height(item: Json): nat
    decreases item, 1
  {
    match item
    case List(items) => HeightOfItems(items)
    case Object(fields) => HeightOfFields(fields)
    case _ => 0
  }

  function HeightOfItems(items: seq<Json>): nat
    decreases items
  {
    if items == [] then 0 else Max(1 + Height(items[0]), HeightOfItems(items[1..]))
  }

  function HeightOfFields(fields: seq<Field>): nat
    decreases fields
  {
    if fields == [] then 0 else Max(1 + Height(fields[0].value), HeightOfFields(fields[1..]))
  }

  /** Finite numbers, string keys within the length budget, nothing unsupported. */
  predicate Clean(item: Json)
    decreases item, 1
  {
    match item
    case Float(finite, _) => finite
    case List(items) => CleanItems(items)
    case Object(fields) => CleanFields(fields)
    case Unsupported => false
    case _ => true
  }

  predicate CleanItems(items: seq<Json>)
    decreases items
  {
    items == [] || (Clean(items[0]) && CleanItems(items[1..]))
  }

  predicate CleanFields(fields: seq<Field>)
    decreases fields
  {
    fields == [] || (fields[0].textual && |fields[0].key| <= MAX_KEY_LENGTH && Clean(fields[0].value) &&
      CleanFields(fields[1..]))
  }

  predicate WithinBudgets(item: Json) {
    Nodes(item) <= MAX_NODES && Keys(item) <= MAX_KEYS && Height(item) <= MAX_DEPTH && Clean(item)
  }

  /** The validator: one traversal with two counters, raising at the first violation. */
  class Validation {
    var nodes: nat
    var keys: nat

    constructor ()
      ensures nodes == 0 && keys == 0
    {
      nodes, keys := 0, 0;
    }

    method Visit(item: Json, depth: nat) returns (ok: bool)
      requires nodes <= MAX_NODES && keys <= MAX_KEYS
      modifies this
      ensures ok <==> old(nodes) + Nodes(item) <= MAX_NODES && old(keys) + Keys(item) <= MAX_KEYS
                      && depth + Height(item) <= MAX_DEPTH && Clean(item)
      ensures ok ==> nodes == old(nodes) + Nodes(item) && keys == old(keys) + Keys(item)
      decreases item, 1
    {
      nodes := nodes + 1;
      if nodes > MAX_NODES {
        return false;
      }
      if depth > MAX_DEPTH {
        return false;
      }
      match item {
        case Null => return true;
        case Boolean(_) => return true;
        case Integer(_) => return true;
        case Text(_) => return true;
        case Float(finite, _) => return finite;
        case Unsupported => return false;
        case List(items) => ok := VisitItems(items, depth);
        case Object(fields) => ok := VisitFields(fields, depth);
      }
    }

    method VisitItems(items: seq<Json>, depth: nat) returns (ok: bool)
      requires nodes <= MAX_NODES && keys <= MAX_KEYS && depth <= MAX_DEPTH
      modifies this
      ensures ok <==> old(nodes) + NodesOfItems(items) <= MAX_NODES && old(keys) + KeysOfItems(items) <= MAX_KEYS
                      && depth + HeightOfItems(items) <= MAX_DEPTH && CleanItems(items)
      ensures ok ==> nodes == old(nodes) + NodesOfItems(items) && keys == old(keys) + KeysOfItems(items)
      decreases items
    {
      if items == [] {
        return true;
      }
      ok := Visit(items[0], depth + 1);
      if ok {
        ok := VisitItems(items[1..], depth);
      }
    }

    method VisitFields(fields: seq<Field>, depth: nat) returns (ok: bool)
      requires nodes <= MAX_NODES && keys <= MAX_KEYS && depth <= MAX_DEPTH
      modifies this
      ensures ok <==> old(nodes) + NodesOfFields(fields) <= MAX_NODES && old(keys) + KeysOfFields(fields) <= MAX_KEYS
                      && depth + HeightOfFields(fields) <= MAX_DEPTH && CleanFields(fields)
      ensures ok ==> nodes == old(nodes) + NodesOfFields(fields) && keys == old(keys) + KeysOfFields(fields)
      decreases fields
    {
      if fields == [] {
        return true;
      }
      keys := keys + 1;
      if keys > MAX_KEYS {
        return false;
      }
      if !fields[0].textual || |fields[0].key| > MAX_KEY_LENGTH {
        return false;
      }
      ok := Visit(fields[0].value, depth + 1);
      if ok {
        ok := VisitFields(fields[1..], depth);
      }
    }
  }

  /** `public_json_object`. */
  method PublicJsonObject(value: Json, words: Words) returns (outcome: Outcome<Json>)
    ensures outcome.Done? <==> value.Object? && WithinBudgets(value)
    ensures outcome.Done? <==>
              value.Object? && Nodes(value) <= 10000 && Keys(value) <= 2000 && Height(value) <= 32 && Clean(value)
    ensures outcome.Done? ==> outcome.value == Project(value, false, words)
  {
    if !value.Object? {
      return Raised("public profile JSON fields must be objects");
    }
    var validation := new Validation();
    var ok := validation.Visit(value, 0);
    if !ok {
      return Raised("public profile JSON is invalid");
    }
    return Done(Project(value, false, words));
  }

  // ---------------------------------------------------------------- what the budgets count

  /** The values directly inside a container. */
  function Children(item: Json): seq<Json> {
    match item
    case List(items) => items
    case Object(fields) => seq(|fields|, i requires 0 <= i < |fields| => fields[i].value)
    case _ => []
  }

  /** The value reached by positions, container by container. */
  function NodeAt(item: Json, at: seq<nat>): Option<Json>
    decreases |at|
  {
    if at == [] then Some(item)
    else if at[0] < |Children(item)| then NodeAt(Children(item)[at[0]], at[1..])
    else None
  }

  /** The value at `at` stands under a key of an object. */
  predicate KeyedAt(item: Json, at: seq<nat>) {
    && at != [] && NodeAt(item, at).Some?
    && NodeAt(item, at[..|at| - 1]).Some? && NodeAt(item, at[..|at| - 1]).value.Object?
  }

  function NodesFrom(item: Json, k: nat): nat
    requires k <= |Children(item)|
  {
    match item
    case List(items) => NodesOfItems(items[k..])
    case Object(fields) => NodesOfFields(fields[k..])
    case _ => 0
  }

  function KeysFrom(item: Json, k: nat): nat
    requires k <= |Children(item)|
  {
    match item
    case List(items) => KeysOfItems(items[k..])
    case Object(fields) => KeysOfFields(fields[k..])
    case _ => 0
  }

  function Below(k: nat, places: seq<seq<nat>>): seq<seq<nat>> {
    seq(|places|, i requires 0 <= i < |places| => [k] + places[i])
  }

  /** The node budget counts every position of the document once, the key budget every position under a key. */
  lemma {:induction false} BudgetsCountPositions(item: Json) returns (all: seq<seq<nat>>, keyed: seq<seq<nat>>)
    ensures Distinct(all) && |all| == Nodes(item) && forall at :: at in all <==> NodeAt(item, at).Some?
    ensures Distinct(keyed) && |keyed| == Keys(item) && forall at :: at in keyed <==> KeyedAt(item, at)
    decreases item, |Children(item)| + 1
  {
    var below;
    below, keyed := PositionsFrom(item, 0);
    all := [[]] + below;
    DistinctSum([[]], below) by {
      assert forall at :: at in below ==> at != [];
    }
    assert item.List? ==> item.items[0..] == item.items;
    assert item.Object? ==> item.fields[0..] == item.fields;
    forall at ensures at in all <==> NodeAt(item, at).Some? {
      assert at in all <==> at == [] || at in below;
    }
  }

  lemma {:induction false} PositionsFrom(item: Json, k: nat) returns (all: seq<seq<nat>>, keyed: seq<seq<nat>>)
    requires k <= |Children(item)|
    ensures Distinct(all) && |all| == NodesFrom(item, k)
    ensures forall at :: at in all <==> at != [] && k <= at[0] && NodeAt(item, at).Some?
    ensures Distinct(keyed) && |keyed| == KeysFrom(item, k)
    ensures forall at :: at in keyed <==> at != [] && k <= at[0] && KeyedAt(item, at)
    decreases item, |Children(item)| - k
  {
    if k == |Children(item)| {
      all, keyed := [], [];
    } else {
      var child := Children(item)[k];
      var inside, insideKeyed := BudgetsCountPositions(child);
      var rest, restKeyed := PositionsFrom(item, k + 1);
      var own: seq<seq<nat>> := if item.Object? then [[k]] else [];
      all, keyed := Below(k, inside) + rest, own + Below(k, insideKeyed) + restKeyed;
      CountsFrom(item, k);
      BelowAndRest(item, k, inside, rest);
      KeyedBelowAndRest(item, k, own, insideKeyed, restKeyed);
    }
  }

  lemma CountsFrom(item: Json, k: nat)
    requires k < |Children(item)|
    ensures NodesFrom(item, k) == Nodes(Children(item)[k]) + NodesFrom(item, k + 1)
    ensures KeysFrom(item, k) == (if item.Object? then 1 else 0) + Keys(Children(item)[k]) + KeysFrom(item, k + 1)
  {
    if item.List? {
      assert item.items[k..][1..] == item.items[k + 1..];
    } else {
      assert item.fields[k..][1..] == item.fields[k + 1..];
    }
  }

  lemma InBelow(k: nat, places: seq<seq<nat>>)
    ensures forall at :: at in Below(k, places) <==> at != [] && at[0] == k && at[1..] in places
    ensures Distinct(places) ==> Distinct(Below(k, places))
  {
    forall at | at != [] && at[0] == k && at[1..] in places ensures at in Below(k, places) {
      var i :| 0 <= i < |places| && places[i] == at[1..];
      assert Below(k, places)[i] == [k] + at[1..] == at;
    }
    forall at | at in Below(k, places) ensures at != [] && at[0] == k && at[1..] in places {
      var i :| 0 <= i < |places| && Below(k, places)[i] == at;
      assert at[1..] == places[i];
    }
    if Distinct(places) {
      forall i, j | 0 <= i < j < |places| ensures Below(k, places)[i] != Below(k, places)[j] {
        assert Below(k, places)[i][1..] == places[i] && Below(k, places)[j][1..] == places[j];
      }
    }
  }

  lemma DistinctSum<T>(a: seq<T>, b: seq<T>)
    requires Distinct(a) && Distinct(b) && forall x :: x in a ==> x !in b
    ensures Distinct(a + b)
  {
    forall i, j | 0 <= i < j < |a + b| ensures (a + b)[i] != (a + b)[j] {
      if i < |a| && |a| <= j {
        assert a[i] in a && b[j - |a|] in b;
      }
    }
  }

  lemma BelowAndRest(item: Json, k: nat, inside: seq<seq<nat>>, rest: seq<seq<nat>>)
    requires k < |Children(item)| && Distinct(inside) && Distinct(rest)
    requires forall at :: at in inside <==> NodeAt(Children(item)[k], at).Some?
    requires forall at :: at in rest <==> at != [] && k + 1 <= at[0] && NodeAt(item, at).Some?
    ensures Distinct(Below(k, inside) + rest)
    ensures forall at :: at in Below(k, inside) + rest <==> at != [] && k <= at[0] && NodeAt(item, at).Some?
  {
    InBelow(k, inside);
    hide Below, Distinct;
    DistinctSum(Below(k, inside), rest);
  }

  lemma KeyedBelowAndRest(item: Json, k: nat, own: seq<seq<nat>>, inside: seq<seq<nat>>, rest: seq<seq<nat>>)
    requires k < |Children(item)| && Distinct(inside) && Distinct(rest)
    requires own == if item.Object? then [[k]] else []
    requires forall at :: at in inside <==> KeyedAt(Children(item)[k], at)
    requires forall at :: at in rest <==> at != [] && k + 1 <= at[0] && KeyedAt(item, at)
    ensures Distinct(own + Below(k, inside) + rest)
    ensures forall at :: at in own + Below(k, inside) + rest <==> at != [] && k <= at[0] && KeyedAt(item, at)
  {
    InBelow(k, inside);
    assert Distinct(own);
    forall at: seq<nat> | at != [] && at[0] == k
      ensures KeyedAt(item, at) <==> if at == [k] then item.Object? else KeyedAt(Children(item)[k], at[1..])
    {
      KeyedInside(item, k, at);
    }
    hide Below, Distinct, KeyedAt, NodeAt, Children;
    assert forall at :: at in inside ==> at != [] by {
      forall at | at in inside ensures at != [] {
        KeyedIsBelow(Children(item)[k], at);
      }
    }
    assert forall at :: at in own ==> at == [k];
    assert forall at :: at in Below(k, inside) ==> at != [k];
    DistinctSum(own, Below(k, inside));
    DistinctSum(own + Below(k, inside), rest);
  }

  lemma KeyedIsBelow(item: Json, at: seq<nat>)
    requires KeyedAt(item, at)
    ensures at != []
  {
  }

  lemma KeyedInside(item: Json, k: nat, at: seq<nat>)
    requires k < |Children(item)| && at != [] && at[0] == k
    ensures KeyedAt(item, at) <==> if at == [k] then item.Object? else KeyedAt(Children(item)[k], at[1..])
  {
    var last := at[..|at| - 1];
    assert |at| == 1 ==> at == [k];
    if at == [k] {
      assert last == [] && at[1..] == [];
      assert NodeAt(item, at) == NodeAt(Children(item)[k], []);
    } else {
      assert last[0] == k && last[1..] == at[1..][..|at[1..]| - 1];
    }
  }

  /** The depth budget bounds the length of every position, and no smaller one does. */
  lemma {:induction false} HeightBoundsPositions(item: Json) returns (deepest: seq<nat>)
    ensures NodeAt(item, deepest).Some? && |deepest| == Height(item)
    ensures forall at :: NodeAt(item, at).Some? ==> |at| <= Height(item)
    decreases item, |Children(item)| + 1
  {
    deepest := DeepestFrom(item, 0);
    assert item.List? ==> item.items[0..] == item.items;
    assert item.Object? ==> item.fields[0..] == item.fields;
  }

  function HeightFrom(item: Json, k: nat): nat
    requires k <= |Children(item)|
  {
    match item
    case List(items) => HeightOfItems(items[k..])
    case Object(fields) => HeightOfFields(fields[k..])
    case _ => 0
  }

  lemma {:induction false} DeepestFrom(item: Json, k: nat) returns (deepest: seq<nat>)
    requires k <= |Children(item)|
    ensures NodeAt(item, deepest).Some? && |deepest| == HeightFrom(item, k)
    ensures forall at :: at != [] && k <= at[0] && NodeAt(item, at).Some? ==> |at| <= HeightFrom(item, k)
    decreases item, |Children(item)| - k
  {
    if k == |Children(item)| {
      deepest := [];
    } else {
      var inside := HeightBoundsPositions(Children(item)[k]);
      var rest := DeepestFrom(item, k + 1);
      HeightsFrom(item, k);
      OneDown(item, k, inside);
      forall at | at != [] && k <= at[0] && NodeAt(item, at).Some? ensures |at| <= HeightFrom(item, k) {
        BoundedHere(item, k, at, Height(Children(item)[k]), HeightFrom(item, k + 1));
      }
      hide Children, NodeAt, Height, HeightFrom;
      deepest := if |rest| >= |inside| + 1 then rest else [k] + inside;
    }
  }

  lemma OneDown(item: Json, k: nat, inside: seq<nat>)
    requires k < |Children(item)|
    ensures NodeAt(item, [k] + inside) == NodeAt(Children(item)[k], inside)
  {
    assert ([k] + inside)[1..] == inside;
  }

  lemma BoundedHere(item: Json, k: nat, at: seq<nat>, child: nat, others: nat)
    requires k < |Children(item)| && at != [] && k <= at[0] && NodeAt(item, at).Some?
    requires forall inside :: NodeAt(Children(item)[k], inside).Some? ==> |inside| <= child
    requires forall other :: other != [] && k + 1 <= other[0] && NodeAt(item, other).Some? ==> |other| <= others
    ensures |at| <= Max(1 + child, others)
  {
    if at[0] == k {
      assert NodeAt(Children(item)[k], at[1..]).Some?;
    }
  }

  lemma HeightsFrom(item: Json, k: nat)
    requires k < |Children(item)|
    ensures HeightFrom(item, k) == Max(1 + Height(Children(item)[k]), HeightFrom(item, k + 1))
  {
    if item.List? {
      assert item.items[k..][1..] == item.items[k + 1..];
    } else {
      assert item.fields[k..][1..] == item.fields[k + 1..];
    }
  }

  /** A value on its own is acceptable: supported, finite, and the keys of an object texts of at most 512 characters. */
  predicate Fine(item: Json) {
    && !item.Unsupported? && (item.Float? ==> item.finite)
    && (item.Object? ==> forall i :: 0 <= i < |item.fields| ==> item.fields[i].textual && |item.fields[i].key| <= 512)
  }

  /** A document is clean exactly if the value at every position is acceptable on its own. */
  lemma CleanExactly(item: Json)
    ensures Clean(item) <==> forall at :: NodeAt(item, at).Some? ==> Fine(NodeAt(item, at).value)
  {
    if Clean(item) {
      forall at | NodeAt(item, at).Some? ensures Fine(NodeAt(item, at).value) {
        FineAt(item, at);
      }
    } else {
      var at := UncleanAt(item);
    }
  }

  lemma {:induction false} FineAt(item: Json, at: seq<nat>)
    requires Clean(item) && NodeAt(item, at).Some?
    ensures Fine(NodeAt(item, at).value)
    decreases |at|
  {
    CleanOneLevel(item);
    if at != [] {
      FineAt(Children(item)[at[0]], at[1..]);
    }
  }

  lemma {:induction false} UncleanAt(item: Json) returns (at: seq<nat>)
    requires !Clean(item)
    ensures NodeAt(item, at).Some? && !Fine(NodeAt(item, at).value)
    decreases item
  {
    CleanOneLevel(item);
    if !Fine(item) {
      at := [];
    } else {
      var k :| 0 <= k < |Children(item)| && !Clean(Children(item)[k]);
      var inside := UncleanAt(Children(item)[k]);
      at := [k] + inside;
      assert at[1..] == inside;
    }
  }

  lemma CleanOneLevel(item: Json)
    ensures Clean(item) <==> Fine(item) && forall k :: 0 <= k < |Children(item)| ==> Clean(Children(item)[k])
  {
    if item.List? {
      CleanItemsEach(item.items);
      assert Children(item) == item.items && (Clean(item) <==> CleanItems(item.items));
    } else if item.Object? {
      CleanFieldsEach(item.fields);
      var fields := item.fields;
      assert forall k :: 0 <= k < |fields| ==> Children(item)[k] == fields[k].value;
      if Clean(item) {
        assert forall k :: 0 <= k < |fields| ==> Clean(fields[k].value);
      }
      if Fine(item) && forall k :: 0 <= k < |fields| ==> Clean(Children(item)[k]) {
        forall k | 0 <= k < |fields| ensures Clean(fields[k].value) {
          assert Clean(Children(item)[k]);
        }
      }
    }
  }

  lemma {:induction false} CleanItemsEach(items: seq<Json>)
    ensures CleanItems(items) <==> forall k :: 0 <= k < |items| ==> Clean(items[k])
    decreases |items|
  {
    if items != [] {
      CleanItemsEach(items[1..]);
      assert forall k :: 0 < k < |items| ==> items[k] == items[1..][k - 1];
      hide Clean;
    }
  }

  lemma {:induction false} CleanFieldsEach(fields: seq<Field>)
    ensures CleanFields(fields)
            <==> forall k :: 0 <= k < |fields| ==>
                   fields[k].textual && |fields[k].key| <= 512 && Clean(fields[k].value)
    decreases |fields|
  {
    if fields != [] {
      CleanFieldsEach(fields[1..]);
      assert forall k :: 0 < k < |fields| ==> fields[k] == fields[1..][k - 1];
      hide Clean;
    }
  }

  // ---------------------------------------------------------------- the projection fits where its input fits

  lemma {:induction false} ProjectionIsSmaller(item: Json, restricted: bool, words: Words)
    ensures var small := Project(item, restricted, words);
            && Nodes(small) <= Nodes(item) && Keys(small) <= Keys(item) && Height(small) <= Height(item)
            && (Clean(item) ==> Clean(small))
    decreases item, 1
  {
    match item
    case List(items) => ItemsAreSmaller(items, restricted, words);
    case Object(fields) => FieldsAreSmaller(fields, restricted, words);
    case _ =>
  }

  lemma {:induction false} ItemsAreSmaller(items: seq<Json>, restricted: bool, words: Words)
    ensures var small := ProjectItems(items, restricted, words);
            && NodesOfItems(small) <= NodesOfItems(items) && KeysOfItems(small) <= KeysOfItems(items)
            && HeightOfItems(small) <= HeightOfItems(items) && (CleanItems(items) ==> CleanItems(small))
    decreases items
  {
    if items != [] {
      ProjectionIsSmaller(items[0], restricted, words);
      ItemsAreSmaller(items[1..], restricted, words);
      assert ProjectItems(items, restricted, words)[1..] == ProjectItems(items[1..], restricted, words);
    }
  }

  lemma {:induction false} FieldsAreSmaller(fields: seq<Field>, restricted: bool, words: Words)
    ensures var small := ProjectFields(fields, restricted, words);
            && NodesOfFields(small) <= NodesOfFields(fields) && KeysOfFields(small) <= KeysOfFields(fields)
            && HeightOfFields(small) <= HeightOfFields(fields) && (CleanFields(fields) ==> CleanFields(small))
    decreases fields
  {
    if fields != [] {
      FieldsAreSmaller(fields[1..], restricted, words);
      ProjectionIsSmaller(fields[0].value, ChildContext(fields[0].key, restricted, words), words);
      hide Removable, ChildContext;
      if !Removable(fields[0].key, restricted, words) {
        assert ProjectFields(fields, restricted, words)[1..] == ProjectFields(fields[1..], restricted, words);
      }
    }
  }

  /** What was accepted and projected once is accepted again and projected to itself. */
  lemma PublicObjectsAreFixed(value: Json, words: Words)
    requires value.Object? && WithinBudgets(value)
    ensures var public := Project(value, false, words);
            public.Object? && WithinBudgets(public) && Project(public, false, words) == public
  {
    ProjectionIsSmaller(value, false, words);
    ProjectTwice(value, false, words);
  }
}
