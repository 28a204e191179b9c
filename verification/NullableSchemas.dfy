/**
 The rewrite of `anyOf: [schema, null]` into OpenAPI 3.0 nullable form, and what it does to the set
 of accepted values. Objects are maps, so key order plays no part.
 */
module NullableSchemas {
  import opened Common

  datatype Json =
    | Null
    | Bool(truth: bool)
    | Number(int)
    | Str(text: string)
    | Arr(items: seq<Json>)
    | Obj(fields: map<string, Json>)

  const NULL_SCHEMA := Obj(map["type" := Str("null")])

  // ---------------------------------------------------------------- the rewrite

  /** A two-way alternative between the null schema and one object schema. */
  predicate Wrapper(fields: map<string, Json>) {
    && "anyOf" in fields && fields["anyOf"].Arr? && |fields["anyOf"].items| == 2
    && var items := fields["anyOf"].items;
    && ((items[0] == NULL_SCHEMA && items[1] != NULL_SCHEMA && items[1].Obj?)
        || (items[1] == NULL_SCHEMA && items[0] != NULL_SCHEMA && items[0].Obj?))
  }

  function Wrapped(fields: map<string, Json>): map<string, Json>
    requires Wrapper(fields)
  {
    var items := fields["anyOf"].items;
    if items[0] == NULL_SCHEMA then items[1].fields else items[0].fields
  }

  function Siblings(fields: map<string, Json>): map<string, Json> {
    fields - {"anyOf"}
  }

  predicate Conflicting(fields: map<string, Json>)
    requires Wrapper(fields)
  {
    "$ref" !in Wrapped(fields)
    && exists k | k in Siblings(fields) && k in Wrapped(fields) :: Siblings(fields)[k] != Wrapped(fields)[k]
  }

  function Unwrapped(fields: map<string, Json>): map<string, Json>
    requires Wrapper(fields)
  {
    if "$ref" in Wrapped(fields) then Siblings(fields)["allOf" := Arr([Obj(Wrapped(fields))])]["nullable" := Bool(true)]
    else (Wrapped(fields) + Siblings(fields))["nullable" := Bool(true)]
  }

  /** `None` where the original raises for conflicting wrapper constraints. */
  function Normalize(value: Json): Option<Json>
    decreases value, 1
  {
    match value
    case Arr(items) =>
      if exists i | 0 <= i < |items| :: Normalize(items[i]).None? then None
      else Some(Arr(seq(|items|, i requires 0 <= i < |items| => Normalize(items[i]).value)))
    case Obj(fields) =>
      var normalized := NormalizeMembers(fields);
      if normalized.None? then None
      else if !Wrapper(normalized.value) then Some(Obj(normalized.value))
      else if Conflicting(normalized.value) then None
      else Some(Obj(Unwrapped(normalized.value)))
    case _ => Some(value)
  }

  /** The members of an object normalized, before the rewrite of the object itself. */
  function NormalizeMembers(fields: map<string, Json>): (normalized: Option<map<string, Json>>)
    ensures normalized.Some? <==> forall k | k in fields :: Normalize(fields[k]).Some?
    ensures normalized.Some? ==> normalized.value.Keys == fields.Keys
    ensures normalized.Some? ==> forall k | k in fields :: Normalize(fields[k]) == Some(normalized.value[k])
    decreases Obj(fields), 0
  {
    if exists k | k in fields :: Normalize(fields[k]).None? then None
    else Some(map k | k in fields :: Normalize(fields[k]).value)
  }

  function Members(fields: map<string, Json>): map<string, Json>
    requires Normalize(Obj(fields)).Some?
  {
    NormalizeMembers(fields).value
  }

  // ---------------------------------------------------------------- normal form

  ghost predicate NoWrapper(value: Json)
    decreases value
  {
    match value
    case Arr(items) => forall i | 0 <= i < |items| :: NoWrapper(items[i])
    case Obj(fields) => !Wrapper(fields) && forall k | k in fields :: NoWrapper(fields[k])
    case _ => true
  }

  /** No rewritable node is left anywhere in the output. */
  lemma {:induction false} OutputHasNoWrapper(value: Json)
    requires Normalize(value).Some?
    ensures NoWrapper(Normalize(value).value)
    decreases value
  {
    match value
    case Arr(items) =>
      forall i | 0 <= i < |items| ensures Normalize(items[i]).Some? && NoWrapper(Normalize(items[i]).value) {
        OutputHasNoWrapper(items[i]);
      }
    case Obj(fields) =>
      forall k | k in fields ensures Normalize(fields[k]).Some? && NoWrapper(Normalize(fields[k]).value) {
        OutputHasNoWrapper(fields[k]);
      }
      var normalized := Members(fields);
      if Wrapper(normalized) {
        UnwrappedHasNoWrapper(normalized);
      }
    case _ =>
  }

  lemma UnwrappedHasNoWrapper(fields: map<string, Json>)
    requires Wrapper(fields) && forall k | k in fields :: NoWrapper(fields[k])
    ensures NoWrapper(Obj(Unwrapped(fields)))
  {
    assert NoWrapper(fields["anyOf"]);
    var inner := Wrapped(fields);
    assert NoWrapper(Obj(inner)) by {
      assert NoWrapper(fields["anyOf"].items[0]) && NoWrapper(fields["anyOf"].items[1]);
    }
    var after := Unwrapped(fields);
    forall k | k in after ensures NoWrapper(after[k]) {
      if k == "allOf" && "$ref" in inner {
        assert after[k] == Arr([Obj(inner)]);
      }
    }
    assert "anyOf" in after ==> "anyOf" in inner && after["anyOf"] == inner["anyOf"];
  }

  lemma {:induction false} NoWrapperIsFixed(value: Json)
    requires NoWrapper(value)
    ensures Normalize(value) == Some(value)
    decreases value
  {
    match value
    case Arr(items) =>
      forall i | 0 <= i < |items| ensures Normalize(items[i]) == Some(items[i]) {
        NoWrapperIsFixed(items[i]);
      }
      assert seq(|items|, i requires 0 <= i < |items| => Normalize(items[i]).value) == items;
    case Obj(fields) =>
      forall k | k in fields ensures Normalize(fields[k]) == Some(fields[k]) {
        NoWrapperIsFixed(fields[k]);
      }
      var members := NormalizeMembers(fields).value;
      assert forall k :: k in fields ==> Normalize(fields[k]) == Some(members[k]);
      assert members == fields;
    case _ =>
  }

  /** Normalizing a normalized document changes nothing and cannot raise. */
  lemma RewriteIsIdempotent(value: Json)
    requires Normalize(value).Some?
    ensures Normalize(Normalize(value).value) == Normalize(value)
  {
    OutputHasNoWrapper(value);
    NoWrapperIsFixed(Normalize(value).value);
  }

  // ---------------------------------------------------------------- accepted values

  /**
   A JSON Schema fragment. References and every keyword without nested schemas are read by opaque
   predicates; `nullable: true` means "null or the rest".
   */
  datatype Semantics = Semantics(
    typeOk: (Json, Json) -> bool,
    refOk: (Json, Json) -> bool,
    other: (string, Json, Json) -> bool,
    annotation: string -> bool)

  ghost predicate ReadsNull(sem: Semantics) {
    forall v :: sem.typeOk(Str("null"), v) <==> v.Null?
  }

  predicate Nullable(fields: map<string, Json>) {
    "nullable" in fields && fields["nullable"] == Bool(true)
  }

  ghost predicate Accepts(schema: Json, v: Json, sem: Semantics)
    decreases schema, 0
  {
    match schema
    case Bool(truth) => truth
    case Obj(fields) => (Nullable(fields) && v.Null?) || forall k | k in fields :: Holds(k, fields[k], v, sem)
    case _ => false
  }

  ghost predicate Holds(keyword: string, operand: Json, v: Json, sem: Semantics)
    decreases operand, 1
  {
    if keyword == "nullable" then true
    else if keyword == "anyOf" then operand.Arr? && exists i | 0 <= i < |operand.items| ::
      Accepts(operand.items[i], v, sem)
    else if keyword == "allOf" then operand.Arr? && forall i | 0 <= i < |operand.items| ::
      Accepts(operand.items[i], v, sem)
    else if keyword == "items" then v.Arr? ==> forall i | 0 <= i < |v.items| :: Accepts(operand, v.items[i], sem)
    else if keyword == "properties" then
      operand.Obj? && (v.Obj? ==> forall name | name in operand.fields :: name in v.fields ==>
        Accepts(operand.fields[name], v.fields[name], sem))
    else if keyword == "$ref" then sem.refOk(operand, v)
    else if keyword == "type" then sem.typeOk(operand, v)
    else sem.annotation(keyword) || sem.other(keyword, operand, v)
  }

  /** All keywords of an object hold, `nullable` not taken into account. */
  ghost predicate Body(fields: map<string, Json>, v: Json, sem: Semantics) {
    forall k | k in fields :: Holds(k, fields[k], v, sem)
  }

  // ---------------------------------------------------------------- one wrapper

  lemma AlternativesAccept(fields: map<string, Json>, v: Json, sem: Semantics)
    requires Wrapper(fields) && ReadsNull(sem)
    ensures Holds("anyOf", fields["anyOf"], v, sem) <==> v.Null? || Accepts(Obj(Wrapped(fields)), v, sem)
  {
    var items := fields["anyOf"].items;
    NullSchemaAccepts(v, sem);
    var at := if items[0] == NULL_SCHEMA then 1 else 0;
    assert items[at] == Obj(Wrapped(fields)) && items[1 - at] == NULL_SCHEMA;
    if Holds("anyOf", fields["anyOf"], v, sem) {
      var i :| 0 <= i < |items| && Accepts(items[i], v, sem);
      assert i == at || i == 1 - at;
    }
  }

  lemma NullSchemaAccepts(v: Json, sem: Semantics)
    requires ReadsNull(sem)
    ensures Accepts(NULL_SCHEMA, v, sem) <==> v.Null?
  {
    var fields := NULL_SCHEMA.fields;
    assert fields["type"] == Str("null");
    assert Holds("type", Str("null"), v, sem) <==> v.Null?;
    assert forall k :: k in fields ==> k == "type";
  }

  /** The siblings that survive: an `allOf` beside a wrapped reference is overwritten. */
  function Remaining(fields: map<string, Json>): map<string, Json>
    requires Wrapper(fields)
  {
    if "$ref" in Wrapped(fields) then Siblings(fields) - {"allOf"} else Siblings(fields)
  }

  lemma UnwrappedAccepts(fields: map<string, Json>, v: Json, sem: Semantics)
    requires Wrapper(fields) && !Conflicting(fields)
    ensures Accepts(Obj(Unwrapped(fields)), v, sem)
            <==> v.Null? || (Body(Remaining(fields), v, sem) && Accepts(Obj(Wrapped(fields)), v, sem))
  {
    assert Nullable(Unwrapped(fields));
    if !v.Null? {
      var inner, outer, after := Wrapped(fields), Remaining(fields), Unwrapped(fields);
      if "$ref" in inner {
        ReferenceWrapped(inner, outer, after, v, sem);
      } else {
        assert forall k | k in outer && k in inner :: outer[k] == inner[k];
        MergedWrapped(inner, outer, after, v, sem);
      }
      hide Holds, Body, Wrapper, Wrapped, Unwrapped, Remaining, Conflicting;
    }
  }

  lemma ReferenceWrapped(inner: map<string, Json>, outer: map<string, Json>, after: map<string, Json>, v: Json,
                         sem: Semantics)
    requires after == outer["allOf" := Arr([Obj(inner)])]["nullable" := Bool(true)] && "allOf" !in outer
    ensures Body(after, v, sem) <==> Body(outer, v, sem) && Accepts(Obj(inner), v, sem)
  {
    assert Arr([Obj(inner)]).items[0] == Obj(inner);
    assert Holds("allOf", after["allOf"], v, sem) <==> Accepts(Obj(inner), v, sem);
    hide Accepts;
    assert forall k | k in outer && k != "nullable" :: k in after && after[k] == outer[k];
    assert forall k | k in after && k != "nullable" && k != "allOf" :: k in outer && after[k] == outer[k];
  }

  lemma MergedWrapped(inner: map<string, Json>, outer: map<string, Json>, after: map<string, Json>, v: Json,
                      sem: Semantics)
    requires after == (inner + outer)["nullable" := Bool(true)]
    requires forall k | k in outer && k in inner :: outer[k] == inner[k]
    ensures Body(after, v, sem) <==> Body(outer, v, sem) && Body(inner, v, sem)
  {
    hide Accepts;
    assert forall k | k in outer && k != "nullable" :: k in after && after[k] == outer[k];
    assert forall k | k in inner && k != "nullable" :: k in after && after[k] == inner[k];
    assert forall k | k in after && k != "nullable" ::
        (k in outer && after[k] == outer[k]) || (k in inner && after[k] == inner[k]);
  }

  lemma WrapperAccepts(fields: map<string, Json>, v: Json, sem: Semantics)
    requires Wrapper(fields) && ReadsNull(sem)
    ensures Accepts(Obj(fields), v, sem)
            <==> (Nullable(fields) && v.Null?)
                 || (Body(Siblings(fields), v, sem) && (v.Null? || Accepts(Obj(Wrapped(fields)), v, sem)))
  {
    AlternativesAccept(fields, v, sem);
    hide Wrapper, Wrapped;
    var outer := Siblings(fields);
    assert forall k | k in outer :: k in fields && fields[k] == outer[k];
    assert forall k | k in fields && k != "anyOf" :: k in outer && outer[k] == fields[k];
  }

  /** Null gets through the wrapper's siblings. */
  ghost predicate NullPasses(fields: map<string, Json>, sem: Semantics) {
    Nullable(fields) || Body(Siblings(fields), Null, sem)
  }

  /** Every value the rest of the node accepts meets the `allOf` that is overwritten, if one is. */
  ghost predicate LosesNothing(fields: map<string, Json>, sem: Semantics)
    requires Wrapper(fields)
  {
    "$ref" in Wrapped(fields) && "allOf" in fields ==>
      forall v: Json :: !v.Null? && Body(Remaining(fields), v, sem) && Accepts(Obj(Wrapped(fields)), v, sem) ==>
        Holds("allOf", fields["allOf"], v, sem)
  }

  /** The rewrite has no `allOf` to overwrite. */
  predicate DropsNothing(fields: map<string, Json>)
    requires Wrapper(fields)
  {
    "$ref" in Wrapped(fields) ==> "allOf" !in fields
  }

  ghost predicate SameVerdict(fields: map<string, Json>, v: Json, sem: Semantics)
    requires Wrapper(fields)
  {
    Accepts(Obj(Unwrapped(fields)), v, sem) == Accepts(Obj(fields), v, sem)
  }

  lemma SiblingsAreRemaining(fields: map<string, Json>, v: Json, sem: Semantics)
    requires Wrapper(fields)
    ensures Body(Siblings(fields), v, sem)
            <==> Body(Remaining(fields), v, sem)
                 && ("$ref" in Wrapped(fields) && "allOf" in fields ==> Holds("allOf", fields["allOf"], v, sem))
  {
    var outer, rest := Siblings(fields), Remaining(fields);
    hide Wrapper, Wrapped;
    assert forall k | k in rest :: k in outer && outer[k] == rest[k];
    assert forall k | k in outer && k != "allOf" :: k in rest && rest[k] == outer[k];
    if "allOf" in fields {
      assert outer["allOf"] == fields["allOf"];
    }
  }

  /**
   Exactly when unwrapping one node keeps the accepted values: when null passes the wrapper's siblings, and an
   overwritten `allOf` was no constraint of its own.
   */
  lemma UnwrappingIsExact(fields: map<string, Json>, sem: Semantics)
    requires Wrapper(fields) && ReadsNull(sem) && !Conflicting(fields)
    ensures (forall v :: SameVerdict(fields, v, sem)) <==> NullPasses(fields, sem) && LosesNothing(fields, sem)
  {
    forall v: Json
      ensures v.Null? ==> (SameVerdict(fields, v, sem) <==> NullPasses(fields, sem))
      ensures !v.Null? ==> (SameVerdict(fields, v, sem) <==>
                            (Body(Remaining(fields), v, sem) && Accepts(Obj(Wrapped(fields)), v, sem) ==>
                             Body(Siblings(fields), v, sem)))
      ensures Body(Siblings(fields), v, sem)
              <==> Body(Remaining(fields), v, sem)
                   && ("$ref" in Wrapped(fields) && "allOf" in fields ==> Holds("allOf", fields["allOf"], v, sem))
    {
      UnwrappedAccepts(fields, v, sem);
      WrapperAccepts(fields, v, sem);
      SiblingsAreRemaining(fields, v, sem);
      hide Accepts, Body, Wrapper, Wrapped, Unwrapped, Siblings, Remaining, Holds;
    }
    assert SameVerdict(fields, Null, sem) <==> NullPasses(fields, sem);
    hide Accepts, Body, Wrapper, Wrapped, Unwrapped, Siblings, Remaining, Holds, NullPasses, SameVerdict;
  }

  /** The siblings are annotations, which constrain no value. */
  ghost predicate Annotated(fields: map<string, Json>, sem: Semantics) {
    forall k | k in Siblings(fields) ::
      sem.annotation(k) && k !in {"anyOf", "allOf", "items", "properties", "$ref", "type"}
  }

  lemma AnnotationsAcceptNull(fields: map<string, Json>, sem: Semantics)
    requires Wrapper(fields) && Annotated(fields, sem)
    ensures NullPasses(fields, sem) && DropsNothing(fields) && LosesNothing(fields, sem)
  {
    assert "allOf" in fields ==> "allOf" in Siblings(fields);
  }

  // ---------------------------------------------------------------- where a node changes its meaning

  lemma RewriteOfNode(fields: map<string, Json>)
    requires Wrapper(fields) && !Conflicting(fields) && forall k | k in fields :: NoWrapper(fields[k])
    ensures Normalize(Obj(fields)) == Some(Obj(Unwrapped(fields)))
  {
    MembersStay(fields);
  }

  /** The two alternatives of a nullable schema, null first or last. */
  predicate NullableAlternatives(alternatives: Json, inner: map<string, Json>) {
    || alternatives == Arr([Obj(map["type" := Str("null")]), Obj(inner)])
    || alternatives == Arr([Obj(inner), Obj(map["type" := Str("null")])])
  }

  /**
   The rewrite of a node with two alternatives, one of them null, written out: a reference moves under `allOf`, any
   other schema is merged with the siblings unless they disagree, and the node becomes nullable.
   */
  lemma NullableNode(fields: map<string, Json>, inner: map<string, Json>)
    requires "anyOf" in fields && NullableAlternatives(fields["anyOf"], inner)
    requires inner != map["type" := Str("null")]
    requires forall k | k in fields :: NoWrapper(fields[k])
    ensures var siblings := fields - {"anyOf"};
            Normalize(Obj(fields)) ==
            if "$ref" in inner then Some(Obj(siblings["allOf" := Arr([Obj(inner)])]["nullable" := Bool(true)]))
            else if exists k | k in siblings && k in inner :: siblings[k] != inner[k] then None
            else Some(Obj((inner + siblings)["nullable" := Bool(true)]))
  {
    var items := fields["anyOf"].items;
    assert Obj(inner) != NULL_SCHEMA;
    assert Wrapper(fields) && Wrapped(fields) == inner;
    MembersStay(fields);
    hide NoWrapper, Wrapper, Wrapped;
  }

  /** Any other node is left as it is: not two alternatives, both or neither null, or no object beside null. */
  lemma OtherNode(fields: map<string, Json>)
    requires forall k | k in fields :: NoWrapper(fields[k])
    requires "anyOf" in fields ==>
               forall inner: map<string, Json> :: inner != map["type" := Str("null")] ==>
                 !NullableAlternatives(fields["anyOf"], inner)
    ensures Normalize(Obj(fields)) == Some(Obj(fields))
  {
    if Wrapper(fields) {
      WrapperHasForm(fields);
    }
    MembersStay(fields);
    hide NoWrapper, Wrapper;
  }

  lemma WrapperHasForm(fields: map<string, Json>)
    requires Wrapper(fields)
    ensures "anyOf" in fields && NullableAlternatives(fields["anyOf"], Wrapped(fields))
    ensures Wrapped(fields) != map["type" := Str("null")]
  {
    var items := fields["anyOf"].items;
    assert items == [items[0], items[1]];
  }

  lemma MembersStay(fields: map<string, Json>)
    requires forall k | k in fields :: NoWrapper(fields[k])
    ensures NormalizeMembers(fields) == Some(fields)
  {
    forall k | k in fields ensures Normalize(fields[k]) == Some(fields[k]) {
      NoWrapperIsFixed(fields[k]);
    }
    var members := NormalizeMembers(fields).value;
    assert forall k :: k in fields ==> Normalize(fields[k]) == Some(members[k]);
    assert members == fields;
  }

  /** A nullable reference to `name`, beside one other keyword. */
  function NullableReference(name: string, keyword: string, operand: Json): (fields: map<string, Json>)
    requires keyword != "anyOf"
    ensures Wrapper(fields) && Wrapped(fields) == map["$ref" := Str(name)]
    ensures fields["anyOf"] == Arr([NULL_SCHEMA, Obj(map["$ref" := Str(name)])])
    ensures Siblings(fields) == map[keyword := operand]
    ensures fields.Keys == {"anyOf", keyword} && fields[keyword] == operand
  {
    var reference := Obj(map["$ref" := Str(name)]);
    assert "$ref" in reference.fields && "$ref" !in NULL_SCHEMA.fields;
    map["anyOf" := Arr([NULL_SCHEMA, reference]), keyword := operand]
  }

  lemma ReferenceNode(name: string, keyword: string, operand: Json)
    requires keyword != "anyOf" && NoWrapper(operand)
    ensures var fields := NullableReference(name, keyword, operand);
            Normalize(Obj(fields)) == Some(Obj(Unwrapped(fields)))
  {
    var fields := NullableReference(name, keyword, operand);
    var items := fields["anyOf"].items;
    forall i | 0 <= i < |items| ensures NoWrapper(items[i]) {
      assert "anyOf" !in items[i].fields;
      assert forall k | k in items[i].fields :: items[i].fields[k].Str?;
    }
    RewriteOfNode(fields);
  }

  /** An `allOf` beside a wrapped reference is lost, although null passes it. */
  lemma OverwrittenAllOf(sem: Semantics)
    requires ReadsNull(sem) && sem.refOk(Str("X"), Number(1))
    ensures var fields := NullableReference("X", "allOf", Arr([NULL_SCHEMA]));
            && NullPasses(fields, sem)
            && !Accepts(Obj(fields), Number(1), sem)
            && Normalize(Obj(fields)).Some? && Accepts(Normalize(Obj(fields)).value, Number(1), sem)
  {
    var lost := Arr([NULL_SCHEMA]);
    var fields := NullableReference("X", "allOf", lost);
    assert NoWrapper(NULL_SCHEMA);
    ReferenceNode("X", "allOf", lost);
    OnlyNullMeets(lost, Null, sem);
    OnlyNullMeets(lost, Number(1), sem);
    hide Wrapper, Wrapped, Unwrapped, Normalize, Siblings;
    ReferenceAccepts("X", "allOf", lost, Number(1), sem);
  }

  lemma OnlyNullMeets(lost: Json, v: Json, sem: Semantics)
    requires ReadsNull(sem) && lost == Arr([NULL_SCHEMA])
    ensures Holds("allOf", lost, v, sem) <==> v.Null?
  {
    NullSchemaAccepts(v, sem);
    hide Accepts;
    assert lost.items[0] == NULL_SCHEMA;
  }

  /** What a nullable reference with one sibling accepts, before and after the rewrite. */
  lemma ReferenceAccepts(name: string, keyword: string, operand: Json, v: Json, sem: Semantics)
    requires keyword !in {"anyOf", "nullable"} && ReadsNull(sem)
    ensures var fields := NullableReference(name, keyword, operand);
            && (NullPasses(fields, sem) <==> Holds(keyword, operand, Null, sem))
            && (Accepts(Obj(fields), v, sem)
                <==> Holds(keyword, operand, v, sem) && (v.Null? || sem.refOk(Str(name), v)))
            && (Accepts(Obj(Unwrapped(fields)), v, sem)
                <==> v.Null? || ((keyword == "allOf" || Holds(keyword, operand, v, sem)) && sem.refOk(Str(name), v)))
  {
    var fields := NullableReference(name, keyword, operand);
    assert !Nullable(fields);
    hide Accepts, Holds, Body, Wrapper, Wrapped, Unwrapped, Siblings, Remaining, Nullable, NullableReference;
    WrapperAccepts(fields, v, sem);
    UnwrappedAccepts(fields, v, sem);
    ReferenceReads(name, v, sem);
    OneKeyword(keyword, operand, v, sem);
    OneKeyword(keyword, operand, Null, sem);
    RemainingOfOne(name, keyword, operand, v, sem);
  }

  lemma RemainingOfOne(name: string, keyword: string, operand: Json, v: Json, sem: Semantics)
    requires keyword != "anyOf"
    ensures Body(Remaining(NullableReference(name, keyword, operand)), v, sem)
            <==> keyword == "allOf" || Body(map[keyword := operand], v, sem)
  {
    hide Holds, Wrapper, Wrapped, Siblings;
    var rest := Remaining(NullableReference(name, keyword, operand));
    assert rest == if keyword == "allOf" then map[] else map[keyword := operand];
  }

  lemma ReferenceReads(name: string, v: Json, sem: Semantics)
    ensures Accepts(Obj(map["$ref" := Str(name)]), v, sem) <==> sem.refOk(Str(name), v)
  {
    var fields := map["$ref" := Str(name)];
    assert fields["$ref"] == Str(name);
    assert Holds("$ref", fields["$ref"], v, sem) <==> sem.refOk(Str(name), v);
  }

  lemma OneKeyword(keyword: string, operand: Json, v: Json, sem: Semantics)
    ensures Body(map[keyword := operand], v, sem) <==> Holds(keyword, operand, v, sem)
  {
    var fields := map[keyword := operand];
    assert fields[keyword] == operand;
    hide Holds;
  }

  /** A sibling that rejects null no longer does. */
  lemma SiblingRejectsNull(sem: Semantics)
    requires ReadsNull(sem) && !sem.typeOk(Str("string"), Null)
    ensures var fields := NullableReference("X", "type", Str("string"));
            && DropsNothing(fields)
            && !Accepts(Obj(fields), Null, sem)
            && Normalize(Obj(fields)).Some? && Accepts(Normalize(Obj(fields)).value, Null, sem)
  {
    ReferenceNode("X", "type", Str("string"));
    hide Wrapper, Wrapped, Unwrapped, Normalize, Siblings;
    ReferenceAccepts("X", "type", Str("string"), Null, sem);
  }

  // ---------------------------------------------------------------- whole schemas

  /** No object inside, so nothing for the rewrite to look at. */
  ghost predicate Plain(value: Json)
    decreases value
  {
    match value
    case Arr(items) => forall i | 0 <= i < |items| :: Plain(items[i])
    case Obj(_) => false
    case _ => true
  }

  /** A schema of the fragment. */
  ghost predicate Fragment(schema: Json, sem: Semantics)
    decreases schema, 0
  {
    match schema
    case Bool(_) => true
    case Obj(fields) => forall k | k in fields :: FragmentAt(k, fields[k], sem)
    case _ => false
  }

  ghost predicate FragmentAt(keyword: string, operand: Json, sem: Semantics)
    decreases operand, 1
  {
    if keyword == "anyOf" || keyword == "allOf" then
      operand.Arr? && forall i | 0 <= i < |operand.items| :: Fragment(operand.items[i], sem)
    else if keyword == "items" then Fragment(operand, sem)
    else if keyword == "properties" then
      operand.Obj? && forall name | name in operand.fields :: Fragment(operand.fields[name], sem)
    else if keyword == "$ref" || keyword == "type" then Plain(operand)
    else sem.annotation(keyword) || Plain(operand)
  }

  /** `ok` of every wrapper where a schema may stand. */
  ghost predicate EveryWrapper(schema: Json, ok: map<string, Json> -> bool)
    decreases schema, 0
  {
    match schema
    case Obj(fields) => (Wrapper(fields) ==> ok(fields)) && forall k | k in fields :: EveryWrapperAt(k, fields[k], ok)
    case _ => true
  }

  ghost predicate EveryWrapperAt(keyword: string, operand: Json, ok: map<string, Json> -> bool)
    decreases operand, 1
  {
    if keyword == "anyOf" || keyword == "allOf" then
      operand.Arr? ==> forall i | 0 <= i < |operand.items| :: EveryWrapper(operand.items[i], ok)
    else if keyword == "items" then EveryWrapper(operand, ok)
    else if keyword == "properties" then
      operand.Obj? ==> forall name | name in operand.fields :: EveryWrapper(operand.fields[name], ok)
    else true
  }

  /** The exact condition of one node, at every wrapper. */
  ghost predicate Faithful(schema: Json, sem: Semantics) {
    EveryWrapper(schema, ExactAt(sem))
  }

  ghost function ExactAt(sem: Semantics): map<string, Json> -> bool {
    fields => Wrapper(fields) && NullPasses(fields, sem) && LosesNothing(fields, sem)
  }

  /** Every wrapper's siblings are annotations only. */
  ghost predicate AnnotatedWrappers(schema: Json, sem: Semantics) {
    EveryWrapper(schema, AnnotatedAt(sem))
  }

  ghost function AnnotatedAt(sem: Semantics): map<string, Json> -> bool {
    fields => Annotated(fields, sem)
  }

  lemma {:induction false} WeakerEverywhere(
    schema: Json, strong: map<string, Json> -> bool, weak: map<string, Json> -> bool)
    requires EveryWrapper(schema, strong)
    requires forall fields :: Wrapper(fields) && strong(fields) ==> weak(fields)
    ensures EveryWrapper(schema, weak)
    decreases schema, 0
  {
    if schema.Obj? {
      var fields := schema.fields;
      forall k | k in fields ensures EveryWrapperAt(k, fields[k], weak) {
        WeakerEverywhereAt(k, fields[k], strong, weak);
      }
    }
  }

  lemma {:induction false} WeakerEverywhereAt(
    keyword: string, operand: Json, strong: map<string, Json> -> bool, weak: map<string, Json> -> bool)
    requires EveryWrapperAt(keyword, operand, strong)
    requires forall fields :: Wrapper(fields) && strong(fields) ==> weak(fields)
    ensures EveryWrapperAt(keyword, operand, weak)
    decreases operand, 1
  {
    if operand.Arr? && (keyword == "anyOf" || keyword == "allOf") {
      forall i | 0 <= i < |operand.items| ensures EveryWrapper(operand.items[i], weak) {
        WeakerEverywhere(operand.items[i], strong, weak);
      }
    } else if keyword == "items" {
      WeakerEverywhere(operand, strong, weak);
    } else if operand.Obj? && keyword == "properties" {
      forall name | name in operand.fields ensures EveryWrapper(operand.fields[name], weak) {
        WeakerEverywhere(operand.fields[name], strong, weak);
      }
    }
  }

  lemma AnnotatedIsFaithful(schema: Json, sem: Semantics)
    requires AnnotatedWrappers(schema, sem)
    ensures Faithful(schema, sem)
  {
    forall fields | Wrapper(fields) && AnnotatedAt(sem)(fields) ensures ExactAt(sem)(fields) {
      AnnotationsAcceptNull(fields, sem);
    }
    WeakerEverywhere(schema, AnnotatedAt(sem), ExactAt(sem));
  }

  lemma {:induction false} PlainIsFixed(value: Json)
    requires Plain(value)
    ensures Normalize(value) == Some(value)
    decreases value
  {
    if value.Arr? {
      var items := value.items;
      forall i | 0 <= i < |items| ensures Normalize(items[i]) == Some(items[i]) {
        PlainIsFixed(items[i]);
      }
      assert seq(|items|, i requires 0 <= i < |items| => Normalize(items[i]).value) == items;
    }
  }

  /** The rewrite neither makes nor unmakes a null schema. */
  lemma NullSchemaIsStable(value: Json)
    requires Normalize(value).Some?
    ensures Normalize(value).value == NULL_SCHEMA <==> value == NULL_SCHEMA
    ensures Normalize(value).value.Obj? <==> value.Obj?
    ensures Normalize(value).value.Arr? <==> value.Arr?
  {
    if value.Obj? {
      var before, after := value.fields, Members(value.fields);
      if Wrapper(after) {
        assert "nullable" in Unwrapped(after) && "nullable" !in NULL_SCHEMA.fields;
        assert "anyOf" in before;
      } else if before.Keys == {"type"} {
        assert Normalize(before["type"]) == Some(after["type"]);
        assert after["type"] == Str("null") <==> before["type"] == Str("null");
        assert before == map["type" := before["type"]] && after == map["type" := after["type"]];
      }
    }
  }

  /** Whether a node is a wrapper shows before and after its members are normalized. */
  lemma WrapperIsStable(fields: map<string, Json>)
    requires Normalize(Obj(fields)).Some?
    ensures Wrapper(Members(fields)) <==> Wrapper(fields)
    ensures Wrapper(fields) ==> Normalize(Obj(Wrapped(fields))) == Some(Obj(Wrapped(Members(fields))))
  {
    if "anyOf" in fields {
      var before, after := fields["anyOf"], Members(fields)["anyOf"];
      assert Normalize(before) == Some(after);
      if before.Arr? {
        forall i | 0 <= i < |before.items|
          ensures Normalize(before.items[i]).Some? && after.items[i] == Normalize(before.items[i]).value
          ensures after.items[i] == NULL_SCHEMA <==> before.items[i] == NULL_SCHEMA
          ensures after.items[i].Obj? <==> before.items[i].Obj?
        {
          NullSchemaIsStable(before.items[i]);
        }
      } else {
        NullSchemaIsStable(before);
      }
    }
  }

  ghost predicate SameMembers(fields: map<string, Json>, after: map<string, Json>, sem: Semantics) {
    && after.Keys == fields.Keys
    && forall k, w | k in fields :: Holds(k, after[k], w, sem) == Holds(k, fields[k], w, sem)
  }

  lemma SameBodies(fields: map<string, Json>, after: map<string, Json>, v: Json, sem: Semantics)
    requires SameMembers(fields, after, sem)
    ensures Body(after, v, sem) == Body(fields, v, sem)
    ensures Body(Siblings(after), v, sem) == Body(Siblings(fields), v, sem)
    ensures Body(Siblings(after) - {"allOf"}, v, sem) == Body(Siblings(fields) - {"allOf"}, v, sem)
  {
    hide Holds;
    forall k | k in fields ensures k in after && Holds(k, after[k], v, sem) == Holds(k, fields[k], v, sem) {
    }
    SameOn(fields, after, v, sem);
    SameOn(Siblings(fields), Siblings(after), v, sem);
    SameOn(Siblings(fields) - {"allOf"}, Siblings(after) - {"allOf"}, v, sem);
  }

  lemma SameOn(fields: map<string, Json>, after: map<string, Json>, v: Json, sem: Semantics)
    requires after.Keys == fields.Keys
    requires forall k | k in fields :: Holds(k, after[k], v, sem) == Holds(k, fields[k], v, sem)
    ensures Body(after, v, sem) == Body(fields, v, sem)
  {
    hide Holds;
    if Body(fields, v, sem) {
      forall k | k in after ensures Holds(k, after[k], v, sem) {
        assert k in fields;
      }
    }
  }

  /** A wrapper that meets the condition before its members are normalized meets it after. */
  lemma ExactIsStable(fields: map<string, Json>, after: map<string, Json>, sem: Semantics)
    requires ReadsNull(sem) && Wrapper(fields) && Wrapper(after) && SameMembers(fields, after, sem)
    requires Nullable(after) <==> Nullable(fields)
    requires "$ref" in Wrapped(after) <==> "$ref" in Wrapped(fields)
    requires NullPasses(fields, sem) && LosesNothing(fields, sem)
    ensures NullPasses(after, sem) && LosesNothing(after, sem)
  {
    hide Accepts, Holds, Body, Wrapper, Wrapped, Siblings;
    SameBodies(fields, after, Null, sem);
    forall v: Json
      ensures Body(Remaining(after), v, sem) == Body(Remaining(fields), v, sem)
      ensures !v.Null? ==> Accepts(Obj(Wrapped(after)), v, sem) == Accepts(Obj(Wrapped(fields)), v, sem)
      ensures "allOf" in fields ==> Holds("allOf", after["allOf"], v, sem) == Holds("allOf", fields["allOf"], v, sem)
    {
      SameBodies(fields, after, v, sem);
      WrapperHasAlternatives(fields);
      AlternativesAccept(fields, v, sem);
      AlternativesAccept(after, v, sem);
    }
    hide SameMembers;
  }

  lemma WrapperHasAlternatives(fields: map<string, Json>)
    requires Wrapper(fields)
    ensures "anyOf" in fields
  {
  }

  /**
   The whole rewrite keeps the accepted values: for every schema of the fragment whose wrappers meet the exact
   condition of their node and whose rewrite does not raise, and for every value.
   */
  lemma {:induction false} RewriteKeepsMeaning(schema: Json, v: Json, sem: Semantics)
    requires ReadsNull(sem) && Fragment(schema, sem) && Faithful(schema, sem) && Normalize(schema).Some?
    ensures Accepts(Normalize(schema).value, v, sem) == Accepts(schema, v, sem)
    decreases schema, 0
  {
    if schema.Obj? {
      var fields := schema.fields;
      var after := Members(fields);
      forall k, w | k in fields ensures Holds(k, after[k], w, sem) == Holds(k, fields[k], w, sem) {
        KeywordKeepsMeaning(k, fields[k], w, sem);
      }
      WrapperIsStable(fields);
      NullableIsStable(fields);
      hide Accepts, Fragment, EveryWrapper, Normalize, Wrapper, Wrapped;
      ObjectKeepsMeaning(fields, after, v, sem);
    }
  }

  /** When the siblings are annotations only, no condition is left to check. */
  lemma AnnotatedRewriteKeepsMeaning(schema: Json, v: Json, sem: Semantics)
    requires ReadsNull(sem) && Fragment(schema, sem) && AnnotatedWrappers(schema, sem) && Normalize(schema).Some?
    ensures Accepts(Normalize(schema).value, v, sem) == Accepts(schema, v, sem)
  {
    AnnotatedIsFaithful(schema, sem);
    RewriteKeepsMeaning(schema, v, sem);
  }

  lemma NullableIsStable(fields: map<string, Json>)
    requires Normalize(Obj(fields)).Some?
    ensures Nullable(Members(fields)) <==> Nullable(fields)
  {
    var after := Members(fields);
    if "nullable" in fields {
      assert Normalize(fields["nullable"]) == Some(after["nullable"]);
    }
  }

  lemma ObjectKeepsMeaning(fields: map<string, Json>, after: map<string, Json>, v: Json, sem: Semantics)
    requires ReadsNull(sem) && Normalize(Obj(fields)).Some? && after == Members(fields)
    requires SameMembers(fields, after, sem) && (Nullable(after) <==> Nullable(fields))
    requires Wrapper(after) <==> Wrapper(fields)
    requires Wrapper(fields) ==> Normalize(Obj(Wrapped(fields))) == Some(Obj(Wrapped(after)))
    requires Wrapper(fields) ==> NullPasses(fields, sem) && LosesNothing(fields, sem)
    ensures Accepts(Normalize(Obj(fields)).value, v, sem) == Accepts(Obj(fields), v, sem)
  {
    assert Normalize(Obj(fields)).value == Obj(if Wrapper(after) then Unwrapped(after) else after);
    assert Wrapper(after) ==> !Conflicting(after);
    hide Normalize, Members;
    SameBodies(fields, after, v, sem);
    SameBodySameVerdict(fields, after, v, sem);
    if Wrapper(after) {
      RefIsStable(Wrapped(fields), Wrapped(after));
      hide Accepts, Holds, Body, Wrapper, Wrapped, Unwrapped, Siblings, Conflicting, NullPasses, LosesNothing;
      ExactIsStable(fields, after, sem);
      UnwrappingIsExact(after, sem);
      assert SameVerdict(after, v, sem);
    }
  }

  lemma SameBodySameVerdict(fields: map<string, Json>, after: map<string, Json>, v: Json, sem: Semantics)
    requires (Nullable(after) <==> Nullable(fields)) && Body(after, v, sem) == Body(fields, v, sem)
    ensures Accepts(Obj(after), v, sem) == Accepts(Obj(fields), v, sem)
  {
  }

  /** The rewrite of a node neither adds nor removes a `$ref` of its own. */
  lemma RefIsStable(fields: map<string, Json>, after: map<string, Json>)
    requires Normalize(Obj(fields)) == Some(Obj(after))
    ensures "$ref" in after <==> "$ref" in fields
  {
  }

  lemma {:induction false} KeywordKeepsMeaning(keyword: string, operand: Json, v: Json, sem: Semantics)
    requires ReadsNull(sem) && FragmentAt(keyword, operand, sem) && EveryWrapperAt(keyword, operand, ExactAt(sem))
    requires Normalize(operand).Some?
    ensures Holds(keyword, Normalize(operand).value, v, sem) == Holds(keyword, operand, v, sem)
    decreases operand, 1
  {
    var after := Normalize(operand).value;
    if keyword == "anyOf" || keyword == "allOf" {
      forall i, w | 0 <= i < |operand.items|
        ensures Normalize(operand.items[i]).Some? && after.items[i] == Normalize(operand.items[i]).value
        ensures Accepts(after.items[i], w, sem) == Accepts(operand.items[i], w, sem)
      {
        RewriteKeepsMeaning(operand.items[i], w, sem);
      }
    } else if keyword == "items" {
      forall w ensures Accepts(after, w, sem) == Accepts(operand, w, sem) {
        RewriteKeepsMeaning(operand, w, sem);
      }
    } else if keyword == "properties" {
      PropertiesAreNoWrapper(operand, sem);
      forall name, w | name in operand.fields
        ensures Normalize(operand.fields[name]).Some? && after.fields[name] == Normalize(operand.fields[name]).value
        ensures Accepts(after.fields[name], w, sem) == Accepts(operand.fields[name], w, sem)
      {
        RewriteKeepsMeaning(operand.fields[name], w, sem);
      }
    } else if keyword == "$ref" || keyword == "type" {
      PlainIsFixed(operand);
    } else if !sem.annotation(keyword) && keyword != "nullable" {
      PlainIsFixed(operand);
    }
  }

  /** A table of properties is not itself rewritten, even if a property is called `anyOf`. */
  lemma PropertiesAreNoWrapper(operand: Json, sem: Semantics)
    requires operand.Obj? && Normalize(operand).Some?
    requires forall name | name in operand.fields :: Fragment(operand.fields[name], sem)
    ensures Normalize(operand).value == Obj(Members(operand.fields))
  {
    if "anyOf" in operand.fields {
      assert Fragment(operand.fields["anyOf"], sem);
      NullSchemaIsStable(operand.fields["anyOf"]);
    }
  }
}
