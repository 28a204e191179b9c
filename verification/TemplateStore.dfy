/**
 The message templates: names unique up to case folding, one default, and a copy's name found by
 counting up. Case folding is any character-wise folding that treats the copy suffixes as it should.
 */
module TemplateStore {
  import opened Common
  import opened CaseFolding

  type Id = nat

  datatype Content = Content(name: string, subject: string, body: string, accepted: string, declined: string)

  datatype Template = Template(content: Content, version: int, isDefault: bool)

  /** A partial update: a field left out stays as it is. */
  datatype Changes = Changes(name: Option<string>, subject: Option<string>, body: Option<string>,
                             accepted: Option<string>, declined: Option<string>)

  type Rows = map<Id, Template>

  datatype Error = NameConflict | LastTemplate | DefaultDelete | UnknownTemplate | IdTaken

  datatype Result<+T> = Ok(value: T) | Err(error: Error)

  datatype Reply<+T> = Reply(rows: Rows, result: Result<T>)

  // ---------------------------------------------------------------- case folding

  /** Spaces and digits fold to themselves, the letters of "Copy" to lower case. */
  ghost predicate FoldsPlainly(fold: Folding) {
    && fold(' ') == " " && fold('C') == "c" && fold('o') == "o" && fold('p') == "p" && fold('y') == "y"
    && forall c :: '0' <= c <= '9' ==> fold(c) == [c]
  }

  predicate NameAvailable(rows: Rows, name: string, excluding: Option<Id>, fold: Folding) {
    forall id | id in rows :: Some(id) == excluding || Fold(rows[id].content.name, fold) != Fold(name, fold)
  }

  // ---------------------------------------------------------------- the mutations

  function Create(rows: Rows, id: Id, content: Content, fold: Folding): Reply<Id> {
    if !NameAvailable(rows, content.name, None, fold) then Reply(rows, Err(NameConflict))
    else if id in rows then Reply(rows, Err(IdTaken))
    else Reply(rows[id := Template(content, 1, rows == map[])], Ok(id))
  }

  function Or(change: Option<string>, kept: string): string {
    if change.Some? then change.value else kept
  }

  function Changed(content: Content, changes: Changes): Content {
    Content(Or(changes.name, content.name), Or(changes.subject, content.subject), Or(changes.body, content.body),
            Or(changes.accepted, content.accepted), Or(changes.declined, content.declined))
  }

  function Update(rows: Rows, id: Id, changes: Changes, fold: Folding): Reply<Id> {
    if id !in rows then Reply(rows, Err(UnknownTemplate))
    else
      var row := rows[id];
      var after := Changed(row.content, changes);
      if !NameAvailable(rows, after.name, Some(id), fold) then Reply(rows, Err(NameConflict))
      else if after == row.content then Reply(rows, Ok(id))
      else Reply(rows[id := row.(content := after, version := row.version + 1)], Ok(id))
  }

  function SetDefault(rows: Rows, id: Id): Reply<Id> {
    if id !in rows then Reply(rows, Err(UnknownTemplate))
    else if rows[id].isDefault then Reply(rows, Ok(id))
    else Reply(map i | i in rows :: rows[i].(isDefault := i == id), Ok(id))
  }

  function Delete(rows: Rows, id: Id): Reply<Id> {
    if id !in rows then Reply(rows, Err(UnknownTemplate))
    else if |rows| == 1 then Reply(rows, Err(LastTemplate))
    else if rows[id].isDefault then Reply(rows, Err(DefaultDelete))
    else Reply(rows - {id}, Ok(id))
  }

  // ---------------------------------------------------------------- the name of a copy

  const MAX_NAME := 255

  function Decimal(n: nat): string {
    if n < 10 then [('0' as int + n) as char] else Decimal(n / 10) + [('0' as int + n % 10) as char]
  }

  function Suffix(sequence: nat): string {
    if sequence == 1 then " Copy" else " Copy " + Decimal(sequence)
  }

  /** `text[:end]`, counting from the end for a negative bound. */
  function Slice(text: string, end: int): string {
    if end >= |text| then text
    else if end >= 0 then text[..end]
    else if |text| + end > 0 then text[..|text| + end]
    else ""
  }

  function CopyName(name: string, sequence: nat): string {
    Slice(name, MAX_NAME - |Suffix(sequence)|) + Suffix(sequence)
  }

  function FoldedNames(rows: Rows, fold: Folding): set<string> {
    set id | id in rows :: Fold(rows[id].content.name, fold)
  }

  /** The first sequence number whose name is free. */
  ghost predicate FirstFree(rows: Rows, name: string, sequence: nat, fold: Folding) {
    && sequence >= 1
    && Fold(CopyName(name, sequence), fold) !in FoldedNames(rows, fold)
    && forall k :: 1 <= k < sequence ==> Fold(CopyName(name, k), fold) in FoldedNames(rows, fold)
  }

  function CopyRow(source: Template, sequence: nat): Template {
    Template(source.content.(name := CopyName(source.content.name, sequence)), 1, false)
  }

  ghost predicate Duplicates(rows: Rows, source: Id, id: Id, sequence: nat, fold: Folding, reply: Reply<Id>) {
    if source !in rows then reply == Reply(rows, Err(UnknownTemplate))
    else if id in rows then reply == Reply(rows, Err(IdTaken))
    else
      && FirstFree(rows, rows[source].content.name, sequence, fold)
      && reply == Reply(rows[id := CopyRow(rows[source], sequence)], Ok(id))
  }

  // ---------------------------------------------------------------- copy names never collide with each other

  predicate AllDigits(text: string) {
    forall i :: 0 <= i < |text| ==> '0' <= text[i] <= '9'
  }

  predicate Digits(text: string) {
    text != "" && AllDigits(text)
  }

  lemma {:induction false} DecimalIsDigits(n: nat)
    ensures Digits(Decimal(n))
    decreases n
  {
    if n >= 10 {
      DecimalIsDigits(n / 10);
    }
  }

  function ValueOf(text: string): nat
    requires AllDigits(text)
  {
    if text == "" then 0
    else
      10 * ValueOf(text[..|text| - 1]) + (text[|text| - 1] as int - '0' as int)
  }

  lemma {:induction false} ValueOfDecimal(n: nat)
    ensures Digits(Decimal(n)) && ValueOf(Decimal(n)) == n
    decreases n
  {
    DecimalIsDigits(n);
    var text := Decimal(n);
    if n < 10 {
      assert text[..0] == "";
    } else {
      ValueOfDecimal(n / 10);
      assert text[..|text| - 1] == Decimal(n / 10);
    }
  }

  lemma {:induction false} DigitsFoldToThemselves(text: string, fold: Folding)
    requires FoldsPlainly(fold) && AllDigits(text)
    ensures Fold(text, fold) == text
    decreases |text|
  {
    if text != "" {
      DigitsFoldToThemselves(text[1..], fold);
      assert text == [text[0]] + text[1..];
    }
  }

  lemma FoldCopy(fold: Folding)
    requires FoldsPlainly(fold)
    ensures Fold(" Copy", fold) == " copy"
    ensures Fold(" Copy ", fold) == " copy "
  {
    var word := " Copy";
    assert word[1..] == "Copy" && word[1..][1..] == "opy" && word[1..][1..][1..] == "py" &&
      word[1..][1..][1..][1..] == "y";
    assert Fold("y", fold) == "y" by {
      assert "y"[1..] == "";
    }
    assert Fold("py", fold) == "py" by {
      assert "py"[1..] == "y";
    }
    assert Fold("opy", fold) == "opy" by {
      assert "opy"[1..] == "py";
    }
    assert Fold("Copy", fold) == "copy" by {
      assert "Copy"[1..] == "opy";
    }
    FoldAppend(word, " ", fold);
    assert Fold(" ", fold) == " " by {
      assert " "[1..] == "";
    }
    assert word + " " == " Copy ";
  }

  /** What stands after the last space of a folded copy name. */
  function Mark(sequence: nat): string {
    if sequence == 1 then "copy" else Decimal(sequence)
  }

  lemma MarkHasNoSpace(sequence: nat)
    ensures ' ' !in Mark(sequence)
  {
    DecimalIsDigits(sequence);
  }

  lemma FoldedCopyName(name: string, sequence: nat, fold: Folding) returns (front: string)
    requires FoldsPlainly(fold)
    ensures Fold(CopyName(name, sequence), fold) == front + " " + Mark(sequence)
  {
    var prefix := Slice(name, MAX_NAME - |Suffix(sequence)|);
    FoldAppend(prefix, Suffix(sequence), fold);
    FoldCopy(fold);
    var folded := Fold(prefix, fold);
    if sequence == 1 {
      front := folded;
      hide Fold, Slice;
      Regroup(front, " ", "copy");
      assert " " + "copy" == " copy";
    } else {
      var digits := Decimal(sequence);
      DecimalIsDigits(sequence);
      DigitsFoldToThemselves(digits, fold);
      FoldAppend(" Copy ", digits, fold);
      front := folded + " copy";
      hide Fold, Slice, Decimal;
      assert " copy" + " " == " copy ";
      Regroup(folded, " copy", " ");
      Regroup(folded, " copy ", digits);
    }
  }

  lemma Regroup(a: string, b: string, c: string)
    ensures a + (b + c) == a + b + c
  {
  }

  /** Two texts that end in a space-free word after a space are equal only if the words are. */
  lemma {:induction false} LastWordDecides(a: string, b: string, u: string, v: string)
    requires ' ' !in u && ' ' !in v && a + " " + u == b + " " + v
    ensures u == v
    decreases |u|
  {
    LastCharacter(a, u);
    LastCharacter(b, v);
    if u != "" && v != "" {
      var whole := a + " " + u;
      var x, y := u[..|u| - 1], v[..|v| - 1];
      assert a + " " + x == whole[..|whole| - 1] == b + " " + y;
      LastWordDecides(a, b, x, y);
      assert u == x + [u[|u| - 1]] && v == y + [v[|v| - 1]];
    }
  }

  lemma LastCharacter(front: string, word: string)
    ensures var whole := front + " " + word;
            whole[|whole| - 1] == if word == "" then ' ' else word[|word| - 1]
    ensures word != "" ==> word[|word| - 1] in word
  {
  }

  /** Different sequence numbers give names that differ even after case folding. */
  lemma CopyNamesDiffer(name: string, j: nat, k: nat, fold: Folding)
    requires FoldsPlainly(fold) && j >= 1 && k >= 1
    requires Fold(CopyName(name, j), fold) == Fold(CopyName(name, k), fold)
    ensures j == k
  {
    var a := FoldedCopyName(name, j, fold);
    var b := FoldedCopyName(name, k, fold);
    MarkHasNoSpace(j);
    MarkHasNoSpace(k);
    LastWordDecides(a, b, Mark(j), Mark(k));
    ValueOfDecimal(j);
    ValueOfDecimal(k);
    assert "copy"[0] == 'c';
    assert Decimal(j)[0] != 'c' && Decimal(k)[0] != 'c';
  }

  lemma {:induction false} FoldedNamesCount(rows: Rows, fold: Folding)
    ensures |FoldedNames(rows, fold)| <= |rows|
    decreases |rows|
  {
    if rows != map[] {
      var id :| id in rows;
      var rest := rows - {id};
      FoldedNamesCount(rest, fold);
      forall name ensures name in FoldedNames(rows, fold)
        <==> (name in FoldedNames(rest, fold) || name == Fold(rows[id].content.name, fold))
      {
        if name in FoldedNames(rows, fold) {
          var i :| i in rows && name == Fold(rows[i].content.name, fold);
          assert i == id || i in rest;
        }
        if name in FoldedNames(rest, fold) {
          var i :| i in rest && name == Fold(rest[i].content.name, fold);
          assert i in rows;
        }
      }
      assert FoldedNames(rows, fold) == FoldedNames(rest, fold) + {Fold(rows[id].content.name, fold)};
      assert |rest| == |rows| - 1;
    }
  }

  // ---------------------------------------------------------------- the store

  class Templates {
    var rows: Rows
    const fold: Folding

    ghost predicate Valid() {
      FoldsPlainly(fold)
    }

    constructor (folding: Folding)
      requires FoldsPlainly(folding)
      ensures Valid() && rows == map[]
    {
      rows := map[];
      fold := folding;
    }

    method NameIsAvailable(name: string, excluding: Option<Id>) returns (available: bool)
      ensures available == NameAvailable(rows, name, excluding, fold)
    {
      var normalized := Fold(name, fold);
      var todo := rows.Keys;
      while todo != {}
        invariant todo <= rows.Keys
        invariant forall id :: id in rows.Keys - todo ==>
                 Some(id) == excluding || Fold(rows[id].content.name, fold) != normalized
        decreases |todo|
      {
        var id :| id in todo;
        if Some(id) != excluding && Fold(rows[id].content.name, fold) == normalized {
          return false;
        }
        todo := todo - {id};
      }
      return true;
    }

    method CreateTemplate(id: Id, content: Content) returns (result: Result<Id>)
      modifies `rows
      ensures Reply(rows, result) == Create(old(rows), id, content, fold)
    {
      var available := NameIsAvailable(content.name, None);
      if !available {
        return Err(NameConflict);
      }
      if id in rows {
        return Err(IdTaken);
      }
      var isFirst := |rows| == 0;
      rows := rows[id := Template(content, 1, isFirst)];
      return Ok(id);
    }

    method UpdateTemplate(id: Id, changes: Changes) returns (result: Result<Id>)
      modifies `rows
      ensures Reply(rows, result) == Update(old(rows), id, changes, fold)
    {
      if id !in rows {
        return Err(UnknownTemplate);
      }
      var row := rows[id];
      var requested := if changes.name.Some? then changes.name.value else row.content.name;
      var available := NameIsAvailable(requested, Some(id));
      if !available {
        return Err(NameConflict);
      }
      var content, changed := row.content, false;
      if changes.name.Some? && content.name != changes.name.value {
        content, changed := content.(name := changes.name.value), true;
      }
      if changes.subject.Some? && content.subject != changes.subject.value {
        content, changed := content.(subject := changes.subject.value), true;
      }
      if changes.body.Some? && content.body != changes.body.value {
        content, changed := content.(body := changes.body.value), true;
      }
      if changes.accepted.Some? && content.accepted != changes.accepted.value {
        content, changed := content.(accepted := changes.accepted.value), true;
      }
      if changes.declined.Some? && content.declined != changes.declined.value {
        content, changed := content.(declined := changes.declined.value), true;
      }
      if changed {
        rows := rows[id := row.(content := content, version := row.version + 1)];
      }
      return Ok(id);
    }

    /** The search ends: among |rows| + 1 copy names one is free, since no two of them fold alike. */
    method DuplicateTemplate(source: Id, id: Id) returns (result: Result<Id>, ghost sequence: nat)
      requires Valid()
      modifies `rows
      ensures Duplicates(old(rows), source, id, sequence, fold, Reply(rows, result))
      ensures result.Ok? ==> sequence <= |old(rows)| + 1
    {
      sequence := 1;
      if source !in rows {
        return Err(UnknownTemplate), 1;
      }
      if id in rows {
        return Err(IdTaken), 1;
      }
      var tried := FreeCopy(rows[source].content.name);
      sequence := tried;
      rows := rows[id := CopyRow(rows[source], tried)];
      return Ok(id), tried;
    }

    method FreeCopy(name: string) returns (tried: nat)
      requires Valid()
      ensures FirstFree(rows, name, tried, fold) && tried <= |rows| + 1
    {
      var existing := FoldedNames(rows, fold);
      FoldedNamesCount(rows, fold);
      hide Fold, CopyName, FoldedNames, FoldsPlainly;
      tried := 1;
      ghost var used: set<string> := {};
      while Fold(CopyName(name, tried), fold) in existing
        invariant tried >= 1 && used <= existing && |used| == tried - 1
        invariant forall k :: 1 <= k < tried ==> Fold(CopyName(name, k), fold) in existing
        invariant forall u :: u in used ==> exists k :: 1 <= k < tried && u == Fold(CopyName(name, k), fold)
        decreases |existing| + 1 - tried
      {
        ghost var folded := Fold(CopyName(name, tried), fold);
        if folded in used {
          var k :| 1 <= k < tried && folded == Fold(CopyName(name, k), fold);
          CopyNamesDiffer(name, k, tried, fold);
          assert false;
        }
        SubsetCount(used + {folded}, existing);
        used := used + {folded};
        tried := tried + 1;
      }
      SubsetCount(used, existing);
    }

    method SetDefaultTemplate(id: Id) returns (result: Result<Id>)
      modifies `rows
      ensures Reply(rows, result) == SetDefault(old(rows), id)
    {
      if id !in rows {
        return Err(UnknownTemplate);
      }
      if rows[id].isDefault {
        return Ok(id);
      }
      var todo := set i | i in rows && rows[i].isDefault;
      while todo != {}
        invariant rows.Keys == old(rows).Keys && todo <= rows.Keys
        invariant todo == set i | i in rows && rows[i].isDefault
        invariant forall i :: i in rows ==> rows[i].(isDefault := false) == old(rows)[i].(isDefault := false)
        decreases |todo|
      {
        var i :| i in todo;
        rows := rows[i := rows[i].(isDefault := false)];
        todo := todo - {i};
      }
      forall i | i in rows ensures rows[i] == old(rows)[i].(isDefault := false) {
        assert i in todo <==> rows[i].isDefault;
      }
      rows := rows[id := rows[id].(isDefault := true)];
      assert rows == SetDefault(old(rows), id).rows;
      return Ok(id);
    }

    method DeleteTemplate(id: Id) returns (result: Result<Id>)
      modifies `rows
      ensures Reply(rows, result) == Delete(old(rows), id)
    {
      if id !in rows {
        return Err(UnknownTemplate);
      }
      if |rows| == 1 {
        return Err(LastTemplate);
      }
      if rows[id].isDefault {
        return Err(DefaultDelete);
      }
      rows := rows - {id};
      return Ok(id);
    }
  }

  // ---------------------------------------------------------------- runs

  datatype Event =
    | ECreate(id: Id, content: Content)
    | EUpdate(id: Id, changes: Changes)
    | EDuplicate(source: Id, id: Id)
    | ESetDefault(id: Id)
    | EDelete(id: Id)

  /** One mutation leads from `rows` to `after`. */
  ghost predicate Leads(rows: Rows, e: Event, after: Rows, fold: Folding) {
    match e
    case ECreate(id, content) => after == Create(rows, id, content, fold).rows
    case EUpdate(id, changes) => after == Update(rows, id, changes, fold).rows
    case EDuplicate(source, id) => exists sequence, reply ::
      Duplicates(rows, source, id, sequence, fold, reply) && after == reply.rows
    case ESetDefault(id) => after == SetDefault(rows, id).rows
    case EDelete(id) => after == Delete(rows, id).rows
  }

  ghost predicate OneDefault(rows: Rows) {
    && (rows != map[] ==> exists id :: id in rows && rows[id].isDefault)
    && forall a, b :: a in rows && b in rows && rows[a].isDefault && rows[b].isDefault ==> a == b
  }

  ghost predicate UniqueNames(rows: Rows, fold: Folding) {
    forall a, b :: a in rows && b in rows && Fold(rows[a].content.name, fold) == Fold(rows[b].content.name, fold) ==>
      a == b
  }

  ghost predicate Inv(rows: Rows, fold: Folding) {
    OneDefault(rows) && UniqueNames(rows, fold) && forall id :: id in rows ==> rows[id].version >= 1
  }

  /** How a row may change: content and version together, the default flag on its own. */
  ghost predicate VersionTellsChange(was: Template, now: Template) {
    now.version == was.version + if now.content == was.content then 0 else 1
  }

  lemma MutationKeepsInv(rows: Rows, e: Event, after: Rows, fold: Folding)
    requires Inv(rows, fold) && Leads(rows, e, after, fold)
    ensures Inv(after, fold)
    ensures rows != map[] ==> after != map[]
  {
    match e
    case ECreate(id, content) => CreateKeeps(rows, id, content, fold);
    case EUpdate(id, changes) => UpdateKeeps(rows, id, changes, fold);
    case EDuplicate(source, id) =>
      var sequence, reply :| Duplicates(rows, source, id, sequence, fold, reply) && after == reply.rows;
      DuplicateKeeps(rows, source, id, sequence, fold, reply);
    case ESetDefault(id) => SetDefaultKeeps(rows, id, fold);
    case EDelete(id) => DeleteKeeps(rows, id, fold);
  }

  lemma CreateKeeps(rows: Rows, id: Id, content: Content, fold: Folding)
    requires Inv(rows, fold)
    ensures Inv(Create(rows, id, content, fold).rows, fold)
  {
    hide Fold;
    var after := Create(rows, id, content, fold).rows;
    if after != rows {
      if rows == map[] {
        assert id in after && after[id].isDefault;
      } else {
        var d :| d in rows && rows[d].isDefault;
        assert d in after && after[d].isDefault;
      }
    }
  }

  lemma UpdateKeeps(rows: Rows, id: Id, changes: Changes, fold: Folding)
    requires Inv(rows, fold)
    ensures Inv(Update(rows, id, changes, fold).rows, fold)
  {
    hide Fold, Changed;
    var after := Update(rows, id, changes, fold).rows;
    if after != rows {
      var row := after[id];
      assert NameAvailable(rows, row.content.name, Some(id), fold);
      hide Update, NameAvailable;
      SameFlags(rows, id, row);
      RenamedIsUnique(rows, id, row, fold);
    }
  }

  lemma SameFlags(rows: Rows, id: Id, row: Template)
    requires OneDefault(rows) && id in rows && row.isDefault == rows[id].isDefault
    ensures OneDefault(rows[id := row])
  {
    var after := rows[id := row];
    var d :| d in rows && rows[d].isDefault;
    assert d in after && after[d].isDefault;
  }

  lemma RenamedIsUnique(rows: Rows, id: Id, row: Template, fold: Folding)
    requires UniqueNames(rows, fold) && id in rows && NameAvailable(rows, row.content.name, Some(id), fold)
    ensures UniqueNames(rows[id := row], fold)
  {
    hide Fold;
  }

  lemma DuplicateKeeps(rows: Rows, source: Id, id: Id, sequence: nat, fold: Folding, reply: Reply<Id>)
    requires Inv(rows, fold) && Duplicates(rows, source, id, sequence, fold, reply)
    ensures Inv(reply.rows, fold)
  {
    hide Fold, CopyName;
    if source in rows && id !in rows {
      forall i | i in rows ensures Fold(rows[i].content.name, fold) in FoldedNames(rows, fold) {
      }
      var d :| d in rows && rows[d].isDefault;
      assert d in reply.rows && reply.rows[d].isDefault;
    }
  }

  lemma SetDefaultKeeps(rows: Rows, id: Id, fold: Folding)
    requires Inv(rows, fold)
    ensures Inv(SetDefault(rows, id).rows, fold)
  {
    hide Fold;
    var after := SetDefault(rows, id).rows;
    if id in rows {
      assert id in after && after[id].isDefault;
    }
  }

  lemma DeleteKeeps(rows: Rows, id: Id, fold: Folding)
    requires Inv(rows, fold)
    ensures Inv(Delete(rows, id).rows, fold)
    ensures rows != map[] ==> Delete(rows, id).rows != map[]
  {
    hide Fold;
    if id in rows && |rows| != 1 && !rows[id].isDefault {
      var d :| d in rows && rows[d].isDefault;
      assert d in rows - {id} && (rows - {id})[d].isDefault;
    }
  }

  /** A mutation raises a row's version exactly when it changes the row's content. */
  lemma VersionRisesWithContent(rows: Rows, e: Event, after: Rows, fold: Folding, id: Id)
    requires Leads(rows, e, after, fold) && id in rows && id in after
    ensures VersionTellsChange(rows[id], after[id])
  {
    hide Fold, CopyName;
  }

  /** A run of mutations, given by the states it passes through. */
  ghost predicate IsRun(states: seq<Rows>, es: seq<Event>, fold: Folding) {
    |states| == |es| + 1 && forall i :: 0 <= i < |es| ==> Leads(states[i], es[i], states[i + 1], fold)
  }

  /** Over any run from an empty store: empty or one default, folded names unique, and never empty again. */
  lemma {:induction false} RunKeepsStore(states: seq<Rows>, es: seq<Event>, fold: Folding, n: nat)
    requires IsRun(states, es, fold) && states[0] == map[] && n < |states|
    ensures Inv(states[n], fold)
    ensures forall m :: 0 <= m <= n && states[m] != map[] ==> states[n] != map[]
    decreases n
  {
    if n > 0 {
      RunKeepsStore(states, es, fold, n - 1);
      assert Leads(states[n - 1], es[n - 1], states[n - 1 + 1], fold);
      MutationKeepsInv(states[n - 1], es[n - 1], states[n], fold);
      hide Inv, Leads;
    }
  }

  // ---------------------------------------------------------------- what a mutation leaves, written out

  /** Making a known template the default makes it the only one and changes nothing else of any row. */
  lemma DefaultIsChosen(rows: Rows, id: Id)
    requires OneDefault(rows)
    ensures var reply := SetDefault(rows, id);
            && (reply.result.Ok? <==> id in rows)
            && reply.rows.Keys == rows.Keys
            && (forall i :: i in rows ==>
                  && reply.rows[i].content == rows[i].content && reply.rows[i].version == rows[i].version
                  && (id in rows ==> (reply.rows[i].isDefault <==> i == id)))
            && (id !in rows ==> reply.rows == rows)
  {
  }

  /** A first template becomes the default, a later one does not; both start at version one with their content. */
  lemma CreatedRow(rows: Rows, id: Id, content: Content, fold: Folding)
    ensures var reply := Create(rows, id, content, fold);
            && (reply.result.Ok? <==>
                  id !in rows && forall i :: i in rows ==> Fold(rows[i].content.name, fold) != Fold(content.name, fold))
            && reply.rows == (if reply.result.Ok? then rows[id := Template(content, 1, |rows| == 0)] else rows)
  {
    hide Fold;
  }

  /** An update sets the fields given, keeps the others and the default flag, and takes no other template's name. */
  lemma UpdatedRow(rows: Rows, id: Id, changes: Changes, fold: Folding)
    requires id in rows
    ensures var reply, was := Update(rows, id, changes, fold), rows[id].content;
            var name := if changes.name.Some? then changes.name.value else was.name;
            && (reply.result.Ok? <==>
                  forall i :: i in rows && i != id ==> Fold(rows[i].content.name, fold) != Fold(name, fold))
            && id in reply.rows && reply.rows == rows[id := reply.rows[id]]
            && reply.rows[id].isDefault == rows[id].isDefault
            && (reply.result.Err? ==> reply.rows == rows)
            && (reply.result.Ok? ==>
                  var now := reply.rows[id].content;
                  && now.name == name
                  && now.subject == (if changes.subject.Some? then changes.subject.value else was.subject)
                  && now.body == (if changes.body.Some? then changes.body.value else was.body)
                  && now.accepted == (if changes.accepted.Some? then changes.accepted.value else was.accepted)
                  && now.declined == (if changes.declined.Some? then changes.declined.value else was.declined)
                  && reply.rows[id].version == rows[id].version + if now == was then 0 else 1)
  {
    hide Fold;
  }

  /**
   A copy keeps everything but the name, which is cut to make room for the suffix, at most 255 characters with it;
   it is a first version and no default.
   */
  lemma CopiedRow(rows: Rows, source: Id, id: Id, sequence: nat, fold: Folding, reply: Reply<Id>)
    requires Duplicates(rows, source, id, sequence, fold, reply) && source in rows && id !in rows
    ensures var was, now := rows[source].content, reply.rows[id].content;
            && reply.result == Ok(id) && reply.rows == rows[id := reply.rows[id]]
            && now.subject == was.subject && now.body == was.body
            && now.accepted == was.accepted && now.declined == was.declined
            && reply.rows[id].version == 1 && !reply.rows[id].isDefault
            && sequence >= 1
            && now.name == CopyName(was.name, sequence)
  {
  }

  /**
   The name of a copy: as much of the original as fits into 255 characters in front of " Copy" or " Copy n". A suffix
   longer than that cuts as much again off the original's end.
   */
  lemma CopyNameFits(name: string, sequence: nat)
    requires sequence >= 1
    ensures var digits := Decimal(sequence);
            var suffix := if sequence == 1 then " Copy" else " Copy " + digits;
            && ValueOfDigits(digits, sequence)
            && (|suffix| <= 255 ==>
                  var room := 255 - |suffix|;
                  CopyName(name, sequence) == (if |name| <= room then name else name[..room]) + suffix)
            && (|suffix| > 255 ==>
                  var over := |suffix| - 255;
                  CopyName(name, sequence) == (if |name| <= over then "" else name[..|name| - over]) + suffix)
  {
    ValueOfDecimal(sequence);
    hide Decimal;
  }

  /** Decimal digits, most significant first. */
  ghost predicate ValueOfDigits(text: string, n: nat) {
    Digits(text) && ValueOf(text) == n
  }

  /** A template is deleted exactly if it is neither the last nor the default. */
  lemma DeletedRow(rows: Rows, id: Id)
    ensures var reply := Delete(rows, id);
            && (reply.result.Ok? <==> id in rows && |rows| > 1 && !rows[id].isDefault)
            && reply.rows == (if reply.result.Ok? then rows - {id} else rows)
  {
    assert id in rows ==> |rows| >= 1;
  }
}
