/**
 Splitting a key into semantic words: first at separators and case boundaries, then each token into
 vocabulary words by dynamic programming. The vocabulary is any map from word forms to words.
 */
module KeySegmentation {
  import opened Common
  import opened CaseFolding

  function Concat(parts: seq<string>): string {
    if parts == [] then "" else parts[0] + Concat(parts[1..])
  }

  ghost predicate InVocabulary(parts: seq<string>, wordOf: map<string, string>) {
    forall i :: 0 <= i < |parts| ==> parts[i] in wordOf
  }

  /** The token is a run of word forms, nothing left over. */
  ghost predicate SplitsInto(token: string, parts: seq<string>, wordOf: map<string, string>) {
    Concat(parts) == token && InVocabulary(parts, wordOf)
  }

  ghost predicate Segmentable(token: string, wordOf: map<string, string>) {
    exists parts :: SplitsInto(token, parts, wordOf)
  }

  function WordsOf(parts: seq<string>, wordOf: map<string, string>): seq<string>
    requires InVocabulary(parts, wordOf)
  {
    seq(|parts|, i requires 0 <= i < |parts| => wordOf[parts[i]])
  }

  /** A split can end with the form that starts at `start`. */
  ghost predicate CanEndWith(token: string, wordOf: map<string, string>, start: nat) {
    start < |token| && token[start..] in wordOf && Segmentable(token[..start], wordOf)
  }

  ghost function LastStart(token: string, wordOf: map<string, string>, from: nat): (start: nat)
    requires exists s :: from <= s && CanEndWith(token, wordOf, s)
    ensures from <= start && CanEndWith(token, wordOf, start)
    ensures forall s :: from <= s < start ==> !CanEndWith(token, wordOf, s)
    decreases |token| - from
  {
    if CanEndWith(token, wordOf, from) then from else LastStart(token, wordOf, from + 1)
  }

  /** The split whose last form is the longest possible, the one before it the longest then possible, and so on. */
  ghost function LongestLast(token: string, wordOf: map<string, string>): (parts: seq<string>)
    requires Segmentable(token, wordOf) && "" !in wordOf
    ensures SplitsInto(token, parts, wordOf)
    decreases |token|
  {
    if token == "" then []
    else
      SplitHasLast(token, wordOf);
      var start := LastStart(token, wordOf, 0);
      var front := LongestLast(token[..start], wordOf);
      ConcatAppend(front, token[start..]);
      assert token == token[..start] + token[start..];
      front + [token[start..]]
  }

  lemma {:induction false} ConcatAppend(parts: seq<string>, last: string)
    ensures Concat(parts + [last]) == Concat(parts) + last
    decreases |parts|
  {
    if parts == [] {
      assert [last][1..] == [];
    } else {
      assert (parts + [last])[1..] == parts[1..] + [last];
      ConcatAppend(parts[1..], last);
    }
  }

  lemma SplitHasLast(token: string, wordOf: map<string, string>)
    requires Segmentable(token, wordOf) && token != "" && "" !in wordOf
    ensures exists start :: 0 <= start && CanEndWith(token, wordOf, start)
  {
    var parts :| SplitsInto(token, parts, wordOf);
    var front, last := parts[..|parts| - 1], parts[|parts| - 1];
    assert front + [last] == parts;
    ConcatAppend(front, last);
    var start := |token| - |last|;
    assert token[..start] == Concat(front) && token[start..] == last;
    assert SplitsInto(token[..start], front, wordOf);
    assert CanEndWith(token, wordOf, start);
  }

  function Reversed(words: seq<string>): seq<string> {
    seq(|words|, i requires 0 <= i < |words| => words[|words| - 1 - i])
  }

  // ---------------------------------------------------------------- the two tables

  datatype Step = Step(start: nat, word: string)

  ghost predicate FormAt(token: string, wordOf: map<string, string>, start: nat, end: nat) {
    start < end <= |token| && token[start..end] in wordOf
  }

  /**
   Every reachable position but the first was reached from the earliest position it can be reached from, by the
   word recorded there. No recorded position lies beyond `upto`.
   */
  ghost predicate Backed(token: string, wordOf: map<string, string>, reachable: seq<bool>,
                         predecessors: seq<Option<Step>>, upto: nat) {
    && |reachable| == |predecessors| == |token| + 1
    && reachable[0]
    && forall end :: 0 < end <= |token| && reachable[end] ==>
         BackedAt(token, wordOf, reachable, predecessors, upto, end)
  }

  ghost predicate BackedAt(token: string, wordOf: map<string, string>, reachable: seq<bool>,
                           predecessors: seq<Option<Step>>, upto: nat, end: nat)
    requires |reachable| == |predecessors| == |token| + 1 && end <= |token|
  {
    && predecessors[end].Some?
    && var step := predecessors[end].value;
    && step.start <= upto
    && FormAt(token, wordOf, step.start, end)
    && reachable[step.start]
    && step.word == wordOf[token[step.start..end]]
    && forall s: nat :: s < step.start && reachable[s] ==> !FormAt(token, wordOf, s, end)
  }

  /** Every form starting at a reachable position below `upto` has made its end reachable. */
  ghost predicate Closed(token: string, wordOf: map<string, string>, reachable: seq<bool>, upto: nat) {
    && |reachable| == |token| + 1
    && forall start: nat, end: nat :: start < upto && FormAt(token, wordOf, start, end) && reachable[start] ==>
         reachable[end]
  }

  /** In a closed table, whatever splits into forms is reached. */
  lemma {:induction false} SplitIsReached(token: string, wordOf: map<string, string>, reachable: seq<bool>,
                                          from: nat, to: nat, parts: seq<string>)
    requires Closed(token, wordOf, reachable, |token|) && "" !in wordOf
    requires from <= to <= |token| && reachable[from] && SplitsInto(token[from..to], parts, wordOf)
    ensures reachable[to]
    decreases |parts|
  {
    if parts == [] {
      assert from == to;
    } else {
      var end, whole := from + |parts[0]|, token[from..to];
      assert whole == parts[0] + Concat(parts[1..]);
      assert token[from..end] == whole[..|parts[0]|] && token[end..to] == whole[|parts[0]|..];
      assert FormAt(token, wordOf, from, end);
      SplitIsReached(token, wordOf, reachable, end, to, parts[1..]);
    }
  }

  /** In a backed table, whatever is reached splits into forms. */
  lemma {:induction false} ReachedSplits(token: string, wordOf: map<string, string>, reachable: seq<bool>,
                                         predecessors: seq<Option<Step>>, upto: nat, end: nat)
    requires Backed(token, wordOf, reachable, predecessors, upto) && end <= |token| && reachable[end]
    ensures Segmentable(token[..end], wordOf)
    decreases end
  {
    if end == 0 {
      assert SplitsInto("", [], wordOf);
    } else {
      assert BackedAt(token, wordOf, reachable, predecessors, upto, end);
      var start := predecessors[end].value.start;
      ReachedSplits(token, wordOf, reachable, predecessors, upto, start);
      var front :| SplitsInto(token[..start], front, wordOf);
      ConcatAppend(front, token[start..end]);
      assert token[..end] == token[..start] + token[start..end];
      assert SplitsInto(token[..end], front + [token[start..end]], wordOf);
    }
  }

  /** A full table reaches exactly the prefixes that split. */
  lemma TableIsExact(token: string, wordOf: map<string, string>, reachable: seq<bool>,
                     predecessors: seq<Option<Step>>, upto: nat, end: nat)
    requires Backed(token, wordOf, reachable, predecessors, upto) && Closed(token, wordOf, reachable, |token|)
    requires "" !in wordOf && end <= |token|
    ensures reachable[end] <==> Segmentable(token[..end], wordOf)
  {
    if reachable[end] {
      ReachedSplits(token, wordOf, reachable, predecessors, upto, end);
    } else if Segmentable(token[..end], wordOf) {
      var parts :| SplitsInto(token[..end], parts, wordOf);
      assert token[0..end] == token[..end];
      SplitIsReached(token, wordOf, reachable, 0, end, parts);
    }
  }

  /** The recorded start is where the longest last form starts. */
  lemma RecordedIsLongest(token: string, wordOf: map<string, string>, reachable: seq<bool>,
                          predecessors: seq<Option<Step>>, upto: nat, end: nat)
    requires Backed(token, wordOf, reachable, predecessors, upto) && Closed(token, wordOf, reachable, |token|)
    requires "" !in wordOf && 0 < end <= |token| && reachable[end]
    ensures BackedAt(token, wordOf, reachable, predecessors, upto, end)
    ensures var start := predecessors[end].value.start;
            && Segmentable(token[..end], wordOf) && Segmentable(token[..start], wordOf)
            && LongestLast(token[..end], wordOf) == LongestLast(token[..start], wordOf) + [token[start..end]]
  {
    var start, prefix := predecessors[end].value.start, token[..end];
    TableIsExact(token, wordOf, reachable, predecessors, upto, end);
    forall s: nat | s < end ensures CanEndWith(prefix, wordOf, s) <==> reachable[s] && FormAt(token, wordOf, s, end) {
      TableIsExact(token, wordOf, reachable, predecessors, upto, s);
      assert prefix[..s] == token[..s] && prefix[s..] == token[s..end];
    }
    assert prefix[..start] == token[..start] && prefix[start..] == token[start..end];
    assert CanEndWith(prefix, wordOf, start);
    hide Segmentable, Closed, CanEndWith;
    assert LastStart(prefix, wordOf, 0) == start;
  }

  // ---------------------------------------------------------------- the dynamic program

  /** Tries one form at a reachable start. */
  method TryForm(token: string, start: nat, form: string, wordOf: map<string, string>,
                 reachable: array<bool>, predecessors: array<Option<Step>>)
    requires reachable.Length == predecessors.Length == |token| + 1 && start < |token|
    requires form in wordOf && form != ""
    requires Backed(token, wordOf, reachable[..], predecessors[..], start) && reachable[start]
    requires Closed(token, wordOf, reachable[..], start)
    modifies reachable, predecessors
    ensures Backed(token, wordOf, reachable[..], predecessors[..], start)
    ensures Grown(old(reachable[..]), reachable[..], start)
    ensures StartsAt(token, start, form) ==> Reached(reachable[..], start + |form|)
  {
    if StartsAt(token, start, form) {
      var end := start + |form|;
      if !reachable[end] {
        MarkedBacked(token, wordOf, reachable[..], predecessors[..], start, end);
        hide Backed;
        ghost var marked, noted := reachable[..][end := true], predecessors[..][end := Some(Step(start, wordOf[form]))];
        reachable[end] := true;
        predecessors[end] := Some(Step(start, wordOf[form]));
        assert reachable[..] == marked && predecessors[..] == noted;
      }
    }
  }

  lemma NextStart(token: string, wordOf: map<string, string>, reachable: seq<bool>, predecessors: seq<Option<Step>>,
                  start: nat)
    requires Backed(token, wordOf, reachable, predecessors, start) && start < |token|
    ensures Backed(token, wordOf, reachable, predecessors, start + 1)
    ensures Closed(token, wordOf, reachable, start) && !reachable[start] ==> Closed(token, wordOf, reachable, start + 1)
  {
    forall end | 0 < end <= |token| && reachable[end]
      ensures BackedAt(token, wordOf, reachable, predecessors, start + 1, end)
    {
      assert BackedAt(token, wordOf, reachable, predecessors, start, end);
    }
  }

  /** Tries every form at one reachable start. */
  method ExtendFrom(token: string, start: nat, forms: seq<string>, wordOf: map<string, string>,
                    reachable: array<bool>, predecessors: array<Option<Step>>)
    requires reachable.Length == predecessors.Length == |token| + 1 && start < |token|
    requires "" !in wordOf && forall f :: f in forms <==> f in wordOf
    requires Backed(token, wordOf, reachable[..], predecessors[..], start) &&
             Closed(token, wordOf, reachable[..], start)
    requires reachable[start]
    modifies reachable, predecessors
    ensures Backed(token, wordOf, reachable[..], predecessors[..], start + 1)
    ensures Closed(token, wordOf, reachable[..], start + 1)
  {
    ghost var was := reachable[..];
    hide Closed, Backed, StartsAt, Reached, Grown, Tried;
    GrownRefl(was, start);
    assert Tried(token, start, forms[..0], was) by {
      NothingTried(token, start, was);
    }
    for f := 0 to |forms|
      invariant Backed(token, wordOf, reachable[..], predecessors[..], start)
      invariant Grown(was, reachable[..], start)
      invariant Tried(token, start, forms[..f], reachable[..])
    {
      assert forms[f] in forms;
      ghost var before := reachable[..];
      StillReachable(was, before, start);
      ClosedStays(token, wordOf, was, before, start);
      TryForm(token, start, forms[f], wordOf, reachable, predecessors);
      GrownTransitive(was, before, reachable[..], start);
      OneMoreTried(token, start, forms, f, before, reachable[..]);
    }
    assert forms[..|forms|] == forms;
    TriedAll(token, wordOf, forms, was, reachable[..], start);
    NextStart(token, wordOf, reachable[..], predecessors[..], start);
  }

  predicate Reached(reachable: seq<bool>, i: nat) {
    i < |reachable| && reachable[i]
  }

  /** Positions become reachable, none up to `start` changes. */
  ghost predicate Grown(was: seq<bool>, now: seq<bool>, start: nat) {
    && |was| == |now|
    && (forall i :: 0 <= i < |was| && was[i] ==> now[i])
    && forall i :: 0 <= i <= start && i < |was| ==> now[i] == was[i]
  }

  ghost predicate Tried(token: string, start: nat, forms: seq<string>, reachable: seq<bool>) {
    forall g :: 0 <= g < |forms| && StartsAt(token, start, forms[g]) ==> Reached(reachable, start + |forms[g]|)
  }

  lemma GrownRefl(was: seq<bool>, start: nat)
    ensures Grown(was, was, start)
  {
  }

  lemma NothingTried(token: string, start: nat, reachable: seq<bool>)
    ensures Tried(token, start, [], reachable)
  {
  }

  lemma StillReachable(was: seq<bool>, now: seq<bool>, start: nat)
    requires Grown(was, now, start) && Reached(was, start)
    ensures now[start]
  {
  }

  lemma ClosedStays(token: string, wordOf: map<string, string>, was: seq<bool>, now: seq<bool>, start: nat)
    requires Closed(token, wordOf, was, start) && Grown(was, now, start)
    ensures Closed(token, wordOf, now, start)
  {
    forall s: nat, end: nat | s < start && FormAt(token, wordOf, s, end) && now[s] ensures now[end] {
      assert was[s] && was[end];
    }
  }

  lemma GrownTransitive(a: seq<bool>, b: seq<bool>, c: seq<bool>, start: nat)
    requires Grown(a, b, start) && Grown(b, c, start)
    ensures Grown(a, c, start)
  {
  }

  lemma OneMoreTried(token: string, start: nat, forms: seq<string>, f: nat, before: seq<bool>, after: seq<bool>)
    requires f < |forms| && Tried(token, start, forms[..f], before) && Grown(before, after, start)
    requires StartsAt(token, start, forms[f]) ==> Reached(after, start + |forms[f]|)
    ensures Tried(token, start, forms[..f + 1], after)
  {
    var more := forms[..f + 1];
    forall g | 0 <= g < |more| && StartsAt(token, start, more[g]) ensures Reached(after, start + |more[g]|) {
      assert more[g] == forms[g];
      if g < f {
        assert forms[..f][g] == forms[g];
      }
    }
  }

  /** Once every form has been tried at `start`, the table is closed one position further. */
  lemma TriedAll(token: string, wordOf: map<string, string>, forms: seq<string>, was: seq<bool>, now: seq<bool>,
                 start: nat)
    requires |was| == |now| == |token| + 1 && start < |token| && forall f :: f in wordOf ==> f in forms
    requires Closed(token, wordOf, was, start)
    requires Grown(was, now, start) && Tried(token, start, forms, now)
    ensures Closed(token, wordOf, now, start + 1)
  {
    forall s: nat, end: nat | s < start + 1 && FormAt(token, wordOf, s, end) && now[s] ensures now[end] {
      if s == start {
        var form := token[s..end];
        assert form in forms;
        var g :| 0 <= g < |forms| && forms[g] == form;
        assert StartsAt(token, start, forms[g]) && Reached(now, start + |forms[g]|);
      } else {
        assert was[s] && was[end];
      }
    }
  }

  predicate StartsAt(token: string, start: nat, form: string) {
    start + |form| <= |token| && token[start..start + |form|] == form
  }

  lemma MarkedBacked(token: string, wordOf: map<string, string>, reachable: seq<bool>, predecessors: seq<Option<Step>>,
                     start: nat, end: nat)
    requires Backed(token, wordOf, reachable, predecessors, start) && Closed(token, wordOf, reachable, start)
    requires FormAt(token, wordOf, start, end) && reachable[start] && !reachable[end]
    ensures var noted := predecessors[end := Some(Step(start, wordOf[token[start..end]]))];
            Backed(token, wordOf, reachable[end := true], noted, start)
  {
    var r, p := reachable[end := true], predecessors[end := Some(Step(start, wordOf[token[start..end]]))];
    forall e | 0 < e <= |token| && r[e] ensures BackedAt(token, wordOf, r, p, start, e) {
      if e != end {
        assert BackedAt(token, wordOf, reachable, predecessors, start, e);
      }
    }
  }

  /** Having walked back to `end`: the words so far are those of the last forms of the split. */
  ghost predicate Walked(token: string, wordOf: map<string, string>, end: nat, reversed: seq<string>) {
    && end <= |token| && "" !in wordOf
    && Segmentable(token, wordOf) && Segmentable(token[..end], wordOf)
    && exists parts ::
         && InVocabulary(parts, wordOf) && Reversed(reversed) == WordsOf(parts, wordOf)
         && LongestLast(token, wordOf) == LongestLast(token[..end], wordOf) + parts
  }

  /** Follows the recorded words back from the end; a missing predecessor is never met. */
  method WalkBack(token: string, wordOf: map<string, string>, reachable: array<bool>, predecessors: array<Option<Step>>)
    returns (words: seq<string>)
    requires Backed(token, wordOf, reachable[..], predecessors[..], |token|) && "" !in wordOf
    requires Closed(token, wordOf, reachable[..], |token|) && reachable[..][|token|]
    ensures Segmentable(token, wordOf) && words == WordsOf(LongestLast(token, wordOf), wordOf)
  {
    ghost var r, p := reachable[..], predecessors[..];
    var reversed: seq<string> := [];
    var end: nat := |token|;
    WalkStarts(token, wordOf, r, p);
    hide Backed, Closed, LongestLast, Segmentable, WordsOf, Reversed, Walked;
    while end != 0
      invariant 0 <= end <= |token| && r[end]
      invariant Walked(token, wordOf, end, reversed)
      decreases end
    {
      WalkStep(token, wordOf, r, p, end, reversed);
      var predecessor := predecessors[end];
      assert predecessor == p[end];
      if predecessor.None? {
        assert false;
        return [token];
      }
      end := predecessor.value.start;
      reversed := reversed + [predecessor.value.word];
    }
    WalkEnds(token, wordOf, reversed);
    words := Reversed(reversed);
  }

  lemma WalkStarts(token: string, wordOf: map<string, string>, reachable: seq<bool>, predecessors: seq<Option<Step>>)
    requires Backed(token, wordOf, reachable, predecessors, |token|) && "" !in wordOf
    requires Closed(token, wordOf, reachable, |token|)
    ensures reachable[|token|] <==> Segmentable(token, wordOf)
    ensures reachable[|token|] ==> Walked(token, wordOf, |token|, [])
  {
    TableIsExact(token, wordOf, reachable, predecessors, |token|, |token|);
    assert token[..|token|] == token;
    if reachable[|token|] {
      assert InVocabulary([], wordOf) && Reversed([]) == WordsOf([], wordOf);
      assert LongestLast(token, wordOf) == LongestLast(token, wordOf) + [];
    }
  }

  lemma WalkStep(token: string, wordOf: map<string, string>, reachable: seq<bool>, predecessors: seq<Option<Step>>,
                 end: nat, reversed: seq<string>)
    requires Backed(token, wordOf, reachable, predecessors, |token|) && Closed(token, wordOf, reachable, |token|)
    requires 0 < end <= |token| && reachable[end] && Walked(token, wordOf, end, reversed)
    ensures predecessors[end].Some?
    ensures var step := predecessors[end].value;
            step.start < end && reachable[step.start] && Walked(token, wordOf, step.start, reversed + [step.word])
  {
    RecordedIsLongest(token, wordOf, reachable, predecessors, |token|, end);
    var step := predecessors[end].value;
    var part, before := token[step.start..end], LongestLast(token[..step.start], wordOf);
    var parts :| && InVocabulary(parts, wordOf) && Reversed(reversed) == WordsOf(parts, wordOf)
                 && LongestLast(token, wordOf) == LongestLast(token[..end], wordOf) + parts;
    hide Backed, Closed, LongestLast, Segmentable;
    PrependPart(part, parts, wordOf);
    ReversedAppend(reversed, step.word);
    assert before + [part] + parts == before + ([part] + parts);
  }

  lemma WalkEnds(token: string, wordOf: map<string, string>, reversed: seq<string>)
    requires Walked(token, wordOf, 0, reversed)
    ensures Segmentable(token, wordOf) && Reversed(reversed) == WordsOf(LongestLast(token, wordOf), wordOf)
  {
    var parts :| && InVocabulary(parts, wordOf) && Reversed(reversed) == WordsOf(parts, wordOf)
                 && LongestLast(token, wordOf) == LongestLast(token[..0], wordOf) + parts;
    assert LongestLast("", wordOf) == [];
    assert [] + parts == parts;
    hide LongestLast;
  }

  lemma PrependPart(part: string, parts: seq<string>, wordOf: map<string, string>)
    requires part in wordOf && InVocabulary(parts, wordOf)
    ensures InVocabulary([part] + parts, wordOf)
    ensures WordsOf([part] + parts, wordOf) == [wordOf[part]] + WordsOf(parts, wordOf)
  {
  }

  lemma ReversedAppend(words: seq<string>, word: string)
    ensures Reversed(words + [word]) == [word] + Reversed(words)
  {
  }

  lemma EmptyTable(token: string, wordOf: map<string, string>, reachable: seq<bool>, predecessors: seq<Option<Step>>)
    requires |reachable| == |predecessors| == |token| + 1 && reachable[0]
    requires forall i :: 0 < i <= |token| ==> !reachable[i]
    ensures Backed(token, wordOf, reachable, predecessors, 0) && Closed(token, wordOf, reachable, 0)
  {
  }

  /**
   `_segment_semantic_token`: an exact form gives its word; a run of forms gives the words of the split with the
   longest last forms; anything else stays as it is.
   */
  method SegmentToken(token: string, forms: seq<string>, wordOf: map<string, string>)
    returns (words: seq<string>)
    requires "" !in wordOf && forall f :: f in forms <==> f in wordOf
    ensures token in wordOf ==> words == [wordOf[token]]
    ensures token !in wordOf && Segmentable(token, wordOf) ==> words == WordsOf(LongestLast(token, wordOf), wordOf)
    ensures token !in wordOf && !Segmentable(token, wordOf) ==> words == [token]
  {
    if token in wordOf {
      return [wordOf[token]];
    }
    var predecessors := new Option<Step>[|token| + 1](_ => None);
    var reachable := new bool[|token| + 1](_ => false);
    reachable[0] := true;
    EmptyTable(token, wordOf, reachable[..], predecessors[..]);
    hide Backed, Closed, LongestLast, Segmentable, WordsOf;
    for start := 0 to |token|
      invariant Backed(token, wordOf, reachable[..], predecessors[..], start)
      invariant Closed(token, wordOf, reachable[..], start)
    {
      NextStart(token, wordOf, reachable[..], predecessors[..], start);
      if !reachable[start] {
        continue;
      }
      ExtendFrom(token, start, forms, wordOf, reachable, predecessors);
    }
    WalkStarts(token, wordOf, reachable[..], predecessors[..]);
    if !reachable[|token|] {
      return [token];
    }
    words := WalkBack(token, wordOf, reachable, predecessors);
  }

  // ---------------------------------------------------------------- keys into tokens

  /** The character predicates of the host language, and its case folding of one character. */
  datatype Classes = Classes(alnum: char -> bool, upper: char -> bool, lower: char -> bool, digit: char -> bool,
                             fold: char -> string)

  /** A case boundary in front of position `i`, inside a run of alphanumeric characters. */
  predicate Camel(key: string, i: nat, cls: Classes)
    requires 0 < i < |key|
  {
    && cls.upper(key[i])
    && (cls.lower(key[i - 1]) || cls.digit(key[i - 1])
        || (cls.upper(key[i - 1]) && i + 1 < |key| && cls.lower(key[i + 1])))
  }

  /** Where the run that covers position `i - 1` ends. */
  function RunEnd(key: string, i: nat, cls: Classes): (end: nat)
    requires 0 < i <= |key|
    ensures i <= end <= |key|
    decreases |key| - i
  {
    if i == |key| || !cls.alnum(key[i]) || Camel(key, i, cls) then i else RunEnd(key, i + 1, cls)
  }

  /** The maximal runs from position `i` on, folded. */
  function Runs(key: string, i: nat, cls: Classes): seq<string>
    requires i <= |key|
    decreases |key| - i
  {
    if i == |key| then []
    else if !cls.alnum(key[i]) then Runs(key, i + 1, cls)
    else
      var end := RunEnd(key, i + 1, cls);
      [Fold(key[i..end], cls.fold)] + Runs(key, end, cls)
  }

  /** What is still to come at `i` with a run open since `open`. */
  function Remaining(key: string, open: nat, i: nat, cls: Classes): seq<string>
    requires open <= i <= |key|
  {
    if open < i then
      var end := RunEnd(key, i, cls);
      [Fold(key[open..end], cls.fold)] + Runs(key, end, cls)
    else Runs(key, i, cls)
  }

  /** `_key_tokens`: one pass with an open run gives exactly the maximal runs. */
  method KeyTokens(key: string, cls: Classes) returns (tokens: seq<string>)
    ensures tokens == Runs(key, 0, cls)
  {
    tokens := [];
    var current := "";
    for index := 0 to |key|
      invariant |current| <= index && current == key[index - |current|..index]
      invariant tokens + Remaining(key, index - |current|, index, cls) == Runs(key, 0, cls)
    {
      ghost var open := index - |current|;
      var character := key[index];
      if !cls.alnum(character) {
        if current != "" {
          tokens := tokens + [Fold(current, cls.fold)];
          current := "";
        }
        continue;
      }
      if current != "" && Camel(key, index, cls) {
        tokens := tokens + [Fold(current, cls.fold)];
        current := "";
      }
      current := current + [character];
    }
    if current != "" {
      tokens := tokens + [Fold(current, cls.fold)];
    }
  }

  function Alphanumeric(key: string, cls: Classes): string {
    if key == "" then "" else (if cls.alnum(key[0]) then [key[0]] else "") + Alphanumeric(key[1..], cls)
  }

  lemma {:induction false} RunIsAlphanumeric(key: string, i: nat, cls: Classes)
    requires 0 < i <= |key|
    ensures Alphanumeric(key[i..], cls) == key[i..RunEnd(key, i, cls)] + Alphanumeric(key[RunEnd(key, i, cls)..], cls)
    decreases |key| - i
  {
    var end := RunEnd(key, i, cls);
    if end == i {
      assert key[i..i] == "";
    } else {
      assert key[i..][1..] == key[i + 1..];
      RunIsAlphanumeric(key, i + 1, cls);
      assert key[i..end] == [key[i]] + key[i + 1..end];
    }
  }

  lemma RunFolds(key: string, i: nat, end: nat, cls: Classes)
    requires i < |key| && cls.alnum(key[i]) && end == RunEnd(key, i + 1, cls)
    ensures Fold(Alphanumeric(key[i..], cls), cls.fold)
            == Fold(key[i..end], cls.fold) + Fold(Alphanumeric(key[end..], cls), cls.fold)
  {
    assert Alphanumeric(key[i..], cls) == [key[i]] + Alphanumeric(key[i + 1..], cls) by {
      assert key[i..][1..] == key[i + 1..];
    }
    RunIsAlphanumeric(key, i + 1, cls);
    hide Fold, Alphanumeric, RunEnd, Camel;
    HeadOfRun(key, i, end, Alphanumeric(key[end..], cls));
    FoldAppend(key[i..end], Alphanumeric(key[end..], cls), cls.fold);
  }

  lemma HeadOfRun(key: string, i: nat, end: nat, rest: string)
    requires i < end <= |key|
    ensures [key[i]] + (key[i + 1..end] + rest) == key[i..end] + rest
  {
    assert key[i..end] == [key[i]] + key[i + 1..end];
  }

  /** Tokens lose nothing but separators: together they are the folded alphanumeric characters, in order. */
  lemma {:induction false} TokensKeepEveryLetter(key: string, i: nat, cls: Classes)
    requires i <= |key|
    ensures Concat(Runs(key, i, cls)) == Fold(Alphanumeric(key[i..], cls), cls.fold)
    decreases |key| - i
  {
    if i < |key| {
      assert key[i..][1..] == key[i + 1..];
      if !cls.alnum(key[i]) {
        TokensKeepEveryLetter(key, i + 1, cls);
        assert Alphanumeric(key[i..], cls) == Alphanumeric(key[i + 1..], cls);
      } else {
        var end := RunEnd(key, i + 1, cls);
        TokensKeepEveryLetter(key, end, cls);
        RunFolds(key, i, end, cls);
        assert Runs(key, i, cls)[1..] == Runs(key, end, cls);
      }
    }
  }

  // ---------------------------------------------------------------- where tokens begin and end

  /** An upper-case letter after a lower-case one or a digit, or between an upper-case and a lower-case letter. */
  predicate Boundary(key: string, i: nat, cls: Classes)
    requires 0 < i < |key|
  {
    var before, here := key[i - 1], key[i];
    if cls.lower(before) || cls.digit(before) then cls.upper(here)
    else cls.upper(before) && cls.upper(here) && i + 1 < |key| && cls.lower(key[i + 1])
  }

  /** Tokens may meet at `i`: an end of the key, a separator on one side, or a case boundary. */
  predicate Cut(key: string, i: nat, cls: Classes)
    requires i <= |key|
  {
    i == 0 || i == |key| || !cls.alnum(key[i - 1]) || !cls.alnum(key[i]) || Boundary(key, i, cls)
  }

  /** From one cut to the next, alphanumeric throughout. */
  ghost predicate Maximal(key: string, span: (nat, nat), cls: Classes) {
    && span.0 < span.1 <= |key|
    && Cut(key, span.0, cls) && Cut(key, span.1, cls)
    && (forall i :: span.0 <= i < span.1 ==> cls.alnum(key[i]))
    && forall i :: span.0 < i < span.1 ==> !Cut(key, i, cls)
  }

  /** The tokens are the folded maximal stretches of the key, from left to right. */
  ghost predicate Spans(key: string, from: nat, spans: seq<(nat, nat)>, tokens: seq<string>, cls: Classes) {
    && |spans| == |tokens|
    && (forall k :: 0 <= k < |spans| ==>
          && from <= spans[k].0 && Maximal(key, spans[k], cls)
          && tokens[k] == Fold(key[spans[k].0..spans[k].1], cls.fold))
    && forall k, l :: 0 <= k < l < |spans| ==> spans[k].1 <= spans[l].0
  }

  lemma {:induction false} RunIsMaximal(key: string, i: nat, cls: Classes)
    requires 0 < i <= |key| && cls.alnum(key[i - 1])
    ensures var end := RunEnd(key, i, cls);
            && Cut(key, end, cls)
            && (forall k :: i <= k < end ==> cls.alnum(key[k]) && !Cut(key, k, cls))
    decreases |key| - i
  {
    if i < |key| {
      assert Camel(key, i, cls) <==> Boundary(key, i, cls);
      if cls.alnum(key[i]) && !Camel(key, i, cls) {
        RunIsMaximal(key, i + 1, cls);
      }
    }
  }

  /** What the tokenizer yields from a cut on. */
  lemma {:induction false} TokensAreSpans(key: string, i: nat, cls: Classes) returns (spans: seq<(nat, nat)>)
    requires i <= |key| && Cut(key, i, cls)
    ensures Spans(key, i, spans, Runs(key, i, cls), cls)
    decreases |key| - i
  {
    if i == |key| {
      spans := [];
    } else if !cls.alnum(key[i]) {
      spans := TokensAreSpans(key, i + 1, cls);
    } else {
      var end := RunEnd(key, i + 1, cls);
      RunIsMaximal(key, i + 1, cls);
      var rest := TokensAreSpans(key, end, cls);
      spans := [(i, end)] + rest;
      assert Maximal(key, (i, end), cls);
      assert Runs(key, i, cls) == [Fold(key[i..end], cls.fold)] + Runs(key, end, cls);
      hide Maximal, Cut, RunEnd, Runs, Fold;
      OneMoreSpan(key, i, end, rest, Runs(key, end, cls), cls);
    }
  }

  lemma OneMoreSpan(key: string, i: nat, end: nat, rest: seq<(nat, nat)>, tokens: seq<string>, cls: Classes)
    requires i < end <= |key| && Maximal(key, (i, end), cls) && Spans(key, end, rest, tokens, cls)
    ensures Spans(key, i, [(i, end)] + rest, [Fold(key[i..end], cls.fold)] + tokens, cls)
  {
    hide Maximal, Fold;
  }

  /**
   The tokens of a key, whole: every maximal alphanumeric stretch between separators and case boundaries, folded, in
   order.
   */
  lemma KeyTokensAreSpans(key: string, cls: Classes) returns (spans: seq<(nat, nat)>)
    ensures Spans(key, 0, spans, Runs(key, 0, cls), cls)
  {
    spans := TokensAreSpans(key, 0, cls);
  }
}
