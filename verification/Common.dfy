/** Small value types and facts shared by the components. */
module Common {
  datatype Option<+T> = None | Some(value: T)

  /** What a transaction hands back: a value, or the stable code of the exception it raises. */
  datatype Outcome<+T> = Done(value: T) | Raised(code: string)

  function Min(a: int, b: int): int {
    if a <= b then a else b
  }

  function Max(a: int, b: int): int {
    if a >= b then a else b
  }

  function Elements<T>(s: seq<T>): set<T> {
    set x | x in s
  }

  predicate Distinct<T(==)>(s: seq<T>) {
    forall i, j :: 0 <= i < j < |s| ==> s[i] != s[j]
  }

  lemma SubsetCount<T>(small: set<T>, large: set<T>)
    requires small <= large
    ensures |small| <= |large|
  {
    assert large == small + (large - small);
  }
}

/** Case folding, one character at a time, and what it does to concatenations. */
module CaseFolding {
  type Folding = char -> string

  function Fold(text: string, fold: Folding): string {
    if text == "" then "" else fold(text[0]) + Fold(text[1..], fold)
  }

  lemma {:induction false} FoldAppend(a: string, b: string, fold: Folding)
    ensures Fold(a + b, fold) == Fold(a, fold) + Fold(b, fold)
    decreases |a|
  {
    if a == "" {
      assert a + b == b;
    } else {
      assert (a + b)[1..] == a[1..] + b;
      FoldAppend(a[1..], b, fold);
    }
  }
}
