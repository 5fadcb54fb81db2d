// Definitions shared by the modules of the project.

module Common {

  datatype Option<+T> = None | Some(value: T)

  // An octet, as an integer.
  type byte = b: int | 0 <= b < 256

  function Max(a: int, b: int): int { if a < b then b else a }

  function Min(a: int, b: int): int { if a < b then a else b }

  ghost predicate Distinct(s: seq<nat>) {
    forall i, j :: 0 <= i < j < |s| ==> s[i] != s[j]
  }

  // The element at position i, if there is one.
  function At(s: seq<nat>, i: int): Option<nat> {
    if 0 <= i < |s| then Some(s[i]) else None
  }

  lemma Regroup<T>(a: seq<T>, b: seq<T>, c: seq<T>)
    ensures a + (b + c) == a + b + c
  {
  }
}
