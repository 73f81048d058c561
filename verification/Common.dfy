/** What several of the models share: optional values and small facts about sequences and sets. */
module Common {

  datatype Option<+T> = None | Some(value: T)

  datatype List<T> = Nil | Cons(head: T, tail: List<T>)

  function Max(a: int, b: int): int { if a > b then a else b }

  function Min(a: int, b: int): int { if a < b then a else b }

  predicate NoRepeats<T(==)>(s: seq<T>) {
    forall i, j :: 0 <= i < j < |s| ==> s[i] != s[j]
  }

  lemma Reassociate<T>(a: seq<T>, b: seq<T>, c: seq<T>)
    ensures a + (b + c) == a + b + c
  {
  }

  lemma Nothing<T>(a: seq<T>)
    ensures [] + a == a && a + [] == a
  {
  }

  lemma SomeElement<T>(s: set<T>)
    requires s != {}
    ensures exists x :: x in s
  {
  }
}
