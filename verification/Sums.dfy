/** Sums of a cost over a list, and what one change does to them. */
module Sums {

  function Sum<T>(f: T -> nat, s: seq<T>): nat {
    if s == [] then 0 else f(s[0]) + Sum(f, s[1..])
  }

  function Remove<T>(s: seq<T>, i: nat): seq<T>
    requires i < |s|
  {
    s[..i] + s[i + 1..]
  }

  lemma {:induction false} SumAppend<T>(f: T -> nat, s: seq<T>, t: seq<T>)
    ensures Sum(f, s + t) == Sum(f, s) + Sum(f, t)
  {
    if s == [] {
      assert s + t == t;
    } else {
      assert (s + t)[1..] == s[1..] + t;
      SumAppend(f, s[1..], t);
    }
  }

  lemma SumAt<T>(f: T -> nat, s: seq<T>, i: nat)
    requires i < |s|
    ensures Sum(f, s) == Sum(f, s[..i]) + f(s[i]) + Sum(f, s[i + 1..])
    ensures Sum(f, s) == f(s[i]) + Sum(f, Remove(s, i))
  {
    assert s == s[..i] + s[i..];
    SumAppend(f, s[..i], s[i..]);
    SumAppend(f, s[..i], s[i + 1..]);
  }

  lemma SumUpdate<T>(f: T -> nat, s: seq<T>, i: nat, x: T)
    requires i < |s|
    ensures Sum(f, s[i := x]) == Sum(f, s) - f(s[i]) + f(x)
  {
    SumAt(f, s, i);
    SumAt(f, s[i := x], i);
    assert s[i := x][..i] == s[..i] && s[i := x][i + 1..] == s[i + 1..];
  }

  lemma SumSnoc<T>(f: T -> nat, s: seq<T>, x: T)
    ensures Sum(f, s + [x]) == Sum(f, s) + f(x)
  {
    SumAppend(f, s, [x]);
  }

  lemma SumZero<T>(f: T -> nat, s: seq<T>, i: nat)
    requires i < |s| && Sum(f, s) == 0
    ensures f(s[i]) == 0
  {
    SumAt(f, s, i);
  }
}
