/** The two bounded caches of the server: the verify cache remembers keys, the narinfo cache bodies.
    Both keep a linked recency list and a map over the same keys. */
module RecencyCaches {
  import opened Common

  function Len<K>(l: List<K>): nat { if l.Nil? then 0 else 1 + Len(l.tail) }

  predicate Has<K(==)>(l: List<K>, k: K) { l.Cons? && (l.head == k || Has(l.tail, k)) }

  function Elements<K(==,!new)>(l: List<K>): (s: set<K>)
    ensures forall k :: k in s <==> Has(l, k)
  {
    if l.Nil? then {} else {l.head} + Elements(l.tail)
  }

  predicate Distinct<K(==)>(l: List<K>) { l.Cons? ==> !Has(l.tail, l.head) && Distinct(l.tail) }

  function Without<K(==)>(l: List<K>, k: K): List<K> {
    if l.Nil? then Nil else if l.head == k then Without(l.tail, k) else Cons(l.head, Without(l.tail, k))
  }

  /** The first n elements, or all. */
  function Take<K>(l: List<K>, n: nat): List<K> {
    if l.Nil? || n == 0 then Nil else Cons(l.head, Take(l.tail, n - 1))
  }

  function Last<K>(l: List<K>): K
    requires l.Cons?
  {
    if l.tail.Nil? then l.head else Last(l.tail)
  }

  function DropLast<K>(l: List<K>): List<K>
    requires l.Cons?
  {
    if l.tail.Nil? then Nil else Cons(l.head, DropLast(l.tail))
  }

  /** The elements in front of the first k, or all. */
  function Before<K(==)>(l: List<K>, k: K): List<K> {
    if l.Nil? || l.head == k then Nil else Cons(l.head, Before(l.tail, k))
  }

  // ---- a log of uses, latest first, and the recency list it stands for ----

  /** The distinct keys of a log, most recently used first. */
  function Recent<K(==)>(uses: List<K>): List<K> {
    if uses.Nil? then Nil else Cons(uses.head, Without(Recent(uses.tail), uses.head))
  }

  /** What a cache of this size holds after these uses. */
  function Held<K(==)>(uses: List<K>, max: nat): List<K> { Take(Recent(uses), max) }

  lemma {:induction false} WithoutIs<K>(l: List<K>, k: K)
    ensures forall x :: Has(Without(l, k), x) <==> Has(l, x) && x != k
    ensures Distinct(l) ==> Distinct(Without(l, k))
    ensures !Has(l, k) ==> Without(l, k) == l
  {
    if l.Nil? {
    } else {
      WithoutIs(l.tail, k);
    }
  }

  lemma {:induction false} RecentDistinct<K>(uses: List<K>)
    ensures Distinct(Recent(uses))
  {
    if uses.Nil? {
    } else {
      RecentDistinct(uses.tail);
      WithoutIs(Recent(uses.tail), uses.head);
    }
  }

  lemma {:induction false} TakeDistinct<K>(l: List<K>, n: nat)
    ensures Len(Take(l, n)) <= n
    ensures forall x :: Has(Take(l, n), x) ==> Has(l, x)
    ensures Distinct(l) ==> Distinct(Take(l, n))
  {
    if l.Nil? || n == 0 {
    } else {
      TakeDistinct(l.tail, n - 1);
    }
  }

  /** Taking the first keys and removing one of them commute, up to the count. */
  lemma {:induction false} TakeWithout<K>(l: List<K>, n: nat, k: K)
    requires Distinct(l)
    ensures n > 0 && Has(Take(l, n), k) ==> Without(Take(l, n), k) == Take(Without(l, k), n - 1)
    ensures !Has(Take(l, n), k) ==> Take(l, n) == Take(Without(l, k), n)
  {
    if l.Nil? || n == 0 {
    } else {
      TakeWithout(l.tail, n - 1, k);
      TakeDistinct(l.tail, n - 1);
      WithoutIs(l.tail, k);
      WithoutIs(Take(l.tail, n - 1), k);
    }
  }

  lemma {:induction false} TakeTake<K>(l: List<K>, n: nat, m: nat)
    requires n <= m
    ensures Take(Take(l, m), n) == Take(l, n)
    ensures forall x :: Has(Take(l, n), x) ==> Has(Take(l, m), x)
  {
    if l.Nil? || n == 0 {
    } else {
      TakeTake(l.tail, n - 1, m - 1);
    }
  }

  /** The list after one use: a key held comes to the front, a new one goes in front of as many as
      fit. */
  function Touched<K(==)>(l: List<K>, max: nat, k: K): List<K> {
    if Has(l, k) then Cons(k, Without(l, k)) else Take(Cons(k, l), max)
  }

  /** One use keeps the list what it stands for: the latest distinct keys of the log. */
  lemma UseKeepsRecent<K>(uses: List<K>, max: nat, k: K)
    ensures Held(Cons(k, uses), max) == Touched(Held(uses, max), max, k)
  {
    RecentDistinct(uses);
    var r := Recent(uses);
    if max > 0 {
      TakeWithout(r, max, k);
      TakeTake(r, max - 1, max);
      TakeWithout(r, max - 1, k);
    }
  }

  lemma {:induction false} TakeAll<K>(l: List<K>, n: nat)
    ensures Len(l) <= n ==> Take(l, n) == l
    ensures Len(l) == n + 1 ==> Take(l, n) == DropLast(l)
  {
    if l.Nil? {
    } else {
      assert Len(l) == 1 + Len(l.tail);
      if n > 0 {
        TakeAll(l.tail, n - 1);
        assert Take(l, n) == Cons(l.head, Take(l.tail, n - 1));
        assert Len(l) == n + 1 ==> l.tail.Cons? && DropLast(l) == Cons(l.head, DropLast(l.tail));
      } else {
        assert l.tail.Cons? ==> Len(l.tail) == 1 + Len(l.tail.tail);
      }
    }
  }

  lemma {:induction false} DropLastIs<K>(l: List<K>)
    requires l.Cons? && Distinct(l)
    ensures forall x :: Has(DropLast(l), x) <==> Has(l, x) && x != Last(l)
    ensures Has(l, Last(l))
  {
    if l.tail.Nil? {
    } else {
      DropLastIs(l.tail);
    }
  }

  /** The same, as the caches do it: at most the last key is dropped. */
  lemma Used<K(!new)>(uses: List<K>, max: nat, k: K)
    ensures var l, l' := Held(uses, max), Held(Cons(k, uses), max);
            if Has(l, k) then l' == Cons(k, Without(l, k)) && Elements(l') == Elements(l)
            else if Len(l) + 1 > max then
              l' == DropLast(Cons(k, l)) && Elements(l') == Elements(l) + {k} - {Last(Cons(k, l))}
            else l' == Cons(k, l) && Elements(l') == Elements(l) + {k}
  {
    var l := Held(uses, max);
    UseKeepsRecent(uses, max, k);
    RecentDistinct(uses);
    TakeDistinct(Recent(uses), max);
    if Has(l, k) {
      WithoutIs(l, k);
    } else {
      TakeAll(Cons(k, l), max);
      DropLastIs(Cons(k, l));
    }
  }

  // ---- when a key is held ----

  lemma {:induction false} HasTake<K>(l: List<K>, n: nat, k: K)
    ensures Has(Take(l, n), k) <==> Has(l, k) && Len(Before(l, k)) < n
  {
    if l.Nil? || n == 0 || l.head == k {
    } else {
      HasTake(l.tail, n - 1, k);
    }
  }

  lemma {:induction false} BeforeWithout<K>(l: List<K>, k: K, h: K)
    requires h != k
    ensures Before(Without(l, h), k) == Without(Before(l, k), h)
  {
    if l.Nil? {
    } else {
      BeforeWithout(l.tail, k, h);
    }
  }

  lemma {:induction false} BeforeRecent<K>(uses: List<K>, k: K)
    ensures Before(Recent(uses), k) == Recent(Before(uses, k)) && (Has(Recent(uses), k) <==> Has(uses, k))
  {
    if uses.Nil? {
    } else {
      BeforeRecent(uses.tail, k);
      WithoutIs(Recent(uses.tail), uses.head);
      if uses.head != k { BeforeWithout(Recent(uses.tail), k, uses.head); }
    }
  }

  /** A key is held exactly when it was used, and fewer distinct other keys than fit have been used
      since its latest use. */
  lemma HeldExactlyWhenRecent<K>(uses: List<K>, max: nat, k: K)
    ensures Has(Held(uses, max), k) <==> Has(uses, k) && Len(Recent(Before(uses, k))) < max
  {
    HasTake(Recent(uses), max, k);
    BeforeRecent(uses, k);
  }

  // ---- the two caches ----

  class VerifyCache {
    const max: nat
    var ll: List<string>
    var m: set<string>
    ghost var uses: List<string>   // every key added or found, latest first

    ghost predicate Valid() reads this { ll == Held(uses, max) && m == Elements(ll) }

    constructor (max: nat)
      ensures Valid() && this.max == max && uses == Nil
    {
      this.max, ll, m, uses := max, Nil, {}, Nil;
    }

    /** Whether the key is among the latest used; finding it uses it. */
    method Find(k: string) returns (ok: bool)
      requires Valid()
      modifies this
      ensures Valid() && ok == Has(Held(old(uses), max), k)
      ensures uses == if ok then Cons(k, old(uses)) else old(uses)
    {
      ok := k in m;
      if ok {
        Used(uses, max, k);
        ll := Cons(k, Without(ll, k));
        uses := Cons(k, uses);
      }
    }

    method Add(k: string)
      requires Valid()
      modifies this
      ensures Valid() && uses == Cons(k, old(uses))
    {
      Used(uses, max, k);
      uses := Cons(k, uses);
      if k in m {
        ll := Cons(k, Without(ll, k));
        return;
      }
      m := m + {k};
      ll := Cons(k, ll);
      if Len(ll) > max {
        m := m - {Last(ll)};
        ll := DropLast(ll);
      }
    }
  }

  /** What a narinfo body depends on. */
  datatype Key = Key(cacheID: int, storeHash: string, narHash: string, pubKey: string)

  datatype Entry = Entry(body: string, etag: string)

  /** The entry last put under a key. */
  function LastPut(puts: List<(Key, Entry)>, k: Key): Option<Entry> {
    if puts.Nil? then None else if puts.head.0 == k then Some(puts.head.1) else LastPut(puts.tail, k)
  }

  class NarinfoCache {
    const max: nat
    var ll: List<Key>
    var m: map<Key, Entry>
    ghost var uses: List<Key>
    ghost var puts: List<(Key, Entry)>   // latest first

    ghost predicate Valid() reads this {
      && ll == Held(uses, max) && m.Keys == Elements(ll)
      && forall k :: k in m ==> LastPut(puts, k) == Some(m[k])
    }

    constructor (max: nat)
      ensures Valid() && this.max == max && uses == Nil && puts == Nil
    {
      this.max, ll, m, uses, puts := max, Nil, map[], Nil, Nil;
    }

    /** The entry last put under a key, exactly when the key is among the latest used. */
    method Get(k: Key) returns (r: Option<Entry>)
      requires Valid()
      modifies this
      ensures Valid() && puts == old(puts)
      ensures r == if Has(Held(old(uses), max), k) then LastPut(puts, k) else None
      ensures uses == if r.Some? then Cons(k, old(uses)) else old(uses)
    {
      if k !in m { return None; }
      Used(uses, max, k);
      ll := Cons(k, Without(ll, k));
      uses := Cons(k, uses);
      return Some(m[k]);
    }

    method Put(k: Key, e: Entry)
      requires Valid()
      modifies this
      ensures Valid() && uses == Cons(k, old(uses)) && puts == Cons((k, e), old(puts))
    {
      Used(uses, max, k);
      uses, puts := Cons(k, uses), Cons((k, e), puts);
      if k in m {
        ll, m := Cons(k, Without(ll, k)), m[k := e];
        return;
      }
      ll, m := Cons(k, ll), m[k := e];
      if Len(ll) > max {
        ll, m := DropLast(ll), m - {Last(ll)};
      }
    }
  }
}
