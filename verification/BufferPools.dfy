/** The recycled read buffers: one pool per power-of-two capacity, and reading a blob into a buffer of
    known size. */
module BufferPools {
  import opened Common
  import opened Bits

  const MIN_SHIFT: nat := 12
  const MAX_SHIFT: nat := 22
  const CLASSES: nat := MAX_SHIFT - MIN_SHIFT + 1

  /** The number of bits of a number. */
  function BitLen(n: nat): nat { if n == 0 then 0 else 1 + BitLen(n / 2) }

  /** No class: too large to recycle. */
  datatype Class = NoClass | Class(index: nat)

  function ClassOf(n: int): Class {
    if n > Pow2(MAX_SHIFT) then NoClass
    else Class(Max(BitLen(Max(n, 1) - 1), MIN_SHIFT) - MIN_SHIFT)
  }

  lemma {:induction false} BitLenIs(n: nat, k: nat)
    ensures BitLen(n) <= k <==> n < Pow2(k)
    decreases k
  {
    if k == 0 {
    } else {
      BitLenIs(n / 2, k - 1);
    }
  }

  /** The capacity of a class's buffers. */
  function Capacity(c: nat): nat { Pow2(c + MIN_SHIFT) }

  /** The class of a size is the smallest whose buffers hold it. */
  lemma ClassIsSmallestThatFits(n: int)
    ensures ClassOf(n).NoClass? <==> n > Capacity(CLASSES - 1)
    ensures ClassOf(n).Class? ==> var c := ClassOf(n).index;
              c < CLASSES && n <= Capacity(c) && (c > 0 ==> Capacity(c - 1) < n)
  {
    if n <= Pow2(MAX_SHIFT) {
      var m, c := Max(n, 1) - 1, ClassOf(n).index;
      BitLenIs(m, MAX_SHIFT);
      BitLenIs(m, c + MIN_SHIFT);
      if c > 0 { BitLenIs(m, c + MIN_SHIFT - 1); }
    }
  }

  lemma {:induction false} CapacityLess(a: nat, b: nat)
    requires a < b
    ensures Capacity(a) < Capacity(b)
    decreases b
  {
    assert Capacity(b) == 2 * Capacity(b - 1);
    if a == b - 1 {
    } else {
      CapacityLess(a, b - 1);
    }
  }

  /** Eleven classes, from 4 KiB to 4 MiB, each twice the one before. */
  lemma CapacitiesAre(c: nat)
    ensures CLASSES == 11 && Capacity(0) == 4096 && Capacity(10) == 0x40_0000 && Capacity(c + 1) == 2 * Capacity(c)
  {
    Pow2Small();
    assert Pow2(12) == 4096 by { Pow2Add(8, 4); }
    Pow2Add(12, 10);
    Pow2Add(8, 2);
  }

  /** A capacity that is exactly that of a class is in that class, and in no other. */
  lemma ExactCapacity(c: nat)
    requires c < CLASSES
    ensures ClassOf(Capacity(c)) == Class(c)
  {
    var n := Capacity(c);
    if c < CLASSES - 1 { CapacityLess(c, CLASSES - 1); }
    ClassIsSmallestThatFits(n);
    var d := ClassOf(n).index;
    if d < c { CapacityLess(d, c); }
    if c < d - 1 { CapacityLess(c, d - 1); }
  }

  /** The pools, each buffer by its capacity. */
  class Pools {
    var pools: seq<seq<nat>>

    /** Every pool holds only buffers of its own capacity. */
    predicate Valid() reads this {
      && |pools| == CLASSES
      && forall c, i :: 0 <= c < CLASSES && 0 <= i < |pools[c]| ==> pools[c][i] == Capacity(c)
    }

    constructor ()
      ensures Valid() && forall c :: 0 <= c < CLASSES ==> pools[c] == []
    {
      pools := seq(CLASSES, i => []);
    }

    /** An empty buffer; recycle says whether the pool, asked, gives one back. */
    method GetBuf(hint: int, recycle: bool) returns (cap: int)
      requires Valid()
      modifies this
      ensures Valid() && cap >= hint
      ensures cap == if ClassOf(hint).Class? then Capacity(ClassOf(hint).index) else hint
      ensures pools == old(pools) || (ClassOf(hint).Class? && Taken(old(pools), pools, ClassOf(hint).index))
    {
      ClassIsSmallestThatFits(hint);
      var home := ClassOf(hint);
      if home.NoClass? { return hint; }
      if recycle && pools[home.index] != [] {
        cap := pools[home.index][0];
        pools := pools[home.index := pools[home.index][1..]];
        return;
      }
      return Pow2(home.index + MIN_SHIFT);
    }

    /** Takes a buffer back; one whose capacity is not exactly that of a class is dropped. */
    method PutBuf(cap: nat)
      requires Valid()
      modifies this
      ensures Valid()
      ensures forall c :: 0 <= c < CLASSES ==>
                pools[c] == if cap == Capacity(c) then old(pools[c]) + [cap] else old(pools[c])
    {
      ClassIsSmallestThatFits(cap);
      var home := ClassOf(cap);
      forall c | 0 <= c < CLASSES ensures cap == Capacity(c) ==> home == Class(c) { ExactCapacity(c); }
      if home.NoClass? || cap != Pow2(home.index + MIN_SHIFT) { return; }
      pools := pools[home.index := pools[home.index] + [cap]];
    }
  }

  /** One buffer was taken from pool c. */
  predicate Taken(before: seq<seq<nat>>, after: seq<seq<nat>>, c: nat) {
    c < |before| && before[c] != [] && after == before[c := before[c][1..]]
  }

  /** A blob as its reader hands it out: so many bytes offered at each Read, none included, and all
      that is asked for once the list is used up; late says that the end is reported by a Read of its
      own; fails that reading ends in an error. */
  datatype Reader = Reader(content: seq<byte>, offers: seq<nat>, late: bool, fails: bool)

  /** Reads everything into a buffer of the given capacity, growing it when it is full. */
  method ReadAllInto(capacity: nat, r: Reader, grow: nat -> nat) returns (ok: bool, buf: seq<byte>, cap: nat)
    requires forall c :: grow(c) > c
    ensures buf == r.content && ok == !r.fails
    ensures |buf| <= cap
    ensures capacity > |r.content| ==> cap == capacity
  {
    var pos, k := 0, 0;
    buf, cap := [], capacity;
    while true
      invariant 0 <= pos <= |r.content| && buf == r.content[..pos] && pos <= cap && k <= |r.offers|
      invariant capacity > |r.content| ==> cap == capacity
      decreases |r.offers| - k, |r.content| - pos
    {
      if pos == cap { cap := grow(cap); }
      var wanted := Min(cap - pos, |r.content| - pos);
      var n := if k < |r.offers| then Min(r.offers[k], wanted) else wanted;
      var ended := pos + n == |r.content| && (!r.late || (k == |r.offers| && n == 0));
      assert r.content[..pos + n] == r.content[..pos] + r.content[pos..pos + n];
      buf, pos := buf + r.content[pos..pos + n], pos + n;
      if k < |r.offers| { k := k + 1; }
      if ended {
        assert r.content[..pos] == r.content;
        return !r.fails, buf, cap;
      }
    }
  }

  /** Reads a blob into a buffer for its recorded size and gives the buffer back: what is left in the
      pools is what getting it left, and the buffer in the pool of its capacity, if there is one. A blob
      no larger than recorded is read without moving it, and its buffer goes back to the pool it came
      from, up to the largest class. */
  method FetchRaw(pools: Pools, csize: nat, r: Reader, grow: nat -> nat, recycle: bool)
    returns (ok: bool, buf: seq<byte>, cap: nat, ghost got: seq<seq<nat>>)
    requires pools.Valid()
    requires forall c :: grow(c) > c
    modifies pools
    ensures pools.Valid() && buf == r.content && ok == !r.fails && |buf| <= cap
    ensures got == old(pools.pools) || (ClassOf(csize + 1).Class? && Taken(old(pools.pools), got, ClassOf(csize + 1).index))
    ensures |got| == CLASSES
    ensures forall c :: 0 <= c < CLASSES ==> pools.pools[c] == if cap == Capacity(c) then got[c] + [cap] else got[c]
    ensures |r.content| <= csize ==>
              cap == if ClassOf(csize + 1).Class? then Capacity(ClassOf(csize + 1).index) else csize + 1
    ensures |r.content| <= csize < Capacity(CLASSES - 1) ==> var c := ClassOf(csize + 1).index;
              c < CLASSES && pools.pools[c] != [] && pools.pools[c][|pools.pools[c]| - 1] == Capacity(c)
  {
    var hint := pools.GetBuf(csize + 1, recycle);
    got := pools.pools;
    ok, buf, cap := ReadAllInto(hint, r, grow);
    ClassIsSmallestThatFits(csize + 1);
    pools.PutBuf(cap);
  }
}
