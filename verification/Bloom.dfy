/** The chunk presence filter: a bloom filter over content hashes, and its wire form. */
module Bloom {
  import opened Bits

  const WORD: int := 0x1_0000_0000_0000_0000

  type word = x: int | 0 <= x < WORD

  const BITS_PER_ENTRY: nat := 32
  const MIN_BITS: nat := 0x2000
  const MAX_ENTRIES: nat := 0x80_0000
  const MAX_PROBES: nat := 24
  const LN2: real := 0.693147180559945309417232121458
  const FNV_OFFSET: word := 14695981039346656037
  const FNV_PRIME: word := 1099511628211
  const HEADER: nat := 16
  const MAGIC: seq<byte> := [0x78, 0x62, 0x66, 0x31]

  lemma WordIsPow2()
    ensures Pow2(64) == WORD
  {
    Pow2Small();
    Pow2Add(8, 8);
    Pow2Add(16, 16);
    Pow2Add(32, 32);
  }

  // ---- single bits ----

  predicate HasBit(w: nat, j: nat) {
    if j == 0 then w % 2 == 1 else HasBit(w / 2, j - 1)
  }

  function And(a: nat, b: nat, bits: nat): nat {
    if bits == 0 then 0
    else (if a % 2 == 1 && b % 2 == 1 then 1 else 0) + 2 * And(a / 2, b / 2, bits - 1)
  }

  function Xor(a: nat, b: nat, bits: nat): nat {
    if bits == 0 then 0
    else (if a % 2 != b % 2 then 1 else 0) + 2 * Xor(a / 2, b / 2, bits - 1)
  }

  lemma OrHalves(a: nat, b: nat, bits: nat)
    requires bits > 0
    ensures Or(a, b, bits) / 2 == Or(a / 2, b / 2, bits - 1)
    ensures Or(a, b, bits) % 2 == 1 <==> a % 2 == 1 || b % 2 == 1
  {
  }

  lemma {:induction false} OrBits(a: nat, b: nat, bits: nat, j: nat)
    requires j < bits
    ensures HasBit(Or(a, b, bits), j) <==> HasBit(a, j) || HasBit(b, j)
  {
    OrHalves(a, b, bits);
    if j == 0 {
    } else {
      OrBits(a / 2, b / 2, bits - 1, j - 1);
    }
  }

  lemma {:induction false} NoBits(j: nat)
    ensures !HasBit(0, j)
  {
    if j == 0 {
    } else {
      NoBits(j - 1);
    }
  }

  lemma {:induction false} Pow2Bits(e: nat, j: nat)
    ensures HasBit(Pow2(e), j) <==> j == e
  {
    if e > 0 && j > 0 { Pow2Bits(e - 1, j - 1); } else if j > 0 { NoBits(j - 1); }
  }

  lemma {:induction false} AndZero(a: nat, bits: nat)
    ensures And(a, 0, bits) == 0
  {
    if bits == 0 {
    } else {
      AndZero(a / 2, bits - 1);
    }
  }

  lemma {:induction false} AndPow2(a: nat, e: nat, bits: nat)
    requires e < bits
    ensures And(a, Pow2(e), bits) == 0 <==> !HasBit(a, e)
  {
    if e > 0 { AndPow2(a / 2, e - 1, bits - 1); } else { AndZero(a / 2, bits - 1); }
  }

  lemma HalveMod(a: nat, p: nat)
    requires p > 0
    ensures a % (2 * p) == 2 * (a / 2 % p) + a % 2
  {
    var h := a / 2;
    assert h == p * (h / p) + h % p;
    assert 2 * (p * (h / p)) == 2 * p * (h / p);
    DivUnique(a, 2 * p, h / p, 2 * (h % p) + a % 2);
  }

  /** Masking with one less than a power of two is reducing modulo it. */
  lemma {:induction false} AndMask(a: nat, e: nat, bits: nat)
    requires e <= bits
    ensures And(a, Pow2(e) - 1, bits) == a % Pow2(e)
  {
    if e == 0 { AndZero(a, bits); } else {
      var p := Pow2(e - 1);
      assert Pow2(e) - 1 == 2 * p - 1 && (2 * p - 1) / 2 == p - 1 && (2 * p - 1) % 2 == 1;
      AndMask(a / 2, e - 1, bits - 1);
      HalveMod(a, p);
    }
  }

  predicate IsPow2(m: nat) {
    m == 1 || (m > 0 && m % 2 == 0 && IsPow2(m / 2))
  }

  lemma {:induction false} Log2(m: nat) returns (e: nat)
    requires IsPow2(m)
    ensures Pow2(e) == m
  {
    if m == 1 { e := 0; } else {
      var d := Log2(m / 2);
      e := d + 1;
    }
  }

  lemma {:induction false} Pow2IsPow2(e: nat)
    ensures IsPow2(Pow2(e))
  {
    if e == 0 {
    } else {
      Pow2IsPow2(e - 1);
    }
  }

  lemma {:induction false} AndSelf(a: nat, bits: nat)
    requires a < Pow2(bits)
    ensures And(a, a, bits) == a
  {
    if bits == 0 {
    } else {
      AndSelf(a / 2, bits - 1);
    }
  }

  /** m & (m-1) vanishes exactly on the powers of two. */
  lemma {:induction false} ClearLowestBit(m: nat, bits: nat)
    requires 0 < m < Pow2(bits)
    ensures And(m, m - 1, bits) == 0 <==> IsPow2(m)
    decreases bits
  {
    if m % 2 == 1 {
      assert (m - 1) / 2 == m / 2;
      AndSelf(m / 2, bits - 1);
    } else {
      assert (m - 1) / 2 == m / 2 - 1;
      ClearLowestBit(m / 2, bits - 1);
    }
  }

  // ---- probes ----

  function Fnv1a(s: seq<byte>, h: word): word {
    if s == [] then h
    else
      Fnv1a(s[1..], Xor(h, s[0], 64) * FNV_PRIME % WORD)
  }

  function Fnv1(s: seq<byte>, h: word): word {
    if s == [] then h
    else
      XorBound(h * FNV_PRIME % WORD, s[0], 64);
      WordIsPow2();
      Fnv1(s[1..], Xor(h * FNV_PRIME % WORD, s[0], 64))
  }

  lemma {:induction false} XorBound(a: nat, b: nat, bits: nat)
    ensures Xor(a, b, bits) < Pow2(bits)
  {
    if bits == 0 {
    } else {
      XorBound(a / 2, b / 2, bits - 1);
    }
  }

  datatype Probes = Probes(h1: word, h2: word)

  lemma OrOne(a: nat, bits: nat)
    requires bits > 0
    ensures Or(a, 1, bits) % 2 == 1 && Or(a, 1, bits) < Pow2(bits)
  {
    OrBound(a, 1, bits);
  }

  /** The second hash is made odd. */
  function ProbesOf(s: seq<byte>): (p: Probes)
    ensures p.h2 % 2 == 1
  {
    var h := Fnv1(s, FNV_OFFSET);
    OrOne(h, 64);
    WordIsPow2();
    Probes(Fnv1a(s, FNV_OFFSET), Or(h, 1, 64))
  }

  /** The ith probed bit, in uint64 arithmetic. */
  function Position(p: Probes, m: nat, i: nat): nat
    requires m > 0
  {
    And((p.h1 + i * p.h2) % WORD, m - 1, 64)
  }

  lemma PositionIs(p: Probes, e: nat, i: nat)
    requires e <= 64
    ensures Position(p, Pow2(e), i) == (p.h1 + i * p.h2) % Pow2(e)
  {
    MaskWord(p.h1 + i * p.h2, e);
  }

  lemma MaskWord(x: nat, e: nat)
    requires e <= 64
    ensures And(x % WORD, Pow2(e) - 1, 64) == x % Pow2(e)
  {
    WordSplits(e);
    AndMask(x % WORD, e, 64);
    ModMod(x, WORD, Pow2(e), Pow2(64 - e));
  }

  lemma WordSplits(e: nat)
    requires e <= 64
    ensures WORD == Pow2(e) * Pow2(64 - e)
  {
    WordIsPow2();
    Pow2Add(e, 64 - e);
  }

  lemma Factor(a: nat, b: nat, q: nat, c: nat)
    ensures (a * b) * q + a * c == a * (b * q + c)
  {
  }

  lemma ModMod(x: nat, w: nat, a: nat, b: nat)
    requires a > 0 && w > 0 && w == a * b
    ensures x % w % a == x % a
  {
    var q, r := x / w, x % w;
    Factor(a, b, q, r / a);
    assert r == a * (r / a) + r % a;
    DivUnique(x, a, b * q + r / a, r % a);
  }

  lemma OddProduct(a: nat, b: nat)
    ensures (2 * a + 1) * (2 * b + 1) == 2 * (2 * (a * b) + a + b) + 1
  {
  }

  lemma EvenProduct(a: nat, b: nat)
    ensures (2 * a) * b == 2 * (a * b) && a * (2 * b) == 2 * (a * b)
  {
  }

  /** A power of two dividing a multiple of an odd number divides the multiplier. */
  lemma {:induction false} OddCancels(d: nat, h: nat, q: nat, e: nat) returns (r: nat)
    requires h % 2 == 1 && d * h == q * Pow2(e)
    ensures d == r * Pow2(e)
    decreases e
  {
    if e == 0 { r := d; } else {
      var d', h', p := d / 2, h / 2, Pow2(e - 1);
      assert Pow2(e) == 2 * p && h == 2 * h' + 1;
      EvenProduct(q, p);
      if d == 2 * d' + 1 { OddProduct(d', h'); assert false; }
      EvenProduct(d', h);
      r := OddCancels(d', h, q, e - 1);
      EvenProduct(r, p);
    }
  }

  lemma Difference(i: nat, d: nat, h: nat)
    ensures (i + d) * h - i * h == d * h
  {
  }

  lemma DivMono(x: nat, y: nat, m: nat)
    requires m > 0 && x <= y
    ensures x / m <= y / m
  {
    DivLess(x, m, y / m + 1);
  }

  lemma SameRemainder(x: nat, y: nat, m: nat) returns (q: nat)
    requires m > 0 && x <= y && x % m == y % m
    ensures y - x == q * m
  {
    assert x == m * (x / m) + x % m && y == m * (y / m) + y % m;
    DivMono(x, y, m);
    q := y / m - x / m;
  }

  /** Two probes in the same place are a multiple of the table size apart. */
  lemma SamePlace(h1: nat, h: nat, i: nat, j: nat, e: nat) returns (r: nat)
    requires h % 2 == 1 && i < j && (h1 + i * h) % Pow2(e) == (h1 + j * h) % Pow2(e)
    ensures j - i == r * Pow2(e)
  {
    var d := j - i;
    assert i + d == j;
    Difference(i, d, h);
    assert j * h == (i + d) * h;
    MulMono(d, 0, h);
    var q := SameRemainder(h1 + i * h, h1 + j * h, Pow2(e));
    r := OddCancels(d, h, q, e);
  }

  lemma NoSmallMultiple(d: nat, r: nat, m: nat)
    requires 0 < d < m
    ensures d != r * m
  {
    if r > 0 { MulMono(m, 1, r); }
  }

  lemma RemaindersDiffer(h1: nat, h: nat, i: nat, j: nat, e: nat)
    requires h % 2 == 1 && i < j < i + Pow2(e)
    ensures (h1 + i * h) % Pow2(e) != (h1 + j * h) % Pow2(e)
  {
    if (h1 + i * h) % Pow2(e) == (h1 + j * h) % Pow2(e) {
      var r := SamePlace(h1, h, i, j, e);
      NoSmallMultiple(j - i, r, Pow2(e));
      assert false;
    }
  }

  /** The probes of one string are pairwise distinct bits of the table. */
  lemma ProbesDistinct(p: Probes, e: nat, i: nat, j: nat)
    requires p.h2 % 2 == 1 && e <= 64 && i < j < i + Pow2(e)
    ensures Position(p, Pow2(e), i) != Position(p, Pow2(e), j)
  {
    PositionIs(p, e, i);
    PositionIs(p, e, j);
    RemaindersDiffer(p.h1, p.h2, i, j, e);
  }

  // ---- the hashes tell strings apart ----

  lemma TwoParts(r: nat, y: nat)
    requires r < 2
    ensures (r + 2 * y) % 2 == r && (r + 2 * y) / 2 == y
  {
  }

  lemma XorHalves(a: nat, b: nat, bits: nat)
    requires bits > 0
    ensures Xor(a, b, bits) == (if a % 2 != b % 2 then 1 else 0) + 2 * Xor(a / 2, b / 2, bits - 1)
    ensures Xor(a, b, bits) % 2 == (if a % 2 != b % 2 then 1 else 0)
    ensures Xor(a, b, bits) / 2 == Xor(a / 2, b / 2, bits - 1)
  {
    TwoParts(if a % 2 != b % 2 then 1 else 0, Xor(a / 2, b / 2, bits - 1));
  }

  lemma {:induction false} XorZero(a: nat, bits: nat)
    requires a < Pow2(bits)
    ensures Xor(a, 0, bits) == a
  {
    if bits == 0 {
    } else {
      XorZero(a / 2, bits - 1);
    }
  }

  lemma {:induction false} XorInjective(a: nat, a': nat, b: nat, bits: nat)
    requires a < Pow2(bits) && a' < Pow2(bits) && Xor(a, b, bits) == Xor(a', b, bits)
    ensures a == a'
  {
    if bits == 0 {
    } else {
      XorHalves(a, b, bits);
      XorHalves(a', b, bits);
      XorInjective(a / 2, a' / 2, b / 2, bits - 1);
    }
  }

  lemma {:induction false} XorSwap(a: nat, b: nat, bits: nat)
    ensures Xor(a, b, bits) == Xor(b, a, bits)
  {
    if bits == 0 {
    } else {
      XorSwap(a / 2, b / 2, bits - 1);
    }
  }

  /** Multiplying by an odd number loses nothing of a word. */
  lemma TimesOddInjective(a: nat, b: nat, p: nat)
    requires p % 2 == 1 && a < WORD && b < WORD && a * p % WORD == b * p % WORD
    ensures a == b
  {
    var lo, hi := if a <= b then a else b, if a <= b then b else a;
    WordIsPow2();
    TimesMono(lo, hi, p);
    var q := SameRemainder(lo * p, hi * p, WORD);
    Difference(lo, hi - lo, p);
    assert (lo + (hi - lo)) * p == hi * p;
    var r := OddCancels(hi - lo, p, q, 64);
    if r > 0 { AtLeastWord(r); }
  }

  lemma TimesMono(a: nat, b: nat, p: nat)
    requires a <= b
    ensures a * p <= b * p
  {
    MulMono(p, a, b);
    assert a * p == p * a && b * p == p * b;
  }

  lemma AtLeastWord(r: nat)
    requires r > 0
    ensures r * Pow2(64) >= WORD
  {
    WordIsPow2();
    MulMono(Pow2(64), 1, r);
    assert r * Pow2(64) == Pow2(64) * r;
  }

  /** From two states that differ, the same bytes lead to states that differ. */
  lemma {:induction false} Fnv1aApart(s: seq<byte>, g: word, h: word)
    requires g != h
    ensures Fnv1a(s, g) != Fnv1a(s, h)
  {
    if s == [] {
    } else {
      WordIsPow2();
      XorBound(g, s[0], 64);
      XorBound(h, s[0], 64);
      if Xor(g, s[0], 64) == Xor(h, s[0], 64) { XorInjective(g, h, s[0], 64); }
      var a, b := Xor(g, s[0], 64) * FNV_PRIME % WORD, Xor(h, s[0], 64) * FNV_PRIME % WORD;
      if a == b { TimesOddInjective(Xor(g, s[0], 64), Xor(h, s[0], 64), FNV_PRIME); }
      Fnv1aApart(s[1..], a, b);
    }
  }

  lemma {:induction false} Fnv1aConcat(a: seq<byte>, b: seq<byte>, h: word)
    ensures Fnv1a(a + b, h) == Fnv1a(b, Fnv1a(a, h))
    decreases |a|
  {
    if a == [] {
      assert a + b == b;
    } else {
      assert (a + b)[1..] == a[1..] + b;
      Fnv1aConcat(a[1..], b, Xor(h, a[0], 64) * FNV_PRIME % WORD);
    }
  }

  /** Strings that differ in one byte only have different first hashes, wherever it is. */
  lemma OneByteApart(before: seq<byte>, x: byte, y: byte, after: seq<byte>)
    requires x != y
    ensures ProbesOf(before + [x] + after).h1 != ProbesOf(before + [y] + after).h1
  {
    var h := Fnv1a(before, FNV_OFFSET);
    Fnv1aConcat(before + [x], after, FNV_OFFSET);
    Fnv1aConcat(before + [y], after, FNV_OFFSET);
    Fnv1aConcat(before, [x], FNV_OFFSET);
    Fnv1aConcat(before, [y], FNV_OFFSET);
    WordIsPow2();
    XorBound(h, x, 64);
    XorBound(h, y, 64);
    if Xor(h, x, 64) == Xor(h, y, 64) {
      XorSwap(h, x, 64);
      XorSwap(h, y, 64);
      SmallBytes(x, y);
      XorInjective(x, y, h, 64);
    }
    OneRound(h, x);
    OneRound(h, y);
    var a, b := Fnv1a([x], h), Fnv1a([y], h);
    if a == b { TimesOddInjective(Xor(h, x, 64), Xor(h, y, 64), FNV_PRIME); }
    Fnv1aApart(after, a, b);
  }

  lemma SmallBytes(x: byte, y: byte)
    ensures x < Pow2(64) && y < Pow2(64)
  {
    WordIsPow2();
  }

  lemma OneRound(h: word, x: byte)
    ensures Fnv1a([x], h) == Xor(h, x, 64) * FNV_PRIME % WORD
  {
    assert [x][1..] == [];
  }

  /** Turning over the bits of a byte leaves the rest of a word alone. */
  lemma {:induction false} XorSplit(q: nat, r: nat, x: nat, k: nat, bits: nat)
    requires k <= bits && r < Pow2(k) && x < Pow2(k) && q < Pow2(bits - k)
    ensures Xor(q * Pow2(k) + r, x, bits) == q * Pow2(k) + Xor(r, x, k)
    decreases k
  {
    if k == 0 {
      XorZero(q, bits);
    } else {
      var p := Pow2(k - 1);
      assert q * Pow2(k) == 2 * (q * p);
      assert (q * Pow2(k) + r) / 2 == q * p + r / 2 && (q * Pow2(k) + r) % 2 == r % 2;
      XorHalves(q * Pow2(k) + r, x, bits);
      XorHalves(r, x, k);
      XorSplit(q, r / 2, x / 2, k - 1, bits - 1);
    }
  }

  lemma XorByte(q: nat, r: byte, x: byte)
    requires q < 0x100_0000_0000_0000
    ensures Xor(q * 0x100 + r, x, 64) == q * 0x100 + Xor(r, x, 8)
  {
    Pow2Small();
    WordIsPow2();
    Pow2Add(8, 56);
    XorSplit(q, r, x, 8, 64);
  }

  lemma LowBytes()
    ensures Xor(0x25, 0x61, 8) == 0x44 && Xor(0xdf, 0x61, 8) == 0xbe
  {
    assert Xor(0x2, 0x6, 4) == 0x4 && Xor(0xd, 0x6, 4) == 0xb;
  }

  lemma OneRound1(h: word, x: byte)
    ensures Fnv1([x], h) == Xor(h * FNV_PRIME % WORD, x, 64)
  {
    assert [x][1..] == [];
  }

  /** The published value of FNV-1a for "a". */
  lemma PublishedFnv1a()
    ensures Fnv1a([0x61], 0xcbf29ce484222325) == 0xaf63dc4c8601ec8c
  {
    OneRound(0xcbf29ce484222325, 0x61);
    LowBytes();
    XorByte(0xcbf29ce4842223, 0x25, 0x61);
    DivUnique(0xcbf29ce484222344 * FNV_PRIME, WORD, 875948729822, 0xaf63dc4c8601ec8c);
  }

  /** The published value of FNV-1 for "a". */
  lemma PublishedFnv1()
    ensures Fnv1([0x61], 0xcbf29ce484222325) == 0xaf63bd4c8601b7be
  {
    OneRound1(0xcbf29ce484222325, 0x61);
    LowBytes();
    DivUnique(0xcbf29ce484222325 * FNV_PRIME, WORD, 875948729822, 0xaf63bd4c8601b7df);
    XorByte(0xaf63bd4c8601b7, 0xdf, 0x61);
  }

  /** A filter hashes with the published starting value. */
  lemma ProbesAre(s: seq<byte>)
    ensures ProbesOf(s).h1 == Fnv1a(s, 0xcbf29ce484222325)
    ensures var h := Fnv1(s, 0xcbf29ce484222325); ProbesOf(s).h2 == if h % 2 == 1 then h else h + 1
  {
    var h := Fnv1(s, FNV_OFFSET);
    WordIsPow2();
    OrOneIs(h);
  }

  lemma OrOneIs(h: word)
    ensures Or(h, 1, 64) == if h % 2 == 1 then h else h + 1
  {
    WordIsPow2();
    Pow2Add(1, 63);
    Pow2Small();
    OrZero(h / 2, 63);
    OrSwap(h / 2, 0, 63);
  }

  lemma {:induction false} OrSwap(a: nat, b: nat, bits: nat)
    ensures Or(a, b, bits) == Or(b, a, bits)
  {
    if bits == 0 {
    } else {
      OrSwap(a / 2, b / 2, bits - 1);
    }
  }
}
