/** Bytes, bits and the arithmetic the binary formats share. */
module Bits {

  type byte = x: int | 0 <= x < 256

  // ---- numbers ----

  function Pow2(k: nat): (p: nat)
    ensures p > 0
  {
    if k == 0 then 1 else 2 * Pow2(k - 1)
  }

  lemma {:induction false} Pow2Add(a: nat, b: nat)
    ensures Pow2(a + b) == Pow2(a) * Pow2(b)
    decreases a
  {
    if a == 0 {
    } else {
      Pow2Add(a - 1, b);
    }
  }

  lemma {:induction false} Pow2Mono(a: nat, b: nat)
    requires a <= b
    ensures Pow2(a) <= Pow2(b)
    decreases b
  {
    if a == b {
    } else {
      Pow2Mono(a, b - 1);
    }
  }

  lemma Pow2Small()
    ensures Pow2(0) == 1 && Pow2(1) == 2 && Pow2(2) == 4 && Pow2(3) == 8 && Pow2(4) == 16
    ensures Pow2(5) == 32 && Pow2(6) == 64 && Pow2(7) == 128 && Pow2(8) == 256
  {
    assert Pow2(4) == 16;
    assert Pow2(7) == 128;
  }

  /** The number a byte string denotes: base 256, least significant byte first. */
  function BytesValue(b: seq<byte>): nat {
    if b == [] then 0 else b[0] + 256 * BytesValue(b[1..])
  }

  /** The low n bytes of a number, little-endian. */
  function ToBytes(v: nat, n: nat): (b: seq<byte>)
    ensures |b| == n
  {
    if n == 0 then [] else [v % 256] + ToBytes(v / 256, n - 1)
  }

  lemma {:induction false} BytesValueBound(b: seq<byte>)
    ensures BytesValue(b) < Pow2(8 * |b|)
  {
    if b == [] {
    } else {
      BytesValueBound(b[1..]);
      Pow2Small();
      Pow2Add(8, 8 * |b[1..]|);
    }
  }

  lemma {:induction false} BytesInverse(b: seq<byte>)
    ensures ToBytes(BytesValue(b), |b|) == b
  {
    if b == [] {
    } else {
      BytesInverse(b[1..]);
      LowByte(b[0], BytesValue(b[1..]));
      assert BytesValue(b) == b[0] + 256 * BytesValue(b[1..]);
      assert [b[0]] + b[1..] == b;
    }
  }

  /** The least significant byte of a number, and the rest of it. */
  lemma LowByte(x: byte, v: nat)
    ensures (x + 256 * v) % 256 == x && (x + 256 * v) / 256 == v
  {
  }

  lemma {:induction false} ToBytesInverse(v: nat, n: nat)
    requires v < Pow2(8 * n)
    ensures |ToBytes(v, n)| == n && BytesValue(ToBytes(v, n)) == v
  {
    if n == 0 {
    } else {
      Pow2Small();
      Pow2Add(8, 8 * (n - 1));
      ToBytesInverse(v / 256, n - 1);
    }
  }

  lemma Regroup(x: int, p: nat)
    ensures 256 * (x * p) == x * (256 * p)
  {
  }

  lemma {:induction false} SetByte(b: seq<byte>, i: nat, x: byte)
    requires i < |b|
    ensures BytesValue(b[i := x]) == BytesValue(b) + (x - b[i]) * Pow2(8 * i)
  {
    if i == 0 {
      assert b[0 := x][1..] == b[1..];
    } else {
      SetByte(b[1..], i - 1, x);
      assert b[i := x][1..] == b[1..][i - 1 := x];
      Pow2Small();
      Pow2Add(8, 8 * (i - 1));
      Regroup(x - b[i], Pow2(8 * (i - 1)));
    }
  }

  // ---- bitwise operations on the low bits of naturals ----

  /** Bitwise or of the low bits. */
  function Or(a: nat, b: nat, bits: nat): nat {
    if bits == 0 then 0
    else (if a % 2 == 1 || b % 2 == 1 then 1 else 0) + 2 * Or(a / 2, b / 2, bits - 1)
  }

  lemma {:induction false} OrZero(b: nat, bits: nat)
    requires b < Pow2(bits)
    ensures Or(0, b, bits) == b
  {
    if bits == 0 {
    } else {
      OrZero(b / 2, bits - 1);
    }
  }

  /** Or-ing bits below a boundary with bits above it adds them. */
  lemma {:induction false} OrDisjoint(a: nat, k: nat, s: nat, bits: nat)
    requires s <= bits && a < Pow2(s) && k * Pow2(s) < Pow2(bits)
    ensures Or(a, k * Pow2(s), bits) == a + k * Pow2(s)
    decreases bits
  {
    if s == 0 { OrZero(k, bits); } else {
      var b := k * Pow2(s);
      assert b == 2 * (k * Pow2(s - 1));
      OrDisjoint(a / 2, k, s - 1, bits - 1);
    }
  }

  lemma {:induction false} OrBound(a: nat, b: nat, bits: nat)
    ensures Or(a, b, bits) < Pow2(bits)
  {
    if bits == 0 {
    } else {
      OrBound(a / 2, b / 2, bits - 1);
    }
  }

  // ---- division ----

  lemma MulMono(c: nat, a: nat, b: nat)
    requires a <= b
    ensures c * a <= c * b
  {
    assert c * b == c * a + c * (b - a);
  }

  lemma DivUnique(v: nat, d: nat, q: nat, r: nat)
    requires v == d * q + r && r < d
    ensures v / d == q && v % d == r
  {
    var q', r' := v / d, v % d;
    assert v == d * q' + r';
    assert d * (q' + 1) == d * q' + d && d * (q + 1) == d * q + d;
    if q' < q { MulMono(d, q' + 1, q); }
    if q < q' { MulMono(d, q + 1, q'); }
  }

  lemma DivLess(x: nat, d: nat, q: nat)
    requires d > 0 && x < d * q
    ensures x / d < q
  {
    if x / d >= q { MulMono(d, q, x / d); }
  }

  lemma DivDiv(v: nat, a: nat, b: nat)
    requires a > 0 && b > 0
    ensures a * b > 0 && v / a / b == v / (a * b)
  {
    var q, r := v / a, v % a;
    var q2, r2 := q / b, q % b;
    calc {
      v;
      a * q + r;
      a * (b * q2 + r2) + r;
      a * (b * q2) + a * r2 + r;
      (a * b) * q2 + (a * r2 + r);
    }
    MulMono(a, r2, b - 1);
    assert a * (b - 1) == a * b - a;
    DivUnique(v, a * b, q2, a * r2 + r);
  }

  lemma {:induction false} ToBytesAt(v: nat, n: nat, i: nat)
    requires i < n
    ensures ToBytes(v, n)[i] == v / Pow2(8 * i) % 256
  {
    if i == 0 {
      assert v / Pow2(0) == v;
    } else {
      ToBytesAt(v / 256, n - 1, i - 1);
      Pow2Small();
      Pow2Add(8, 8 * (i - 1));
      DivDiv(v, 256, Pow2(8 * (i - 1)));
    }
  }
}
