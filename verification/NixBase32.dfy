/** Nix's base-32 text form of a hash, and the hash normalization built on it. */
module NixBase32 {
  import opened Common
  import opened Bits

  datatype Result<+T, +E> = Ok(value: T) | Err(error: E)

  /** OutOfRange is an index past the end of the output, which stops the program. */
  datatype DecodeError = TooShort | BadChar | NonzeroCarry | OutOfRange

  const ALPHABET: string := "0123456789abcdfghijklmnpqrsvwxyz"

  type digit = x: int | 0 <= x < 32

  /** The number a list of digits denotes: base 32, most significant digit first. */
  function DigitsValue(ds: seq<digit>): nat {
    if ds == [] then 0 else 32 * DigitsValue(ds[..|ds| - 1]) + ds[|ds| - 1]
  }

  function ToDigits(v: nat, n: nat): (ds: seq<digit>)
    ensures |ds| == n
  {
    if n == 0 then [] else ToDigits(v / 32, n - 1) + [v % 32]
  }

  lemma {:induction false} DigitsInverse(ds: seq<digit>)
    ensures ToDigits(DigitsValue(ds), |ds|) == ds
  {
    if ds == [] {
    } else {
      DigitsInverse(ds[..|ds| - 1]);
    }
  }

  lemma {:induction false} ToDigitsInverse(v: nat, n: nat)
    requires v < Pow2(5 * n)
    ensures DigitsValue(ToDigits(v, n)) == v
  {
    if n == 0 {
    } else {
      Pow2Small();
      Pow2Add(5, 5 * (n - 1));
      ToDigitsInverse(v / 32, n - 1);
      assert ToDigits(v, n)[..n - 1] == ToDigits(v / 32, n - 1);
    }
  }

  // ---- letters ----

  function Letter(d: digit): char {
    ALPHABET[d]
  }

  /** strings.IndexByte over the alphabet; -1 if absent. */
  function DigitOf(c: char): (d: int)
    ensures -1 <= d < 32
    ensures d >= 0 ==> Letter(d) == c
    ensures d < 0 ==> forall j: digit :: Letter(j) != c
  {
    IndexFrom(c, 0)
  }

  function IndexFrom(c: char, i: nat): (d: int)
    requires i <= 32 && forall j: digit :: j < i ==> Letter(j) != c
    ensures -1 <= d < 32
    ensures d >= 0 ==> Letter(d) == c
    ensures d < 0 ==> forall j: digit :: Letter(j) != c
    decreases 32 - i
  {
    if i == 32 then -1 else if Letter(i) == c then i else IndexFrom(c, i + 1)
  }

  lemma LettersDistinct(i: digit, j: digit)
    requires i < j
    ensures Letter(i) != Letter(j)
  {
  }

  lemma DigitOfLetter(d: digit)
    ensures DigitOf(Letter(d)) == d
  {
    var e := DigitOf(Letter(d));
    if e < d { LettersDistinct(e, d); } else if d < e { LettersDistinct(d, e); }
  }

  predicate Valid(s: string) {
    forall i :: 0 <= i < |s| ==> DigitOf(s[i]) >= 0
  }

  function DigitsIn(s: string): seq<digit>
    requires Valid(s)
  {
    seq(|s|, i requires 0 <= i < |s| => DigitOf(s[i]))
  }

  function Text(ds: seq<digit>): string {
    seq(|ds|, i requires 0 <= i < |ds| => Letter(ds[i]))
  }

  lemma TextInverse(ds: seq<digit>)
    ensures Valid(Text(ds)) && DigitsIn(Text(ds)) == ds
  {
    forall i | 0 <= i < |ds| ensures DigitOf(Text(ds)[i]) == ds[i] { DigitOfLetter(ds[i]); }
  }

  lemma DigitsInInverse(s: string)
    requires Valid(s)
    ensures Text(DigitsIn(s)) == s
  {
  }

  // ---- what encode and decode denote ----

  /** Characters for so many bytes. */
  function TextLen(bytes: nat): nat {
    if bytes == 0 then 0 else (bytes * 8 - 1) / 5 + 1
  }

  function ByteLen(chars: nat): nat {
    chars * 5 / 8
  }

  function Encoded(b: seq<byte>): string {
    Text(ToDigits(BytesValue(b), TextLen(|b|)))
  }

  /** The lengths for which the decoder's indexing stays in range. */
  predicate Decodable(chars: nat) {
    chars == 1 || chars % 8 in {0, 2, 4, 5, 7}
  }

  /** The number the text denotes, if it fits the bytes. */
  function Fitted(s: string): Result<seq<byte>, DecodeError> {
    if !Valid(s) then Err(BadChar)
    else if DigitsValue(DigitsIn(s)) >= Pow2(8 * ByteLen(|s|)) then Err(NonzeroCarry)
    else Ok(ToBytes(DigitsValue(DigitsIn(s)), ByteLen(|s|)))
  }

  /** At other lengths the leftmost character is one too many: it is reached only when the rest fits,
      and then it is foreign or has no byte to go to. */
  function Decoded(s: string): Result<seq<byte>, DecodeError> {
    if |s| == 1 then Err(TooShort)
    else if Decodable(|s|) then Fitted(s)
    else if Fitted(s[1..]).Err? then Fitted(s[1..])
    else Err(if DigitOf(s[0]) < 0 then BadChar else OutOfRange)
  }

  /** The lengths of eight characters a round, and what is left over. */
  lemma ByteLenIs(q: nat, r: nat)
    requires r < 8
    ensures ByteLen(8 * q + r) == 5 * q + ByteLen(r) && (8 * q + r) % 8 == r
    ensures r > 0 ==> (8 * q + r - 1) * 5 / 8 == 5 * q + (r - 1) * 5 / 8
  {
  }

  lemma TextLenIs(q: nat, r: nat)
    requires r < 5
    ensures TextLen(5 * q + r) == 8 * q + TextLen(r)
  {
  }

  /** Decodable is what indexing needs: past the early exit, every digit's byte index is in range. */
  lemma DecodableExactly(chars: nat)
    ensures chars != 1 ==> (Decodable(chars) <==> forall n :: 0 <= n < chars ==> n * 5 / 8 < ByteLen(chars))
  {
    if chars > 1 {
      LastIndex(chars);
      assert (chars - 1) * 5 / 8 < ByteLen(chars) <==> Decodable(chars);
    }
  }

  lemma LastIndex(chars: nat)
    requires chars > 1
    ensures (chars - 1) * 5 / 8 < ByteLen(chars) <==> Decodable(chars)
  {
    var q, r := chars / 8, chars % 8;
    ByteLenIs(q, r);
    if r == 0 { ByteLenIs(q - 1, 7); }
  }

  lemma LengthsMatch(bytes: nat)
    ensures ByteLen(TextLen(bytes)) == bytes && Decodable(TextLen(bytes)) && TextLen(bytes) != 1
    ensures 8 * bytes <= 5 * TextLen(bytes)
  {
    var q, r := bytes / 5, bytes % 5;
    TextLenIs(q, r);
    ByteLenIs(q, TextLen(r));
  }

  lemma TextLengthsMatch(chars: nat)
    requires Decodable(chars) && chars != 1
    ensures TextLen(ByteLen(chars)) == chars
  {
    var q, r := chars / 8, chars % 8;
    ByteLenIs(q, r);
    TextLenIs(q, ByteLen(r));
  }

  /** Decoding what was encoded gives the bytes back, for all bytes. */
  lemma DecodeInvertsEncode(b: seq<byte>)
    ensures Decoded(Encoded(b)) == Ok(b)
  {
    LengthsMatch(|b|);
    BytesValueBound(b);
    Pow2Mono(8 * |b|, 5 * TextLen(|b|));
    ToDigitsInverse(BytesValue(b), TextLen(|b|));
    TextInverse(ToDigits(BytesValue(b), TextLen(|b|)));
    BytesInverse(b);
  }

  /** Encoding what was decoded gives the text back, for all accepted text, and both denote the same
      number. */
  lemma EncodeInvertsDecode(s: string)
    requires Decoded(s).Ok?
    ensures Encoded(Decoded(s).value) == s
    ensures BytesValue(Decoded(s).value) == DigitsValue(DigitsIn(s))
  {
    ToBytesInverse(DigitsValue(DigitsIn(s)), ByteLen(|s|));
    DigitsInverse(DigitsIn(s));
    DigitsInInverse(s);
    TextLengthsMatch(|s|);
  }

  /** The texts accepted are exactly the encodings. */
  lemma AcceptsExactlyEncodings(s: string)
    ensures Decoded(s).Ok? <==> exists b: seq<byte> :: Encoded(b) == s
  {
    if Decoded(s).Ok? { EncodeInvertsDecode(s); }
    forall b: seq<byte> | Encoded(b) == s ensures Decoded(s).Ok? { DecodeInvertsEncode(b); }
  }

  // ---- byte arithmetic ----

  function Or8(a: byte, b: byte): byte
  {
    OrBound(a, b, 8);
    Pow2Small();
    Or(a, b, 8)
  }

  function Shr8(b: byte, s: nat): byte
    requires s <= 8
  {
    Pow2Small();
    b / Pow2(s)
  }

  /** A shifted byte keeps only its low eight bits. */
  function Shl8(b: byte, s: nat): byte
    requires s <= 8
  {
    b * Pow2(s) % 256
  }

  /** A byte multiplied by m, where m * k is 256: what stays in the byte and what leaves it. */
  lemma ShiftOut(x: byte, m: nat, k: nat)
    requires m * k == 256
    ensures k > 0 && x * m % 256 == x % k * m && x * m / 256 == x / k
  {
    assert k > 0;
    var q, r := x / k, x % k;
    calc {
      x * m;
      (k * q + r) * m;
      k * q * m + r * m;
      (m * k) * q + r * m;
    }
    MulMono(m, r, k - 1);
    assert m * (k - 1) == 256 - m;
    assert r * m == m * r;
    DivUnique(x * m, 256, q, r * m);
  }

  lemma {:induction false} ToDigitsAt(v: nat, n: nat, i: nat)
    requires i < n
    ensures ToDigits(v, n)[n - 1 - i] == v / Pow2(5 * i) % 32
    decreases n
  {
    if i == 0 {
    } else {
      ToDigitsAt(v / 32, n - 1, i - 1);
      Pow2Small();
      Pow2Add(5, 5 * (i - 1));
      DivDiv(v, 32, Pow2(5 * (i - 1)));
    }
  }

  lemma FirstByte(b: seq<byte>)
    requires b != []
    ensures BytesValue(b) / 256 == BytesValue(b[1..])
  {
    DivUnique(BytesValue(b), 256, BytesValue(b[1..]), b[0]);
  }

  lemma Pow2Eight(k: nat)
    ensures Pow2(8 * (k + 1)) == 256 * Pow2(8 * k)
  {
    Pow2Add(8, 8 * k);
    assert Pow2(8) == 256 by { Pow2Small(); }
  }

  lemma {:induction false} DropBytes(b: seq<byte>, q: nat)
    requires q <= |b|
    ensures BytesValue(b) / Pow2(8 * q) == BytesValue(b[q..])
  {
    if q > 0 {
      DropBytes(b[1..], q - 1);
      FirstByte(b);
      Pow2Eight(q - 1);
      DivDiv(BytesValue(b), 256, Pow2(8 * (q - 1)));
      assert b[1..][q - 1..] == b[q..];
    } else {
      assert b[0..] == b;
    }
  }

  /** The high bits of one byte or-ed with the low bits of the next, moved up. */
  lemma Straddle(b0: byte, b1: byte, s: nat)
    requires s < 8
    ensures Or8(Shr8(b0, s), Shl8(b1, 8 - s)) == b0 / Pow2(s) + b1 * Pow2(8 - s) % 256
  {
    Pow2Small();
    Pow2Add(s, 8 - s);
    var m, k := Pow2(s), Pow2(8 - s);
    assert m * k == 256 == k * m;
    ShiftOut(b1, k, m);
    DivLess(b0, m, k);
    OrDisjoint(b0 / m, b1 % m, 8 - s, 8);
  }

  lemma SplitQuotient(b0: byte, x: nat, m: nat, k: nat)
    requires m * k == 256
    ensures m > 0 && (b0 + 256 * x) / m == b0 / m + k * x
  {
    assert m > 0;
    calc {
      b0 + 256 * x;
      m * (b0 / m) + b0 % m + (m * k) * x;
      { assert (m * k) * x == m * (k * x); }
      m * (b0 / m) + m * (k * x) + b0 % m;
      { assert m * (b0 / m + k * x) == m * (b0 / m) + m * (k * x); }
      m * (b0 / m + k * x) + b0 % m;
    }
    DivUnique(b0 + 256 * x, m, b0 / m + k * x, b0 % m);
  }

  lemma LowFiveBits(a: nat, p: nat, t: nat)
    ensures (a + p + 256 * t) % 32 == (a + p % 256) % 32
  {
    assert p == p % 256 + 256 * (p / 256);
  }

  lemma Spread(k: nat, b: nat, r: nat)
    ensures k * (b + 256 * r) == b * k + 256 * (k * r)
  {
  }

  lemma WindowMath(b0: byte, b1: byte, rest: nat, m: nat, k: nat)
    requires m * k == 256
    ensures m > 0 && (b0 + 256 * (b1 + 256 * rest)) / m % 32 == (b0 / m + b1 * k % 256) % 32
  {
    var x := b1 + 256 * rest;
    SplitQuotient(b0, x, m, k);
    Spread(k, b1, rest);
    LowFiveBits(b0 / m, b1 * k, k * rest);
  }

  /** Five bits starting s bits into a number's lowest byte. */
  lemma WindowBits(b0: byte, b1: byte, rest: nat, s: nat)
    requires s < 8
    ensures (b0 + 256 * (b1 + 256 * rest)) / Pow2(s) % 32 == Or8(Shr8(b0, s), Shl8(b1, 8 - s)) % 32
  {
    assert Pow2(s) * Pow2(8 - s) == 256 by { Pow2Small(); Pow2Add(s, 8 - s); }
    WindowMath(b0, b1, rest, Pow2(s), Pow2(8 - s));
    Straddle(b0, b1, s);
  }

  /** What the encoder reads for character i from the right: the two bytes its five bits straddle. */
  function Window(b: seq<byte>, i: nat): byte
    requires i * 5 / 8 < |b|
  {
    var q, s := i * 5 / 8, i * 5 % 8;
    if q + 1 < |b| then Or8(Shr8(b[q], s), Shl8(b[q + 1], 8 - s)) else Shr8(b[q], s)
  }

  lemma WindowValue(b: seq<byte>, s: nat)
    requires b != [] && s < 8
    ensures BytesValue(b) / Pow2(s) % 32
            == (if |b| > 1 then Or8(Shr8(b[0], s), Shl8(b[1], 8 - s)) else Shr8(b[0], s)) % 32
  {
    if |b| > 1 {
      WindowBits(b[0], b[1], BytesValue(b[1..][1..]), s);
    }
  }

  lemma DigitFromBytes(b: seq<byte>, i: nat)
    requires i < TextLen(|b|)
    ensures i * 5 / 8 < |b| && BytesValue(b) / Pow2(5 * i) % 32 == Window(b, i) % 32
  {
    var q, s := i * 5 / 8, i * 5 % 8;
    assert 5 * i == 8 * q + s;
    Pow2Add(8 * q, s);
    DropBytes(b, q);
    DivDiv(BytesValue(b), Pow2(8 * q), Pow2(s));
    WindowValue(b[q..], s);
  }

  method Base32Encode(b: seq<byte>) returns (text: string)
    ensures text == Encoded(b)
  {
    if |b| == 0 { return ""; }
    var n := (|b| * 8 - 1) / 5 + 1;
    var out := new char[n];
    var digits := ToDigits(BytesValue(b), n);
    var i := n;
    while i > 0
      invariant 0 <= i <= n
      invariant forall j :: n - i > j >= 0 ==> out[j] == Letter(digits[j])
    {
      i := i - 1;
      var bit := i * 5;
      var byteIdx := bit / 8;
      var shift := bit % 8;
      DigitFromBytes(b, i);
      ToDigitsAt(BytesValue(b), n, i);
      var c := Shr8(b[byteIdx], shift);
      if byteIdx + 1 < |b| {
        c := Or8(c, Shl8(b[byteIdx + 1], 8 - shift));
      }
      out[n - 1 - i] := Letter(c % 32);   // c & 0x1f
    }
    text := out[..];
  }

  lemma {:induction false} HighDigit(d: digit, ds: seq<digit>)
    ensures DigitsValue([d] + ds) == d * Pow2(5 * |ds|) + DigitsValue(ds)
  {
    if ds == [] {
      assert [d] + ds == [d];
      assert [d][..0] == [];
      assert DigitsValue([d][..0]) == 0;
    } else {
      var low := ds[..|ds| - 1];
      HighDigit(d, low);
      assert ([d] + ds)[..|ds|] == [d] + low;
      Pow2Small();
      Pow2Add(5, 5 * |low|);
      assert 32 * (d * Pow2(5 * |low|)) == d * (32 * Pow2(5 * |low|));
    }
  }

  /** Where a digit's bits go: into its byte, and over into the next one. */
  lemma PlaceDigit(d: digit, old0: byte, shift: nat)
    requires shift < 8 && old0 < Pow2(shift)
    ensures Or8(old0, Shl8(d, shift)) == old0 + Shl8(d, shift)
    ensures Shl8(d, shift) + 256 * Shr8(d, 8 - shift) == d * Pow2(shift)
  {
    var m, k := Pow2(shift), Pow2(8 - shift);
    assert m * k == 256 by { Pow2Small(); Pow2Add(shift, 8 - shift); }
    ShiftOut(d, m, k);
    assert Pow2(8) == 256 by { Pow2Small(); }
    OrDisjoint(old0, d % k, shift, 8);
  }

  /** How far up a placed digit reaches. */
  lemma PlacedBound(d: digit, old0: byte, shift: nat)
    requires shift < 8 && old0 < Pow2(shift)
    ensures shift < 3 ==> Shr8(d, 8 - shift) == 0 && old0 + Shl8(d, shift) < Pow2(shift + 5)
    ensures shift >= 3 ==> Shr8(d, 8 - shift) < Pow2(shift - 3)
  {
    var m, k := Pow2(shift), Pow2(8 - shift);
    assert Pow2(5) == 32 by { Pow2Small(); }
    if shift < 3 {
      assert Pow2(6) == 64 by { Pow2Small(); }
      Pow2Mono(6, 8 - shift);
      DivUnique(d, k, 0, d);
      PlaceDigit(d, old0, shift);
      Pow2Add(shift, 5);
      MulMono(m, d, 31);
    } else {
      Pow2Add(shift - 3, 8 - shift);
      assert Pow2(5) == k * Pow2(shift - 3);
      DivLess(d, k, Pow2(shift - 3));
    }
  }

  /** Nothing at or above the bit where the nth digit from the right starts. */
  predicate Clear(out: seq<byte>, n: nat) {
    var i, shift := n * 5 / 8, n * 5 % 8;
    (i < |out| ==> out[i] < Pow2(shift)) && forall k :: i < k < |out| ==> out[k] == 0
  }

  /** What the decoder has after placing the digits of low, from the right. */
  predicate Placed(out: seq<byte>, low: seq<digit>) {
    BytesValue(out) == DigitsValue(low) && Clear(out, |low|)
  }

  /** The byte the nth digit from the right starts in, with the digit's low bits or-ed in. */
  function PlaceFirst(out: seq<byte>, n: nat, d: digit): seq<byte>
    requires n * 5 / 8 < |out|
  {
    out[n * 5 / 8 := Or8(out[n * 5 / 8], Shl8(d, n * 5 % 8))]
  }

  /** The digit's bits that belong to the next byte. */
  function Carry(n: nat, d: digit): byte {
    Shr8(d, 8 - n * 5 % 8)
  }

  lemma PlaceLow(out: seq<byte>, low: seq<digit>, d: digit)
    requires Placed(out, low) && |low| * 5 / 8 < |out|
    ensures BytesValue(PlaceFirst(out, |low|, d)) + Carry(|low|, d) * Pow2(8 * (|low| * 5 / 8 + 1))
            == DigitsValue([d] + low)
  {
    assert 5 * |low| == 8 * (|low| * 5 / 8) + |low| * 5 % 8;
    PlaceAtBit(out, low, d, |low| * 5 / 8, |low| * 5 % 8);
  }

  lemma AddToByte(out: seq<byte>, i: nat, x: byte, lo: nat)
    requires i < |out| && x == out[i] + lo
    ensures BytesValue(out[i := x]) == BytesValue(out) + lo * Pow2(8 * i)
  {
    SetByte(out, i, x);
  }

  lemma PlaceAtBit(out: seq<byte>, low: seq<digit>, d: digit, i: nat, shift: nat)
    requires i < |out| && shift < 8 && 5 * |low| == 8 * i + shift
    requires BytesValue(out) == DigitsValue(low) && out[i] < Pow2(shift)
    ensures BytesValue(out[i := Or8(out[i], Shl8(d, shift))]) + Shr8(d, 8 - shift) * Pow2(8 * (i + 1))
            == DigitsValue([d] + low)
  {
    PlaceDigit(d, out[i], shift);
    AddToByte(out, i, Or8(out[i], Shl8(d, shift)), Shl8(d, shift));
    AddedDigit(BytesValue(out), low, d, i, shift, Shl8(d, shift), Shr8(d, 8 - shift));
  }

  lemma AddedDigit(v: nat, low: seq<digit>, d: digit, i: nat, shift: nat, lo: nat, carry: nat)
    requires v == DigitsValue(low) && 5 * |low| == 8 * i + shift && lo + 256 * carry == d * Pow2(shift)
    ensures v + lo * Pow2(8 * i) + carry * Pow2(8 * (i + 1)) == DigitsValue([d] + low)
  {
    HighDigit(d, low);
    DigitWeight(d, i, shift, lo, carry);
  }

  lemma StillClear(out: seq<byte>, n: nat, d: digit)
    requires Clear(out, n) && n * 5 / 8 < |out|
    ensures var i := n * 5 / 8;
            && (i + 1 < |out| ==> Clear(PlaceFirst(out, n, d)[i + 1 := Carry(n, d)], n + 1))
            && (i + 1 == |out| && Carry(n, d) == 0 ==> Clear(PlaceFirst(out, n, d), n + 1))
  {
    var i, shift := n * 5 / 8, n * 5 % 8;
    assert (n + 1) * 5 == 8 * i + (shift + 5);
    PlaceDigit(d, out[i], shift);
    PlacedBound(d, out[i], shift);
  }

  lemma PlaceInside(out: seq<byte>, low: seq<digit>, d: digit)
    requires Placed(out, low) && |low| * 5 / 8 + 1 < |out|
    ensures var i := |low| * 5 / 8;
            out[i + 1] == 0 && Placed(PlaceFirst(out, |low|, d)[i + 1 := Or8(0, Carry(|low|, d))], [d] + low)
  {
    PlaceLow(out, low, d);
    StillClear(out, |low|, d);
    CarryIntoZero(Carry(|low|, d));
    SetByte(PlaceFirst(out, |low|, d), |low| * 5 / 8 + 1, Carry(|low|, d));
  }

  lemma PlaceLast(out: seq<byte>, low: seq<digit>, d: digit)
    requires Placed(out, low) && |low| * 5 / 8 + 1 == |out|
    requires Carry(|low|, d) == 0
    ensures Placed(PlaceFirst(out, |low|, d), [d] + low)
  {
    PlaceLow(out, low, d);
    StillClear(out, |low|, d);
  }

  lemma AtLeastOnce(c: nat, p: nat)
    requires c > 0
    ensures c * p >= p
  {
    MulMono(p, 1, c);
  }

  lemma Overflow(out: seq<byte>, low: seq<digit>, d: digit)
    requires Placed(out, low) && |low| * 5 / 8 + 1 == |out|
    requires Carry(|low|, d) != 0
    ensures DigitsValue([d] + low) >= Pow2(8 * |out|) && |low| * 5 % 8 >= 3
  {
    PlaceLow(out, low, d);
    AtLeastOnce(Carry(|low|, d), Pow2(8 * |out|));
    PlacedBound(d, out[|low| * 5 / 8], |low| * 5 % 8);
  }

  lemma CarryIntoZero(carry: byte)
    ensures Or8(0, carry) == carry
  {
    Pow2Small();
    OrZero(carry, 8);
  }

  lemma Assoc3(d: nat, p: nat, q: nat)
    ensures d * (p * q) == (d * q) * p
  {
  }

  lemma Distribute(lo: nat, carry: nat, p: nat)
    ensures (lo + 256 * carry) * p == lo * p + carry * (256 * p)
  {
  }

  /** A digit's weight, split over the byte it starts in and the next. */
  lemma DigitWeight(d: digit, i: nat, shift: nat, lo: nat, carry: nat)
    requires lo + 256 * carry == d * Pow2(shift)
    ensures d * Pow2(8 * i + shift) == lo * Pow2(8 * i) + carry * Pow2(8 * (i + 1))
  {
    Pow2Add(8 * i, shift);
    assert Pow2(8 * (i + 1)) == 256 * Pow2(8 * i) by { Pow2Small(); Pow2Add(8, 8 * i); }
    Assoc3(d, Pow2(8 * i), Pow2(shift));
    Distribute(lo, carry, Pow2(8 * i));
  }

  lemma OneMoreDigit(s: string, n: nat)
    requires n < |s| && Valid(s[|s| - n..]) && DigitOf(s[|s| - 1 - n]) >= 0
    ensures Valid(s[|s| - (n + 1)..])
    ensures DigitsIn(s[|s| - (n + 1)..]) == [DigitOf(s[|s| - 1 - n])] + DigitsIn(s[|s| - n..])
  {
    assert s[|s| - (n + 1)..] == [s[|s| - 1 - n]] + s[|s| - n..];
  }

  /** One turn of the decoding loop: places a digit, unless it overflows the last byte. */
  method PlaceAt(out: array<byte>, n: nat, digit: digit, ghost low: seq<digit>) returns (fits: bool)
    requires n == |low| && n * 5 / 8 < out.Length && Placed(out[..], low)
    modifies out
    ensures fits ==> Placed(out[..], [digit] + low)
    ensures !fits ==> n * 5 / 8 + 1 == out.Length && n * 5 % 8 >= 3 && DigitsValue([digit] + low) >= Pow2(8 * out.Length)
  {
    ghost var before := out[..];
    var bit := n * 5;
    var i := bit / 8;
    var shift := bit % 8;
    out[i] := Or8(out[i], Shl8(digit, shift));
    assert out[..] == PlaceFirst(before, n, digit);
    var carry := Shr8(digit, 8 - shift);
    if i + 1 < out.Length {
      PlaceInside(before, low, digit);
      out[i + 1] := Or8(out[i + 1], carry);
      assert out[..] == PlaceFirst(before, n, digit)[i + 1 := Or8(0, carry)];
      return true;
    }
    if carry != 0 {
      Overflow(before, low, digit);
      return false;
    }
    PlaceLast(before, low, digit);
    return true;
  }

  /** Fails exactly on text that is too short, has a foreign character, denotes a number too large for
      its bytes, or has a length with a character too many; otherwise gives the bytes of the number the
      text denotes. */
  method Base32Decode(s: string) returns (r: Result<seq<byte>, DecodeError>)
    ensures r == Decoded(s)
  {
    var outLen := |s| * 5 / 8;
    if |s| > 0 && outLen == 0 {
      return Err(TooShort);
    }
    var out := new byte[outLen](_ => 0);
    var error := PlaceAll(s, out);
    if error.Some? { return Err(error.value); }
    FitsExactly(s, out[..]);
    return Ok(out[..]);
  }

  /** Text whose number the bytes denote fits, and the bytes are what it decodes to. */
  lemma FitsExactly(s: string, out: seq<byte>)
    requires |out| == ByteLen(|s|) && Valid(s) && BytesValue(out) == DigitsValue(DigitsIn(s))
    ensures Fitted(s) == Ok(out)
  {
    BytesValueBound(out);
    BytesInverse(out);
  }

  /** The bytes hold the last n characters. */
  predicate Holds(out: seq<byte>, s: string, n: nat)
    requires n <= |s|
  {
    Valid(s[|s| - n..]) && Placed(out, DigitsIn(s[|s| - n..]))
  }

  /** Places every digit, from the right, unless one is not a digit, does not fit, or is out of range. */
  method PlaceAll(s: string, out: array<byte>) returns (error: Option<DecodeError>)
    requires |s| != 1 && out.Length == ByteLen(|s|)
    requires forall k :: 0 <= k < out.Length ==> out[k] == 0
    modifies out
    ensures error.None? ==> Decodable(|s|) && Valid(s) && Placed(out[..], DigitsIn(s))
    ensures error.Some? ==> Decoded(s) == Err(error.value)
  {
    ZeroValue(out[..]);
    for n := 0 to |s|
      invariant Holds(out[..], s, n) && (n == |s| ==> Decodable(|s|))
    {
      error := PlaceNext(s, n, out);
      if error.Some? { return; }
    }
    assert s[|s| - |s|..] == s;
    return None;
  }

  /** One turn of the loop. */
  method PlaceNext(s: string, n: nat, out: array<byte>) returns (error: Option<DecodeError>)
    requires n < |s| && |s| != 1 && out.Length == ByteLen(|s|) && Holds(out[..], s, n)
    modifies out
    ensures error.None? ==> Holds(out[..], s, n + 1) && (n + 1 == |s| ==> Decodable(|s|))
    ensures error.Some? ==> Decoded(s) == Err(error.value)
  {
    var digit := DigitOf(s[|s| - 1 - n]);
    if digit < 0 {
      StopsAtBadChar(s, n, out[..]);
      return Some(BadChar);
    }
    InRange(|s|, n);
    if n * 5 / 8 >= out.Length {   // the index panics
      RestFits(s, out[..]);
      return Some(OutOfRange);
    }
    OneMoreDigit(s, n);
    var fits := PlaceAt(out, n, digit, DigitsIn(s[|s| - n..]));
    if !fits {
      StopsAtCarry(s, n);
      return Some(NonzeroCarry);
    }
    return None;
  }

  /** At a length with a character too many, all the others have been placed. */
  lemma RestFits(s: string, out: seq<byte>)
    requires !Decodable(|s|) && |out| == ByteLen(|s|)
    requires Holds(out, s, |s| - 1)
    ensures Fitted(s[1..]).Ok?
  {
    OneTooMany(|s|);
    FitsExactly(s[1..], out);
  }

  lemma StopsAtBadChar(s: string, n: nat, out: seq<byte>)
    requires |s| != 1 && n < |s| && |out| == ByteLen(|s|) && DigitOf(s[|s| - 1 - n]) < 0
    requires Holds(out, s, n)
    ensures Decoded(s) == Err(BadChar)
  {
    if !Decodable(|s|) {
      if n + 1 == |s| {
        RestFits(s, out);
      } else {
        assert s[1..][|s| - 2 - n] == s[|s| - 1 - n];
      }
    }
  }

  lemma StopsAtCarry(s: string, n: nat)
    requires |s| != 1 && n < |s| && n * 5 / 8 + 1 == ByteLen(|s|) && n * 5 % 8 >= 3
    requires Valid(s[|s| - (n + 1)..])
    requires DigitsValue(DigitsIn(s[|s| - (n + 1)..])) >= Pow2(8 * ByteLen(|s|))
    ensures Decoded(s) == Err(NonzeroCarry)
  {
    LastDigit(|s|, n);
    if Decodable(|s|) {
      assert s[|s| - (n + 1)..] == s;
    } else {
      OneTooMany(|s|);
    }
  }

  lemma OneTooMany(chars: nat)
    requires !Decodable(chars)
    ensures chars > 2 && ByteLen(chars - 1) == ByteLen(chars) == (chars - 1) * 5 / 8
    ensures forall n :: 0 <= n < chars - 1 ==> n * 5 / 8 < ByteLen(chars)
  {
    var q, r := chars / 8, chars % 8;
    ByteLenIs(q, r);
    ByteLenIs(q, r - 1);
    if r == 1 { ByteLenIs(q - 1, 7); }
    DecodableExactly(chars - 1);
  }

  /** Only the leftmost character of a length that is not decodable is out of range. */
  lemma InRange(chars: nat, n: nat)
    requires n < chars && chars != 1
    ensures n * 5 / 8 >= ByteLen(chars) <==> n + 1 == chars && !Decodable(chars)
  {
    if Decodable(chars) { DecodableExactly(chars); } else { OneTooMany(chars); }
  }

  lemma {:induction false} ZeroValue(b: seq<byte>)
    requires forall k :: 0 <= k < |b| ==> b[k] == 0
    ensures BytesValue(b) == 0
  {
    if b == [] {
    } else {
      ZeroValue(b[1..]);
    }
  }

  /** Only the leftmost digit that has a byte can carry out of the last one. */
  lemma LastDigit(chars: nat, n: nat)
    requires n < chars && chars != 1
    requires n * 5 / 8 + 1 == ByteLen(chars) && n * 5 % 8 >= 3
    ensures if Decodable(chars) then n + 1 == chars else n + 2 == chars
  {
  }

  // ---- normalization ----

  datatype HashError = Malformed | WrongLength

  /** The decoders of other text forms, as the standard library provides them. */
  datatype Decoders = Decoders(hex: string -> Result<seq<byte>, HashError>,
                               std64: string -> Result<seq<byte>, HashError>,
                               raw64: string -> Result<seq<byte>, HashError>)

  /** What follows the first ':' or '-', or the whole text. */
  function AfterPrefix(s: string, from: nat): string
    requires from <= |s|
    decreases |s| - from
  {
    if from == |s| then s
    else if s[from] == ':' || s[from] == '-' then s[from + 1..]
    else AfterPrefix(s, from + 1)
  }

  /** A sha256 hash in any form Nix emits: nix-base32, hex, or base64 with or without padding. */
  function ParseHash(s: string, ds: Decoders): Result<seq<byte>, HashError> {
    var rest := AfterPrefix(s, 0);
    if |rest| == 52 then
      (match Decoded(rest) case Ok(b) => Ok(b) case Err(_) => Err(Malformed))
    else if |rest| == 64 then ds.hex(rest)
    else if |rest| == 43 || |rest| == 44 then
      (if ds.std64(rest).Ok? then ds.std64(rest) else ds.raw64(rest))
    else Err(Malformed)
  }

  function NarHash(s: string, ds: Decoders): Result<string, HashError> {
    match ParseHash(s, ds)
    case Err(e) => Err(e)
    case Ok(b) => if |b| != 32 then Err(WrongLength) else Ok("sha256:" + Encoded(b))
  }

  lemma {:induction false} PrefixStripped(rest: string, from: nat)
    requires from <= 6
    ensures AfterPrefix("sha256:" + rest, from) == rest
    decreases 7 - from
  {
    if from < 6 { PrefixStripped(rest, from + 1); } else {
      assert ("sha256:" + rest)[7..] == rest;
    }
  }

  /** The canonical form is a fixed point, and it still stands for the same bytes: normalizing any
      accepted form twice is normalizing it once. */
  lemma NarHashIdempotent(s: string, ds: Decoders)
    requires NarHash(s, ds).Ok?
    ensures NarHash(NarHash(s, ds).value, ds) == NarHash(s, ds)
    ensures ParseHash(NarHash(s, ds).value, ds) == ParseHash(s, ds)
  {
    var b := ParseHash(s, ds).value;
    PrefixStripped(Encoded(b), 0);
    DecodeInvertsEncode(b);
  }

  /** Two accepted hashes have the same canonical form exactly when they stand for the same bytes. */
  lemma NarHashCanonical(s: string, t: string, ds: Decoders)
    requires NarHash(s, ds).Ok? && NarHash(t, ds).Ok?
    ensures NarHash(s, ds) == NarHash(t, ds) <==> ParseHash(s, ds) == ParseHash(t, ds)
  {
    NarHashIdempotent(s, ds);
    NarHashIdempotent(t, ds);
  }

  predicate NoSeparator(s: string) { ':' !in s && '-' !in s }

  lemma {:induction false} Stripped(p: string, sep: char, rest: string, from: nat)
    requires NoSeparator(p) && (sep == ':' || sep == '-') && from <= |p|
    ensures AfterPrefix(p + [sep] + rest, from) == rest
    decreases |p| - from
  {
    var s := p + [sep] + rest;
    if from == |p| {
      assert s[from] == sep && s[from + 1..] == rest;
    } else {
      assert s[from] == p[from];
      Stripped(p, sep, rest, from + 1);
    }
  }

  lemma {:induction false} NothingStripped(s: string, from: nat)
    requires NoSeparator(s) && from <= |s|
    ensures AfterPrefix(s, from) == s
    decreases |s| - from
  {
    if from == |s| {
    } else {
      NothingStripped(s, from + 1);
    }
  }

  /** The text, after a prefix or bare, stands for these bytes. */
  predicate Spells(rest: string, b: seq<byte>, ds: Decoders) {
    || (|rest| == 52 && rest == Encoded(b))
    || (|rest| == 64 && ds.hex(rest) == Ok(b))
    || (|rest| in {43, 44} && ds.std64(rest) == Ok(b))
    || (|rest| in {43, 44} && ds.std64(rest).Err? && ds.raw64(rest) == Ok(b))
  }

  /** Every text form of a 32-byte digest, after any prefix that ends in a colon or a dash or with none,
      has the one normal form: nix-base32 after "sha256:". */
  lemma AllFormsAlike(b: seq<byte>, rest: string, p: string, sep: char, ds: Decoders)
    requires |b| == 32 && Spells(rest, b, ds) && NoSeparator(p) && (sep == ':' || sep == '-')
    ensures NarHash(p + [sep] + rest, ds) == Ok("sha256:" + Encoded(b))
    ensures NoSeparator(rest) ==> NarHash(rest, ds) == Ok("sha256:" + Encoded(b))
  {
    Stripped(p, sep, rest, 0);
    DecodeInvertsEncode(b);
    if NoSeparator(rest) { NothingStripped(rest, 0); }
  }

  /** Whatever has a normal form spells 32 bytes in one of those forms. */
  lemma OnlyTheseForms(s: string, ds: Decoders)
    requires NarHash(s, ds).Ok?
    ensures exists b: seq<byte> :: |b| == 32 && Spells(AfterPrefix(s, 0), b, ds)
                                   && NarHash(s, ds) == Ok("sha256:" + Encoded(b))
  {
    var rest, b := AfterPrefix(s, 0), ParseHash(s, ds).value;
    if |rest| == 52 { EncodeInvertsDecode(rest); }
    assert Spells(rest, b, ds);
  }

  // ---- the alphabet and the order of the digits, spelled out ----

  /** The letters are the digits and the lower-case letters but e, o, u and t, in ascending order. */
  lemma AlphabetIs(d: digit)
    ensures Letter(d) as int == (if d < 10 then '0' as int + d
                                 else if d < 14 then 'a' as int + (d - 10)
                                 else if d < 23 then 'f' as int + (d - 14)
                                 else if d < 27 then 'p' as int + (d - 23)
                                 else 'v' as int + (d - 27))
  {
  }

  lemma TextOf(b: seq<byte>, ds: seq<digit>, text: string)
    requires ToDigits(BytesValue(b), TextLen(|b|)) == ds && |text| == |ds|
    requires forall i :: 0 <= i < |ds| ==> Letter(ds[i]) == text[i]
    ensures Encoded(b) == text
  {
  }

  lemma OneByte(x: byte)
    ensures BytesValue([x]) == x
  {
    assert [x][1..] == [];
  }

  lemma TwoBytes(x: byte, y: byte)
    ensures BytesValue([x, y]) == x + 256 * y
  {
    assert [x, y][1..] == [y];
    OneByte(y);
  }

  lemma OneDigit(v: nat)
    requires v < 32
    ensures ToDigits(v, 1) == [v]
  {
  }

  /** The number is taken with its least significant byte first and written with its most significant
      digit first. */
  lemma ByteSpelledOut()
    ensures Encoded([0xff]) == "7z"
  {
    OneByte(0xff);
    OneDigit(7);
    assert ToDigits(255, 2) == [7, 31];
    AlphabetIs(7);
    AlphabetIs(31);
    TextOf([0xff], [7, 31], "7z");
  }

  lemma TwoBytesSpelledOut()
    ensures Encoded([0, 1]) == "0080"
  {
    TwoBytes(0, 1);
    OneDigit(0);
    assert ToDigits(0, 2) == [0, 0];
    assert ToDigits(8, 3) == [0, 0, 8];
    assert ToDigits(256, 4) == [0, 0, 8, 0];
    AlphabetIs(0);
    AlphabetIs(8);
    TextOf([0, 1], [0, 0, 8, 0], "0080");
  }
}
