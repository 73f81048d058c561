/** The filter object the server builds and the client probes, and its wire form. */
module BloomFilter {
  import opened Common
  import opened Bits
  import opened Bloom

  /** What a filter holds: the number of probes, the number of bits, and the bit words. */
  datatype Image = Image(k: nat, m: nat, words: seq<word>)

  predicate Sound(f: Image) {
    1 <= f.k <= 64 && 64 <= f.m < WORD && IsPow2(f.m) && f.m == 64 * |f.words|
  }

  ghost function BitSet(ws: seq<word>): set<nat> {
    set b: nat | b < 64 * |ws| && HasBit(ws[b / 64], b % 64)
  }

  ghost function Positions(s: seq<byte>, m: nat, k: nat): set<nat>
    requires m > 0
  {
    set i: nat | i < k :: Position(ProbesOf(s), m, i)
  }

  /** A lookup answers yes exactly when every probed bit is set. */
  ghost predicate MayContain(f: Image, s: seq<byte>)
    requires f.m > 0
  {
    Positions(s, f.m, f.k) <= BitSet(f.words)
  }

  /** Spelled out by bits. */
  lemma ContainsMeans(f: Image, s: seq<byte>)
    requires Sound(f)
    ensures MayContain(f, s) <==> forall i: nat :: i < f.k ==>
              var b := Position(ProbesOf(s), f.m, i); b / 64 < |f.words| && HasBit(f.words[b / 64], b % 64)
  {
    if MayContain(f, s) {
      forall i: nat | i < f.k
        ensures var b := Position(ProbesOf(s), f.m, i); b / 64 < |f.words| && HasBit(f.words[b / 64], b % 64)
      {
        assert Position(ProbesOf(s), f.m, i) in Positions(s, f.m, f.k);
      }
    }
  }

  lemma PositionInRange(p: Probes, m: nat, i: nat)
    requires IsPow2(m) && m < WORD
    ensures Position(p, m, i) < m
  {
    var e := Log2(m);
    WordIsPow2();
    if e > 64 { Pow2Mono(64, e); }
    PositionIs(p, e, i);
  }

  /** Every probe of a sound filter hits a bit of its own. */
  lemma ProbesSpread(f: Image, s: seq<byte>, i: nat, j: nat)
    requires Sound(f) && i < j < f.k
    ensures Position(ProbesOf(s), f.m, i) < f.m
    ensures Position(ProbesOf(s), f.m, i) != Position(ProbesOf(s), f.m, j)
  {
    PositionInRange(ProbesOf(s), f.m, i);
    var e := Log2(f.m);
    WordIsPow2();
    if e > 64 { Pow2Mono(64, e); }
    ProbesDistinct(ProbesOf(s), e, i, j);
  }

  lemma SetOneBit(ws: seq<word>, b: nat)
    requires b < 64 * |ws|
    ensures Or(ws[b / 64], Pow2(b % 64), 64) < WORD
    ensures BitSet(ws[b / 64 := Or(ws[b / 64], Pow2(b % 64), 64)]) == BitSet(ws) + {b}
  {
    var q, w := b / 64, Or(ws[b / 64], Pow2(b % 64), 64);
    OrBound(ws[q], Pow2(b % 64), 64);
    WordIsPow2();
    forall c: nat | c < 64 * |ws|
      ensures c in BitSet(ws[q := w]) <==> c in BitSet(ws) || c == b
    {
      if c / 64 == q {
        OrBits(ws[q], Pow2(b % 64), 64, c % 64);
        Pow2Bits(b % 64, c % 64);
      }
    }
  }

  // ---- wire form ----

  function WordBytes(ws: seq<word>): seq<byte> {
    if ws == [] then [] else ToBytes(ws[0], 8) + WordBytes(ws[1..])
  }

  function Marshalled(f: Image): seq<byte> {
    MAGIC + ToBytes(f.k, 4) + ToBytes(f.m, 8) + WordBytes(f.words)
  }

  function ReadWord(b: seq<byte>): word
    requires |b| == 8
  {
    BytesValueBound(b);
    WordIsPow2();
    BytesValue(b)
  }

  function ReadWords(b: seq<byte>): seq<word>
    requires |b| % 8 == 0
    decreases |b|
  {
    if b == [] then [] else [ReadWord(b[..8])] + ReadWords(b[8..])
  }

  predicate WellFormed(b: seq<byte>) {
    && |b| >= HEADER && b[..4] == MAGIC
    && var k, m := BytesValue(b[4..8]), BytesValue(b[8..16]);
       1 <= k <= 64 && m >= 64 && And(m, m - 1, 64) == 0 && |b| - HEADER == m / 8
  }

  function Unmarshalled(b: seq<byte>): Option<Image> {
    if !WellFormed(b) then None
    else
      var k, m := BytesValue(b[4..8]), BytesValue(b[8..16]);
      AcceptedLength(m, b);
      Words(m, |b| - HEADER);
      Some(Image(k, m, ReadWords(b[HEADER..])))
  }

  lemma AcceptedLength(m: nat, b: seq<byte>)
    requires |b| >= HEADER && m == BytesValue(b[8..16]) && m >= 64 && And(m, m - 1, 64) == 0
    ensures m < WORD && IsPow2(m) && m % 64 == 0
  {
    BytesValueBound(b[8..16]);
    WordIsPow2();
    ClearLowestBit(m, 64);
    var e := Log2(m);
    SixBits(e);
  }

  lemma SixBits(e: nat)
    requires Pow2(e) >= 64
    ensures Pow2(e) % 64 == 0
  {
    assert Pow2(6) == 64 && Pow2(5) == 32 by { Pow2Small(); }
    if e < 6 { Pow2Mono(e, 5); }
    Pow2Add(6, e - 6);
    DivUnique(Pow2(e), 64, Pow2(e - 6), 0);
  }

  lemma {:induction false} WordsRoundTrip(ws: seq<word>)
    ensures |WordBytes(ws)| == 8 * |ws|
    ensures ReadWords(WordBytes(ws)) == ws
  {
    if ws == [] {
    } else {
      WordsRoundTrip(ws[1..]);
      WordIsPow2();
      ToBytesInverse(ws[0], 8);
      var b := WordBytes(ws);
      assert b[..8] == ToBytes(ws[0], 8) && b[8..] == WordBytes(ws[1..]);
    }
  }

  lemma {:induction false} WordBytesRoundTrip(b: seq<byte>)
    requires |b| % 8 == 0
    ensures |ReadWords(b)| == |b| / 8
    ensures WordBytes(ReadWords(b)) == b
    decreases |b|
  {
    if b == [] {
    } else {
      WordBytesRoundTrip(b[8..]);
      BytesInverse(b[..8]);
      assert ReadWords(b)[1..] == ReadWords(b[8..]);
      assert b == b[..8] + b[8..];
    }
  }

  lemma FieldsRoundTrip(k: nat, m: nat)
    requires k <= 64 && m < WORD
    ensures BytesValue(ToBytes(k, 4)) == k && BytesValue(ToBytes(m, 8)) == m
  {
    Pow2Small();
    Pow2Mono(7, 32);
    WordIsPow2();
    ToBytesInverse(k, 4);
    ToBytesInverse(m, 8);
  }

  /** What the server writes, the client reads. */
  lemma UnmarshalInvertsMarshal(f: Image)
    requires Sound(f)
    ensures Unmarshalled(Marshalled(f)) == Some(f)
  {
    WordsRoundTrip(f.words);
    var b := Marshalled(f);
    FieldsRoundTrip(f.k, f.m);
    assert And(f.m, f.m - 1, 64) == 0 by { WordIsPow2(); ClearLowestBit(f.m, 64); }
    assert b[..4] == MAGIC && b[4..8] == ToBytes(f.k, 4) && b[8..16] == ToBytes(f.m, 8) && b[16..] == WordBytes(f.words);
  }

  /** The wire form, byte by byte: "xbf1", the number of probes in four bytes, the number of bits in
      eight, and the words in eight each, every number with its least significant byte first. */
  lemma WireLayout(f: Image, i: nat)
    requires Sound(f)
    ensures var b := Marshalled(f);
            && |b| == 16 + 8 * |f.words| && b[..4] == [0x78, 0x62, 0x66, 0x31]
            && (i < 4 ==> b[4 + i] == f.k / Pow2(8 * i) % 256)
            && (i < 8 ==> b[8 + i] == f.m / Pow2(8 * i) % 256)
            && (i < 8 * |f.words| ==> b[16 + i] == f.words[i / 8] / Pow2(8 * (i % 8)) % 256)
  {
    WordsRoundTrip(f.words);
    if i < 4 { ToBytesAt(f.k, 4, i); }
    if i < 8 { ToBytesAt(f.m, 8, i); }
    if i < 8 * |f.words| { WordBytesAt(f.words, i); }
  }

  lemma NextWord(i: nat)
    requires i >= 8
    ensures (i - 8) / 8 == i / 8 - 1 && (i - 8) % 8 == i % 8
  {
  }

  lemma {:induction false} WordBytesLength(ws: seq<word>)
    ensures |WordBytes(ws)| == 8 * |ws|
  {
    if ws == [] {
    } else {
      WordBytesLength(ws[1..]);
    }
  }

  lemma {:induction false} WordBytesAt(ws: seq<word>, i: nat)
    requires i < 8 * |ws|
    ensures |WordBytes(ws)| == 8 * |ws| && WordBytes(ws)[i] == ws[i / 8] / Pow2(8 * (i % 8)) % 256
  {
    if i < 8 {
      ToBytesAt(ws[0], 8, i);
      WordBytesLength(ws);
    } else {
      WordBytesAt(ws[1..], i - 8);
      NextWord(i);
      assert WordBytes(ws)[i] == WordBytes(ws[1..])[i - 8];
      assert ws[i / 8] == ws[1..][(i - 8) / 8];
    }
  }

  lemma AcceptedIsSound(b: seq<byte>)
    requires Unmarshalled(b).Some?
    ensures Sound(Unmarshalled(b).value) && (|b| - HEADER) % 8 == 0
  {
    var m := BytesValue(b[8..16]);
    AcceptedLength(m, b);
    Words(m, |b| - HEADER);
    WordCount(m, b[HEADER..]);
  }

  lemma WordCount(m: nat, body: seq<byte>)
    requires m % 64 == 0 && |body| == 8 * (m / 64)
    ensures 64 * |ReadWords(body)| == m
  {
    WordBytesRoundTrip(body);
    assert m == 64 * (m / 64);
  }

  lemma Words(m: nat, bytes: nat)
    requires m % 64 == 0 && bytes == m / 8
    ensures bytes == 8 * (m / 64) && bytes % 8 == 0
  {
  }

  lemma FourParts(b: seq<byte>)
    requires |b| >= HEADER
    ensures b == b[..4] + b[4..8] + b[8..16] + b[HEADER..]
  {
  }

  /** Whatever body the client accepts is the wire form of the filter it got, and that filter is
      safe to probe. */
  lemma MarshalInvertsUnmarshal(b: seq<byte>)
    requires Unmarshalled(b).Some?
    ensures Sound(Unmarshalled(b).value)
    ensures Marshalled(Unmarshalled(b).value) == b
  {
    AcceptedIsSound(b);
    WordBytesRoundTrip(b[HEADER..]);
    BytesInverse(b[4..8]);
    BytesInverse(b[8..16]);
    FourParts(b);
  }

  // ---- the object ----

  /** Rounding half away from zero, for the nonnegative reals it is used on. */
  function Round(x: real): int {
    (x + 0.5).Floor
  }

  method PutLittleEndian(out: array<byte>, at: nat, v: nat, n: nat)
    requires at + n <= out.Length
    modifies out
    ensures out[..] == old(out[..at]) + ToBytes(v, n) + old(out[at + n..])
  {
    ghost var before := out[..];
    var rest := v;
    for i := 0 to n
      invariant ToBytes(v, n) == out[at..at + i] + ToBytes(rest, n - i)
      invariant out[..at] == before[..at] && out[at + i..] == before[at + i..]
    {
      ghost var was := out[at..at + i];
      out[at + i] := rest % 256;
      rest := rest / 256;
      assert out[at..at + i] == was;
      assert out[at..at + i + 1] == was + [out[at + i]];
    }
    assert out[..] == out[..at] + out[at..at + n] + out[at + n..];
  }

  class Filter {
    const bits: array<word>
    const m: nat
    const k: nat

    ghost function View(): Image reads bits { Image(k, m, bits[..]) }

    constructor (bits: array<word>, m: nat, k: nat)
      ensures this.bits == bits && this.m == m && this.k == k
    {
      this.bits, this.m, this.k := bits, m, k;
    }

    method Add(s: seq<byte>)
      requires Sound(View())
      modifies bits
      ensures Sound(View())
      ensures BitSet(View().words) == old(BitSet(View().words)) + Positions(s, m, k)
    {
      var p := ProbesOf(s);
      ghost var before := BitSet(bits[..]);
      for i := 0 to k
        invariant BitSet(bits[..]) == before + Positions(s, m, i)
      {
        var bit := Position(p, m, i);
        PositionInRange(p, m, i);
        SetOneBit(bits[..], bit);
        ghost var was := bits[..];
        bits[bit / 64] := Or(bits[bit / 64], Pow2(bit % 64), 64);
        assert bits[..] == was[bit / 64 := Or(was[bit / 64], Pow2(bit % 64), 64)];
        assert Positions(s, m, i + 1) == Positions(s, m, i) + {bit};
      }
    }

    /** No means some probed bit was never set; yes means they all were. */
    method Has(s: seq<byte>) returns (r: bool)
      requires Sound(View())
      ensures r <==> MayContain(View(), s)
      ensures r <==> forall i: nat :: i < k ==>
                var b := Position(ProbesOf(s), m, i); b / 64 < bits.Length && HasBit(bits[b / 64], b % 64)
    {
      ContainsMeans(View(), s);
      var p := ProbesOf(s);
      for i := 0 to k
        invariant Positions(s, m, i) <= BitSet(bits[..])
      {
        var bit := Position(p, m, i);
        PositionInRange(p, m, i);
        AndPow2(bits[bit / 64], bit % 64, 64);
        if And(bits[bit / 64], Pow2(bit % 64), 64) == 0 {
          assert bit in Positions(s, m, k) && bit !in BitSet(bits[..]);
          return false;
        }
        assert Positions(s, m, i + 1) == Positions(s, m, i) + {bit};
      }
      return true;
    }

    method Marshal() returns (b: seq<byte>)
      requires Sound(View())
      ensures b == Marshalled(View())
    {
      var out := new byte[HEADER + 8 * bits.Length](i => if 0 <= i < 4 then MAGIC[i] else 0);
      PutLittleEndian(out, 4, k, 4);
      PutLittleEndian(out, 8, m, 8);
      assert out[..HEADER] == MAGIC + ToBytes(k, 4) + ToBytes(m, 8);
      PutWords(out, HEADER, bits);
      b := out[..];
    }
  }

  /** Writes the words one after another, from here to the end. */
  method PutWords(out: array<byte>, at: nat, bits: array<word>)
    requires out.Length == at + 8 * bits.Length
    modifies out
    ensures out[..] == old(out[..at]) + WordBytes(bits[..])
  {
    ghost var head, words := out[..at], bits[..];
    var end := at;
    for i := 0 to bits.Length
      invariant end == at + 8 * i && bits[..] == words
      invariant out[..end] == head + WordBytes(words[..i])
    {
      ghost var done := out[..end];
      PutLittleEndian(out, end, bits[i], 8);
      WordBytesAppend(words[..i], bits[i]);
      assert words[..i + 1] == words[..i] + [bits[i]];
      assert out[..end] == done && out[..end + 8] == done + ToBytes(bits[i], 8);
      Reassociate(head, WordBytes(words[..i]), ToBytes(bits[i], 8));
      end := end + 8;
    }
    assert words[..bits.Length] == words && out[..end] == out[..];
  }

  lemma {:induction false} WordBytesAppend(ws: seq<word>, w: word)
    ensures WordBytes(ws + [w]) == WordBytes(ws) + ToBytes(w, 8)
  {
    if ws == [] {
      assert ws + [w] == [w];
    } else {
      WordBytesAppend(ws[1..], w);
      assert (ws + [w])[1..] == ws[1..] + [w];
    }
  }

  method TableSize(want: nat) returns (m: nat)
    ensures IsPow2(m) && m % 64 == 0 && m >= 8192 && m >= want && (m == 8192 || m < 2 * want)
  {
    m := MIN_BITS;
    ghost var e := 13;
    Pow2Small();
    Pow2Add(8, 5);
    while m < want
      invariant m == Pow2(e) && e >= 13 && m % 64 == 0 && m >= MIN_BITS && (m == MIN_BITS || m < 2 * want)
      decreases want - m
    {
      m := m * 2;
      e := e + 1;
    }
    Pow2IsPow2(e);
  }

  /** The optimal number of probes, kept between one and the cap. */
  function ProbeCount(m: nat, n: nat): nat
    requires n > 0
  {
    var k := Round(m as real / n as real * LN2);
    if k < 1 then 1 else if k > MAX_PROBES then MAX_PROBES else k
  }

  lemma ProbeCountBounds(m: nat, n: nat)
    requires n > 0 && m >= 32 * n
    ensures 22 <= ProbeCount(m, n) <= 24
  {
    RatioBound(m, n, 32);
    var ratio := m as real / n as real;
    assert ratio * LN2 >= 32.0 * LN2;
  }

  /** The count follows the bits there are for an entry: 22 for exactly 32, 23 for 33, and the cap from
      34 on. */
  lemma ProbeCountIs(m: nat, n: nat)
    requires n > 0
    ensures m == 32 * n ==> ProbeCount(m, n) == 22
    ensures m == 33 * n ==> ProbeCount(m, n) == 23
    ensures m >= 34 * n ==> ProbeCount(m, n) == 24
  {
    var ratio := m as real / n as real;
    if m >= 34 * n {
      RatioBound(m, n, 34);
      assert ratio * LN2 >= 34.0 * LN2;
    }
    if m == 32 * n { RatioIs(m, n, 32); }
    if m == 33 * n { RatioIs(m, n, 33); }
  }

  lemma RatioIs(m: nat, n: nat, c: nat)
    requires n > 0 && m == c * n
    ensures m as real / n as real == c as real
  {
    assert m as real == c as real * n as real;
  }

  /** Sizes a filter for n entries: the smallest power of two, from the floor up, with 32 bits for
      each entry, and 22 to 24 probes. */
  method New(n: int) returns (f: Filter?)
    ensures f == null <==> n > 0x80_0000
    ensures f != null ==> fresh(f.bits) && Sound(f.View()) && BitSet(f.View().words) == {}
    ensures f != null ==>
              && f.m >= 8192 && f.m >= 32 * n
              && (f.m == 8192 || f.m < 64 * n)
              && 22 <= f.k <= 24 && (f.m >= 34 * n ==> f.k == 24) && (f.m == 32 * n ==> f.k == 22)
  {
    if n > MAX_ENTRIES { return null; }
    var n' := if n < 1 then 1 else n;
    var m := TableSize(n' * BITS_PER_ENTRY);
    ProbeCountBounds(m, n');
    ProbeCountIs(m, n');
    var bits := new word[m / 64](_ => 0);
    f := new Filter(bits, m, ProbeCount(m, n'));
    forall b: nat | b < 64 * |bits[..]| ensures !HasBit(bits[..][b / 64], b % 64) { NoBits(b % 64); }
  }

  lemma RatioBound(m: nat, n: nat, c: nat)
    requires n > 0 && m >= c * n
    ensures m as real / n as real >= c as real
  {
    var r := m as real / n as real;
    assert r * n as real == m as real;
    assert c as real * n as real == (c * n) as real;
    if r < c as real { assert r * n as real < c as real * n as real; }
  }

  method Unmarshal(b: seq<byte>) returns (f: Filter?)
    ensures f == null <==> Unmarshalled(b) == None
    ensures f != null ==> fresh(f.bits) && Sound(f.View()) && Some(f.View()) == Unmarshalled(b)
  {
    if !WellFormed(b) { return null; }
    AcceptedIsSound(b);
    var k, m := BytesValue(b[4..8]), BytesValue(b[8..16]);
    var bits := LoadWords(b[HEADER..], m / 64);
    f := new Filter(bits, m, k);
  }

  method LoadWords(body: seq<byte>, n: nat) returns (bits: array<word>)
    requires |body| == 8 * n
    ensures fresh(bits) && bits[..] == ReadWords(body)
  {
    bits := new word[n](_ => 0);
    WordBytesRoundTrip(body);
    ghost var words := ReadWords(body);
    for i := 0 to n
      invariant bits[..i] == words[..i]
    {
      ReadWordsAt(body, i);
      ghost var done := bits[..i];
      bits[i] := ReadWord(body[8 * i..8 * i + 8]);
      assert bits[..i + 1] == done + [bits[i]];
      assert words[..i + 1] == words[..i] + [words[i]];
    }
    assert words[..n] == words && bits[..n] == bits[..];
  }

  lemma {:induction false} ReadWordsAt(b: seq<byte>, i: nat)
    requires |b| % 8 == 0 && 8 * i + 8 <= |b|
    ensures i < |ReadWords(b)| && ReadWords(b)[i] == ReadWord(b[8 * i..8 * i + 8])
    decreases |b|
  {
    if i > 0 {
      ReadWordsAt(b[8..], i - 1);
      assert b[8..][8 * (i - 1)..8 * i] == b[8 * i..8 * i + 8];
    } else {
      assert b[..8] == b[0..8];
    }
  }

  /** The positions of all these strings. */
  ghost function AllPositions(hashes: seq<seq<byte>>, m: nat, k: nat): set<nat>
    requires m > 0
  {
    set h, x | h in hashes && x in Positions(h, m, k) :: x
  }

  lemma AllPositionsSnoc(hashes: seq<seq<byte>>, h: seq<byte>, m: nat, k: nat)
    requires m > 0
    ensures AllPositions(hashes + [h], m, k) == AllPositions(hashes, m, k) + Positions(h, m, k)
  {
  }

  /** Sizes a filter for any count and adds any sequence of hashes to it: their positions are set, and no
      others. */
  method Build(n: int, hashes: seq<seq<byte>>) returns (f: Filter?)
    ensures f == null <==> n > 0x80_0000
    ensures f != null ==> Sound(f.View()) && forall h :: h in hashes ==> MayContain(f.View(), h)
    ensures f != null ==> BitSet(f.View().words) == AllPositions(hashes, f.m, f.k)
  {
    f := New(n);
    if f == null { return; }
    for i := 0 to |hashes|
      invariant Sound(f.View())
      invariant BitSet(f.View().words) == AllPositions(hashes[..i], f.m, f.k)
    {
      f.Add(hashes[i]);
      AllPositionsSnoc(hashes[..i], hashes[i], f.m, f.k);
      assert hashes[..i + 1] == hashes[..i] + [hashes[i]];
    }
    assert hashes[..|hashes|] == hashes;
  }

  method AskAll(f: Filter, asked: seq<seq<byte>>) returns (answers: seq<bool>)
    requires Sound(f.View())
    ensures |answers| == |asked| && forall i :: 0 <= i < |asked| ==> (answers[i] <==> MayContain(f.View(), asked[i]))
  {
    answers := [];
    for i := 0 to |asked|
      invariant |answers| == i && forall j :: 0 <= j < i ==> (answers[j] <==> MayContain(f.View(), asked[j]))
    {
      var found := f.Has(asked[i]);
      answers := answers + [found];
    }
  }

  lemma SomePosition(s: seq<byte>, m: nat, k: nat)
    requires m > 0 && k > 0
    ensures Position(ProbesOf(s), m, 0) in Positions(s, m, k)
  {
  }

  /** The whole life of a filter: sized for any count, filled with any sequence of hashes, sent, read and
      asked for any others. It answers yes exactly when all positions of what it is asked are among those
      of the added hashes; so always for an added one, and never when nothing was added. */
  method BuildAndShip(n: int, hashes: seq<seq<byte>>, asked: seq<seq<byte>>) returns (f: Filter?, answers: seq<bool>)
    ensures f == null <==> n > 0x80_0000
    ensures f != null ==> Sound(f.View()) && |answers| == |asked|
    ensures f != null ==> forall i :: 0 <= i < |asked| ==>
              && (answers[i] <==> Positions(asked[i], f.m, f.k) <= AllPositions(hashes, f.m, f.k))
              && (asked[i] in hashes ==> answers[i])
              && (hashes == [] ==> !answers[i])
  {
    var built := Build(n, hashes);
    if built == null { return null, []; }
    var body := built.Marshal();
    UnmarshalInvertsMarshal(built.View());
    f := Unmarshal(body);
    answers := AskAll(f, asked);
    forall i | 0 <= i < |asked| && hashes == [] ensures !answers[i] { SomePosition(asked[i], f.m, f.k); }
  }
}
