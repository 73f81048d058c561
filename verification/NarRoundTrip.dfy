/** The archive determines the tree: parsing inverts dumping. */
module NarRoundTrip {
  import opened Common
  import opened Bits
  import opened Nar

  /** The length field holds any length a Go int can. */
  lemma LengthField(n: nat)
    requires n < MAX_LEN
    ensures |ToBytes(n, 8)| == 8 && BytesValue(ToBytes(n, 8)) == n
  {
    Pow2Small();
    Pow2Add(8, 8);
    Pow2Add(16, 16);
    Pow2Add(32, 32);
    ToBytesInverse(n, 8);
  }

  ghost predicate Short(ts: seq<Bytes>) {
    forall i :: 0 <= i < |ts| ==> |ts[i]| < MAX_LEN
  }

  lemma Slices(head: Bytes, s: Bytes, pad: Bytes, rest: Bytes)
    ensures var b := head + s + pad + rest;
            var i, j, k := |head|, |head| + |s|, |head| + |s| + |pad|;
            b[..i] == head && b[i..j] == s && b[j..k] == pad && b[k..] == rest
  {
  }

  /** The byte layout is unambiguous. */
  lemma {:induction false} DecodeInvertsEncode(ts: seq<Bytes>)
    requires Short(ts)
    ensures Decode(Encode(ts)) == Some(ts)
  {
    if ts == [] {
    } else {
      var s := ts[0];
      LengthField(|s|);
      Slices(ToBytes(|s|, 8), s, Zeros(PadLen(|s|)), Encode(ts[1..]));
      DecodeInvertsEncode(ts[1..]);
      assert ts == [s] + ts[1..];
    }
  }

  /** Every archive is a whole number of 8-byte words. */
  lemma {:induction false} EncodeAligned(ts: seq<Bytes>)
    ensures |Encode(ts)| % 8 == 0
  {
    if ts == [] {
    } else {
      EncodeAligned(ts[1..]);
      StrAligned(ts[0]);
      SumAligned(|Str(ts[0])|, |Encode(ts[1..])|);
    }
  }

  lemma Padded(n: nat)
    ensures (n + PadLen(n)) % 8 == 0 && (8 + (n + PadLen(n))) % 8 == 0
  {
    var q, r := n / 8, n % 8;
    assert n == 8 * q + r;
    if r == 0 {
      assert PadLen(n) == 0;
    } else {
      assert n + PadLen(n) == 8 * (q + 1);
    }
  }

  lemma StrAligned(s: Bytes)
    ensures |Str(s)| % 8 == 0
  {
    Padded(|s|);
    assert |Str(s)| == 8 + (|s| + PadLen(|s|));
  }

  lemma SumAligned(a: nat, b: nat)
    requires a % 8 == 0 && b % 8 == 0
    ensures (a + b) % 8 == 0
  {
  }

  lemma {:induction false} EntryTokensShort(d: Node, names: seq<Bytes>)
    requires d.Directory? && Sized(d) && ToSet(names) <= d.entries.Keys
    ensures Short(EntryTokens(d, names))
    decreases d, 0, |names|
  {
    if names == [] {
    } else {
      SetCons(names);
      TokensShort(d.entries[names[0]]);
      EntryTokensShort(d, names[1..]);
    }
  }

  lemma {:induction false} TokensShort(n: Node)
    requires Sized(n)
    ensures Short(Tokens(n))
    decreases n, 1, 0
  {
    if n.Directory? { EntryTokensShort(n, Sorted(n.entries.Keys)); }
  }

  /** The entries with these names. */
  ghost function Restrict(d: Node, names: seq<Bytes>): map<Bytes, Node>
    requires d.Directory?
  {
    map k | k in d.entries && k in ToSet(names) :: d.entries[k]
  }

  /** The tokens of a directory entry around its child. */
  lemma EntryShape(name: Bytes, child: seq<Bytes>, tail: seq<Bytes>, rest: seq<Bytes>)
    ensures var ts := [Ascii("entry"), Ascii("("), Ascii("name"), name, Ascii("node")] + child + [Ascii(")")] + tail + rest;
            && StartsWith(ts, [Ascii("entry")]) && StartsWith(ts, [Ascii("entry"), Ascii("("), Ascii("name")])
            && |ts| >= 5 && ts[3] == name && ts[4] == Ascii("node")
            && ts[5..] == child + ([Ascii(")")] + (tail + rest))
  {
  }

  lemma {:induction false} ParseInvertsEntries(d: Node, names: seq<Bytes>, rest: seq<Bytes>)
    requires d.Directory? && ToSet(names) <= d.entries.Keys
    requires StartsWith(rest, [Ascii(")")])
    ensures ParseEntries(EntryTokens(d, names) + rest) == Some(Parsed(Restrict(d, names), rest))
    decreases d, 0, |names|
  {
    if names == [] {
      assert EntryTokens(d, names) + rest == rest;
      assert rest[0] == Ascii(")") && |Ascii("entry")| != |Ascii(")")|;
      assert Restrict(d, names) == map[];
    } else {
      SetCons(names);
      var child, tail := d.entries[names[0]], EntryTokens(d, names[1..]);
      var close := [Ascii(")")] + (tail + rest);
      EntryShape(names[0], Tokens(child), tail, rest);
      assert close[..1] == [Ascii(")")] && close[1..] == tail + rest;
      ParseInvertsTokens(child, close);
      ParseInvertsEntries(d, names[1..], rest);
      RestrictCons(d, names);
    }
  }

  lemma RestrictCons(d: Node, names: seq<Bytes>)
    requires d.Directory? && names != [] && ToSet(names) <= d.entries.Keys
    ensures names[0] in d.entries && Restrict(d, names[1..])[names[0] := d.entries[names[0]]] == Restrict(d, names)
  {
    SetCons(names);
  }

  lemma {:induction false} ParseInvertsTokens(n: Node, rest: seq<Bytes>)
    ensures ParseNode(Tokens(n) + rest) == Some(Parsed(n, rest))
    decreases n, 2, 0
  {
    var ts := Tokens(n) + rest;
    var tail := [Ascii(")")] + rest;
    assert ts[..2] == [Ascii("("), Ascii("type")];
    assert ts[3..] == BodyTokens(n) + tail;
    assert tail[..1] == [Ascii(")")] && tail[1..] == rest;
    ParseInvertsBody(n, tail);
  }

  lemma {:induction false} ParseInvertsBody(n: Node, tail: seq<Bytes>)
    requires StartsWith(tail, [Ascii(")")])
    ensures ParseBody(Kind(n), BodyTokens(n) + tail) == Some(Parsed(n, tail))
    decreases n, 1, 0
  {
    match n
    case Regular(executable, contents) => RegularInverse(executable, contents, tail);
    case Symlink(target) =>
      assert Ascii("regular")[0] != Ascii("symlink")[0];
      var body := [Ascii("target"), target] + tail;
      assert body[..1] == [Ascii("target")] && body[2..] == tail;
    case Directory(entries) =>
      assert |Ascii("directory")| != |Ascii("regular")| && |Ascii("directory")| != |Ascii("symlink")|;
      ParseInvertsEntries(n, Sorted(entries.Keys), tail);
      assert Restrict(n, Sorted(entries.Keys)) == entries;
  }

  lemma RegularInverse(executable: bool, contents: Bytes, tail: seq<Bytes>)
    ensures ParseBody(Ascii("regular"), BodyTokens(Regular(executable, contents)) + tail)
            == Some(Parsed(Regular(executable, contents), tail))
  {
    var body := BodyTokens(Regular(executable, contents)) + tail;
    if executable {
      assert body == [Ascii("executable"), [], Ascii("contents"), contents] + tail;
      assert body[..3] == [Ascii("executable"), [], Ascii("contents")] && body[4..] == tail;
    } else {
      assert body == [Ascii("contents"), contents] + tail;
      assert body[0] == Ascii("contents") && |Ascii("executable")| != |Ascii("contents")|;
      assert body[..1] == [Ascii("contents")] && body[2..] == tail;
    }
  }

  /** Reading an archive back gives exactly the tree it was made from. */
  lemma UnarchiveInvertsArchive(n: Node)
    requires Sized(n)
    ensures Unarchive(Archive(n)) == Some(n)
  {
    var ts := [Ascii("nix-archive-1")] + Tokens(n);
    TokensShort(n);
    DecodeInvertsEncode(ts);
    assert ts[..1] == [Ascii("nix-archive-1")];
    assert ts[1..] == Tokens(n) + [];
    ParseInvertsTokens(n, []);
  }

  /** No two file trees share an archive, and every archive fills whole 8-byte words. */
  lemma ArchiveInjective(a: Node, b: Node)
    requires Sized(a) && Sized(b)
    ensures Archive(a) == Archive(b) <==> a == b
    ensures |Archive(a)| % 8 == 0
  {
    UnarchiveInvertsArchive(a);
    UnarchiveInvertsArchive(b);
    EncodeAligned([Ascii("nix-archive-1")] + Tokens(a));
  }

  // ---- the format, spelled out ----

  /** A string is its length in eight bytes, the least significant first, its own bytes, and fewer than
      eight zeros up to a multiple of eight. */
  lemma StringLayout(s: Bytes)
    ensures var b := Str(s);
            && |b| % 8 == 0 && 8 + |s| <= |b| < 16 + |s|
            && (forall i :: 0 <= i < 8 ==> b[i] == |s| / Pow2(8 * i) % 256)
            && b[8..8 + |s|] == s
            && forall i :: 8 + |s| <= i < |b| ==> b[i] == 0
  {
    forall i | 0 <= i < 8 ensures Str(s)[i] == |s| / Pow2(8 * i) % 256 { ToBytesAt(|s|, 8, i); }
    StrAligned(s);
  }

  /** The archive's strings, for one of each kind. */
  lemma FormatSpelledOut(contents: Bytes, target: Bytes)
    ensures Tokens(Regular(false, contents)) == [Ascii("("), Ascii("type"), Ascii("regular"), Ascii("contents"), contents, Ascii(")")]
    ensures Tokens(Regular(true, contents))
            == [Ascii("("), Ascii("type"), Ascii("regular"), Ascii("executable"), [], Ascii("contents"), contents, Ascii(")")]
    ensures Tokens(Symlink(target)) == [Ascii("("), Ascii("type"), Ascii("symlink"), Ascii("target"), target, Ascii(")")]
    ensures Tokens(Directory(map[])) == [Ascii("("), Ascii("type"), Ascii("directory"), Ascii(")")]
  {
  }

  /** A directory's entries follow one another in byte order. */
  lemma EntriesSpelledOut(x: Bytes, y: Bytes, n: Node, m: Node)
    requires ByteOrder(x, y)
    ensures x != y && Tokens(Directory(map[x := n, y := m]))
            == [Ascii("("), Ascii("type"), Ascii("directory")]
               + ([Ascii("entry"), Ascii("("), Ascii("name"), x, Ascii("node")] + Tokens(n) + [Ascii(")")])
               + ([Ascii("entry"), Ascii("("), Ascii("name"), y, Ascii("node")] + Tokens(m) + [Ascii(")")])
               + [Ascii(")")]
  {
    LessIsByteOrder(x, y);
    LessTotal(x, y);
    TwoNames(x, y);
    var d := Directory(map[x := n, y := m]);
    assert d.entries.Keys == {x, y};
    AscendingUnique(Sorted({x, y}), [x, y]);
    OneEntry(d, [y]);
    OneEntry(d, [x, y]);
    assert [x, y][1..] == [y] && [y][1..] == [];
    Nothing([Ascii("entry"), Ascii("("), Ascii("name"), y, Ascii("node")] + Tokens(m) + [Ascii(")")]);
    Reassociate([Ascii("("), Ascii("type"), Ascii("directory")],
                [Ascii("entry"), Ascii("("), Ascii("name"), x, Ascii("node")] + Tokens(n) + [Ascii(")")],
                [Ascii("entry"), Ascii("("), Ascii("name"), y, Ascii("node")] + Tokens(m) + [Ascii(")")]);
  }

  lemma OneEntry(d: Node, names: seq<Bytes>)
    requires d.Directory? && names != [] && ToSet(names) <= d.entries.Keys
    ensures names[0] in d.entries && ToSet(names[1..]) <= d.entries.Keys
    ensures EntryTokens(d, names)
            == [Ascii("entry"), Ascii("("), Ascii("name"), names[0], Ascii("node")] + Tokens(d.entries[names[0]]) + [Ascii(")")]
               + EntryTokens(d, names[1..])
  {
    SetCons(names);
  }

  lemma TwoNames(x: Bytes, y: Bytes)
    requires Less(x, y)
    ensures Ascending([x, y]) && ToSet([x, y]) == {x, y} && ToSet([y]) == {y} && ToSet([]) == {}
  {
    SetCons([x, y]);
    SetCons([y]);
    assert [x, y][1..] == [y] && [y][1..] == [];
  }
}
