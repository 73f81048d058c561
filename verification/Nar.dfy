/** The Nix Archive (NAR) serializer: the archive of a file tree, a parser that inverts it, and the
    encoder that walks a file system and writes it. */
module Nar {
  import opened Common

  import opened Bits

  type Bytes = seq<byte>

  /** Lengths are Go ints, so every string is shorter than this. */
  const MAX_LEN: int := 0x8000_0000_0000_0000

  /** A file tree as the archive sees it: one mode bit, and directories without an order. */
  datatype Node =
    | Regular(executable: bool, contents: Bytes)
    | Symlink(target: Bytes)
    | Directory(entries: map<Bytes, Node>)

  function Ascii(s: string): Bytes {
    seq(|s|, i requires 0 <= i < |s| => s[i] as int % 256)
  }

  // ---- names in byte order ----

  predicate Less(a: Bytes, b: Bytes) {
    b != [] && (a == [] || a[0] < b[0] || (a[0] == b[0] && Less(a[1..], b[1..])))
  }

  lemma {:induction false} LessTrans(a: Bytes, b: Bytes, c: Bytes)
    requires Less(a, b) && Less(b, c)
    ensures Less(a, c)
  {
    if a != [] && a[0] == b[0] && b[0] == c[0] { LessTrans(a[1..], b[1..], c[1..]); }
  }

  lemma {:induction false} LessTotal(a: Bytes, b: Bytes)
    ensures a == b || Less(a, b) || Less(b, a)
    ensures !(Less(a, b) && Less(b, a))
    ensures !Less(a, a)
  {
    if a != [] { LessTotal(a[1..], a[1..]); }
    if a != [] && b != [] && a[0] == b[0] {
      LessTotal(a[1..], b[1..]);
      if a[1..] == b[1..] { assert a == [a[0]] + a[1..] && b == [b[0]] + b[1..]; }
    }
  }

  /** Byte order: one name is a proper prefix of the other, or has the smaller byte where they first
      differ. */
  predicate ByteOrder(a: Bytes, b: Bytes) {
    exists k :: 0 <= k <= |a| && k < |b| && a[..k] == b[..k] && (k == |a| || a[k] < b[k])
  }

  lemma FirstKept(a: Bytes, k: nat)
    requires k <= |a|
    ensures k > 0 ==> a[..k][0] == a[0]
  {
  }

  lemma {:induction false} LessIsByteOrder(a: Bytes, b: Bytes)
    ensures Less(a, b) <==> ByteOrder(a, b)
  {
    if a == [] || b == [] {
      if b != [] { assert a[..0] == b[..0]; }
    } else if a[0] != b[0] {
      if ByteOrder(a, b) {
        var k :| 0 <= k <= |a| && k < |b| && a[..k] == b[..k] && (k == |a| || a[k] < b[k]);
        FirstKept(a, k);
        FirstKept(b, k);
      } else {
        assert a[..0] == b[..0];
      }
    } else {
      LessIsByteOrder(a[1..], b[1..]);
      ByteOrderRest(a, b);
    }
  }

  lemma ByteOrderRest(a: Bytes, b: Bytes)
    requires a != [] && b != [] && a[0] == b[0]
    ensures ByteOrder(a, b) <==> ByteOrder(a[1..], b[1..])
  {
    if ByteOrder(a, b) {
      var k :| 0 <= k <= |a| && k < |b| && a[..k] == b[..k] && (k == |a| || a[k] < b[k]);
      assert k > 0;
      assert a[1..][..k - 1] == a[..k][1..] && b[1..][..k - 1] == b[..k][1..];
    }
    if ByteOrder(a[1..], b[1..]) {
      var k :| 0 <= k <= |a[1..]| && k < |b[1..]| && a[1..][..k] == b[1..][..k] && (k == |a[1..]| || a[1..][k] < b[1..][k]);
      assert a[..k + 1] == [a[0]] + a[1..][..k] && b[..k + 1] == [b[0]] + b[1..][..k];
    }
  }

  predicate Ascending(names: seq<Bytes>) {
    forall i, j :: 0 <= i < j < |names| ==> Less(names[i], names[j])
  }

  function ToSet(names: seq<Bytes>): set<Bytes> {
    set i | 0 <= i < |names| :: names[i]
  }

  /** There is only one way to list a set of names in ascending order. */
  lemma {:induction false} AscendingUnique(a: seq<Bytes>, b: seq<Bytes>)
    requires Ascending(a) && Ascending(b) && ToSet(a) == ToSet(b)
    ensures a == b
    decreases |a|
  {
    assert forall k :: 0 <= k < |b| ==> b[k] in ToSet(b);
    if a == [] {
    } else {
      assert a[0] in ToSet(b);
      var j :| 0 <= j < |b| && b[j] == a[0];
      assert b[0] in ToSet(a);
      var i :| 0 <= i < |a| && a[i] == b[0];
      LessTotal(a[0], b[0]);
      assert a[0] == b[0];
      forall x | x in ToSet(a[1..]) ensures x in ToSet(b[1..]) {
        var k :| 0 <= k < |a[1..]| && a[1..][k] == x;
        assert a[k + 1] in ToSet(b);
        LessTotal(a[0], a[0]);
        var l :| 0 <= l < |b| && b[l] == x;
        assert b[1..][l - 1] == x;
      }
      forall x | x in ToSet(b[1..]) ensures x in ToSet(a[1..]) {
        var k :| 0 <= k < |b[1..]| && b[1..][k] == x;
        assert b[k + 1] in ToSet(a);
        LessTotal(b[0], b[0]);
        var l :| 0 <= l < |a| && a[l] == x;
        assert a[1..][l - 1] == x;
      }
      AscendingUnique(a[1..], b[1..]);
    }
  }

  function Insert(name: Bytes, sorted: seq<Bytes>): seq<Bytes> {
    if sorted == [] || Less(name, sorted[0]) then [name] + sorted
    else [sorted[0]] + Insert(name, sorted[1..])
  }

  lemma AscendingCons(x: Bytes, tail: seq<Bytes>)
    requires Ascending(tail) && forall j :: 0 <= j < |tail| ==> Less(x, tail[j])
    ensures Ascending([x] + tail)
  {
  }

  lemma {:induction false} InsertSorts(name: Bytes, sorted: seq<Bytes>)
    requires Ascending(sorted) && name !in ToSet(sorted)
    ensures Ascending(Insert(name, sorted))
    ensures ToSet(Insert(name, sorted)) == {name} + ToSet(sorted)
    decreases |sorted|
  {
    var r := Insert(name, sorted);
    if sorted == [] {
      assert r == [name] && r[0] == name;
    } else if Less(name, sorted[0]) {
      assert r[1..] == sorted;
      forall j | 1 <= j < |r| ensures Less(r[0], r[j]) {
        if j > 1 { LessTrans(name, sorted[0], sorted[j - 1]); }
      }
      SetCons(r);
    } else {
      SetCons(sorted);
      LessTotal(name, sorted[0]);
      assert sorted[0] in ToSet(sorted);
      InsertSorts(name, sorted[1..]);
      var tail := Insert(name, sorted[1..]);
      assert r[1..] == tail;
      SetCons(r);
      forall j | 0 <= j < |tail| ensures Less(sorted[0], tail[j]) {
        assert tail[j] in ToSet(tail);
        if tail[j] != name {
          var k :| 0 <= k < |sorted[1..]| && sorted[1..][k] == tail[j];
          assert sorted[k + 1] == tail[j];
        }
      }
      AscendingCons(sorted[0], tail);
    }
  }

  lemma SetCons(s: seq<Bytes>)
    requires s != []
    ensures ToSet(s) == {s[0]} + ToSet(s[1..])
  {
    forall x | x in ToSet(s) ensures x in {s[0]} + ToSet(s[1..]) {
      var i :| 0 <= i < |s| && s[i] == x;
      if i > 0 { assert s[1..][i - 1] == x; }
    }
    forall x | x in ToSet(s[1..]) ensures x in ToSet(s) {
      var i :| 0 <= i < |s[1..]| && s[1..][i] == x;
      assert s[i + 1] == x;
    }
  }

  /** The names of a directory in the one order the archive uses. */
  ghost function Sorted(names: set<Bytes>): (r: seq<Bytes>)
    ensures Ascending(r) && ToSet(r) == names
  {
    if names == {} then []
    else
      var x :| x in names;
      var rest := Sorted(names - {x});
      InsertSorts(x, rest);
      Insert(x, rest)
  }

  // ---- the format ----

  function Kind(n: Node): Bytes {
    match n
    case Regular(_, _) => Ascii("regular")
    case Symlink(_) => Ascii("symlink")
    case Directory(_) => Ascii("directory")
  }

  /** The strings of one node, in order. */
  ghost function Tokens(n: Node): seq<Bytes>
    decreases n, 2, 0
  {
    [Ascii("("), Ascii("type"), Kind(n)] + BodyTokens(n) + [Ascii(")")]
  }

  ghost function BodyTokens(n: Node): seq<Bytes>
    decreases n, 1, 0
  {
    match n
    case Regular(executable, contents) =>
      (if executable then [Ascii("executable"), []] else []) + [Ascii("contents"), contents]
    case Symlink(target) => [Ascii("target"), target]
    case Directory(entries) => EntryTokens(n, Sorted(entries.Keys))
  }

  ghost function EntryTokens(d: Node, names: seq<Bytes>): seq<Bytes>
    requires d.Directory? && ToSet(names) <= d.entries.Keys
    decreases d, 0, |names|
  {
    if names == [] then []
    else
      SetCons(names);
      [Ascii("entry"), Ascii("("), Ascii("name"), names[0], Ascii("node")]
      + Tokens(d.entries[names[0]])
      + [Ascii(")")]
      + EntryTokens(d, names[1..])
  }

  function PadLen(n: nat): nat {
    (8 - n % 8) % 8
  }

  function Zeros(k: nat): Bytes {
    seq(k, _ => 0)
  }

  /** One NAR string: length, bytes, zero padding to the next 8-byte boundary. */
  function Str(s: Bytes): Bytes {
    ToBytes(|s|, 8) + s + Zeros(PadLen(|s|))
  }

  function Encode(ts: seq<Bytes>): Bytes {
    if ts == [] then [] else Str(ts[0]) + Encode(ts[1..])
  }

  ghost function Archive(n: Node): Bytes {
    Encode([Ascii("nix-archive-1")] + Tokens(n))
  }

  /** Every string in the tree has a length a Go int can hold. */
  ghost predicate Sized(n: Node) {
    match n
    case Regular(_, contents) => |contents| < MAX_LEN
    case Symlink(target) => |target| < MAX_LEN
    case Directory(entries) => forall k :: k in entries ==> |k| < MAX_LEN && Sized(entries[k])
  }

  // ---- reading an archive back ----

  function Decode(b: Bytes): Option<seq<Bytes>>
    decreases |b|
  {
    if b == [] then Some([])
    else if |b| < 8 then None
    else
      var n := BytesValue(b[..8]);
      var end := 8 + n + PadLen(n);
      if |b| < end || b[8 + n..end] != Zeros(PadLen(n)) then None
      else
        match Decode(b[end..])
        case None => None
        case Some(ts) => Some([b[8..8 + n]] + ts)
  }

  datatype Parsed<+T> = Parsed(result: T, rest: seq<Bytes>)

  predicate StartsWith(ts: seq<Bytes>, expected: seq<Bytes>) {
    |expected| <= |ts| && ts[..|expected|] == expected
  }

  function ParseNode(ts: seq<Bytes>): (r: Option<Parsed<Node>>)
    ensures r.Some? ==> |r.value.rest| < |ts|
    decreases |ts|, 1
  {
    if !StartsWith(ts, [Ascii("("), Ascii("type")]) || |ts| < 3 then None
    else
      match ParseBody(ts[2], ts[3..])
      case None => None
      case Some(p) => if StartsWith(p.rest, [Ascii(")")]) then Some(Parsed(p.result, p.rest[1..])) else None
  }

  function ParseBody(kind: Bytes, body: seq<Bytes>): (r: Option<Parsed<Node>>)
    ensures r.Some? ==> |r.value.rest| <= |body|
    decreases |body|, 1
  {
    if kind == Ascii("regular") then
      if StartsWith(body, [Ascii("executable"), [], Ascii("contents")]) && |body| > 3
      then Some(Parsed(Regular(true, body[3]), body[4..]))
      else if StartsWith(body, [Ascii("contents")]) && |body| > 1
      then Some(Parsed(Regular(false, body[1]), body[2..]))
      else None
    else if kind == Ascii("symlink") then
      if StartsWith(body, [Ascii("target")]) && |body| > 1
      then Some(Parsed(Symlink(body[1]), body[2..]))
      else None
    else if kind == Ascii("directory") then
      match ParseEntries(body)
      case None => None
      case Some(p) => Some(Parsed(Directory(p.result), p.rest))
    else None
  }

  function ParseEntries(ts: seq<Bytes>): (r: Option<Parsed<map<Bytes, Node>>>)
    ensures r.Some? ==> |r.value.rest| <= |ts|
    decreases |ts|, 0
  {
    if !StartsWith(ts, [Ascii("entry")]) then Some(Parsed(map[], ts))
    else if !StartsWith(ts, [Ascii("entry"), Ascii("("), Ascii("name")]) || |ts| < 5 || ts[4] != Ascii("node") then None
    else
      match ParseNode(ts[5..])
      case None => None
      case Some(p) =>
        if !StartsWith(p.rest, [Ascii(")")]) then None
        else
          match ParseEntries(p.rest[1..])
          case None => None
          case Some(q) => Some(Parsed(q.result[ts[3] := p.result], q.rest))
  }

  function Unarchive(b: Bytes): Option<Node> {
    match Decode(b)
    case None => None
    case Some(ts) =>
      if !StartsWith(ts, [Ascii("nix-archive-1")]) then None
      else
        match ParseNode(ts[1..])
        case None => None
        case Some(p) => if p.rest == [] then Some(p.result) else None
  }
}
