/** The encoder that walks a file system and writes its archive through a buffered writer whose
    first error sticks. */
module NarEncoder {
  import opened Bits
  import opened Nar
  import NarRoundTrip

  /** What the walk finds at a path: a file whose declared and readable sizes may differ, a
      directory in whatever order the system lists it, or something that cannot be archived (an
      unsupported file type, or a failing lstat, open or readlink). */
  datatype Fs =
    | File(executable: bool, size: nat, data: Bytes)
    | Link(target: Bytes)
    | Dir(listing: seq<Entry>)
    | Unarchivable

  datatype Entry = Entry(name: Bytes, fs: Fs)

  function Names(listing: seq<Entry>): seq<Bytes> {
    seq(|listing|, i requires 0 <= i < |listing| => listing[i].name)
  }

  predicate NamesDistinct(listing: seq<Entry>) {
    forall i, j :: 0 <= i < j < |listing| ==> listing[i].name != listing[j].name
  }

  /** No directory lists a name twice. */
  predicate WellFormed(fs: Fs) {
    fs.Dir? ==>
      && NamesDistinct(fs.listing)
      && (forall i :: 0 <= i < |fs.listing| ==> WellFormed(fs.listing[i].fs))
  }

  /** Everything below is a directory, a symlink or a file that reads back at its declared size. */
  predicate Archivable(fs: Fs) {
    match fs
    case File(_, size, data) => |data| == size
    case Link(_) => true
    case Dir(listing) => forall i :: 0 <= i < |listing| ==> Archivable(listing[i].fs)
    case Unarchivable => false
  }

  /** The tree found, with the listing order forgotten. */
  function TreeOf(fs: Fs): Node
    decreases fs, 1, 0
  {
    match fs
    case File(executable, _, data) => Regular(executable, data)
    case Link(target) => Symlink(target)
    case Dir(listing) => Directory(Children(fs, |listing|))
    case Unarchivable => Directory(map[])
  }

  function Children(fs: Fs, n: nat): map<Bytes, Node>
    requires fs.Dir? && n <= |fs.listing|
    decreases fs, 0, n
  {
    if n == 0 then map[] else Children(fs, n - 1)[fs.listing[n - 1].name := TreeOf(fs.listing[n - 1].fs)]
  }

  lemma ToSetSnoc(s: seq<Bytes>, n: nat)
    requires n < |s|
    ensures ToSet(s[..n + 1]) == ToSet(s[..n]) + {s[n]}
  {
    forall x | x in ToSet(s[..n + 1]) ensures x in ToSet(s[..n]) + {s[n]} {
      var i :| 0 <= i < n + 1 && s[..n + 1][i] == x;
      if i < n { assert s[..n][i] == x; }
    }
    forall x | x in ToSet(s[..n]) ensures x in ToSet(s[..n + 1]) {
      var i :| 0 <= i < n && s[..n][i] == x;
      assert s[..n + 1][i] == x;
    }
    assert s[..n + 1][n] == s[n];
  }

  lemma {:induction false} ChildrenKeys(fs: Fs, n: nat)
    requires fs.Dir? && n <= |fs.listing|
    ensures Children(fs, n).Keys == ToSet(Names(fs.listing)[..n])
  {
    if n == 0 {
    } else {
      ChildrenKeys(fs, n - 1);
      ToSetSnoc(Names(fs.listing), n - 1);
    }
  }

  /** The entry listed at i is mapped, as soon as it has been passed. */
  lemma {:induction false} ChildIs(fs: Fs, n: nat, i: nat)
    requires fs.Dir? && i < n <= |fs.listing| && NamesDistinct(fs.listing)
    ensures fs.listing[i].name in Children(fs, n)
    ensures Children(fs, n)[fs.listing[i].name] == TreeOf(fs.listing[i].fs)
  {
    if i == n - 1 {
    } else {
      ChildIs(fs, n - 1, i);
      assert fs.listing[i].name != fs.listing[n - 1].name;
    }
  }

  lemma ChildrenAre(fs: Fs, n: nat)
    requires fs.Dir? && n <= |fs.listing| && WellFormed(fs)
    ensures Children(fs, n).Keys == ToSet(Names(fs.listing)[..n])
    ensures forall i :: 0 <= i < n ==>
              fs.listing[i].name in Children(fs, n) && Children(fs, n)[fs.listing[i].name] == TreeOf(fs.listing[i].fs)
  {
    ChildrenKeys(fs, n);
    forall i | 0 <= i < n
      ensures fs.listing[i].name in Children(fs, n) && Children(fs, n)[fs.listing[i].name] == TreeOf(fs.listing[i].fs)
    {
      ChildIs(fs, n, i);
    }
  }

  /** Every name one directory maps, the other maps to the same. */
  predicate Includes(big: map<Bytes, Node>, small: map<Bytes, Node>) {
    forall x :: x in small ==> x in big && big[x] == small[x]
  }

  lemma SameMap(a: map<Bytes, Node>, b: map<Bytes, Node>)
    requires Includes(a, b) && Includes(b, a)
    ensures a == b
  {
    assert a.Keys == b.Keys;
  }

  /** Where a name stands in a listing. */
  function Find(listing: seq<Entry>, name: Bytes): (i: nat)
    requires name in ToSet(Names(listing))
    ensures i < |listing| && listing[i].name == name
  {
    if listing[0].name == name then 0
    else
      assert Names(listing)[1..] == Names(listing[1..]);
      SetCons(Names(listing));
      1 + Find(listing[1..], name)
  }

  /** The same tree, each of its directories perhaps listed in another order. */
  ghost predicate SameUpToOrder(a: Fs, b: Fs) {
    if a.Dir? && b.Dir? then
      && ToSet(Names(a.listing)) == ToSet(Names(b.listing))
      && forall i, j :: 0 <= i < |a.listing| && 0 <= j < |b.listing| && a.listing[i].name == b.listing[j].name
                        ==> SameUpToOrder(a.listing[i].fs, b.listing[j].fs)
    else a == b
  }

  /** The entries of the same name have the same trees. */
  predicate SameTrees(a: seq<Entry>, b: seq<Entry>) {
    forall i, j :: 0 <= i < |a| && 0 <= j < |b| && a[i].name == b[j].name ==> TreeOf(a[i].fs) == TreeOf(b[j].fs)
  }

  /** What the name in a listing, wherever it stands, is mapped to. */
  lemma ChildOf(fs: Fs, x: Bytes) returns (i: nat)
    requires fs.Dir? && NamesDistinct(fs.listing) && x in ToSet(Names(fs.listing))
    ensures i < |fs.listing| && fs.listing[i].name == x
    ensures x in Children(fs, |fs.listing|) && Children(fs, |fs.listing|)[x] == TreeOf(fs.listing[i].fs)
  {
    i := Find(fs.listing, x);
    ChildIs(fs, |fs.listing|, i);
  }

  lemma ListedNames(fs: Fs)
    requires fs.Dir?
    ensures Children(fs, |fs.listing|).Keys == ToSet(Names(fs.listing))
  {
    ChildrenKeys(fs, |fs.listing|);
    assert Names(fs.listing)[..|fs.listing|] == Names(fs.listing);
  }

  lemma ChildrenWithin(a: Fs, b: Fs)
    requires a.Dir? && b.Dir? && NamesDistinct(a.listing) && NamesDistinct(b.listing)
    requires ToSet(Names(a.listing)) == ToSet(Names(b.listing)) && SameTrees(a.listing, b.listing)
    ensures Includes(Children(b, |b.listing|), Children(a, |a.listing|))
  {
    ListedNames(a);
    forall x | x in Children(a, |a.listing|)
      ensures x in Children(b, |b.listing|) && Children(b, |b.listing|)[x] == Children(a, |a.listing|)[x]
    {
      var i := ChildOf(a, x);
      var j := ChildOf(b, x);
    }
  }

  lemma SameDirectory(a: Fs, b: Fs)
    requires a.Dir? && b.Dir? && NamesDistinct(a.listing) && NamesDistinct(b.listing)
    requires ToSet(Names(a.listing)) == ToSet(Names(b.listing)) && SameTrees(a.listing, b.listing)
    ensures TreeOf(a) == TreeOf(b)
  {
    ChildrenWithin(a, b);
    ChildrenWithin(b, a);
    SameMap(Children(a, |a.listing|), Children(b, |b.listing|));
  }

  /** However the system lists any of the directories, the tree is the same. */
  lemma {:induction false} ListingOrderForgotten(a: Fs, b: Fs)
    requires WellFormed(a) && WellFormed(b) && SameUpToOrder(a, b)
    ensures TreeOf(a) == TreeOf(b) && (Archivable(a) <==> Archivable(b))
    decreases a
  {
    if !a.Dir? || !b.Dir? {
    } else {
      forall i, j | 0 <= i < |a.listing| && 0 <= j < |b.listing| && a.listing[i].name == b.listing[j].name
        ensures TreeOf(a.listing[i].fs) == TreeOf(b.listing[j].fs)
        ensures Archivable(a.listing[i].fs) <==> Archivable(b.listing[j].fs)
      {
        ListingOrderForgotten(a.listing[i].fs, b.listing[j].fs);
      }
      SameDirectory(a, b);
      SameArchivable(a, b);
    }
  }

  lemma SameArchivable(a: Fs, b: Fs)
    requires a.Dir? && b.Dir? && ToSet(Names(a.listing)) == ToSet(Names(b.listing))
    requires forall i, j :: 0 <= i < |a.listing| && 0 <= j < |b.listing| && a.listing[i].name == b.listing[j].name
                            ==> (Archivable(a.listing[i].fs) <==> Archivable(b.listing[j].fs))
    ensures Archivable(a) <==> Archivable(b)
  {
    forall i | 0 <= i < |a.listing| && Archivable(b) ensures Archivable(a.listing[i].fs) {
      assert Names(a.listing)[i] in ToSet(Names(b.listing));
      var j := Find(b.listing, a.listing[i].name);
    }
    forall j | 0 <= j < |b.listing| && Archivable(a) ensures Archivable(b.listing[j].fs) {
      assert Names(b.listing)[j] in ToSet(Names(a.listing));
      var i := Find(a.listing, b.listing[j].name);
    }
  }

  /** And nothing else is forgotten: what can be archived has the same tree only if it is the same up to
      listing order. */
  lemma {:induction false} OnlyOrderForgotten(a: Fs, b: Fs)
    requires WellFormed(a) && WellFormed(b) && Archivable(a) && Archivable(b) && TreeOf(a) == TreeOf(b)
    ensures SameUpToOrder(a, b)
    decreases a
  {
    if !a.Dir? || !b.Dir? {
    } else {
      ListedNames(a);
      ListedNames(b);
      forall i, j | 0 <= i < |a.listing| && 0 <= j < |b.listing| && a.listing[i].name == b.listing[j].name
        ensures SameUpToOrder(a.listing[i].fs, b.listing[j].fs)
      {
        ChildIs(a, |a.listing|, i);
        ChildIs(b, |b.listing|, j);
        OnlyOrderForgotten(a.listing[i].fs, b.listing[j].fs);
      }
    }
  }

  // ---- the writer ----

  /** What has been written, how much more the writer will take before it fails, and whether it has. */
  datatype Output = Output(written: Bytes, room: nat, failed: bool)

  function Put(w: Output, b: Bytes): Output {
    if w.failed then w
    else if |b| <= w.room then Output(w.written + b, w.room - |b|, false)
    else Output(w.written + b[..w.room], 0, true)
  }

  /** A string goes out as its length, its bytes and its padding. */
  lemma PutStr(w: Output, data: Bytes)
    ensures Put(Put(Put(w, ToBytes(|data|, 8)), data), Zeros(PadLen(|data|))) == Put(w, Str(data))
  {
    PutPut(w, ToBytes(|data|, 8), data);
    PutPut(w, ToBytes(|data|, 8) + data, Zeros(PadLen(|data|)));
  }

  lemma PutPut(w: Output, a: Bytes, b: Bytes)
    ensures Put(Put(w, a), b) == Put(w, a + b)
  {
    if !w.failed {
      if |a| <= w.room {
        if |a + b| > w.room { assert (a + b)[..w.room] == a + b[..w.room - |a|]; }
        assert w.written + a + b == w.written + (a + b);
      } else {
        assert (a + b)[..w.room] == a[..w.room];
      }
    }
  }

  function PutAll(w: Output, ts: seq<Bytes>): Output
    decreases |ts|
  {
    if ts == [] then w else PutAll(Put(w, Str(ts[0])), ts[1..])
  }

  lemma {:induction false} PutAllAppend(w: Output, a: seq<Bytes>, b: seq<Bytes>)
    ensures PutAll(w, a + b) == PutAll(PutAll(w, a), b)
    decreases |a|
  {
    if a == [] { assert a + b == b; } else {
      PutAllAppend(Put(w, Str(a[0])), a[1..], b);
      assert (a + b)[1..] == a[1..] + b;
    }
  }

  lemma PutAllCons(w: Output, a: Bytes, ts: seq<Bytes>)
    ensures PutAll(w, [a] + ts) == PutAll(Put(w, Str(a)), ts)
  {
    assert ([a] + ts)[1..] == ts;
  }

  lemma PutOne(w: Output, a: Bytes)
    ensures PutAll(w, [a]) == Put(w, Str(a))
  {
    PutAllCons(w, a, []);
    assert [a] + [] == [a];
  }

  lemma PutTwo(w: Output, a: Bytes, b: Bytes)
    ensures PutAll(w, [a, b]) == Put(Put(w, Str(a)), Str(b))
  {
    PutAllCons(w, a, [b]);
    PutOne(Put(w, Str(a)), b);
    assert [a] + [b] == [a, b];
  }

  lemma {:induction false} PutAllFailed(w: Output, ts: seq<Bytes>)
    requires w.failed
    ensures PutAll(w, ts) == w
    decreases |ts|
  {
    if ts == [] {
    } else {
      PutAllFailed(w, ts[1..]);
    }
  }

  lemma {:induction false} PutAllIsPut(w: Output, ts: seq<Bytes>)
    ensures PutAll(w, ts) == Put(w, Encode(ts))
    decreases |ts|
  {
    if ts == [] { assert w.written + [] == w.written; } else {
      PutAllIsPut(Put(w, Str(ts[0])), ts[1..]);
      PutPut(w, Str(ts[0]), Encode(ts[1..]));
    }
  }

  lemma {:induction false} InsertLength(name: Bytes, sorted: seq<Bytes>)
    ensures |Insert(name, sorted)| == |sorted| + 1
    decreases |sorted|
  {
    if sorted == [] {
    } else {
      InsertLength(name, sorted[1..]);
    }
  }

  method DirNames(listing: seq<Entry>) returns (names: seq<Bytes>)
    requires NamesDistinct(listing)
    ensures names == Sorted(ToSet(Names(listing)))
    ensures |names| == |listing| && ToSet(names) == ToSet(Names(listing))
    ensures forall i, j :: 0 <= i < j < |names| ==> ByteOrder(names[i], names[j])
  {
    names := [];
    for n := 0 to |listing|
      invariant |names| == n && Ascending(names) && ToSet(names) == ToSet(Names(listing)[..n])
    {
      var name := listing[n].name;
      assert name !in ToSet(Names(listing)[..n]);
      InsertSorts(name, names);
      InsertLength(name, names);
      names := Insert(name, names);
      ToSetSnoc(Names(listing), n);
    }
    forall i, j | 0 <= i < j < |names| ensures ByteOrder(names[i], names[j]) { LessIsByteOrder(names[i], names[j]); }
    assert Names(listing)[..|listing|] == Names(listing);
    AscendingUnique(names, Sorted(ToSet(Names(listing))));
  }

  class Encoder {
    var written: Bytes
    var room: nat
    var err: bool

    function Out(): Output reads this { Output(written, room, err) }

    constructor (capacity: nat)
      ensures Out() == Output([], capacity, false)
    {
      written, room, err := [], capacity, false;
    }

    /** One write on the underlying writer. */
    method Raw(b: Bytes)
      requires !err
      modifies this
      ensures Out() == Put(old(Out()), b)
    {
      if |b| <= room {
        written, room := written + b, room - |b|;
      } else {
        written, room, err := written + b[..room], 0, true;
      }
    }

    method Write(b: Bytes)
      modifies this
      ensures Out() == Put(old(Out()), b)
    {
      if err { return; }
      Raw(b);
    }

    method PadTo(n: nat)
      modifies this
      ensures Out() == Put(old(Out()), Zeros(PadLen(n)))
    {
      if n % 8 != 0 {
        Write(Zeros(8 - n % 8));
      } else {
        assert Zeros(PadLen(n)) == [];
      }
    }

    method WriteStr(s: Bytes)
      modifies this
      ensures Out() == Put(old(Out()), Str(s))
    {
      Write(ToBytes(|s|, 8));
      Write(s);
      PutPut(old(Out()), ToBytes(|s|, 8), s);
      PadTo(|s|);
      PutPut(old(Out()), ToBytes(|s|, 8) + s, Zeros(PadLen(|s|)));
    }

    /** Streams a file behind its declared size; a file of any other size is an error. */
    method Contents(size: nat, data: Bytes) returns (ok: bool)
      modifies this
      ensures |data| == size ==> Out() == Put(old(Out()), Str(data)) && ok == !err
      ensures |data| != size ==> !ok
    {
      if |data| == size { PutStr(Out(), data); }
      Write(ToBytes(size, 8));
      ok := CopyContents(size, data);
    }

    /** Copies size bytes of the data, which must be all there is, and pads. */
    method CopyContents(size: nat, data: Bytes) returns (ok: bool)
      modifies this
      ensures |data| == size ==> Out() == Put(Put(old(Out()), data), Zeros(PadLen(size))) && ok == !err
      ensures |data| != size ==> !ok
    {
      if err { return false; }
      var n := if |data| < size then |data| else size;
      assert |data| == size ==> data[..n] == data;
      Raw(data[..n]);
      if err { return false; }
      if n != size { return false; }
      if |data| > size { return false; }
      assert PadLen(size % 8) == PadLen(size);
      PadTo(size % 8);
      return !err;
    }

    /** The strings every node starts with. */
    method Open(kind: Bytes)
      modifies this
      ensures Out() == PutAll(old(Out()), [Ascii("("), Ascii("type"), kind])
    {
      PutAllCons(Out(), Ascii("("), [Ascii("type"), kind]);
      assert [Ascii("(")] + [Ascii("type"), kind] == [Ascii("("), Ascii("type"), kind];
      WriteStr(Ascii("("));
      PutTwo(Out(), Ascii("type"), kind);
      WriteStr(Ascii("type"));
      WriteStr(kind);
    }

    /** Writes one node. The walk goes on after a failed write, which changes nothing, and stops at
        the first thing it cannot archive. */
    method Walk(fs: Fs) returns (ok: bool)
      requires WellFormed(fs)
      modifies this
      ensures Archivable(fs) ==> Out() == PutAll(old(Out()), Tokens(TreeOf(fs))) && ok == !err
      ensures !Archivable(fs) ==> !ok
      decreases fs, 2
    {
      ghost var w, tree := Out(), TreeOf(fs);
      ghost var head, close := [Ascii("("), Ascii("type"), Kind(tree)], [Ascii(")")];
      PutAllAppend(w, head + BodyTokens(tree), close);
      PutAllAppend(w, head, BodyTokens(tree));
      ok := WalkBody(fs);
      if !ok {
        if err { PutAllFailed(Out(), close); }
        return false;
      }
      PutOne(Out(), Ascii(")"));
      WriteStr(Ascii(")"));
      return !err;
    }

    method WalkBody(fs: Fs) returns (ok: bool)
      requires WellFormed(fs)
      modifies this
      ensures Archivable(fs) ==>
                && Out() == PutAll(PutAll(old(Out()), [Ascii("("), Ascii("type"), Kind(TreeOf(fs))]), BodyTokens(TreeOf(fs)))
                && (!ok ==> err)
      ensures !Archivable(fs) ==> !ok
      decreases fs, 1
    {
      match fs {
        case Unarchivable => return false;
        case File(executable, size, data) =>
          Open(Ascii("regular"));
          ok := WalkFile(executable, size, data);
        case Link(target) =>
          Open(Ascii("symlink"));
          PutTwo(Out(), Ascii("target"), target);
          WriteStr(Ascii("target"));
          WriteStr(target);
          ok := true;
        case Dir(listing) =>
          Open(Ascii("directory"));
          ok := WalkEntries(fs);
      }
    }

    method WalkFile(executable: bool, size: nat, data: Bytes) returns (ok: bool)
      modifies this
      ensures |data| == size ==> Out() == PutAll(old(Out()), BodyTokens(Regular(executable, data))) && ok == !err
      ensures |data| != size ==> !ok
    {
      if executable {
        PutAllAppend(Out(), [Ascii("executable"), []], [Ascii("contents"), data]);
        PutTwo(Out(), Ascii("executable"), []);
        WriteStr(Ascii("executable"));
        WriteStr([]);
      } else {
        assert [] + [Ascii("contents"), data] == [Ascii("contents"), data];
      }
      PutTwo(Out(), Ascii("contents"), data);
      WriteStr(Ascii("contents"));
      ok := Contents(size, data);
    }

    method WalkEntry(name: Bytes, child: Fs) returns (ok: bool)
      requires WellFormed(child)
      modifies this
      ensures Archivable(child) ==> Out() == PutAll(old(Out()), OneEntry(name, TreeOf(child))) && (!ok ==> err)
      ensures !Archivable(child) ==> !ok
      decreases child, 3
    {
      ghost var w, tokens := Out(), Tokens(TreeOf(child));
      ghost var head := [Ascii("entry"), Ascii("("), Ascii("name"), name, Ascii("node")];
      PutAllAppend(w, head + tokens, [Ascii(")")]);
      PutAllAppend(w, head, tokens);
      EntryHead(name);
      ok := Walk(child);
      if !ok {
        if err { PutAllFailed(Out(), [Ascii(")")]); }
        return false;
      }
      PutOne(Out(), Ascii(")"));
      WriteStr(Ascii(")"));
    }

    method EntryHead(name: Bytes)
      modifies this
      ensures Out() == PutAll(old(Out()), [Ascii("entry"), Ascii("("), Ascii("name"), name, Ascii("node")])
    {
      ghost var a, b, c := [Ascii("entry"), Ascii("(")], [Ascii("name"), name], [Ascii("node")];
      PutAllAppend(Out(), a, b + c);
      assert a + (b + c) == [Ascii("entry"), Ascii("("), Ascii("name"), name, Ascii("node")];
      PutTwo(Out(), Ascii("entry"), Ascii("("));
      WriteStr(Ascii("entry"));
      WriteStr(Ascii("("));
      PutAllAppend(Out(), b, c);
      PutTwo(Out(), Ascii("name"), name);
      WriteStr(Ascii("name"));
      WriteStr(name);
      PutOne(Out(), Ascii("node"));
      WriteStr(Ascii("node"));
    }

    method WalkEntries(fs: Fs) returns (ok: bool)
      requires fs.Dir? && WellFormed(fs)
      modifies this
      ensures Archivable(fs) ==> Out() == PutAll(old(Out()), BodyTokens(TreeOf(fs))) && (!ok ==> err)
      ensures !Archivable(fs) ==> !ok
      decreases fs, 0, 1
    {
      var names := DirNames(fs.listing);
      DirectoryTokens(fs);
      ArchivableByName(fs, names);
      ok := WalkNames(fs, names);
    }

    method WalkNames(fs: Fs, names: seq<Bytes>) returns (ok: bool)
      requires fs.Dir? && WellFormed(fs) && Lists(fs, names)
      modifies this
      ensures ArchivableUpTo(fs, names, |names|) ==> Out() == PutAll(old(Out()), EntryTokens(TreeOf(fs), names)) && (!ok ==> err)
      ensures !ArchivableUpTo(fs, names, |names|) ==> !ok
      decreases fs, 0, 0
    {
      ghost var w, tree := Out(), TreeOf(fs);
      assert names[0..] == names;
      var i := 0;
      while i < |names|
        invariant 0 <= i <= |names|
        invariant ToSet(names[i..]) <= ToSet(names)
        invariant PutAll(Out(), EntryTokens(tree, names[i..])) == PutAll(w, EntryTokens(tree, names))
        invariant ArchivableUpTo(fs, names, i)
      {
        var k := NameAt(fs, names, i);
        EntryStep(Out(), fs, tree, names, i, k);
        ok := WalkEntry(names[i], fs.listing[k].fs);
        if !ok {
          if err { PutAllFailed(Out(), EntryTokens(tree, names[i + 1..])); }
          return false;
        }
        i := i + 1;
      }
      assert names[i..] == [];
      return true;
    }
  }

  /** The names are those of the directory. */
  predicate Lists(fs: Fs, names: seq<Bytes>) {
    fs.Dir? && ToSet(names) == ToSet(Names(fs.listing)) == TreeOf(fs).entries.Keys
  }

  predicate ArchivableUpTo(fs: Fs, names: seq<Bytes>, n: nat)
    requires Lists(fs, names) && n <= |names|
  {
    forall j :: 0 <= j < n ==> Archivable(fs.listing[NameAt(fs, names, j)].fs)
  }

  lemma DirectoryTokens(fs: Fs)
    requires fs.Dir? && WellFormed(fs)
    ensures TreeOf(fs).entries.Keys == ToSet(Names(fs.listing))
    ensures BodyTokens(TreeOf(fs)) == EntryTokens(TreeOf(fs), Sorted(ToSet(Names(fs.listing))))
  {
    ChildrenAre(fs, |fs.listing|);
    assert Names(fs.listing)[..|fs.listing|] == Names(fs.listing);
  }

  lemma ArchivableByName(fs: Fs, names: seq<Bytes>)
    requires fs.Dir? && WellFormed(fs) && Lists(fs, names)
    ensures Archivable(fs) <==> ArchivableUpTo(fs, names, |names|)
  {
    if ArchivableUpTo(fs, names, |names|) {
      forall k | 0 <= k < |fs.listing| ensures Archivable(fs.listing[k].fs) {
        assert Names(fs.listing)[k] in ToSet(Names(fs.listing));
        var j :| 0 <= j < |names| && names[j] == fs.listing[k].name;
        assert NameAt(fs, names, j) == k;
      }
    }
  }

  function NameAt(fs: Fs, names: seq<Bytes>, i: nat): (k: nat)
    requires fs.Dir? && i < |names| && ToSet(names) == ToSet(Names(fs.listing))
    ensures k < |fs.listing| && fs.listing[k].name == names[i]
  {
    assert names[i] in ToSet(names);
    Find(fs.listing, names[i])
  }

  ghost function OneEntry(name: Bytes, child: Node): seq<Bytes> {
    [Ascii("entry"), Ascii("("), Ascii("name"), name, Ascii("node")] + Tokens(child) + [Ascii(")")]
  }

  /** What one directory entry adds to the archive. */
  lemma EntryStep(w: Output, fs: Fs, tree: Node, names: seq<Bytes>, i: nat, k: nat)
    requires fs.Dir? && WellFormed(fs) && tree == TreeOf(fs)
    requires i < |names| && ToSet(names) == ToSet(Names(fs.listing)) == tree.entries.Keys && ToSet(names[i..]) <= ToSet(names)
    requires k < |fs.listing| && fs.listing[k].name == names[i]
    ensures ToSet(names[i + 1..]) <= ToSet(names)
    ensures PutAll(w, EntryTokens(tree, names[i..]))
            == PutAll(PutAll(w, OneEntry(names[i], TreeOf(fs.listing[k].fs))), EntryTokens(tree, names[i + 1..]))
  {
    SetCons(names[i..]);
    assert names[i..][1..] == names[i + 1..];
    ChildrenAre(fs, |fs.listing|);
    PutAllAppend(w, OneEntry(names[i], TreeOf(fs.listing[k].fs)), EntryTokens(tree, names[i + 1..]));
  }

  /** Dump succeeds exactly when everything can be archived and the writer takes all of it, and then
      it has written the archive of the tree, in whatever order its directories were listed. */
  method Dump(fs: Fs, capacity: nat) returns (ok: bool, out: Bytes)
    requires WellFormed(fs)
    ensures ok <==> Archivable(fs) && |Archive(TreeOf(fs))| <= capacity
    ensures ok ==> out == Archive(TreeOf(fs))
  {
    var e := new Encoder(capacity);
    ghost var w, ts := e.Out(), [Ascii("nix-archive-1")] + Tokens(TreeOf(fs));
    PutAllIsPut(w, ts);
    assert ts[1..] == Tokens(TreeOf(fs));
    e.WriteStr(Ascii("nix-archive-1"));
    ok := e.Walk(fs);
    ok := ok && !e.err;
    out := e.written;
  }

  /** Two dumps of two trees, with the same room. When the trees are the same up to
      listing order, both fail or both write the same; and when both succeed and no string is too long
      for its length field, they write the same only then. */
  method DumpTwice(a: Fs, b: Fs, capacity: nat) returns (okA: bool, outA: Bytes, okB: bool, outB: Bytes)
    requires WellFormed(a) && WellFormed(b)
    ensures SameUpToOrder(a, b) ==> okA == okB && (okA ==> outA == outB)
    ensures okA && okB && Sized(TreeOf(a)) && Sized(TreeOf(b)) ==> (outA == outB <==> SameUpToOrder(a, b))
  {
    okA, outA := Dump(a, capacity);
    okB, outB := Dump(b, capacity);
    if SameUpToOrder(a, b) { ListingOrderForgotten(a, b); }
    if okA && okB && Sized(TreeOf(a)) && Sized(TreeOf(b)) {
      NarRoundTrip.ArchiveInjective(TreeOf(a), TreeOf(b));
      if TreeOf(a) == TreeOf(b) { OnlyOrderForgotten(a, b); }
    }
  }
}
