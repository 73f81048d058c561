/** Repairing the metadata against the blobs: exactly the bad rows and the paths that need them go. */
module Fsck {
  import opened Common

  /** A chunk row, by storage backend and hash. */
  datatype Row = Row(storage: string, hash: string)

  /** The id of a path row. */
  datatype PathId = PathId(id: int)

  datatype Path = Path(storage: string, chunks: seq<string>)

  datatype Store = Store(rows: set<Row>, paths: map<PathId, Path>)

  /** What looking at a row's blob finds. Content is only looked at when asked for. */
  datatype Finding = Good | MissingBlob | CorruptBlob

  /** The configured backends, in the order they are scanned, and what the check finds there. */
  datatype Scan = Scan(backends: seq<string>, find: Row -> Finding)

  predicate Bad(v: Scan, r: Row) { r.storage in v.backends && v.find(r) != Good }

  /** Every chunk of the path has a row, and none is known bad. */
  predicate Intact(v: Scan, rows: set<Row>, p: Path) {
    forall i :: 0 <= i < |p.chunks| ==> Row(p.storage, p.chunks[i]) in rows && !Bad(v, Row(p.storage, p.chunks[i]))
  }

  predicate Clean(v: Scan, s: Store) {
    (forall r :: r in s.rows ==> !Bad(v, r)) && forall id :: id in s.paths ==> Intact(v, s.rows, s.paths[id])
  }

  /** Some of the rows and paths of another store. */
  predicate Within(a: Store, b: Store) {
    a.rows <= b.rows && forall id :: id in a.paths ==> id in b.paths && a.paths[id] == b.paths[id]
  }

  /** What a repair leaves. */
  function Repaired(v: Scan, s: Store): Store {
    Store(set r | r in s.rows && !Bad(v, r),
          map id | id in s.paths && Intact(v, s.rows, s.paths[id]) :: s.paths[id])
  }

  /** A repair leaves the largest clean part of the store: what is left is clean, and whatever else is
      clean is part of it. So no good row and no path with all good chunks goes. */
  lemma RepairIsLargestClean(v: Scan, s: Store)
    ensures Clean(v, Repaired(v, s)) && Within(Repaired(v, s), s)
    ensures forall t: Store :: Within(t, s) && Clean(v, t) ==> Within(t, Repaired(v, s))
  {
    var r := Repaired(v, s);
    forall t: Store | Within(t, s) && Clean(v, t) ensures Within(t, r) {
      forall id | id in t.paths ensures id in r.paths && t.paths[id] == r.paths[id] {
        assert Intact(v, t.rows, t.paths[id]);
      }
    }
  }

  /** A second repair finds nothing to do, and a clean store is left as it is. */
  lemma RepairIsIdempotent(v: Scan, s: Store)
    ensures Repaired(v, Repaired(v, s)) == Repaired(v, s)
    ensures Clean(v, s) <==> Repaired(v, s) == s
  {
    RepairIsLargestClean(v, s);
    if Clean(v, s) { CleanIsKept(v, s); }
    CleanIsKept(v, Repaired(v, s));
  }

  lemma CleanIsKept(v: Scan, s: Store)
    requires Clean(v, s)
    ensures Repaired(v, s) == s
  {
    assert Repaired(v, s).rows == s.rows;
    forall id | id in s.paths ensures id in Repaired(v, s).paths { assert Intact(v, s.rows, s.paths[id]); }
    assert Repaired(v, s).paths == s.paths;
  }

  // ---- the keys rows are known by ----

  predicate NoSlash(s: string) { '/' !in s }

  function KeyOf(storage: string, hash: string): string { storage + "/" + hash }

  /** Chunk hashes are hexadecimal, so a key has its last slash before the hash. */
  lemma KeyInjective(s: string, h: string, s': string, h': string)
    requires NoSlash(h) && NoSlash(h') && KeyOf(s, h) == KeyOf(s', h')
    ensures s == s' && h == h'
  {
    var k := KeyOf(s, h);
    assert k == KeyOf(s', h') && k[|s|] == '/' && k[|s'|] == '/';
    assert forall i :: |s| < i < |k| ==> k[i] == h[i - |s| - 1];
    assert forall i :: |s'| < i < |k| ==> k[i] == h'[i - |s'| - 1];
    assert s == k[..|s|] && s' == k[..|s'|] && h == k[|s| + 1..] && h' == k[|s'| + 1..];
  }

  predicate Hex(s: Store) {
    && (forall r :: r in s.rows ==> NoSlash(r.hash))
    && forall id, i :: id in s.paths && 0 <= i < |s.paths[id].chunks| ==> NoSlash(s.paths[id].chunks[i])
  }

  function KeysOf(rows: set<Row>): set<string> { set r | r in rows :: KeyOf(r.storage, r.hash) }

  lemma KeyPresent(rows: set<Row>, r: Row)
    requires NoSlash(r.hash) && forall x :: x in rows ==> NoSlash(x.hash)
    ensures KeyOf(r.storage, r.hash) in KeysOf(rows) <==> r in rows
  {
    if KeyOf(r.storage, r.hash) in KeysOf(rows) {
      var x :| x in rows && KeyOf(x.storage, x.hash) == KeyOf(r.storage, r.hash);
      KeyInjective(x.storage, x.hash, r.storage, r.hash);
    }
  }

  const BATCH: nat := 900

  function Ids(ids: seq<PathId>): set<PathId> { set id | id in ids }

  function RowsOf(storage: string, hashes: seq<string>): set<Row> { set h | h in hashes :: Row(storage, h) }

  // ---- the database ----

  class DB {
    var rows: set<Row>
    var paths: map<PathId, Path>

    function View(): Store reads this { Store(rows, paths) }

    /** The paths that reference a hash whose key is listed, or that has no row. */
    method PathsWithMissingChunks(extraBad: seq<string>, ghost bad: set<Row>) returns (out: seq<PathId>)
      requires Hex(View())
      requires bad <= rows && forall k :: k in extraBad <==> k in KeysOf(bad)
      ensures forall id :: id in out <==> id in paths && Misses(paths[id], rows - bad)
      ensures NoRepeats(out)
    {
      var present := KeysOf(rows);
      for i := 0 to |extraBad|
        invariant present == KeysOf(rows) - (set k | k in extraBad[..i])
      {
        present := present - {extraBad[i]};
        assert extraBad[..i + 1] == extraBad[..i] + [extraBad[i]];
      }
      assert extraBad[..|extraBad|] == extraBad;
      PresentIs(rows, bad, present);
      out := [];
      var left := paths.Keys;
      while left != {}
        invariant left <= paths.Keys
        invariant forall id :: id in out <==> id in paths && id !in left && Misses(paths[id], rows - bad)
        invariant NoRepeats(out)
        decreases |left|
      {
        SomeElement(left);
        var id :| id in left;
        left := left - {id};
        var p := paths[id];
        var broken := false;
        for i := 0 to |p.chunks|
          invariant !broken && forall k :: 0 <= k < i ==> Row(p.storage, p.chunks[k]) in rows - bad
        {
          KeyPresent(rows - bad, Row(p.storage, p.chunks[i]));
          if KeyOf(p.storage, p.chunks[i]) !in present {
            broken := true;
            break;
          }
        }
        assert broken <==> Misses(p, rows - bad);
        if broken { out := out + [id]; }
      }
    }

    method DeletePaths(ids: seq<PathId>)
      modifies this
      ensures rows == old(rows) && paths == old(paths) - Ids(ids)
    {
      var i := 0;
      while i < |ids|
        invariant i <= |ids| && rows == old(rows) && paths == old(paths) - Ids(ids[..i])
      {
        var n := Min(BATCH, |ids| - i);
        assert ids[..i + n] == ids[..i] + ids[i..i + n];
        paths := paths - Ids(ids[i..i + n]);
        i := i + n;
      }
      assert ids[..|ids|] == ids;
    }

    method DeleteChunkRows(storage: string, hashes: seq<string>)
      modifies this
      ensures paths == old(paths) && rows == old(rows) - RowsOf(storage, hashes)
    {
      var i := 0;
      while i < |hashes|
        invariant i <= |hashes| && paths == old(paths)
        invariant rows == old(rows) - RowsOf(storage, hashes[..i])
      {
        var n := Min(BATCH, |hashes| - i);
        assert hashes[..i + n] == hashes[..i] + hashes[i..i + n];
        rows := rows - RowsOf(storage, hashes[i..i + n]);
        i := i + n;
      }
      assert hashes[..|hashes|] == hashes;
    }
  }

  predicate Misses(p: Path, rows: set<Row>) {
    exists i :: 0 <= i < |p.chunks| && Row(p.storage, p.chunks[i]) !in rows
  }

  lemma PresentIs(rows: set<Row>, bad: set<Row>, present: set<string>)
    requires bad <= rows && forall r :: r in rows ==> NoSlash(r.hash)
    requires present == KeysOf(rows) - KeysOf(bad)
    ensures present == KeysOf(rows - bad)
  {
    forall r | r in rows ensures KeyOf(r.storage, r.hash) in KeysOf(bad) <==> r in bad { KeyPresent(bad, r); }
  }

  // ---- fsck ----

  /** How many rows were looked at, or how many are bad and how many paths need them. */
  datatype Report = AllIntact(rows: nat) | NeedsRepair(badRows: nat, brokenPaths: nat) | Healed(badRows: nat, brokenPaths: nat)

  /** The rows of the first n backends. */
  function RowsIn(v: Scan, rows: set<Row>, n: nat): set<Row>
    requires n <= |v.backends|
  {
    set r | r in rows && r.storage in v.backends[..n]
  }

  /** The rows of the first n backends that are bad. */
  function BadIn(v: Scan, rows: set<Row>, n: nat): set<Row>
    requires n <= |v.backends|
  {
    set r | r in rows && r.storage in v.backends[..n] && v.find(r) != Good
  }

  /** The rows that a scan finds bad, and the paths that need them or have no row. */
  function BadRows(v: Scan, s: Store): set<Row> { set r | r in s.rows && Bad(v, r) }

  function Broken(v: Scan, s: Store): set<PathId> { set id | id in s.paths && !Intact(v, s.rows, s.paths[id]) }

  /** They are what a repair takes away. */
  lemma RepairTakesAway(v: Scan, s: Store)
    ensures Repaired(v, s).rows == s.rows - BadRows(v, s) && Repaired(v, s).paths == s.paths - Broken(v, s)
    ensures BadRows(v, s) <= s.rows && Broken(v, s) <= s.paths.Keys
  {
  }

  function OfBackend(rows: set<Row>, name: string): set<Row> { set r | r in rows && r.storage == name }

  /** Scans one backend's rows; gives the hashes of the bad ones, each once, and how many rows it has. */
  method ScanBackend(v: Scan, rows: set<Row>, name: string) returns (bad: seq<string>, total: nat)
    ensures RowsOf(name, bad) == set r | r in rows && r.storage == name && v.find(r) != Good
    ensures NoRepeats(bad) && total == |OfBackend(rows, name)|
  {
    bad := [];
    var left := OfBackend(rows, name);
    total := |left|;
    while left != {}
      invariant left <= rows && forall r :: r in left ==> r.storage == name
      invariant forall h :: h in bad <==> Row(name, h) in rows && Row(name, h) !in left && v.find(Row(name, h)) != Good
      invariant NoRepeats(bad)
      decreases |left|
    {
      assert exists r :: r in left;
      var r :| r in left;
      left := left - {r};
      if v.find(r) != Good { bad := bad + [r.hash]; }
    }
  }

  lemma {:induction false} SizeOfRows(name: string, hashes: seq<string>)
    requires NoRepeats(hashes)
    ensures |RowsOf(name, hashes)| == |hashes|
  {
    if hashes == [] {
      assert RowsOf(name, hashes) == {};
    } else {
      SizeOfRows(name, hashes[1..]);
      assert hashes == [hashes[0]] + hashes[1..];
      assert RowsOf(name, hashes) == RowsOf(name, hashes[1..]) + {Row(name, hashes[0])};
    }
  }

  lemma {:induction false} SizeOfIds(ids: seq<PathId>)
    requires NoRepeats(ids)
    ensures |Ids(ids)| == |ids|
  {
    if ids == [] {
      assert Ids(ids) == {};
    } else {
      SizeOfIds(ids[1..]);
      assert ids == [ids[0]] + ids[1..];
      assert Ids(ids) == Ids(ids[1..]) + {ids[0]};
    }
  }

  /** One backend more. */
  lemma NextBackend(v: Scan, rows: set<Row>, n: nat, bad: seq<string>)
    requires n < |v.backends| && NoRepeats(v.backends) && NoRepeats(bad)
    requires RowsOf(v.backends[n], bad) == set r | r in rows && r.storage == v.backends[n] && v.find(r) != Good
    ensures BadIn(v, rows, n + 1) == BadIn(v, rows, n) + RowsOf(v.backends[n], bad)
    ensures |BadIn(v, rows, n + 1)| == |BadIn(v, rows, n)| + |bad|
    ensures |RowsIn(v, rows, n + 1)| == |RowsIn(v, rows, n)| + |OfBackend(rows, v.backends[n])|
  {
    var name := v.backends[n];
    assert v.backends[..n + 1] == v.backends[..n] + [name];
    assert name !in v.backends[..n];
    assert BadIn(v, rows, n + 1) == BadIn(v, rows, n) + RowsOf(name, bad);
    assert BadIn(v, rows, n) !! RowsOf(name, bad);
    assert RowsIn(v, rows, n + 1) == RowsIn(v, rows, n) + OfBackend(rows, name);
    assert RowsIn(v, rows, n) !! OfBackend(rows, name);
    SizeOfRows(name, bad);
  }

  lemma KeysOfMore(bad: set<Row>, name: string, hashes: seq<string>)
    ensures KeysOf(bad + RowsOf(name, hashes)) == KeysOf(bad) + (set h | h in hashes :: KeyOf(name, h))
  {
    forall h | h in hashes ensures KeyOf(name, h) in KeysOf(bad + RowsOf(name, hashes)) {
      assert Row(name, h) in RowsOf(name, hashes);
    }
  }

  /** What a scan has after n backends: a key for each bad row, and how many rows there were. */
  ghost predicate Found(v: Scan, rows: set<Row>, n: nat, badKeys: seq<string>, total: nat) {
    && n <= |v.backends|
    && (forall k :: k in badKeys <==> k in KeysOf(BadIn(v, rows, n)))
    && |badKeys| == |BadIn(v, rows, n)| && total == |RowsIn(v, rows, n)|
  }

  lemma FoundMore(v: Scan, rows: set<Row>, n: nat, badKeys: seq<string>, total: nat, bad: seq<string>, keys: seq<string>)
    requires Found(v, rows, n, badKeys, total) && n < |v.backends| && NoRepeats(v.backends) && NoRepeats(bad)
    requires RowsOf(v.backends[n], bad) == set r | r in rows && r.storage == v.backends[n] && v.find(r) != Good
    requires |keys| == |bad| && forall k :: k in keys <==> k in set h | h in bad :: KeyOf(v.backends[n], h)
    ensures Found(v, rows, n + 1, badKeys + keys, total + |OfBackend(rows, v.backends[n])|)
  {
    var name := v.backends[n];
    assert KeysOf(BadIn(v, rows, n + 1)) == KeysOf(BadIn(v, rows, n)) + (set h | h in bad :: KeyOf(name, h)) by {
      NextBackend(v, rows, n, bad);
      KeysOfMore(BadIn(v, rows, n), name, bad);
    }
    assert |BadIn(v, rows, n + 1)| == |BadIn(v, rows, n)| + |bad| by { NextBackend(v, rows, n, bad); }
    assert |RowsIn(v, rows, n + 1)| == |RowsIn(v, rows, n)| + |OfBackend(rows, name)| by {
      NextBackend(v, rows, n, bad);
    }
  }

  /** Scans every backend: the keys of the bad rows, one each, their hashes by backend, and how many rows
      there are. */
  method ScanAll(v: Scan, rows: set<Row>)
    returns (badKeys: seq<string>, byBackend: map<string, seq<string>>, total: nat)
    requires NoRepeats(v.backends)
    ensures Found(v, rows, |v.backends|, badKeys, total)
    ensures byBackend.Keys == Names(v.backends)
    ensures forall name :: name in byBackend ==>
              RowsOf(name, byBackend[name]) == set r | r in rows && r.storage == name && v.find(r) != Good
  {
    badKeys, byBackend, total := [], map[], 0;
    assert BadIn(v, rows, 0) == {} && RowsIn(v, rows, 0) == {};
    for n := 0 to |v.backends|
      invariant Found(v, rows, n, badKeys, total)
      invariant byBackend.Keys == Names(v.backends[..n])
      invariant forall name :: name in byBackend ==>
                  RowsOf(name, byBackend[name]) == set r | r in rows && r.storage == name && v.find(r) != Good
    {
      var name := v.backends[n];
      var bad, count := ScanBackend(v, rows, name);
      var keys := KeyList(name, bad);
      FoundMore(v, rows, n, badKeys, total, bad, keys);
      assert v.backends[..n + 1] == v.backends[..n] + [name];
      badKeys, total := badKeys + keys, total + count;
      byBackend := byBackend[name := bad];
    }
    assert v.backends[..|v.backends|] == v.backends;
  }

  function Names(s: seq<string>): set<string> { set n | n in s }

  method KeyList(name: string, hashes: seq<string>) returns (keys: seq<string>)
    ensures |keys| == |hashes| && forall k :: k in keys <==> k in set h | h in hashes :: KeyOf(name, h)
  {
    keys := seq(|hashes|, i requires 0 <= i < |hashes| => KeyOf(name, hashes[i]));
    forall h | h in hashes ensures KeyOf(name, h) in keys {
      var i :| 0 <= i < |hashes| && hashes[i] == h;
      assert keys[i] == KeyOf(name, h);
    }
  }

  /** A path misses a good row exactly when it is not intact. */
  lemma MissesExactlyWhenNotIntact(v: Scan, rows: set<Row>, p: Path)
    ensures Misses(p, rows - BadIn(v, rows, |v.backends|)) <==> !Intact(v, rows, p)
  {
    assert v.backends[..|v.backends|] == v.backends;
    forall i | 0 <= i < |p.chunks|
      ensures Row(p.storage, p.chunks[i]) in rows - BadIn(v, rows, |v.backends|)
              <==> Row(p.storage, p.chunks[i]) in rows && !Bad(v, Row(p.storage, p.chunks[i]))
    {
    }
  }

  /** One fsck of a store nobody else writes to. It reports a clean store as such and changes nothing;
      it changes nothing without repair; and a repair leaves exactly the repaired store. The numbers are
      those of the rows of the configured backends, of the bad ones, and of the broken paths. */
  method RunFsck(db: DB, v: Scan, repair: bool) returns (r: Report)
    requires Hex(db.View())
    requires NoRepeats(v.backends)
    modifies db
    ensures r.AllIntact? <==> Clean(v, old(db.View()))
    ensures r.AllIntact? <==>
              && (forall x :: x in old(db.rows) && x.storage in v.backends ==> v.find(x) == Good)
              && (forall id, i :: id in old(db.paths) && 0 <= i < |old(db.paths)[id].chunks|
                                  ==> Row(old(db.paths)[id].storage, old(db.paths)[id].chunks[i]) in old(db.rows))
    ensures r.Healed? ==> forall x :: x in db.rows <==> x in old(db.rows) && (x.storage in v.backends ==> v.find(x) == Good)
    ensures db.View() == if r.Healed? then Repaired(v, old(db.View())) else old(db.View())
    ensures r.Healed? <==> repair && !Clean(v, old(db.View()))
    ensures r.AllIntact? ==> r.rows == |set x | x in old(db.rows) && x.storage in v.backends|
    ensures !r.AllIntact? ==>
              r.badRows == |BadRows(v, old(db.View()))| && r.brokenPaths == |Broken(v, old(db.View()))|
  {
    var badKeys, byBackend, total := ScanAll(v, db.rows);
    ghost var bad := BadIn(v, db.rows, |v.backends|);
    var danglers := db.PathsWithMissingChunks(badKeys, bad);
    ghost var s := db.View();
    forall id | id in s.paths ensures id in danglers <==> !Intact(v, s.rows, s.paths[id]) {
      MissesExactlyWhenNotIntact(v, s.rows, s.paths[id]);
    }
    ReportsClean(v, s, badKeys, danglers);
    CountsAreRight(v, s, danglers);
    CleanMeans(v, s);
    assert v.backends[..|v.backends|] == v.backends;
    assert RowsIn(v, s.rows, |v.backends|) == set x | x in s.rows && x.storage in v.backends;
    if |badKeys| == 0 && |danglers| == 0 { return AllIntact(total); }
    if !repair { return NeedsRepair(|badKeys|, |danglers|); }
    Heal(db, v, danglers, byBackend);
    return Healed(|badKeys|, |danglers|);
  }

  /** A clean store has good rows only, and a row for every chunk. */
  lemma CleanMeans(v: Scan, s: Store)
    ensures Clean(v, s) <==>
              && (forall x :: x in s.rows && x.storage in v.backends ==> v.find(x) == Good)
              && (forall id, i :: id in s.paths && 0 <= i < |s.paths[id].chunks|
                                  ==> Row(s.paths[id].storage, s.paths[id].chunks[i]) in s.rows)
  {
    if Clean(v, s) {
      forall id, i | id in s.paths && 0 <= i < |s.paths[id].chunks|
        ensures Row(s.paths[id].storage, s.paths[id].chunks[i]) in s.rows
      {
        assert Intact(v, s.rows, s.paths[id]);
      }
    }
  }

  lemma CountsAreRight(v: Scan, s: Store, danglers: seq<PathId>)
    requires NoRepeats(danglers) && Ids(danglers) == Broken(v, s)
    ensures |danglers| == |Broken(v, s)| && BadIn(v, s.rows, |v.backends|) == BadRows(v, s)
  {
    SizeOfIds(danglers);
    assert v.backends[..|v.backends|] == v.backends;
  }

  /** Drops the broken paths first, then the bad rows of one backend after another. */
  method Heal(db: DB, v: Scan, danglers: seq<PathId>, byBackend: map<string, seq<string>>)
    requires forall id :: id in db.paths ==> (id in danglers <==> !Intact(v, db.rows, db.paths[id]))
    requires byBackend.Keys == Names(v.backends)
    requires forall name :: name in byBackend ==>
               RowsOf(name, byBackend[name]) == set r | r in db.rows && r.storage == name && v.find(r) != Good
    modifies db
    ensures db.View() == Repaired(v, old(db.View()))
  {
    ghost var s := db.View();
    db.DeletePaths(danglers);
    assert s.paths - Ids(danglers) == Repaired(v, s).paths;
    var left := byBackend.Keys;
    assert byBackend.Keys - left == {} && db.rows == HealedRows(v, s.rows, {});
    while left != {}
      invariant left <= byBackend.Keys && db.paths == Repaired(v, s).paths
      invariant db.rows == HealedRows(v, s.rows, byBackend.Keys - left)
      decreases |left|
    {
      SomeElement(left);
      var name :| name in left;
      HealOne(v, s.rows, byBackend.Keys - left, name, byBackend[name]);
      assert byBackend.Keys - (left - {name}) == byBackend.Keys - left + {name};
      left := left - {name};
      db.DeleteChunkRows(name, byBackend[name]);
    }
    assert byBackend.Keys - left == byBackend.Keys;
    assert HealedRows(v, s.rows, Names(v.backends)) == Repaired(v, s).rows;
  }

  lemma HealOne(v: Scan, rows: set<Row>, names: set<string>, name: string, bad: seq<string>)
    requires RowsOf(name, bad) == set r | r in rows && r.storage == name && v.find(r) != Good
    ensures HealedRows(v, rows, names + {name}) == HealedRows(v, rows, names) - RowsOf(name, bad)
  {
  }

  /** The rows left when these backends have been healed. */
  function HealedRows(v: Scan, rows: set<Row>, names: set<string>): set<Row> {
    set r | r in rows && (r.storage in names ==> v.find(r) == Good)
  }

  lemma ReportsClean(v: Scan, s: Store, badKeys: seq<string>, danglers: seq<PathId>)
    requires forall k :: k in badKeys <==> k in KeysOf(BadIn(v, s.rows, |v.backends|))
    requires forall id :: id in danglers <==> id in s.paths && Misses(s.paths[id], s.rows - BadIn(v, s.rows, |v.backends|))
    ensures badKeys == [] && danglers == [] <==> Clean(v, s)
  {
    var bad := BadIn(v, s.rows, |v.backends|);
    assert v.backends[..|v.backends|] == v.backends;
    forall id | id in s.paths ensures id in danglers <==> !Intact(v, s.rows, s.paths[id]) {
      MissesExactlyWhenNotIntact(v, s.rows, s.paths[id]);
    }
    if badKeys == [] {
      forall r | r in s.rows ensures !Bad(v, r) {
        assert r in bad ==> KeyOf(r.storage, r.hash) in KeysOf(bad);
      }
    } else {
      assert badKeys[0] in badKeys;
      var r :| r in bad && KeyOf(r.storage, r.hash) == badKeys[0];
      assert Bad(v, r);
    }
    if danglers != [] {
      assert danglers[0] in danglers;
      assert !Intact(v, s.rows, s.paths[danglers[0]]);
    }
  }
}
