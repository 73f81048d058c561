/** The sweep of a storage backend that nobody else is writing to: exactly the garbage goes. What it
    does among concurrent requests is the subject of RowSafety and BlobSafety. */
module QuiescentSweep {
  import opened Common
  import Eviction

  datatype Row = Row(created: int, csize: nat)

  const BATCH: nat := 500

  function Elements(s: seq<string>): set<string> { set h | h in s }

  /** The chunks some path lists. */
  function Live(paths: seq<seq<string>>): set<string> {
    set p, h | p in paths && h in p :: h
  }

  /** The rows no path references and that are older than the cutoff. */
  function Garbage(rows: map<string, Row>, paths: seq<seq<string>>, cutoff: int): set<string> {
    set h | h in rows && h !in Live(paths) && rows[h].created < cutoff
  }

  function Sizes(rows: map<string, Row>): map<string, nat> {
    map h | h in rows :: rows[h].csize
  }

  lemma TotalMore(hs: set<string>, x: string, sizes: map<string, nat>)
    requires x !in hs && x in sizes
    ensures Eviction.Total(hs + {x}, sizes) == Eviction.Total(hs, sizes) + sizes[x]
  {
    Eviction.TotalRemove(hs + {x}, x, sizes);
    assert hs + {x} - {x} == hs;
  }

  class Store {
    var rows: map<string, Row>
    var blobs: set<string>
    var paths: seq<seq<string>>

    method LiveChunkSet() returns (live: set<string>)
      ensures live == Live(paths)
    {
      live := {};
      for i := 0 to |paths|
        invariant live == Live(paths[..i])
      {
        assert paths[..i + 1] == paths[..i] + [paths[i]];
        live := live + Elements(paths[i]);
      }
      assert paths[..|paths|] == paths;
    }

    /** The candidates, in the order the rows come, each once. */
    method Candidates(live: set<string>, cutoff: int) returns (cand: seq<string>)
      ensures NoRepeats(cand)
      ensures Elements(cand) == set h | h in rows && h !in live && rows[h].created < cutoff
    {
      cand := [];
      var left := rows.Keys;
      while left != {}
        invariant left <= rows.Keys && NoRepeats(cand)
        invariant forall h :: h in cand <==> h in rows && h !in left && h !in live && rows[h].created < cutoff
        decreases |left|
      {
        SomeElement(left);
        var h :| h in left;
        left := left - {h};
        if !(h in live || rows[h].created >= cutoff) { cand := cand + [h]; }
      }
    }

    /** One transaction: deletes the rows of the batch that are still old enough, and names them. */
    method DeleteRowsIf(batch: seq<string>, cutoff: int) returns (gone: seq<string>)
      requires NoRepeats(batch)
      modifies `rows
      ensures NoRepeats(gone)
      ensures Elements(gone) == set h | h in batch && h in old(rows) && old(rows)[h].created < cutoff
      ensures rows == old(rows) - Elements(gone)
    {
      gone := [];
      for i := 0 to |batch|
        invariant rows == old(rows) && NoRepeats(gone)
        invariant forall h :: h in gone <==> h in batch[..i] && h in rows && rows[h].created < cutoff
      {
        assert batch[..i + 1] == batch[..i] + [batch[i]];
        if batch[i] in rows && rows[batch[i]].created < cutoff { gone := gone + [batch[i]]; }
      }
      assert batch[..|batch|] == batch;
      rows := rows - Elements(gone);
    }

    method DeleteBlobs(keys: seq<string>)
      modifies `blobs
      ensures blobs == old(blobs) - Elements(keys)
    {
      for i := 0 to |keys|
        invariant blobs == old(blobs) - Elements(keys[..i])
      {
        assert keys[..i + 1] == keys[..i] + [keys[i]];
        blobs := blobs - {keys[i]};
      }
      assert keys[..|keys|] == keys;
    }

    /** A sweep removes the rows and blobs of exactly the garbage, and reports its count and size. */
    method GC(cutoff: int) returns (deleted: nat, freed: nat)
      modifies `rows, `blobs
      ensures forall h :: h in rows <==> h in old(rows) && ((exists p :: p in paths && h in p) || old(rows)[h].created >= cutoff)
      ensures rows == old(rows) - Garbage(old(rows), paths, cutoff)
      ensures blobs == old(blobs) - Garbage(old(rows), paths, cutoff)
      ensures deleted == |Garbage(old(rows), paths, cutoff)|
      ensures freed == Eviction.Total(Garbage(old(rows), paths, cutoff), Sizes(old(rows)))
    {
      var live := LiveChunkSet();
      var cand := Candidates(live, cutoff);
      assert Elements(cand) == Garbage(rows, paths, cutoff);
      forall h | h in cand ensures h in rows && rows[h].created < cutoff { assert h in Elements(cand); }
      deleted, freed := SweepAll(cand, cutoff, Sizes(rows));
    }

    /** The candidates, batch by batch. */
    method SweepAll(cand: seq<string>, cutoff: int, byHash: map<string, nat>) returns (deleted: nat, freed: nat)
      requires NoRepeats(cand) && Elements(cand) <= byHash.Keys
      requires forall h :: h in cand ==> h in rows && rows[h].created < cutoff
      modifies `rows, `blobs
      ensures rows == old(rows) - Elements(cand) && blobs == old(blobs) - Elements(cand)
      ensures deleted == |Elements(cand)| && freed == Eviction.Total(Elements(cand), byHash)
    {
      ghost var before, done := rows, {};
      deleted, freed := 0, 0;
      var i := 0;
      while i < |cand|
        invariant i <= |cand| && done == Elements(cand[..i])
        invariant rows == before - done && blobs == old(blobs) - done
        invariant deleted == |done| && freed == Eviction.Total(done, byHash)
      {
        var n := if |cand| - i < BATCH then |cand| - i else BATCH;
        var batch := cand[i..i + n];
        BatchIsFresh(cand, i, n);
        OldEnough(before, cand, done, batch, cutoff);
        deleted, freed := SweepBatch(batch, cutoff, done, byHash, deleted, freed);
        MinusTwice(before, old(blobs), done, Elements(batch));
        done := done + Elements(batch);
        i := i + n;
      }
      assert cand[..i] == cand;
    }

    /** One batch: the rows, then their blobs, then the totals. */
    method SweepBatch(batch: seq<string>, cutoff: int, ghost done: set<string>, byHash: map<string, nat>, deleted: nat, freed: nat)
      returns (d: nat, f: nat)
      requires NoRepeats(batch) && done !! Elements(batch) && Elements(batch) <= byHash.Keys
      requires forall h :: h in batch ==> h in rows && rows[h].created < cutoff
      requires deleted == |done| && freed == Eviction.Total(done, byHash)
      modifies `rows, `blobs
      ensures rows == old(rows) - Elements(batch) && blobs == old(blobs) - Elements(batch)
      ensures d == |done + Elements(batch)| && f == Eviction.Total(done + Elements(batch), byHash)
    {
      var gone := DeleteRowsIf(batch, cutoff);
      assert Elements(gone) == Elements(batch);
      DeleteBlobs(gone);
      d, f := Counted(done, gone, byHash, deleted, freed);
    }
  }

  lemma MinusTwice(rows: map<string, Row>, blobs: set<string>, a: set<string>, b: set<string>)
    ensures rows - a - b == rows - (a + b) && blobs - a - b == blobs - (a + b)
  {
  }

  lemma OldEnough(before: map<string, Row>, cand: seq<string>, done: set<string>, batch: seq<string>, cutoff: int)
    requires forall h :: h in cand ==> h in before && before[h].created < cutoff
    requires Elements(batch) <= Elements(cand) && done !! Elements(batch)
    ensures forall h :: h in batch ==> h in before - done && (before - done)[h].created < cutoff
  {
    forall h | h in batch ensures h in cand && h !in done { assert h in Elements(batch); }
  }

  lemma BatchIsFresh(cand: seq<string>, i: nat, n: nat)
    requires i + n <= |cand| && NoRepeats(cand)
    ensures NoRepeats(cand[i..i + n]) && Elements(cand[..i + n]) == Elements(cand[..i]) + Elements(cand[i..i + n])
    ensures Elements(cand[..i]) !! Elements(cand[i..i + n])
    ensures Elements(cand[i..i + n]) <= Elements(cand)
  {
    assert cand[..i + n] == cand[..i] + cand[i..i + n];
    forall h | h in cand[..i] ensures h !in cand[i..i + n] {
      var k :| 0 <= k < i && cand[k] == h;
    }
  }

  lemma OneMore(done: set<string>, gone: seq<string>, i: nat)
    requires i < |gone| && NoRepeats(gone) && done !! Elements(gone)
    ensures gone[i] in Elements(gone) && gone[i] !in done + Elements(gone[..i])
    ensures done + Elements(gone[..i + 1]) == done + Elements(gone[..i]) + {gone[i]}
  {
    assert gone[..i + 1] == gone[..i] + [gone[i]];
    assert gone[i] in Elements(gone);
  }

  /** Adds what a batch removed to the totals. */
  method Counted(ghost done: set<string>, gone: seq<string>, byHash: map<string, nat>, deleted: nat, freed: nat)
    returns (d: nat, f: nat)
    requires NoRepeats(gone) && done !! Elements(gone) && Elements(gone) <= byHash.Keys
    requires deleted == |done| && freed == Eviction.Total(done, byHash)
    ensures d == |done + Elements(gone)| && f == Eviction.Total(done + Elements(gone), byHash)
  {
    d, f := deleted, freed;
    ghost var so := done;
    for i := 0 to |gone|
      invariant so == done + Elements(gone[..i])
      invariant d == |so| && f == Eviction.Total(so, byHash)
    {
      OneMore(done, gone, i);
      TotalMore(so, gone[i], byHash);
      so := so + {gone[i]};
      d, f := d + 1, f + byHash[gone[i]];
    }
    assert gone[..|gone|] == gone;
  }
}
