/** Storage caps: which paths to evict so that what remains fits. */
module Eviction {
  import opened Common

  datatype PathRow = PathRow(id: int, accessed: int, chunks: seq<string>)

  function SizeOf(h: string, csize: map<string, nat>): nat {
    if h in csize then csize[h] else 0
  }

  /** The chunks some path references. */
  function Referenced(ps: seq<PathRow>): set<string> {
    set i, j | 0 <= i < |ps| && 0 <= j < |ps[i].chunks| :: ps[i].chunks[j]
  }

  /** The total size of a set of chunks. */
  ghost function Total(hs: set<string>, csize: map<string, nat>): nat {
    if hs == {} then 0
    else
      var h :| h in hs;
      SizeOf(h, csize) + Total(hs - {h}, csize)
  }

  /** What the paths cost to keep: each referenced chunk once. */
  ghost function Footprint(ps: seq<PathRow>, csize: map<string, nat>): nat {
    Total(Referenced(ps), csize)
  }

  lemma {:induction false} TotalRemove(hs: set<string>, x: string, csize: map<string, nat>)
    requires x in hs
    ensures Total(hs, csize) == (if x in csize then csize[x] else 0) + Total(hs - {x}, csize)
    decreases |hs|
  {
    var h :| h in hs && Total(hs, csize) == SizeOf(h, csize) + Total(hs - {h}, csize);
    assert SizeOf(h, csize) == if h in csize then csize[h] else 0;
    if h != x {
      TotalRemove(hs - {h}, x, csize);
      assert hs - {h} - {x} == hs - {x} - {h};
      TotalRemove(hs - {x}, h, csize);
    }
  }

  /** How often the paths list a chunk. */
  function Count(ps: seq<PathRow>, h: string): nat {
    if ps == [] then 0 else multiset(ps[0].chunks)[h] + Count(ps[1..], h)
  }

  lemma {:induction false} CountReferenced(ps: seq<PathRow>, h: string)
    ensures Count(ps, h) > 0 <==> h in Referenced(ps)
  {
    if ps == [] {
    } else {
      CountReferenced(ps[1..], h);
      ReferencedCons(ps);
    }
  }

  lemma ReferencedCons(ps: seq<PathRow>)
    requires ps != []
    ensures forall h :: h in Referenced(ps) <==> h in ps[0].chunks || h in Referenced(ps[1..])
  {
    forall h | h in Referenced(ps) ensures h in ps[0].chunks || h in Referenced(ps[1..]) {
      var i, j :| 0 <= i < |ps| && 0 <= j < |ps[i].chunks| && ps[i].chunks[j] == h;
      if i > 0 { assert ps[1..][i - 1].chunks[j] == h; }
    }
    forall h | h in ps[0].chunks || h in Referenced(ps[1..]) ensures h in Referenced(ps) {
      if h in ps[0].chunks {
        var j :| 0 <= j < |ps[0].chunks| && ps[0].chunks[j] == h;
      } else {
        var i, j :| 0 <= i < |ps[1..]| && 0 <= j < |ps[1..][i].chunks| && ps[1..][i].chunks[j] == h;
        assert ps[i + 1].chunks[j] == h;
      }
    }
  }

  // ---- reference counts ----

  /** A count for every chunk, absent meaning zero, and the total size of what is counted. */
  datatype Books = Books(ref: map<string, nat>, total: int)

  function RefOf(ref: map<string, nat>, h: string): nat {
    if h in ref then ref[h] else 0
  }

  ghost function Live(ref: map<string, nat>): set<string> {
    set h | h in ref && ref[h] > 0
  }

  /** The running total is the size of exactly the chunks with a positive count. */
  ghost predicate Balanced(b: Books, csize: map<string, nat>) {
    b.total == Total(Live(b.ref), csize)
  }

  /** The books describe these paths. */
  ghost predicate Describes(b: Books, ps: seq<PathRow>, csize: map<string, nat>) {
    Balanced(b, csize) && forall h :: RefOf(b.ref, h) == Count(ps, h)
  }

  lemma DescribesFootprint(b: Books, ps: seq<PathRow>, csize: map<string, nat>)
    requires Describes(b, ps, csize)
    ensures b.total == Footprint(ps, csize)
  {
    forall h ensures h in Live(b.ref) <==> h in Referenced(ps) {
      CountReferenced(ps, h);
      assert RefOf(b.ref, h) == Count(ps, h);
    }
    assert Live(b.ref) == Referenced(ps);
  }

  /** A chunk's size enters the total with its first reference, */
  lemma Gained(ref: map<string, nat>, h: string, csize: map<string, nat>)
    ensures Total(Live(ref[h := RefOf(ref, h) + 1]), csize)
            == Total(Live(ref), csize) + if RefOf(ref, h) == 0 then SizeOf(h, csize) else 0
  {
    var more := ref[h := RefOf(ref, h) + 1];
    TotalRemove(Live(more), h, csize);
    if RefOf(ref, h) > 0 { assert Live(more) == Live(ref); } else { assert Live(more) - {h} == Live(ref); }
  }

  /** and leaves it with its last. */
  lemma Lost(ref: map<string, nat>, h: string, csize: map<string, nat>)
    requires RefOf(ref, h) > 0
    ensures Total(Live(ref[h := RefOf(ref, h) - 1]), csize)
            == Total(Live(ref), csize) - if RefOf(ref, h) == 1 then SizeOf(h, csize) else 0
  {
    var less := ref[h := RefOf(ref, h) - 1];
    TotalRemove(Live(ref), h, csize);
    if RefOf(ref, h) > 1 { assert Live(less) == Live(ref); } else { assert Live(less) == Live(ref) - {h}; }
  }

  /** Counts one path in. */
  method AddPath(b: Books, chunks: seq<string>, csize: map<string, nat>) returns (r: Books)
    requires Balanced(b, csize)
    ensures Balanced(r, csize)
    ensures forall h :: RefOf(r.ref, h) == RefOf(b.ref, h) + multiset(chunks)[h]
  {
    r := b;
    for j := 0 to |chunks|
      invariant Balanced(r, csize)
      invariant forall h :: RefOf(r.ref, h) == RefOf(b.ref, h) + multiset(chunks[..j])[h]
    {
      var h := chunks[j];
      var ref, total := r.ref, r.total;
      if RefOf(ref, h) == 0 {
        total := total + SizeOf(h, csize);
      }
      Gained(ref, h, csize);
      r := Books(ref[h := RefOf(ref, h) + 1], total);
      assert chunks[..j + 1] == chunks[..j] + [h];
    }
    assert chunks[..|chunks|] == chunks;
  }

  /** Counts one path out; a chunk's size leaves the total with its last reference. */
  method RemovePath(b: Books, chunks: seq<string>, csize: map<string, nat>) returns (r: Books)
    requires Balanced(b, csize)
    requires forall h :: RefOf(b.ref, h) >= multiset(chunks)[h]
    ensures Balanced(r, csize)
    ensures forall h :: RefOf(r.ref, h) == RefOf(b.ref, h) - multiset(chunks)[h]
  {
    r := b;
    for j := 0 to |chunks|
      invariant Balanced(r, csize)
      invariant forall h :: RefOf(r.ref, h) == RefOf(b.ref, h) - multiset(chunks[..j])[h]
    {
      var h := chunks[j];
      StillListed(chunks, j);
      Lost(r.ref, h, csize);
      var ref, total := r.ref[h := RefOf(r.ref, h) - 1], r.total;
      if ref[h] == 0 {
        total := total - SizeOf(h, csize);
      }
      r := Books(ref, total);
      assert chunks[..j + 1] == chunks[..j] + [h];
    }
    assert chunks[..|chunks|] == chunks;
  }

  lemma StillListed(chunks: seq<string>, j: nat)
    requires j < |chunks|
    ensures multiset(chunks[..j])[chunks[j]] < multiset(chunks)[chunks[j]]
  {
    assert chunks == chunks[..j] + ([chunks[j]] + chunks[j + 1..]);
  }

  // ---- the plan ----

  predicate ByAccess(ps: seq<PathRow>) {
    forall i, j :: 0 <= i < j < |ps| ==> ps[i].accessed <= ps[j].accessed
  }

  function Place(p: PathRow, ps: seq<PathRow>): seq<PathRow> {
    if ps == [] || p.accessed <= ps[0].accessed then [p] + ps else [ps[0]] + Place(p, ps[1..])
  }

  lemma {:induction false} PlaceKeeps(p: PathRow, ps: seq<PathRow>)
    ensures multiset(Place(p, ps)) == multiset(ps) + multiset{p}
  {
    if ps == [] || p.accessed <= ps[0].accessed {
    } else {
      PlaceKeeps(p, ps[1..]);
      assert ps == [ps[0]] + ps[1..];
    }
  }

  lemma {:induction false} PlaceSorts(p: PathRow, ps: seq<PathRow>)
    requires ByAccess(ps)
    ensures ByAccess(Place(p, ps))
  {
    if ps == [] || p.accessed <= ps[0].accessed {
    } else {
      PlaceSorts(p, ps[1..]);
      var tail := Place(p, ps[1..]);
      forall j | 0 <= j < |tail| ensures ps[0].accessed <= tail[j].accessed {
        PlaceKeeps(p, ps[1..]);
        assert tail[j] in multiset(tail);
        if tail[j] != p { assert tail[j] in multiset(ps[1..]); }
      }
    }
  }

  /** Sorts by access time, in place; paths accessed at the same time may end up in either order. */
  method SortByAccess(a: array<PathRow>)
    modifies a
    ensures ByAccess(a[..]) && multiset(a[..]) == multiset(old(a[..]))
  {
    var sorted := Sorted(a[..]);
    assert |sorted| == |multiset(sorted)| == |multiset(a[..])| == a.Length;
    for i := 0 to a.Length
      invariant a[..i] == sorted[..i]
    {
      a[i] := sorted[i];
    }
    assert a[..] == sorted;
  }

  method Sorted(ps: seq<PathRow>) returns (sorted: seq<PathRow>)
    ensures ByAccess(sorted) && multiset(sorted) == multiset(ps)
  {
    sorted := [];
    for i := 0 to |ps|
      invariant ByAccess(sorted) && multiset(sorted) == multiset(ps[..i])
    {
      PlaceSorts(ps[i], sorted);
      PlaceKeeps(ps[i], sorted);
      sorted := Place(ps[i], sorted);
      assert ps[..i + 1] == ps[..i] + [ps[i]];
    }
    assert ps[..|ps|] == ps;
  }

  function Ids(ps: seq<PathRow>): seq<int> {
    seq(|ps|, i requires 0 <= i < |ps| => ps[i].id)
  }

  lemma {:induction false} CountAppend(ps: seq<PathRow>, p: PathRow, h: string)
    ensures Count(ps + [p], h) == Count(ps, h) + multiset(p.chunks)[h]
  {
    if ps == [] { assert ps + [p] == [p]; } else {
      CountAppend(ps[1..], p, h);
      assert (ps + [p])[1..] == ps[1..] + [p];
    }
  }

  method CountAll(paths: array<PathRow>, csize: map<string, nat>) returns (b: Books)
    ensures Describes(b, paths[..], csize)
  {
    b := Books(map[], 0);
    assert Live(b.ref) == {};
    for i := 0 to paths.Length
      invariant Describes(b, paths[..i], csize)
    {
      b := AddPath(b, paths[i].chunks, csize);
      assert paths[..i + 1] == paths[..i] + [paths[i]];
      forall h ensures RefOf(b.ref, h) == Count(paths[..i + 1], h) { CountAppend(paths[..i], paths[i], h); }
    }
    assert paths[..paths.Length] == paths[..];
  }

  lemma TakeOut(b: seq<PathRow>, k: nat, h: string)
    requires k < |b|
    ensures multiset(b[..k] + b[k + 1..]) == multiset(b) - multiset{b[k]}
    ensures Count(b, h) == Count(b[..k] + b[k + 1..], h) + multiset(b[k].chunks)[h]
  {
    var tail := [b[k]] + b[k + 1..];
    assert b == b[..k] + tail;
    assert tail[1..] == b[k + 1..];
    CountJoin(b[..k], tail, h);
    CountJoin(b[..k], b[k + 1..], h);
  }

  lemma FirstOut(a: seq<PathRow>)
    requires a != []
    ensures multiset(a[1..]) == multiset(a) - multiset{a[0]}
  {
    assert a == [a[0]] + a[1..];
  }

  lemma {:induction false} CountPermuted(a: seq<PathRow>, b: seq<PathRow>, h: string)
    requires multiset(a) == multiset(b)
    ensures Count(a, h) == Count(b, h)
    decreases |a|
  {
    if a == [] {
      assert |multiset(b)| == 0;
    } else {
      assert a[0] in multiset(b);
      var k :| 0 <= k < |b| && b[k] == a[0];
      FirstOut(a);
      TakeOut(b, k, h);
      CountPermuted(a[1..], b[..k] + b[k + 1..], h);
    }
  }

  lemma {:induction false} CountJoin(a: seq<PathRow>, b: seq<PathRow>, h: string)
    ensures Count(a + b, h) == Count(a, h) + Count(b, h)
  {
    if a == [] { assert a + b == b; } else {
      CountJoin(a[1..], b, h);
      assert (a + b)[1..] == a[1..] + b;
    }
  }

  /** n is the shortest prefix whose removal makes the rest fit. */
  ghost predicate ShortestToFit(ps: seq<PathRow>, n: nat, csize: map<string, nat>, cap: int) {
    && n <= |ps|
    && (forall k :: 0 <= k < n ==> Footprint(ps[k..], csize) > cap)
    && (n < |ps| ==> Footprint(ps[n..], csize) <= cap)
  }

  /** Plans an eviction: the ids of the shortest prefix, in access order, whose removal brings the
      distinct remaining chunks within the cap. */
  method EvictToFit(paths: array<PathRow>, csize: map<string, nat>, cap: int) returns (evict: seq<int>)
    modifies paths
    ensures multiset(paths[..]) == multiset(old(paths[..]))
    ensures evict == [] <==> Footprint(old(paths[..]), csize) <= cap || paths.Length == 0
    ensures evict != [] ==> ByAccess(paths[..])
    ensures |evict| <= paths.Length && evict == Ids(paths[..|evict|])
    ensures ShortestToFit(paths[..], |evict|, csize, cap)
  {
    var b := CountAll(paths, csize);
    DescribesFootprint(b, paths[..], csize);
    if b.total <= cap {
      assert paths[0..] == paths[..];
      return [];
    }
    ghost var before := paths[..];
    SortByAccess(paths);
    forall h ensures RefOf(b.ref, h) == Count(paths[..], h) { CountPermuted(before, paths[..], h); }
    DescribesFootprintAtStart(before, paths[..], csize);
    var left;
    ghost var trace;
    evict, left, trace := PlanPrefix(paths, b, csize, cap);
  }

  /** Each of the books describes the paths from its place on, and its total is their footprint. */
  ghost predicate AllDescribe(trace: seq<Books>, ps: seq<PathRow>, csize: map<string, nat>) {
    && |trace| <= |ps| + 1
    && forall k :: 0 <= k < |trace| ==>
         Describes(trace[k], ps[k..], csize) && trace[k].total == Footprint(ps[k..], csize)
  }

  lemma OneMoreDescribes(trace: seq<Books>, ps: seq<PathRow>, b: Books, csize: map<string, nat>)
    requires AllDescribe(trace, ps, csize) && |trace| <= |ps| && Describes(b, ps[|trace|..], csize)
    ensures AllDescribe(trace + [b], ps, csize)
  {
    DescribesFootprint(b, ps[|trace|..], csize);
  }

  /** Takes paths off the front, in the order they are in, until the rest fits. The books before each
      turn and at the end describe what is then left. */
  method PlanPrefix(paths: array<PathRow>, start: Books, csize: map<string, nat>, cap: int)
    returns (evict: seq<int>, left: Books, ghost trace: seq<Books>)
    requires Describes(start, paths[..], csize)
    ensures |evict| <= paths.Length && evict == Ids(paths[..|evict|])
    ensures |trace| == |evict| + 1 && trace[0] == start && trace[|evict|] == left
    ensures AllDescribe(trace, paths[..], csize)
    ensures ShortestToFit(paths[..], |evict|, csize, cap)
  {
    ghost var ps := paths[..];
    evict, left, trace := [], start, [start];
    assert ps[0..] == ps;
    DescribesFootprint(start, ps, csize);
    var i := 0;
    while i < paths.Length && left.total > cap
      invariant 0 <= i <= paths.Length && paths[..] == ps && evict == Ids(ps[..i])
      invariant |trace| == i + 1 && trace[0] == start && trace[i] == left
      invariant AllDescribe(trace, ps, csize)
      invariant forall k :: 0 <= k < i ==> Footprint(ps[k..], csize) > cap
      decreases paths.Length - i
    {
      evict := evict + [paths[i].id];
      left := TakeOff(ps[i..], paths[i], left, csize);
      assert ps[i..][1..] == ps[i + 1..];
      OneMoreDescribes(trace, ps, left, csize);
      i, trace := i + 1, trace + [left];
    }
  }

  /** The books without the first path. */
  method TakeOff(ghost ps: seq<PathRow>, p: PathRow, b: Books, csize: map<string, nat>) returns (r: Books)
    requires ps != [] && ps[0] == p && Describes(b, ps, csize)
    ensures Describes(r, ps[1..], csize)
  {
    r := RemovePath(b, p.chunks, csize);
  }

  lemma DescribesFootprintAtStart(a: seq<PathRow>, b: seq<PathRow>, csize: map<string, nat>)
    requires multiset(a) == multiset(b)
    ensures Footprint(a, csize) == Footprint(b, csize)
  {
    forall h ensures h in Referenced(a) <==> h in Referenced(b) {
      CountReferenced(a, h);
      CountReferenced(b, h);
      CountPermuted(a, b, h);
    }
    assert Referenced(a) == Referenced(b);
  }

  /** What a shortest prefix in access order means: no evicted path was accessed after a kept one,
      and keeping one path more would not fit. */
  lemma OldestGoFirst(ps: seq<PathRow>, n: nat, csize: map<string, nat>, cap: int, i: nat, j: nat)
    requires ByAccess(ps) && ShortestToFit(ps, n, csize, cap) && i < n <= j < |ps|
    ensures ps[i].accessed <= ps[j].accessed
    ensures Footprint(ps[n..], csize) <= cap < Footprint(ps[n - 1..], csize)
  {
  }

  function Elements(s: seq<string>): set<string> { set h | h in s }

  /** distinct: the first occurrences, in order. */
  method Distinct(input: seq<string>) returns (out: seq<string>)
    ensures NoRepeats(out) && Elements(out) == Elements(input)
  {
    var seen: set<string> := {};
    out := [];
    for i := 0 to |input|
      invariant NoRepeats(out) && seen == Elements(out) == Elements(input[..i])
    {
      if input[i] !in seen {
        seen := seen + {input[i]};
        out := out + [input[i]];
      }
    }
    assert input[..|input|] == input;
  }

  // ---- enforcing a cap ----

  /** The row with every chunk once. */
  ghost predicate Cleaned(p: PathRow, raw: PathRow) {
    p.id == raw.id && p.accessed == raw.accessed && NoRepeats(p.chunks) && forall h :: h in p.chunks <==> h in raw.chunks
  }

  ghost predicate AllCleaned(ps: seq<PathRow>, raw: seq<PathRow>) {
    |ps| == |raw| && forall i :: 0 <= i < |ps| ==> Cleaned(ps[i], raw[i])
  }

  /** The rows left when the paths with these ids have been deleted. */
  function Kept(rows: seq<PathRow>, evict: seq<int>): seq<PathRow> {
    if rows == [] then [] else (if rows[0].id in evict then [] else [rows[0]]) + Kept(rows[1..], evict)
  }

  lemma {:induction false} KeptIs(rows: seq<PathRow>, evict: seq<int>)
    ensures forall p :: p in Kept(rows, evict) <==> p in rows && p.id !in evict
  {
    if rows == [] {
    } else {
      KeptIs(rows[1..], evict);
      assert rows == [rows[0]] + rows[1..];
    }
  }

  lemma ReferencedIs(ps: seq<PathRow>, h: string)
    ensures h in Referenced(ps) <==> exists p :: p in ps && h in p.chunks
  {
    if h in Referenced(ps) {
      var i, j :| 0 <= i < |ps| && 0 <= j < |ps[i].chunks| && ps[i].chunks[j] == h;
      assert ps[i] in ps && h in ps[i].chunks;
    }
    forall p | p in ps && h in p.chunks ensures h in Referenced(ps) {
      var i :| 0 <= i < |ps| && ps[i] == p;
      var j :| 0 <= j < |p.chunks| && p.chunks[j] == h;
    }
  }

  lemma {:induction false} OnceOnly<T>(s: seq<T>, x: T)
    requires NoRepeats(s)
    ensures multiset(s)[x] <= 1
  {
    if s == [] {
    } else {
      OnceOnly(s[1..], x);
      assert s == [s[0]] + s[1..];
    }
  }

  /** The paths taken off the front of the order, and no others, go. */
  lemma SplitById(rows: seq<PathRow>, clean: seq<PathRow>, order: seq<PathRow>, n: nat, i: nat)
    requires AllCleaned(clean, rows) && NoRepeats(Ids(rows)) && multiset(order) == multiset(clean)
    requires n <= |order| && i < |rows|
    ensures rows[i].id in Ids(order[..n]) <==> clean[i] !in order[n..]
  {
    assert order == order[..n] + order[n..];
    assert clean[i] in multiset(order);
    forall j, k | 0 <= j < k < |clean| ensures clean[j] != clean[k] { assert Ids(rows)[j] != Ids(rows)[k]; }
    OnceOnly(clean, clean[i]);
    if rows[i].id in Ids(order[..n]) {
      var k :| 0 <= k < n && order[..n][k].id == rows[i].id;
      assert order[k] in multiset(clean);
      var j :| 0 <= j < |clean| && clean[j] == order[k];
      assert Ids(rows)[j] == Ids(rows)[i];
      assert order[..n][k] in multiset(order[..n]);
    }
    if clean[i] in order[..n] {
      var k :| 0 <= k < n && order[..n][k] == clean[i];
      assert Ids(order[..n])[k] == rows[i].id;
    }
  }

  lemma KeptFootprint(rows: seq<PathRow>, clean: seq<PathRow>, order: seq<PathRow>, n: nat, csize: map<string, nat>)
    requires AllCleaned(clean, rows) && NoRepeats(Ids(rows)) && multiset(order) == multiset(clean) && n <= |order|
    ensures Footprint(Kept(rows, Ids(order[..n])), csize) == Footprint(order[n..], csize)
  {
    var evict := Ids(order[..n]);
    KeptIs(rows, evict);
    forall h ensures h in Referenced(Kept(rows, evict)) <==> h in Referenced(order[n..]) {
      ReferencedIs(Kept(rows, evict), h);
      ReferencedIs(order[n..], h);
      forall p | p in Kept(rows, evict) && h in p.chunks ensures exists x :: x in order[n..] && h in x.chunks {
        var i :| 0 <= i < |rows| && rows[i] == p;
        SplitById(rows, clean, order, n, i);
        assert clean[i] in order[n..] && h in clean[i].chunks;
      }
      forall x | x in order[n..] && h in x.chunks ensures exists p :: p in Kept(rows, evict) && h in p.chunks {
        assert x in multiset(order[n..]) && order == order[..n] + order[n..];
        assert x in multiset(clean);
        var i :| 0 <= i < |clean| && clean[i] == x;
        SplitById(rows, clean, order, n, i);
        assert rows[i] in Kept(rows, evict) && h in rows[i].chunks;
      }
    }
    assert Referenced(Kept(rows, evict)) == Referenced(order[n..]);
  }

  method Clean(rows: seq<PathRow>) returns (ps: seq<PathRow>)
    ensures AllCleaned(ps, rows)
  {
    ps := [];
    for i := 0 to |rows|
      invariant AllCleaned(ps, rows[..i])
    {
      var chunks := Distinct(rows[i].chunks);
      var p := PathRow(rows[i].id, rows[i].accessed, chunks);
      SameElements(chunks, rows[i].chunks);
      ps := ps + [p];
    }
    assert rows[..|rows|] == rows;
  }

  lemma SameElements(a: seq<string>, b: seq<string>)
    requires Elements(a) == Elements(b)
    ensures forall h :: h in a <==> h in b
  {
    forall h ensures h in a <==> h in b {
      assert h in a <==> h in Elements(a);
      assert h in b <==> h in Elements(b);
    }
  }

  /** What goes is accessed no later than what stays, and the oldest of it first. */
  ghost predicate OldestGo(rows: seq<PathRow>, evict: seq<int>) {
    && (forall i, j :: 0 <= i < |rows| && 0 <= j < |rows| && rows[i].id in evict && rows[j].id !in evict
                       ==> rows[i].accessed <= rows[j].accessed)
    && (forall a, b, i, j :: 0 <= a < b < |evict| && 0 <= i < |rows| && 0 <= j < |rows|
                             && rows[i].id == evict[a] && rows[j].id == evict[b]
                             ==> rows[i].accessed <= rows[j].accessed)
  }

  /** Enforces a cap on rows as they are stored, chunk lists with repetitions included: oldest first, the
      fewest that must go for the rest to fit. */
  method EnforceCap(rows: seq<PathRow>, csize: map<string, nat>, cap: int) returns (evict: seq<int>)
    requires NoRepeats(Ids(rows))
    ensures cap <= 0 ==> evict == []
    ensures cap > 0 ==> (evict == [] <==> Footprint(rows, csize) <= cap)
    ensures cap > 0 ==> Footprint(Kept(rows, evict), csize) <= cap
    ensures forall k :: 0 <= k < |evict| ==> Footprint(Kept(rows, evict[..k]), csize) > cap
    ensures NoRepeats(evict) && forall id :: id in evict ==> id in Ids(rows)
    ensures OldestGo(rows, evict)
  {
    if cap <= 0 { return []; }
    var clean := Clean(rows);
    var paths := new PathRow[|clean|](i requires 0 <= i < |clean| => clean[i]);
    assert paths[..] == clean;
    evict := EvictToFit(paths, csize, cap);
    RestFits(rows, clean, paths[..], |evict|, csize, cap);
    EvictedOnce(rows, clean, paths[..], |evict|);
    if evict != [] { OldestFirst(rows, clean, paths[..], |evict|); }
  }

  lemma RestFits(rows: seq<PathRow>, clean: seq<PathRow>, order: seq<PathRow>, n: nat, csize: map<string, nat>, cap: int)
    requires AllCleaned(clean, rows) && NoRepeats(Ids(rows)) && multiset(order) == multiset(clean)
    requires ShortestToFit(order, n, csize, cap) && cap > 0
    ensures var evict := Ids(order[..n]);
            && Footprint(Kept(rows, evict), csize) <= cap
            && (forall k :: 0 <= k < |evict| ==> Footprint(Kept(rows, evict[..k]), csize) > cap)
            && (evict == [] <==> Footprint(rows, csize) <= cap)
  {
    var evict := Ids(order[..n]);
    KeptFootprint(rows, clean, order, n, csize);
    NothingReferenced(csize);
    if n == |order| { assert order[n..] == []; }
    forall k | 0 <= k < n ensures Footprint(Kept(rows, evict[..k]), csize) > cap {
      KeptFootprint(rows, clean, order, k, csize);
      assert evict[..k] == Ids(order[..k]);
    }
    KeptAll(rows);
    if n > 0 { assert evict[..0] == []; } else { assert evict == []; }
  }

  lemma EvictedOnce(rows: seq<PathRow>, clean: seq<PathRow>, order: seq<PathRow>, n: nat)
    requires AllCleaned(clean, rows) && NoRepeats(Ids(rows)) && multiset(order) == multiset(clean) && n <= |order|
    ensures NoRepeats(Ids(order[..n])) && forall id :: id in Ids(order[..n]) ==> id in Ids(rows)
  {
    IdsOnce(rows, clean, order);
    var evict := Ids(order[..n]);
    forall a, b | 0 <= a < b < n ensures evict[a] != evict[b] { assert Ids(order)[a] != Ids(order)[b]; }
    forall id | id in evict ensures id in Ids(rows) {
      var k :| 0 <= k < n && evict[k] == id;
      var i := Stands(rows, clean, order, k);
      assert Ids(rows)[i] == id;
    }
  }

  lemma {:induction false} KeptAll(rows: seq<PathRow>)
    ensures Kept(rows, []) == rows && Ids([]) == []
  {
    if rows == [] {
    } else {
      KeptAll(rows[1..]);
      assert rows == [rows[0]] + rows[1..];
    }
  }

  /** Where in the rows the path comes from that stands at a place of the order. */
  lemma Stands(rows: seq<PathRow>, clean: seq<PathRow>, order: seq<PathRow>, k: nat) returns (i: nat)
    requires AllCleaned(clean, rows) && multiset(order) == multiset(clean) && k < |order|
    ensures i < |rows| && rows[i].id == order[k].id && rows[i].accessed == order[k].accessed && clean[i] == order[k]
  {
    assert order[k] in multiset(clean);
    i :| 0 <= i < |clean| && clean[i] == order[k];
  }

  lemma IdsOnce(rows: seq<PathRow>, clean: seq<PathRow>, order: seq<PathRow>)
    requires AllCleaned(clean, rows) && NoRepeats(Ids(rows)) && multiset(order) == multiset(clean)
    ensures NoRepeats(Ids(order))
  {
    forall j, k | 0 <= j < k < |clean| ensures clean[j] != clean[k] { assert Ids(rows)[j] != Ids(rows)[k]; }
    forall a, b | 0 <= a < b < |order| ensures order[a].id != order[b].id {
      var i := Stands(rows, clean, order, a);
      var j := Stands(rows, clean, order, b);
      if order[a].id == order[b].id {
        assert Ids(rows)[i] == Ids(rows)[j];
        OnceOnly(clean, order[a]);
        TwiceIn(order, a, b);
      }
    }
  }

  lemma TwiceIn(s: seq<PathRow>, a: nat, b: nat)
    requires a < b < |s| && s[a] == s[b]
    ensures multiset(s)[s[a]] >= 2
  {
    assert s == s[..b] + s[b..];
    assert s[..b][a] in multiset(s[..b]) && s[b..][0] in multiset(s[b..]);
  }

  lemma OldestFirst(rows: seq<PathRow>, clean: seq<PathRow>, order: seq<PathRow>, n: nat)
    requires AllCleaned(clean, rows) && NoRepeats(Ids(rows)) && multiset(order) == multiset(clean)
    requires ByAccess(order) && n <= |order|
    ensures OldestGo(rows, Ids(order[..n]))
  {
    var evict := Ids(order[..n]);
    forall i, j | 0 <= i < |rows| && 0 <= j < |rows| && rows[i].id in evict && rows[j].id !in evict
      ensures rows[i].accessed <= rows[j].accessed
    {
      var k :| 0 <= k < n && evict[k] == rows[i].id;
      AccessedAt(rows, clean, order, k, i);
      SplitById(rows, clean, order, n, j);
      var l :| 0 <= l < |order[n..]| && order[n..][l] == clean[j];
      assert order[n + l] == clean[j];
    }
    forall a, b, i, j | 0 <= a < b < |evict| && 0 <= i < |rows| && 0 <= j < |rows|
                        && rows[i].id == evict[a] && rows[j].id == evict[b]
      ensures rows[i].accessed <= rows[j].accessed
    {
      AccessedAt(rows, clean, order, a, i);
      AccessedAt(rows, clean, order, b, j);
    }
  }

  lemma AccessedAt(rows: seq<PathRow>, clean: seq<PathRow>, order: seq<PathRow>, k: nat, i: nat)
    requires AllCleaned(clean, rows) && NoRepeats(Ids(rows)) && multiset(order) == multiset(clean)
    requires k < |order| && i < |rows| && rows[i].id == order[k].id
    ensures rows[i].accessed == order[k].accessed
  {
    var j := Stands(rows, clean, order, k);
    assert Ids(rows)[i] == Ids(rows)[j];
  }

  lemma NothingReferenced(csize: map<string, nat>)
    ensures Footprint([], csize) == 0
  {
    assert Referenced([]) == {};
  }
}
