/** Pushing one path: the dump that hashes, filters and uploads chunks, and the retries around it. */
module PushPath {
  import opened Common

  type Hash = string

  datatype Chunk = Chunk(hash: Hash, size: nat)

  /** The chunk presence filter, when there is one. */
  datatype Filter = NoFilter | Filter(has: Hash -> bool)

  datatype Opts = Opts(external: bool, pessimistic: bool)

  /** How a dump, and a push, can end. Mismatch: the archive does not have the recorded NAR hash.
      Conflict: put-path found a referenced chunk gone. */
  datatype Outcome = Done | Mismatch | Conflict | Failed

  /** Everything one dump meets. The archive arrives as chunks, perhaps cut off by an error; answer is
      what the server says of a window, stored whether an upload succeeds, registers what put-path
      replies, and notices whether the dump sees a failure of an earlier upload at a given chunk. */
  datatype World = World(
    chunks: seq<Chunk>,
    cut: bool,
    whole: Chunk,
    sum: string,
    answer: seq<Hash> -> Option<set<Hash>>,
    stored: Hash -> bool,
    registers: Outcome,
    notices: nat -> bool)

  /** A path: whether it is below the threshold for chunking, and the NAR hash on record if that can
      be read. */
  datatype Job = Job(small: bool, want: Option<string>)

  /** What the dump hands to goroutines: one chunk to upload, or a window to resolve. */
  datatype Op = Put(hash: Hash) | Ask(window: seq<Chunk>)

  const MISSING_WINDOW: nat := 32
  const WINDOW_BYTES: nat := 0x40_0000

  function Hashes(cs: seq<Chunk>): (hs: seq<Hash>)
    ensures |hs| == |cs| && forall i :: 0 <= i < |cs| ==> hs[i] == cs[i].hash
  {
    seq(|cs|, i requires 0 <= i < |cs| => cs[i].hash)
  }

  function Bytes(cs: seq<Chunk>): nat {
    if cs == [] then 0 else Bytes(cs[..|cs| - 1]) + cs[|cs| - 1].size
  }

  predicate Hit(filter: Filter, h: Hash) { filter.Filter? && filter.has(h) }

  predicate Agrees(o: Opts, want: Option<string>, sum: string) {
    o.external || want.None? || want.value == sum
  }

  // ---- what a dump hands off, and what comes of it ----

  /** The operations still to be handed off, with these chunks to come, these hashes handled and this
      window open. */
  function Plan(filter: Filter, chunks: seq<Chunk>, cut: bool, seen: set<Hash>, window: seq<Chunk>): seq<Op>
    decreases |chunks|
  {
    if chunks == [] then
      if window == [] || cut then [] else [Ask(window)]
    else
      var c := chunks[0];
      if c.hash in seen then Plan(filter, chunks[1..], cut, seen, window)
      else if filter.Filter? then
        (if filter.has(c.hash) then [] else [Put(c.hash)]) + Plan(filter, chunks[1..], cut, seen + {c.hash}, window)
      else
        var w := window + [c];
        if |w| >= MISSING_WINDOW || Bytes(w) >= WINDOW_BYTES then
          [Ask(w)] + Plan(filter, chunks[1..], cut, seen + {c.hash}, [])
        else Plan(filter, chunks[1..], cut, seen + {c.hash}, w)
  }

  function Whole(filter: Filter, w: World): seq<Op> {
    Plan(filter, w.chunks, w.cut, {}, [])
  }

  function Handles(op: Op): seq<Hash> {
    match op
    case Put(h) => [h]
    case Ask(window) => Hashes(window)
  }

  function Needed(cs: seq<Chunk>, need: set<Hash>): seq<Hash> {
    if cs == [] then [] else (if cs[0].hash in need then [cs[0].hash] else []) + Needed(cs[1..], need)
  }

  /** The uploads an operation makes. */
  function Uploads(w: World, op: Op): seq<Hash> {
    match op
    case Put(h) => [h]
    case Ask(window) =>
      match w.answer(Hashes(window))
      case None => []
      case Some(need) => Needed(window, need)
  }

  predicate Succeeds(w: World, op: Op) {
    && (op.Ask? ==> w.answer(Hashes(op.window)).Some?)
    && AllStored(w, Uploads(w, op))
  }

  predicate AllStored(w: World, hs: seq<Hash>) {
    forall h :: h in hs ==> w.stored(h)
  }

  predicate Confirms(w: World, op: Op, h: Hash) {
    op.Ask? && h in Hashes(op.window) && var a := w.answer(Hashes(op.window)); a.Some? && h !in a.value
  }

  function AllHandled(ops: seq<Op>): seq<Hash> {
    if ops == [] then [] else Handles(ops[0]) + AllHandled(ops[1..])
  }

  function AllUploads(w: World, ops: seq<Op>): seq<Hash> {
    if ops == [] then [] else Uploads(w, ops[0]) + AllUploads(w, ops[1..])
  }

  predicate AllSucceed(w: World, ops: seq<Op>) {
    forall i :: 0 <= i < |ops| ==> Succeeds(w, ops[i])
  }

  lemma NoRepeatsConcat(a: seq<Hash>, b: seq<Hash>)
    ensures NoRepeats(a + b) <==> NoRepeats(a) && NoRepeats(b) && forall h :: h in a ==> h !in b
  {
    if NoRepeats(a + b) {
      forall i, j | 0 <= i < j < |a| ensures a[i] != a[j] { assert (a + b)[i] != (a + b)[j]; }
      forall i, j | 0 <= i < j < |b| ensures b[i] != b[j] { assert (a + b)[|a| + i] != (a + b)[|a| + j]; }
      forall h | h in a ensures h !in b {
        var i :| 0 <= i < |a| && a[i] == h;
        forall j | 0 <= j < |b| ensures b[j] != h { assert (a + b)[i] != (a + b)[|a| + j]; }
      }
    } else if NoRepeats(a) && NoRepeats(b) {
      var i, j :| 0 <= i < j < |a + b| && (a + b)[i] == (a + b)[j];
      assert i < |a| <= j && a[i] in a && b[j - |a|] in b;
    }
  }

  /** The hashes a dump still has to hand off: the open window, and what is new and not claimed by
      the filter. */
  predicate Owes(filter: Filter, chunks: seq<Chunk>, seen: set<Hash>, window: seq<Chunk>, h: Hash) {
    h in Hashes(window) || (h in Hashes(chunks) && h !in seen && !Hit(filter, h))
  }

  /** These hashes are each handed off once; they are owed, and unless the dump is cut off, all that is. */
  ghost predicate Pays(hs: seq<Hash>, filter: Filter, chunks: seq<Chunk>, cut: bool, seen: set<Hash>, window: seq<Chunk>) {
    && NoRepeats(hs)
    && (forall h :: h in hs ==> Owes(filter, chunks, seen, window, h))
    && (!cut ==> forall h :: Owes(filter, chunks, seen, window, h) ==> h in hs)
  }

  lemma OwesFirst(filter: Filter, chunks: seq<Chunk>, seen: set<Hash>, window: seq<Chunk>, h: Hash)
    requires chunks != []
    ensures Owes(filter, chunks, seen, window, h) <==>
              || (h == chunks[0].hash && h !in seen && !Hit(filter, h))
              || Owes(filter, chunks[1..], seen + {chunks[0].hash}, window, h)
  {
    assert Hashes(chunks) == [chunks[0].hash] + Hashes(chunks[1..]);
  }

  /** Handing off one operation first: its hashes, then those the rest of the dump pays. */
  lemma PaysFirst(filter: Filter, chunks: seq<Chunk>, cut: bool, seen: set<Hash>, window: seq<Chunk>, op: seq<Hash>, tail: seq<Hash>)
    requires chunks != [] && chunks[0].hash !in seen && forall h :: h in Hashes(window) ==> h in seen
    requires NoRepeats(op) && forall h :: h in op <==> h in Hashes(window) || (h == chunks[0].hash && !Hit(filter, h))
    requires Pays(tail, filter, chunks[1..], cut, seen + {chunks[0].hash}, [])
    ensures Pays(op + tail, filter, chunks, cut, seen, window)
  {
    NoRepeatsConcat(op, tail);
    forall h ensures Owes(filter, chunks, seen, window, h) <==> h in op || Owes(filter, chunks[1..], seen + {chunks[0].hash}, [], h) {
      OwesFirst(filter, chunks, seen, window, h);
    }
  }

  /** The first chunk completes something to hand off. */
  predicate Completes(filter: Filter, c: Chunk, seen: set<Hash>, window: seq<Chunk>) {
    c.hash !in seen
    && (filter.Filter? || |window| + 1 >= MISSING_WINDOW || Bytes(window + [c]) >= WINDOW_BYTES)
  }

  lemma PaysNow(filter: Filter, chunks: seq<Chunk>, cut: bool, seen: set<Hash>, window: seq<Chunk>)
    requires chunks != [] && Completes(filter, chunks[0], seen, window)
    requires NoRepeats(Hashes(window)) && forall h :: h in Hashes(window) ==> h in seen
    requires filter.Filter? ==> window == []
    requires var seen' := seen + {chunks[0].hash};
             Pays(AllHandled(Plan(filter, chunks[1..], cut, seen', [])), filter, chunks[1..], cut, seen', [])
    ensures Pays(AllHandled(Plan(filter, chunks, cut, seen, window)), filter, chunks, cut, seen, window)
  {
    var c, w := chunks[0], window + [chunks[0]];
    var tail := Plan(filter, chunks[1..], cut, seen + {c.hash}, []);
    assert Hashes(w) == Hashes(window) + [c.hash];
    NoRepeatsConcat(Hashes(window), [c.hash]);
    var op := if filter.NoFilter? then Hashes(w) else if filter.has(c.hash) then [] else [c.hash];
    PaysFirst(filter, chunks, cut, seen, window, op, AllHandled(tail));
    Nothing(tail);
    Nothing(AllHandled(tail));
    HandledFirst(Ask(w), tail);
    HandledFirst(Put(c.hash), tail);
  }

  lemma HandledFirst(op: Op, tail: seq<Op>)
    ensures AllHandled([op] + tail) == Handles(op) + AllHandled(tail)
  {
    assert ([op] + tail)[1..] == tail;
  }

  lemma PaysLater(filter: Filter, chunks: seq<Chunk>, seen: set<Hash>, window: seq<Chunk>, window': seq<Chunk>)
    requires chunks != [] && !Completes(filter, chunks[0], seen, window)
    requires window' == if chunks[0].hash in seen then window else window + [chunks[0]]
    requires forall h :: h in Hashes(window) ==> h in seen
    ensures forall h :: Owes(filter, chunks, seen, window, h)
                        <==> Owes(filter, chunks[1..], seen + {chunks[0].hash}, window', h)
    ensures NoRepeats(Hashes(window)) ==> NoRepeats(Hashes(window'))
    ensures forall h :: h in Hashes(window') ==> h in seen + {chunks[0].hash}
  {
    assert Hashes(window + [chunks[0]]) == Hashes(window) + [chunks[0].hash];
    NoRepeatsConcat(Hashes(window), [chunks[0].hash]);
    forall h ensures Owes(filter, chunks, seen, window, h)
                     <==> Owes(filter, chunks[1..], seen + {chunks[0].hash}, window', h)
    {
      OwesFirst(filter, chunks, seen, window, h);
    }
  }

  lemma {:induction false} PlanPays(filter: Filter, chunks: seq<Chunk>, cut: bool, seen: set<Hash>, window: seq<Chunk>)
    requires NoRepeats(Hashes(window)) && forall h :: h in Hashes(window) ==> h in seen
    requires filter.Filter? ==> window == []
    ensures Pays(AllHandled(Plan(filter, chunks, cut, seen, window)), filter, chunks, cut, seen, window)
    decreases |chunks|
  {
    if chunks == [] {
      var ops := Plan(filter, chunks, cut, seen, window);
      if ops != [] { assert ops[1..] == [] && AllHandled(ops) == Hashes(window) + []; }
    } else if Completes(filter, chunks[0], seen, window) {
      PlanPays(filter, chunks[1..], cut, seen + {chunks[0].hash}, []);
      PaysNow(filter, chunks, cut, seen, window);
    } else {
      var window' := if chunks[0].hash in seen then window else window + [chunks[0]];
      PaysLater(filter, chunks, seen, window, window');
      PlanPays(filter, chunks[1..], cut, seen + {chunks[0].hash}, window');
      assert chunks[0].hash in seen ==> seen + {chunks[0].hash} == seen;
    }
  }

  lemma {:induction false} NeededIs(cs: seq<Chunk>, need: set<Hash>)
    ensures forall h :: h in Needed(cs, need) <==> h in Hashes(cs) && h in need
    ensures NoRepeats(Hashes(cs)) ==> NoRepeats(Needed(cs, need))
  {
    if cs == [] {
    } else {
      NeededIs(cs[1..], need);
      assert Hashes(cs) == [cs[0].hash] + Hashes(cs[1..]);
      NoRepeatsConcat([cs[0].hash], Hashes(cs[1..]));
      NoRepeatsConcat([cs[0].hash], Needed(cs[1..], need));
    }
  }

  /** Uploads are a selection of what is handled; what is handled and not uploaded was confirmed. */
  lemma {:induction false} UploadsOf(w: World, ops: seq<Op>)
    requires NoRepeats(AllHandled(ops))
    ensures NoRepeats(AllUploads(w, ops))
    ensures forall h :: h in AllUploads(w, ops) ==> h in AllHandled(ops)
    ensures AllSucceed(w, ops) ==> forall h :: h in AllHandled(ops) ==>
              (h in AllUploads(w, ops) && w.stored(h)) || exists op :: op in ops && Confirms(w, op, h)
  {
    if ops == [] {
    } else {
      var op, rest := ops[0], ops[1..];
      NoRepeatsConcat(Handles(op), AllHandled(rest));
      UploadsOf(w, rest);
      if op.Ask? && w.answer(Hashes(op.window)).Some? { NeededIs(op.window, w.answer(Hashes(op.window)).value); }
      NoRepeatsConcat(Uploads(w, op), AllUploads(w, rest));
      if AllSucceed(w, ops) {
        forall i | 0 <= i < |rest| ensures Succeeds(w, rest[i]) { assert Succeeds(w, ops[i + 1]); }
        forall h | h in AllHandled(ops)
          ensures (h in AllUploads(w, ops) && w.stored(h)) || exists op :: op in ops && Confirms(w, op, h)
        {
          assert Succeeds(w, ops[0]);
          if h in Handles(op) {
            assert h in Uploads(w, op) || Confirms(w, op, h);
          } else if !(h in AllUploads(w, rest) && w.stored(h)) {
            var o :| o in rest && Confirms(w, o, h);
            assert o in ops;
          }
        }
      }
    }
  }

  /** At no moment does a dump upload a hash it has uploaded before, however far it gets. */
  lemma UploadedOnce(w: World, filter: Filter, ops: seq<Op>)
    requires ops <= Whole(filter, w)
    ensures NoRepeats(AllUploads(w, ops))
    ensures forall h :: h in AllUploads(w, ops) ==> h in Hashes(w.chunks) && !Hit(filter, h)
  {
    var all := Whole(filter, w);
    PlanPays(filter, w.chunks, w.cut, {}, []);
    AllHandledConcat(ops, all[|ops|..]);
    assert all == ops + all[|ops|..];
    NoRepeatsConcat(AllHandled(ops), AllHandled(all[|ops|..]));
    UploadsOf(w, ops);
    forall h | h in AllUploads(w, ops) ensures h in Hashes(w.chunks) && !Hit(filter, h) {
      assert h in AllHandled(all);
      assert Owes(filter, w.chunks, {}, [], h);
    }
  }

  lemma {:induction false} AllHandledConcat(a: seq<Op>, b: seq<Op>)
    ensures AllHandled(a + b) == AllHandled(a) + AllHandled(b)
  {
    if a == [] {
      assert a + b == b;
    } else {
      assert (a + b)[1..] == a[1..] + b;
      AllHandledConcat(a[1..], b);
    }
  }

  predicate AccountedFor(w: World, filter: Filter, ops: seq<Op>, h: Hash) {
    || (h in AllUploads(w, ops) && w.stored(h))
    || (exists op :: op in ops && Confirms(w, op, h))
    || Hit(filter, h)
  }

  /** When every operation of a complete dump has succeeded, every chunk of the archive was uploaded,
      or confirmed by the server, or claimed by the filter. */
  lemma EveryChunkAccountedFor(w: World, filter: Filter)
    requires !w.cut && AllSucceed(w, Whole(filter, w))
    ensures forall h :: h in Hashes(w.chunks) ==> AccountedFor(w, filter, Whole(filter, w), h)
  {
    var ops := Whole(filter, w);
    PlanPays(filter, w.chunks, w.cut, {}, []);
    UploadsOf(w, ops);
    forall h | h in Hashes(w.chunks) ensures AccountedFor(w, filter, ops, h) {
      assert Owes(filter, w.chunks, {}, [], h) || Hit(filter, h);
    }
  }

  /** A window is never empty, holds at most 32 chunks, and held less than 4 MiB before its last. */
  predicate WindowFits(op: Op) {
    op.Ask? ==> 0 < |op.window| <= 32 && Bytes(op.window[..|op.window| - 1]) < 0x40_0000
  }

  lemma {:induction false} WindowsFit(filter: Filter, chunks: seq<Chunk>, cut: bool, seen: set<Hash>, window: seq<Chunk>)
    requires |window| < 32 && Bytes(window) < 0x40_0000
    ensures forall op :: op in Plan(filter, chunks, cut, seen, window) ==> WindowFits(op)
    decreases |chunks|
  {
    if chunks == [] {
      if window != [] { assert Bytes(window) == Bytes(window[..|window| - 1]) + window[|window| - 1].size; }
    } else {
      var c, rest := chunks[0], chunks[1..];
      var w := window + [c];
      assert w[..|w| - 1] == window;
      if c.hash in seen {
        WindowsFit(filter, rest, cut, seen, window);
      } else if filter.Filter? {
        WindowsFit(filter, rest, cut, seen + {c.hash}, window);
      } else if |w| >= MISSING_WINDOW || Bytes(w) >= WINDOW_BYTES {
        WindowsFit(filter, rest, cut, seen + {c.hash}, []);
      } else {
        WindowsFit(filter, rest, cut, seen + {c.hash}, w);
      }
    }
  }

  /** The window has 32 chunks or 4 MiB. */
  predicate WindowFull(op: Op) { op.Ask? ==> |op.window| == 32 || Bytes(op.window) >= 0x40_0000 }

  /** A window waits until it is full; only the tail of a complete archive goes out before. */
  lemma {:induction false} WindowsFill(filter: Filter, chunks: seq<Chunk>, cut: bool, seen: set<Hash>, window: seq<Chunk>)
    requires |window| < 32
    ensures AllFull(Plan(filter, chunks, cut, seen, window), cut)
    decreases |chunks|
  {
    if chunks == [] {
    } else {
      var c, rest := chunks[0], chunks[1..];
      var w := window + [c];
      if c.hash in seen {
        WindowsFill(filter, rest, cut, seen, window);
      } else if filter.Filter? {
        WindowsFill(filter, rest, cut, seen + {c.hash}, window);
        Nothing(Plan(filter, rest, cut, seen + {c.hash}, window));
        FullFirst(Put(c.hash), Plan(filter, rest, cut, seen + {c.hash}, window), cut);
      } else if |w| >= MISSING_WINDOW || Bytes(w) >= WINDOW_BYTES {
        WindowsFill(filter, rest, cut, seen + {c.hash}, []);
        FullFirst(Ask(w), Plan(filter, rest, cut, seen + {c.hash}, []), cut);
      } else {
        WindowsFill(filter, rest, cut, seen + {c.hash}, w);
      }
    }
  }

  predicate AllFull(ops: seq<Op>, cut: bool) {
    forall k :: 0 <= k < |ops| && (k < |ops| - 1 || cut) ==> WindowFull(ops[k])
  }

  lemma FullFirst(op: Op, ops: seq<Op>, cut: bool)
    requires WindowFull(op) && AllFull(ops, cut)
    ensures AllFull([op] + ops, cut)
  {
    var all := [op] + ops;
    forall k | 0 <= k < |all| && (k < |all| - 1 || cut) ensures WindowFull(all[k]) {
      if k > 0 { assert all[k] == ops[k - 1]; }
    }
  }

  // ---- the dump ----

  /** How a dump ends, said without its loop. */
  function Verdict(job: Job, w: World, filter: Filter, o: Opts): Outcome {
    if job.small then
      if w.cut then Failed
      else if !Agrees(o, job.want, w.sum) then Mismatch
      else if WholeArrives(w, filter) then w.registers else Failed
    else if w.cut || !AllSucceed(w, Whole(filter, w)) then Failed
    else if !Agrees(o, job.want, w.sum) then Mismatch
    else w.registers
  }

  /** A small archive is claimed by the filter, or the server lacks nothing, or it is uploaded. */
  predicate WholeArrives(w: World, filter: Filter) {
    var a := w.answer([w.whole.hash]);
    if filter.Filter? then filter.has(w.whole.hash) || w.stored(w.whole.hash)
    else a.Some? && (a.value == {} || w.stored(w.whole.hash))
  }

  predicate Plausible(w: World) { w.registers in {Done, Conflict, Failed} }

  lemma NeededSnoc(cs: seq<Chunk>, c: Chunk, need: set<Hash>)
    ensures Needed(cs + [c], need) == Needed(cs, need) + (if c.hash in need then [c.hash] else [])
  {
    if cs == [] {
      assert [] + [c] == [c] && [c][1..] == [];
    } else {
      var all := cs + [c];
      assert all[0] == cs[0] && all[1..] == cs[1..] + [c];
      NeededSnoc(cs[1..], c, need);
      Reassociate(if cs[0].hash in need then [cs[0].hash] else [], Needed(cs[1..], need), if c.hash in need then [c.hash] else []);
    }
  }

  /** Uploads what the server needs of a window; a failed upload does not stop the others. */
  method SendNeeded(w: World, window: seq<Chunk>, need: set<Hash>) returns (ok: bool, uploads: seq<Hash>)
    ensures uploads == Needed(window, need) && (ok <==> AllStored(w, uploads))
  {
    ok, uploads := true, [];
    for i := 0 to |window|
      invariant uploads == Needed(window[..i], need)
      invariant ok <==> AllStored(w, uploads)
    {
      NeededSnoc(window[..i], window[i], need);
      assert window[..i + 1] == window[..i] + [window[i]];
      if window[i].hash in need {
        ok := ok && w.stored(window[i].hash);
        uploads := uploads + [window[i].hash];
      }
    }
    assert window[..|window|] == window;
  }

  /** Runs one operation. */
  method Perform(w: World, op: Op) returns (ok: bool, uploads: seq<Hash>)
    ensures uploads == Uploads(w, op)
    ensures ok <==> Succeeds(w, op)
  {
    match op
    case Put(h) => return w.stored(h), [h];
    case Ask(window) =>
      var need := w.answer(Hashes(window));
      if need.None? { return false, []; }
      ok, uploads := SendNeeded(w, window, need.value);
  }

  lemma UploadsSnoc(w: World, ops: seq<Op>, op: Op)
    ensures AllUploads(w, ops + [op]) == AllUploads(w, ops) + Uploads(w, op)
  {
    if ops == [] {
      assert [] + [op] == [op] && [op][1..] == [];
    } else {
      var all := ops + [op];
      assert all[0] == ops[0] && all[1..] == ops[1..] + [op];
      UploadsSnoc(w, ops[1..], op);
      Reassociate(Uploads(w, ops[0]), AllUploads(w, ops[1..]), Uploads(w, op));
    }
  }

  /** These are the uploads made so far, and whether anything failed. */
  ghost predicate Told(w: World, ops: seq<Op>, uploads: seq<Hash>, failed: bool) {
    uploads == AllUploads(w, ops) && (failed <==> !AllSucceed(w, ops))
  }

  /** Hands off at most one operation, and notes what it uploaded and whether it failed. */
  method HandOff(w: World, ops: seq<Op>, uploads: seq<Hash>, failed: bool, now: seq<Op>)
    returns (ops': seq<Op>, uploads': seq<Hash>, failed': bool)
    requires |now| <= 1 && Told(w, ops, uploads, failed)
    ensures ops' == ops + now && Told(w, ops', uploads', failed')
  {
    if now == [] {
      assert ops + now == ops;
      return ops, uploads, failed;
    }
    var ok, ups := Perform(w, now[0]);
    UploadsSnoc(w, ops, now[0]);
    ops', uploads', failed' := ops + [now[0]], uploads + ups, failed || !ok;
    assert ops'[|ops|] == now[0] && now == [now[0]];
    assert forall i :: 0 <= i < |ops| ==> ops'[i] == ops[i];
  }

  /** Takes in one chunk; if it was not seen before, maybe something to hand off now, and the window
      left open. */
  method Admit(filter: Filter, c: Chunk, seen: set<Hash>, window: seq<Chunk>, bytes: nat, ghost rest: seq<Chunk>, ghost cut: bool)
    returns (now: seq<Op>, window': seq<Chunk>, bytes': nat)
    requires bytes == Bytes(window)
    ensures |now| <= 1 && bytes' == Bytes(window')
    ensures now + Plan(filter, rest, cut, seen + {c.hash}, window') == Plan(filter, [c] + rest, cut, seen, window)
  {
    assert ([c] + rest)[1..] == rest;
    now, window', bytes' := [], window, bytes;
    if c.hash in seen {
      assert seen + {c.hash} == seen;
    } else if filter.Filter? {
      if !filter.has(c.hash) { now := [Put(c.hash)]; }
    } else {
      assert (window + [c])[..|window|] == window;
      window', bytes' := window + [c], bytes + c.size;
      if |window'| >= MISSING_WINDOW || bytes' >= WINDOW_BYTES {
        now, window', bytes' := [Ask(window')], [], 0;
      }
    }
  }

  /** One dump of a path above the threshold. order is the chunk list given to put-path, if that was
      called; ops is what was handed off. */
  method DumpPush(job: Job, w: World, filter: Filter, o: Opts)
    returns (r: Outcome, order: Option<seq<Hash>>, ops: seq<Op>, uploads: seq<Hash>)
    requires !job.small && (o.pessimistic ==> filter.NoFilter?)
    ensures r == Verdict(job, w, filter, o)
    ensures var fine := !w.cut && (forall h :: h in uploads ==> w.stored(h))
                        && (forall window :: Ask(window) in ops ==> w.answer(Hashes(window)).Some?);
            && (order.Some? <==> fine && (o.external || job.want.None? || job.want.value == w.sum))
            && r == (if order.Some? then w.registers else if fine then Mismatch else Failed)
    ensures order.Some? ==>
              && order.value == Hashes(w.chunks) && ops == Whole(filter, w)
              && forall h :: h in order.value ==> AccountedFor(w, filter, ops, h)
    ensures ops <= Whole(filter, w)
    ensures uploads == AllUploads(w, ops) && NoRepeats(uploads)
  {
    var full, failed;
    full, ops, uploads, failed := Dump(w, filter);
    UploadedOnce(w, filter, ops);
    SucceedMeans(w, ops);
    order := None;
    if failed { return Failed, order, ops, uploads; }
    if w.cut { return Failed, order, ops, uploads; }
    if !Agrees(o, job.want, w.sum) { return Mismatch, order, ops, uploads; }
    EveryChunkAccountedFor(w, filter);
    return w.registers, Some(full), ops, uploads;
  }

  /** Operations succeed when every window is answered and every upload they make is stored. */
  lemma {:induction false} SucceedMeans(w: World, ops: seq<Op>)
    ensures AllSucceed(w, ops) <==>
              && (forall h :: h in AllUploads(w, ops) ==> w.stored(h))
              && (forall window :: Ask(window) in ops ==> w.answer(Hashes(window)).Some?)
  {
    if ops == [] {
    } else {
      SucceedMeans(w, ops[1..]);
      assert ops == [ops[0]] + ops[1..];
      assert AllSucceed(w, ops) <==> Succeeds(w, ops[0]) && AllSucceed(w, ops[1..]) by { SucceedFirst(w, ops); }
    }
  }

  lemma SucceedFirst(w: World, ops: seq<Op>)
    requires ops != []
    ensures AllSucceed(w, ops) <==> Succeeds(w, ops[0]) && AllSucceed(w, ops[1..])
  {
    if AllSucceed(w, ops) {
      forall i | 0 <= i < |ops[1..]| ensures Succeeds(w, ops[1..][i]) { assert Succeeds(w, ops[i + 1]); }
    }
    if Succeeds(w, ops[0]) && AllSucceed(w, ops[1..]) {
      forall i | 0 <= i < |ops| ensures Succeeds(w, ops[i]) { if i > 0 { assert Succeeds(w, ops[1..][i - 1]); } }
    }
  }

  lemma FailureStays(w: World, ops: seq<Op>, all: seq<Op>)
    requires ops <= all && !AllSucceed(w, ops)
    ensures !AllSucceed(w, all)
  {
    var i :| 0 <= i < |ops| && !Succeeds(w, ops[i]);
    assert !Succeeds(w, all[i]);
  }

  /** What was handed off, and what is still to come, is the whole plan. */
  ghost predicate OnPlan(w: World, filter: Filter, i: nat, seen: set<Hash>, window: seq<Chunk>, ops: seq<Op>) {
    i <= |w.chunks| && ops + Plan(filter, w.chunks[i..], w.cut, seen, window) == Whole(filter, w)
  }

  /** Takes in one chunk, handing off what it completes. */
  method Consume(w: World, filter: Filter, i: nat, seen: set<Hash>, window: seq<Chunk>, bytes: nat,
                 ops: seq<Op>, uploads: seq<Hash>, failed: bool)
    returns (window': seq<Chunk>, bytes': nat, ops': seq<Op>, uploads': seq<Hash>, failed': bool)
    requires i < |w.chunks| && OnPlan(w, filter, i, seen, window, ops)
    requires bytes == Bytes(window) && Told(w, ops, uploads, failed)
    ensures bytes' == Bytes(window') && Told(w, ops', uploads', failed')
    ensures OnPlan(w, filter, i + 1, seen + {w.chunks[i].hash}, window', ops')
  {
    var c := w.chunks[i];
    ghost var rest := w.chunks[i + 1..];
    NextChunk(w.chunks, i);
    var now;
    now, window', bytes' := Admit(filter, c, seen, window, bytes, rest, w.cut);
    ops', uploads', failed' := HandOff(w, ops, uploads, failed, now);
    Reassociate(ops, now, Plan(filter, rest, w.cut, seen + {c.hash}, window'));
  }

  lemma PrefixOf(ops: seq<Op>, rest: seq<Op>)
    ensures ops <= ops + rest
  {
  }

  lemma NextChunk(cs: seq<Chunk>, i: nat)
    requires i < |cs|
    ensures cs[i..] == [cs[i]] + cs[i + 1..]
    ensures Hashes(cs[..i + 1]) == Hashes(cs[..i]) + [cs[i].hash]
  {
    assert cs[..i + 1] == cs[..i] + [cs[i]];
  }

  lemma PlanStarts(w: World, filter: Filter)
    ensures OnPlan(w, filter, 0, {}, [], []) && Told(w, [], [], false)
  {
    assert w.chunks[0..] == w.chunks;
    Nothing(Whole(filter, w));
  }

  /** At the end of the archive only the window is left. */
  lemma PlanEnds(w: World, filter: Filter, seen: set<Hash>, window: seq<Chunk>, ops: seq<Op>)
    requires OnPlan(w, filter, |w.chunks|, seen, window, ops)
    ensures ops + Plan(filter, [], w.cut, {}, window) == Whole(filter, w)
  {
    assert w.chunks[|w.chunks|..] == [];
  }

  /** Reads the archive chunk by chunk to its end, unless it notices a failure. */
  method Read(w: World, filter: Filter)
    returns (ended: bool, full: seq<Hash>, window: seq<Chunk>, ops: seq<Op>, uploads: seq<Hash>, failed: bool)
    ensures Told(w, ops, uploads, failed)
    ensures ops <= Whole(filter, w) && (!ended ==> failed)
    ensures ended ==> full == Hashes(w.chunks) && ops + Plan(filter, [], w.cut, {}, window) == Whole(filter, w)
  {
    var bytes, seen: set<Hash> := 0, {};
    full, window, ops, uploads, failed := [], [], [], [], false;
    var i := 0;
    PlanStarts(w, filter);
    while i < |w.chunks|
      invariant 0 <= i <= |w.chunks| && OnPlan(w, filter, i, seen, window, ops)
      invariant bytes == Bytes(window) && full == Hashes(w.chunks[..i])
      invariant Told(w, ops, uploads, failed)
    {
      if failed && w.notices(i) {
        ended := false;
        PrefixOf(ops, Plan(filter, w.chunks[i..], w.cut, seen, window));
        return;
      }
      NextChunk(w.chunks, i);
      full := full + [w.chunks[i].hash];
      window, bytes, ops, uploads, failed := Consume(w, filter, i, seen, window, bytes, ops, uploads, failed);
      seen := seen + {w.chunks[i].hash};
      i := i + 1;
    }
    assert w.chunks[..i] == w.chunks;
    ended := true;
    PlanEnds(w, filter, seen, window, ops);
    PrefixOf(ops, Plan(filter, [], w.cut, {}, window));
  }

  /** Reads the archive, flushes the tail window, and waits for everything started. */
  method Dump(w: World, filter: Filter)
    returns (full: seq<Hash>, ops: seq<Op>, uploads: seq<Hash>, failed: bool)
    ensures ops <= Whole(filter, w) && Told(w, ops, uploads, failed)
    ensures failed <==> !AllSucceed(w, Whole(filter, w))
    ensures !failed ==> full == Hashes(w.chunks) && ops == Whole(filter, w)
  {
    var ended, window;
    ended, full, window, ops, uploads, failed := Read(w, filter);
    if ended && !w.cut && |window| > 0 {
      ops, uploads, failed := HandOff(w, ops, uploads, failed, [Ask(window)]);
    }
    if failed { FailureStays(w, ops, Whole(filter, w)); }
  }

  /** A path below the threshold, pushed as one chunk. */
  method PushWhole(job: Job, w: World, filter: Filter, o: Opts)
    returns (r: Outcome, order: Option<seq<Hash>>, uploaded: bool)
    requires job.small && (o.pessimistic ==> filter.NoFilter?)
    ensures r == Verdict(job, w, filter, o)
    ensures var agrees := o.external || job.want.None? || job.want.value == w.sum;
            var answer := w.answer([w.whole.hash]);
            var claimed := if filter.Filter? then filter.has(w.whole.hash) else answer == Some({});
            && (uploaded <==> !w.cut && agrees && !claimed && (filter.Filter? || answer.Some?))
            && (order.Some? <==> !w.cut && agrees && (claimed || (uploaded && w.stored(w.whole.hash))))
            && (order.Some? ==> order.value == [w.whole.hash])
            && r == (if order.Some? then w.registers else if !w.cut && !agrees then Mismatch else Failed)
  {
    order, uploaded := None, false;
    if w.cut { return Failed, order, uploaded; }
    if !Agrees(o, job.want, w.sum) { return Mismatch, order, uploaded; }
    var have := filter.Filter? && filter.has(w.whole.hash);
    if filter.NoFilter? {
      var need := w.answer([w.whole.hash]);
      if need.None? { return Failed, order, uploaded; }
      have := need.value == {};
    }
    if !have {
      uploaded := true;
      if !w.stored(w.whole.hash) { return Failed, order, uploaded; }
    }
    return w.registers, Some([w.whole.hash]), uploaded;
  }

  // ---- the retries ----

  /** The filter a dump uses. */
  function FilterFor(filter: Filter, o: Opts): Filter {
    if o.pessimistic then NoFilter else filter
  }

  /** The next attempt's options: each cause turns off one shortcut, once. */
  predicate Switches(cause: Outcome, o: Opts, o': Opts) {
    || (cause == Mismatch && !o.external && o' == o.(external := true))
    || (cause == Conflict && !o.pessimistic && o' == o.(pessimistic := true))
  }

  function Attempt(job: Job, worlds: nat -> World, filter: Filter, tries: seq<Opts>, i: nat): Outcome
    requires i < |tries|
  {
    Verdict(job, worlds(i), FilterFor(filter, tries[i]), tries[i])
  }

  /** Every attempt after the first answers the one before it. */
  predicate Justified(job: Job, worlds: nat -> World, filter: Filter, tries: seq<Opts>) {
    forall i :: 0 < i < |tries| ==> Switches(Attempt(job, worlds, filter, tries, i - 1), tries[i - 1], tries[i])
  }

  lemma JustifiedSnoc(job: Job, worlds: nat -> World, filter: Filter, tries: seq<Opts>, o: Opts)
    requires Justified(job, worlds, filter, tries)
    requires tries != [] ==> Switches(Attempt(job, worlds, filter, tries, |tries| - 1), tries[|tries| - 1], o)
    ensures Justified(job, worlds, filter, tries + [o])
  {
    var all := tries + [o];
    forall i | 0 < i < |all| ensures Switches(Attempt(job, worlds, filter, all, i - 1), all[i - 1], all[i]) {
      assert all[i - 1] == tries[i - 1];
      if i < |tries| { assert Switches(Attempt(job, worlds, filter, tries, i - 1), tries[i - 1], tries[i]); }
    }
  }

  /** One dump, with the filter unless it is pessimistic. asked says whether put-path was called. */
  method DumpOnce(job: Job, w: World, filter: Filter, o: Opts) returns (r: Outcome, asked: bool)
    ensures r == Verdict(job, w, FilterFor(filter, o), o)
    ensures asked ==> r == w.registers
    ensures !asked ==> r in {Mismatch, Failed}
    ensures r == Mismatch && !asked ==> !o.external
  {
    var order;
    if job.small {
      var uploaded;
      r, order, uploaded := PushWhole(job, w, if o.pessimistic then NoFilter else filter, o);
    } else {
      var ops, uploads;
      r, order, ops, uploads := DumpPush(job, w, if o.pessimistic then NoFilter else filter, o);
    }
    asked := order.Some?;
  }

  /** What comes after an attempt that is not the last: one whose put-path was called met a conflict and
      the filter is given up; another did not have the recorded hash and nix is asked to dump. */
  predicate Followed(w: World, asked: bool, o: Opts, o': Opts) {
    if asked then w.registers == Conflict && !o.pessimistic && o' == Opts(o.external, true)
    else !o.external && o' == Opts(true, o.pessimistic)
  }

  /** Pushes one path: the stored manifest first, then up to three dumps, each in its own world.
      exhausted says the exit after the third attempt was taken, asked which attempts called put-path. */
  method PushOne(job: Job, manifest: Option<Outcome>, worlds: nat -> World, filter: Filter, externalDump: bool)
    returns (r: Outcome, tries: seq<Opts>, exhausted: bool, asked: seq<bool>)
    requires forall i :: Plausible(worlds(i))
    requires manifest.Some? ==> manifest.value in {Done, Conflict, Failed}
    ensures tries == [] <==> manifest.Some? && manifest.value != Conflict
    ensures tries == [] ==> manifest.Some? && r == manifest.value
    ensures |tries| <= (if externalDump then 2 else 3) && !exhausted
    ensures tries != [] ==> tries[0] == Opts(externalDump, false) && r == Attempt(job, worlds, filter, tries, |tries| - 1)
    ensures Justified(job, worlds, filter, tries)
    ensures r != Mismatch
    ensures r == Conflict ==> tries != [] && tries[|tries| - 1].pessimistic
    ensures |asked| == |tries| && (tries != [] && asked[|tries| - 1] ==> r == worlds(|tries| - 1).registers)
    ensures r == Done ==> if tries == [] then manifest == Some(Done)
                          else asked[|tries| - 1] && worlds(|tries| - 1).registers == Done
    ensures forall i :: 0 <= i < |tries| - 1 ==> Followed(worlds(i), asked[i], tries[i], tries[i + 1])
    ensures tries != [] && asked[0] && worlds(0).registers == Conflict ==>
              |tries| > 1 && tries[1] == Opts(externalDump, true)
  {
    if manifest.Some? && manifest.value != Conflict { return manifest.value, [], false, []; }
    var o := Opts(externalDump, false);
    var attempt := 0;
    tries, asked := [o], [];
    while true
      invariant |tries| == attempt + 1 && tries[attempt] == o && tries[0] == Opts(externalDump, false)
      invariant |asked| == attempt
      invariant forall i :: 0 <= i < attempt ==> Followed(worlds(i), asked[i], tries[i], tries[i + 1])
      invariant attempt > 0 && asked[0] && worlds(0).registers == Conflict ==> tries[1] == Opts(externalDump, true)
      invariant attempt == (if o.external && !externalDump then 1 else 0) + (if o.pessimistic then 1 else 0)
      invariant externalDump ==> o.external
      invariant Justified(job, worlds, filter, tries)
      decreases 3 - attempt
    {
      var called;
      r, called := DumpOnce(job, worlds(attempt), filter, o);
      asked := asked + [called];
      assert Plausible(worlds(attempt)) && r == Attempt(job, worlds, filter, tries, attempt);
      if r == Mismatch && !o.external {
        o := o.(external := true);
      } else if r == Conflict && !o.pessimistic {
        o := o.(pessimistic := true);
      } else {
        return r, tries, false, asked;
      }
      if attempt >= 2 { return r, tries, true, asked; }
      JustifiedSnoc(job, worlds, filter, tries, o);
      tries := tries + [o];
      attempt := attempt + 1;
    }
  }
}
