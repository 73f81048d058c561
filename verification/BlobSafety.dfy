/** Rows and blobs: when a row is sure to have its blob, and what a sweep's totals count. */
module BlobSafety {
  import opened Common
  import opened ChunkLifecycle
  import opened RowSafety

  /** Every chunk row has its blob. */
  predicate Backed(s: State) {
    forall c :: c in s.rows ==> c in s.blobs
  }

  /** The upload has written its blob and not yet its row, and can still write it in time. */
  predicate Uploading(t: Timing, now: int, x: Actor, c: Chunk) {
    x.Upload? && x.chunk == c && (x.up.Stored? || (x.up.Inserting? && now <= x.up.stamp + t.delay))
  }

  /** The sweep has deleted the row and not yet the blob. */
  predicate Reclaiming(x: Actor, c: Chunk) {
    x.Sweep? && x.phase.Sweeping? && c in x.phase.pending
  }

  /** No chunk is being uploaded and reclaimed at once. */
  ghost predicate Exclusive(t: Timing, s: State) {
    forall i, j, c :: i in s.actors && j in s.actors && Uploading(t, s.now, s.actors[i], c) ==> !Reclaiming(s.actors[j], c)
  }

  ghost predicate ExclusiveRun(t: Timing, s: State, steps: seq<Step>)
    requires Run(t, s, steps)
    decreases |steps|
  {
    Exclusive(t, s) && (steps != [] ==> ExclusiveRun(t, Next(t.grace, s, steps[0]), steps[1..]))
  }

  ghost predicate BlobInv(t: Timing, s: State) {
    && Backed(s)
    && (forall i, c :: i in s.actors && Uploading(t, s.now, s.actors[i], c) ==> c in s.blobs)
    && (forall i, c :: i in s.actors && Reclaiming(s.actors[i], c) ==> c !in s.rows)
  }

  lemma {:induction false} ReturningSound(rows: map<Chunk, Row>, batch: seq<Chunk>, cutoff: int)
    ensures forall r :: r in Returning(rows, batch, cutoff) ==>
              r.chunk in batch && r.chunk in rows && rows[r.chunk] == Row(rows[r.chunk].created, r.csize)
              && rows[r.chunk].created < cutoff
    ensures forall c :: c in batch && c in rows && rows[c].created < cutoff
                        ==> Removed(c, rows[c].csize) in Returning(rows, batch, cutoff)
  {
    if batch == [] {
    } else {
      ReturningSound(rows, batch[1..], cutoff);
    }
  }

  /** The chunks a batch delete returns are those of the batch whose rows it removes. */
  lemma ReturnedChunks(rows: map<Chunk, Row>, todo: seq<Chunk>, n: nat, cutoff: int)
    requires n <= |todo|
    ensures var gone := Returning(rows, todo[..n], cutoff);
            (set i | 0 <= i < |gone| :: gone[i].chunk)
            == set c | c in Range(todo, 0, n) && c in rows && rows[c].created < cutoff
  {
    var gone := Returning(rows, todo[..n], cutoff);
    ReturningSound(rows, todo[..n], cutoff);
    forall c | c in Range(todo, 0, n) && c in rows && rows[c].created < cutoff
      ensures c in set i | 0 <= i < |gone| :: gone[i].chunk
    {
      var k :| 0 <= k < n && todo[k] == c;
      assert todo[..n][k] == c;
      var i :| 0 <= i < |gone| && gone[i] == Removed(c, rows[c].csize);
    }
    forall i | 0 <= i < |gone| ensures gone[i].chunk in Range(todo, 0, n) {
      assert gone[i] in gone;
      var j :| 0 <= j < n && todo[..n][j] == gone[i].chunk;
      assert todo[j] in Range(todo, 0, n);
    }
    assert forall i :: 0 <= i < |gone| ==> gone[i] in gone;
  }

  /** A row delete removes exactly the rows the sweep then reclaims. */
  lemma DeletedAreReclaimed(t: Timing, s: State, a: Step)
    requires Enabled(t.grace, s, a) && a.SweepDeleteRows?
    ensures forall c :: Reclaiming(Next(t.grace, s, a).actors[a.id], c)
                        <==> c in s.rows && c !in Next(t.grace, s, a).rows
  {
    var me := s.actors[a.id];
    ReturnedChunks(s.rows, me.phase.todo, BatchEnd(0, |me.phase.todo|, GC_BATCH_SIZE), me.started - t.grace);
  }

  lemma UploadsKeepBlobs(t: Timing, s: State, a: Step, i: nat, c: Chunk)
    requires BlobInv(t, s) && Exclusive(t, s) && Enabled(t.grace, s, a)
    requires var s' := Next(t.grace, s, a); i in s'.actors && Uploading(t, s'.now, s'.actors[i], c)
    ensures c in Next(t.grace, s, a).blobs
  {
  }

  lemma ReclaimedStayRowless(t: Timing, s: State, a: Step, i: nat, c: Chunk)
    requires BlobInv(t, s) && Exclusive(t, s) && Enabled(t.grace, s, a) && Timely(t, s, a)
    requires i in Next(t.grace, s, a).actors && Reclaiming(Next(t.grace, s, a).actors[i], c)
    ensures c !in Next(t.grace, s, a).rows
  {
    if a.SweepDeleteRows? { DeletedAreReclaimed(t, s, a); }
  }

  lemma BlobStep(t: Timing, s: State, a: Step)
    requires BlobInv(t, s) && Exclusive(t, s) && Enabled(t.grace, s, a) && Timely(t, s, a)
    ensures BlobInv(t, Next(t.grace, s, a))
  {
    var s' := Next(t.grace, s, a);
    forall i, c | i in s'.actors && Uploading(t, s'.now, s'.actors[i], c) ensures c in s'.blobs {
      UploadsKeepBlobs(t, s, a, i, c);
    }
    forall i, c | i in s'.actors && Reclaiming(s'.actors[i], c) ensures c !in s'.rows {
      ReclaimedStayRowless(t, s, a, i, c);
    }
  }

  /** As long as no upload of a chunk overlaps a sweep reclaiming it, every row has its blob. */
  lemma {:induction false} RowsStayBacked(t: Timing, s: State, steps: seq<Step>)
    requires BlobInv(t, s) && Run(t, s, steps) && ExclusiveRun(t, s, steps)
    ensures BlobInv(t, Final(t, s, steps))
    decreases |steps|
  {
    if steps == [] {
    } else {
      BlobStep(t, s, steps[0]);
      RowsStayBacked(t, Next(t.grace, s, steps[0]), steps[1..]);
    }
  }

  /** Under both hypotheses every chunk of every registered path has its row and its blob, in every
      state of every run. */
  lemma RegisteredPathsServable(t: Timing, now: int, steps: seq<Step>)
    requires Covered(t) && Run(t, Init(now), steps) && ExclusiveRun(t, Init(now), steps)
    ensures forall c :: Registered(Final(t, Init(now), steps), c)
                        ==> c in Final(t, Init(now), steps).rows && c in Final(t, Init(now), steps).blobs
  {
    RunKeeps(t, Init(now), steps);
    RowsStayBacked(t, Init(now), steps);
  }

  /** The steps an upload and a sweep have still to make once they overlap. */
  predicate Finishing(a: Step) { a.SweepDeleteBlob? || a.UploadCapture? || a.UploadInsert? }

  /** The hypothesis is not idle: from any overlap, the sweep's blob delete followed by the upload's
      row insert leaves a row with no blob. */
  lemma OverlapIsFatal(t: Timing, s: State, up: nat, sweep: nat, c: Chunk) returns (steps: seq<Step>)
    requires up in s.actors && sweep in s.actors
    requires Uploading(t, s.now, s.actors[up], c) && Reclaiming(s.actors[sweep], c)
    ensures Run(t, s, steps) && forall k :: 0 <= k < |steps| ==> Finishing(steps[k])
    ensures c in Final(t, s, steps).rows && c !in Final(t, s, steps).blobs
  {
    var a := SweepDeleteBlob(sweep, c);
    assert Run(t, s, []);
    Extend(t, s, [], a);
    var s1 := Next(t.grace, s, a);
    steps := [] + [a];
    if s1.actors[up].up.Stored? {
      Extend(t, s, steps, UploadCapture(up));
      steps := steps + [UploadCapture(up)];
    }
    Extend(t, s, steps, UploadInsert(up));
    steps := steps + [UploadInsert(up)];
  }

  /** The chunk, its row older than any cutoff still to come, and a sweep in the given phase. */
  ghost function Aged(t: Timing, phase: SweepPhase): State {
    At(Age(t), 0, map[2 := Sweep("default", Age(t), phase, 0, 0, [])])
  }

  function Age(t: Timing): nat {
    if t.grace < 0 then 0 else t.grace + 1
  }

  lemma AgedRun(t: Timing, reach: State -> bool)
    requires Closed(t, reach) && reach(Init(0))
    ensures reach(Aged(t, LiveRead({})))
  {
    UploadRun(t, reach);
    Move(t, reach, At(0, 0, map[]), Tick(Age(t)), At(Age(t), 0, map[]));
    Move(t, reach, At(Age(t), 0, map[]), SweepStart(2, "default"), Aged(t, CutoffTaken));
    assert LiveSet(Aged(t, CutoffTaken), "default") == {};
    Move(t, reach, Aged(t, CutoffTaken), SweepReadLive(2), Aged(t, LiveRead({})));
  }

  lemma CandidateRun(t: Timing, reach: State -> bool)
    requires Closed(t, reach) && reach(Init(0))
    ensures reach(Aged(t, Sweeping([C], map[C := 1], [], {})))
  {
    AgedRun(t, reach);
    var s := Aged(t, LiveRead({}));
    assert (map c | c in s.rows && c in [C] :: s.rows[c].csize) == map[C := 1];
    Move(t, reach, s, SweepReadCandidates(2, [C]), Aged(t, Sweeping([C], map[C := 1], [], {})));
  }

  /** The sweep has taken the row and is about to take the blob. */
  lemma ReclaimedRun(t: Timing, reach: State -> bool) returns (s: State)
    requires Closed(t, reach) && reach(Init(0))
    ensures reach(s) && C !in s.rows && s.actors.Keys == {2} && Reclaiming(s.actors[2], C)
  {
    OneBatch();
    CandidateRun(t, reach);
    var s0 := Aged(t, Sweeping([C], map[C := 1], [], {}));
    s := Next(t.grace, s0, SweepDeleteRows(2));
    DeletedAreReclaimed(t, s0, SweepDeleteRows(2));
    Move(t, reach, s0, SweepDeleteRows(2), s);
  }

  /** A client that re-uploads the chunk just then overlaps the sweep. */
  lemma OverlapRun(t: Timing, reach: State -> bool) returns (s: State)
    requires Closed(t, reach) && reach(Init(0))
    ensures reach(s) && 0 in s.actors && 2 in s.actors
    ensures s.actors[0] == Upload(C, 1, Stored) && Reclaiming(s.actors[2], C)
  {
    var s0 := ReclaimedRun(t, reach);
    var s1 := Next(t.grace, s0, UploadStart(0, C, 1));
    Move(t, reach, s0, UploadStart(0, C, 1), s1);
    s := Next(t.grace, s1, UploadPutBlob(0));
    Move(t, reach, s1, UploadPutBlob(0), s);
  }

  lemma {:induction false} ReachedByRun(t: Timing, reach: State -> bool, s: State, steps: seq<Step>)
    requires Closed(t, reach) && reach(s) && Run(t, s, steps)
    ensures reach(Final(t, s, steps))
    decreases |steps|
  {
    if steps == [] {
    } else {
      Move(t, reach, s, steps[0], Next(t.grace, s, steps[0]));
      ReachedByRun(t, reach, Next(t.grace, s, steps[0]), steps[1..]);
    }
  }

  /** However well a deployment keeps its timing, some run leaves a row without its blob. */
  lemma TimingAloneDoesNotBack(t: Timing)
    ensures exists now, steps :: Run(t, Init(now), steps) && !Backed(Final(t, Init(now), steps))
  {
    ReachedClosed(t);
    assert Reached(t, Init(0)) by { assert Run(t, Init(0), []); }
    var s := OverlapRun(t, x => Reached(t, x));
    var more := OverlapIsFatal(t, s, 0, 2, C);
    ReachedByRun(t, x => Reached(t, x), s, more);
    var now, steps :| Run(t, Init(now), steps) && Final(t, Init(now), steps) == Final(t, s, more);
    assert Run(t, Init(now), steps) && !Backed(Final(t, Init(now), steps));
  }

  // ---- disciplines: when exactly rows stay backed ----

  /** Every step is one that the discipline allows where it is made. */
  ghost predicate Obeys(t: Timing, allows: (State, Step) -> bool, s: State, steps: seq<Step>)
    requires Run(t, s, steps)
    decreases |steps|
  {
    steps == [] || (allows(s, steps[0]) && Obeys(t, allows, Next(t.grace, s, steps[0]), steps[1..]))
  }

  ghost predicate ReachedUnder(t: Timing, allows: (State, Step) -> bool, s: State) {
    exists now, steps :: Run(t, Init(now), steps) && Obeys(t, allows, Init(now), steps) && Final(t, Init(now), steps) == s
  }

  /** The discipline may hold up anything but the end of what has begun. */
  ghost predicate LetsFinish(t: Timing, allows: (State, Step) -> bool) {
    forall s, a :: Finishing(a) && Enabled(t.grace, s, a) ==> allows(s, a)
  }

  lemma {:induction false} ObeysExtend(t: Timing, allows: (State, Step) -> bool, s: State, steps: seq<Step>, a: Step)
    requires Run(t, s, steps) && Obeys(t, allows, s, steps) && Run(t, s, steps + [a])
    requires allows(Final(t, s, steps), a)
    ensures Obeys(t, allows, s, steps + [a])
    decreases |steps|
  {
    if steps == [] {
      assert steps + [a] == [a];
    } else {
      assert (steps + [a])[1..] == steps[1..] + [a];
      ObeysExtend(t, allows, Next(t.grace, s, steps[0]), steps[1..], a);
    }
  }

  lemma UnderMove(t: Timing, allows: (State, Step) -> bool, s: State, a: Step)
    requires ReachedUnder(t, allows, s) && Enabled(t.grace, s, a) && Timely(t, s, a) && allows(s, a)
    ensures ReachedUnder(t, allows, Next(t.grace, s, a))
  {
    var now, steps :| Run(t, Init(now), steps) && Obeys(t, allows, Init(now), steps) && Final(t, Init(now), steps) == s;
    Extend(t, Init(now), steps, a);
    ObeysExtend(t, allows, Init(now), steps, a);
  }

  lemma {:induction false} UnderFinishing(t: Timing, allows: (State, Step) -> bool, s: State, steps: seq<Step>)
    requires LetsFinish(t, allows) && ReachedUnder(t, allows, s) && Run(t, s, steps)
    requires forall k :: 0 <= k < |steps| ==> Finishing(steps[k])
    ensures ReachedUnder(t, allows, Final(t, s, steps))
    decreases |steps|
  {
    if steps == [] {
    } else {
      assert Finishing(steps[0]);
      UnderMove(t, allows, s, steps[0]);
      UnderFinishing(t, allows, Next(t.grace, s, steps[0]), steps[1..]);
    }
  }

  lemma {:induction false} BackedUnder(t: Timing, allows: (State, Step) -> bool, s: State, steps: seq<Step>)
    requires forall x :: ReachedUnder(t, allows, x) ==> Exclusive(t, x)
    requires ReachedUnder(t, allows, s) && BlobInv(t, s) && Run(t, s, steps) && Obeys(t, allows, s, steps)
    ensures Backed(Final(t, s, steps))
    decreases |steps|
  {
    if steps == [] {
    } else {
      BlobStep(t, s, steps[0]);
      UnderMove(t, allows, s, steps[0]);
      BackedUnder(t, allows, Next(t.grace, s, steps[0]), steps[1..]);
    }
  }

  lemma InitUnder(t: Timing, allows: (State, Step) -> bool, now: int)
    ensures ReachedUnder(t, allows, Init(now))
  {
    assert Run(t, Init(now), []) && Final(t, Init(now), []) == Init(now);
  }

  /** Whatever discipline starts of uploads and row deletes are held to: every row has its blob in
      every run if and only if in no run an upload and a sweep that can both still finish overlap. */
  lemma BackedExactlyWithoutOverlap(t: Timing, allows: (State, Step) -> bool)
    requires LetsFinish(t, allows)
    ensures (forall s :: ReachedUnder(t, allows, s) ==> Backed(s))
            <==> (forall s :: ReachedUnder(t, allows, s) ==> Exclusive(t, s))
  {
    if forall s :: ReachedUnder(t, allows, s) ==> Exclusive(t, s) {
      forall s | ReachedUnder(t, allows, s) ensures Backed(s) {
        var now, steps :| Run(t, Init(now), steps) && Obeys(t, allows, Init(now), steps) && Final(t, Init(now), steps) == s;
        InitUnder(t, allows, now);
        BackedUnder(t, allows, Init(now), steps);
      }
    } else {
      var s :| ReachedUnder(t, allows, s) && !Exclusive(t, s);
      var i, j, c :| i in s.actors && j in s.actors && Uploading(t, s.now, s.actors[i], c) && Reclaiming(s.actors[j], c);
      var more := OverlapIsFatal(t, s, i, j, c);
      UnderFinishing(t, allows, s, more);
      assert !Backed(Final(t, s, more));
    }
  }

  /** The next batch of a sweep. */
  function BatchOf(x: Actor): set<Chunk>
    requires x.Sweep? && x.phase.Sweeping?
  {
    Range(x.phase.todo, 0, BatchEnd(0, |x.phase.todo|, GC_BATCH_SIZE))
  }

  /** A discipline that would do: no blob is written while its chunk is being reclaimed, and no batch
      is deleted that has a chunk being uploaded. */
  ghost predicate Locked(t: Timing, s: State, a: Step) {
    && (a.UploadPutBlob? && IsUpload(s, a.id) ==>
          forall j :: j in s.actors ==> !Reclaiming(s.actors[j], s.actors[a.id].chunk))
    && (a.SweepDeleteRows? && IsSweep(s, a.id) && s.actors[a.id].phase.Sweeping? ==>
          forall i, c :: i in s.actors && Uploading(t, s.now, s.actors[i], c) ==> c !in BatchOf(s.actors[a.id]))
  }

  lemma StillUploading(t: Timing, s: State, a: Step, i: nat, c: Chunk)
    requires Enabled(t.grace, s, a) && i in Next(t.grace, s, a).actors
    requires Uploading(t, Next(t.grace, s, a).now, Next(t.grace, s, a).actors[i], c)
    ensures i in s.actors && (Uploading(t, s.now, s.actors[i], c) || (a == UploadPutBlob(i) && s.actors[i].chunk == c))
  {
  }

  lemma StillReclaiming(t: Timing, s: State, a: Step, j: nat, c: Chunk)
    requires Enabled(t.grace, s, a) && j in Next(t.grace, s, a).actors && Reclaiming(Next(t.grace, s, a).actors[j], c)
    ensures j in s.actors && (Reclaiming(s.actors[j], c) || (a == SweepDeleteRows(j) && c in BatchOf(s.actors[j])))
  {
    if a == SweepDeleteRows(j) {
      var me := s.actors[j];
      ReturnedChunks(s.rows, me.phase.todo, BatchEnd(0, |me.phase.todo|, GC_BATCH_SIZE), me.started - t.grace);
    }
  }

  lemma LockedStep(t: Timing, s: State, a: Step)
    requires Exclusive(t, s) && Enabled(t.grace, s, a) && Locked(t, s, a)
    ensures Exclusive(t, Next(t.grace, s, a))
  {
    var s' := Next(t.grace, s, a);
    forall i, j, c | i in s'.actors && j in s'.actors && Uploading(t, s'.now, s'.actors[i], c)
      ensures !Reclaiming(s'.actors[j], c)
    {
      if Reclaiming(s'.actors[j], c) {
        StillUploading(t, s, a, i, c);
        StillReclaiming(t, s, a, j, c);
      }
    }
  }

  lemma {:induction false} LockedRun(t: Timing, s: State, steps: seq<Step>)
    requires Exclusive(t, s) && Run(t, s, steps) && Obeys(t, (x, a) => Locked(t, x, a), s, steps)
    ensures Exclusive(t, Final(t, s, steps))
    decreases |steps|
  {
    if steps == [] {
    } else {
      LockedStep(t, s, steps[0]);
      LockedRun(t, Next(t.grace, s, steps[0]), steps[1..]);
    }
  }

  /** With it, every row has its blob in every run, whatever the timing. */
  lemma LockIsEnough(t: Timing, now: int, steps: seq<Step>)
    requires Run(t, Init(now), steps) && Obeys(t, (s, a) => Locked(t, s, a), Init(now), steps)
    ensures Backed(Final(t, Init(now), steps))
  {
    var allows := (s, a) => Locked(t, s, a);
    forall x | ReachedUnder(t, allows, x) ensures Exclusive(t, x) {
      var from, run :| Run(t, Init(from), run) && Obeys(t, allows, Init(from), run) && Final(t, Init(from), run) == x;
      LockedRun(t, Init(from), run);
    }
    BackedExactlyWithoutOverlap(t, allows);
    assert ReachedUnder(t, allows, Final(t, Init(now), steps));
  }

  // ---- what the totals count ----

  function Total(rs: seq<Removed>): nat {
    if rs == [] then 0 else rs[0].csize + Total(rs[1..])
  }

  function Chunks(rs: seq<Removed>): seq<Chunk> {
    seq(|rs|, i requires 0 <= i < |rs| => rs[i].chunk)
  }

  lemma {:induction false} FreedAppend(a: seq<Removed>, b: seq<Removed>, sizes: map<Chunk, nat>)
    ensures Freed(a + b, sizes) == Freed(a, sizes) + Freed(b, sizes)
  {
    if a == [] {
      assert a + b == b;
    } else {
      FreedAppend(a[1..], b, sizes);
      assert (a + b)[1..] == a[1..] + b;
    }
  }

  lemma {:induction false} FreedIsTotal(gone: seq<Removed>, sizes: map<Chunk, nat>)
    requires forall r :: r in gone ==> r.chunk in sizes && sizes[r.chunk] == r.csize
    ensures Freed(gone, sizes) == Total(gone)
  {
    if gone == [] {
    } else {
      assert gone[0] in gone;
      FreedIsTotal(gone[1..], sizes);
    }
  }

  /** Dropping and keeping elements of the middle of a duplicate-free list keeps it so. */
  lemma {:induction false} ReturningDistinct(pre: seq<Chunk>, rows: map<Chunk, Row>, batch: seq<Chunk>, cutoff: int, post: seq<Chunk>)
    requires NoRepeats(pre + batch + post)
    ensures NoRepeats(pre + Chunks(Returning(rows, batch, cutoff)) + post)
    decreases |batch|
  {
    var gone := Returning(rows, batch, cutoff);
    if batch == [] {
      assert Chunks(gone) == batch;
    } else {
      var rest := Returning(rows, batch[1..], cutoff);
      if batch[0] in rows && rows[batch[0]].created < cutoff {
        assert pre + batch + post == (pre + [batch[0]]) + batch[1..] + post;
        ReturningDistinct(pre + [batch[0]], rows, batch[1..], cutoff, post);
        assert pre + Chunks(gone) + post == (pre + [batch[0]]) + Chunks(rest) + post;
      } else {
        var full := pre + batch + post;
        var cut := pre + batch[1..] + post;
        assert forall i :: 0 <= i < |cut| ==> cut[i] == full[if i < |pre| then i else i + 1];
        ReturningDistinct(pre, rows, batch[1..], cutoff, post);
        assert gone == rest;
      }
    }
  }

  /** What a sweep counts, whatever the timing: the rows of completed batches, no chunk twice, and the
      sizes it looked up for them. */
  ghost predicate Counted(x: Actor) {
    x.Sweep? ==>
      && x.deleted == |x.removed|
      && NoRepeats(Chunks(x.removed))
      && (x.phase.Sweeping? ==>
            && x.freed == Freed(x.removed, x.phase.sizes)
            && NoRepeats(Chunks(x.removed) + Chunks(x.phase.gone) + x.phase.todo))
      && (!x.phase.Sweeping? ==> x.removed == [] && x.freed == 0)
  }

  /** The sizes a sweep looked up are the sizes its rows have while they can still be deleted, and had
      when they were. */
  ghost predicate Sized(t: Timing, s: State, x: Actor) {
    x.Sweep? ==>
      && x.started <= s.now
      && (x.phase.Sweeping? ==>
            && (forall c :: c in x.phase.todo && c in s.rows && s.rows[c].created < x.started - t.grace
                            ==> c in x.phase.sizes && x.phase.sizes[c] == s.rows[c].csize)
            && (forall r :: r in x.phase.gone ==> r.chunk in x.phase.sizes && x.phase.sizes[r.chunk] == r.csize)
            && (forall r :: r in x.removed ==> r.chunk in x.phase.sizes && x.phase.sizes[r.chunk] == r.csize))
  }

  ghost predicate AllCounted(s: State) {
    forall i :: i in s.actors ==> Counted(s.actors[i])
  }

  ghost predicate AllSized(t: Timing, s: State) {
    forall i :: i in s.actors ==> Sized(t, s, s.actors[i])
  }

  lemma DeleteDistinct(pre: seq<Chunk>, rows: map<Chunk, Row>, todo: seq<Chunk>, n: nat, cutoff: int)
    requires n <= |todo| && NoRepeats(pre + Chunks([]) + todo)
    ensures NoRepeats(pre + Chunks(Returning(rows, todo[..n], cutoff)) + todo[n..])
  {
    assert pre + Chunks([]) + todo == pre + todo[..n] + todo[n..];
    ReturningDistinct(pre, rows, todo[..n], cutoff, todo[n..]);
  }

  lemma FinishCounted(grace: int, s: State, a: Step)
    requires Enabled(grace, s, a) && a.SweepFinishBatch? && Counted(s.actors[a.id])
    ensures Counted(SweepAfter(grace, s, a))
  {
    var x := s.actors[a.id];
    var x' := SweepAfter(grace, s, a);
    FreedAppend(x.removed, x.phase.gone, x.phase.sizes);
    var all := Chunks(x.removed) + Chunks(x.phase.gone) + x.phase.todo;
    assert Chunks(x'.removed) + Chunks([]) + x.phase.todo == all;
    assert forall i :: 0 <= i < |x'.removed| ==> Chunks(x'.removed)[i] == all[i];
  }

  lemma SweepCounted(grace: int, s: State, a: Step)
    requires Enabled(grace, s, a) && SweepStep(a) && Counted(s.actors[a.id])
    ensures Counted(SweepAfter(grace, s, a))
  {
    if a.SweepFinishBatch? {
      FinishCounted(grace, s, a);
    } else if a.SweepDeleteRows? {
      var x := s.actors[a.id];
      DeleteDistinct(Chunks(x.removed), s.rows, x.phase.todo, BatchEnd(0, |x.phase.todo|, GC_BATCH_SIZE), x.started - grace);
    } else if a.SweepReadCandidates? {
      assert Chunks([]) + Chunks([]) + a.order == a.order;
    }
  }

  /** The counts of the actor that moves. */
  lemma OwnCounted(grace: int, s: State, a: Step)
    requires AllCounted(s) && Enabled(grace, s, a) && !a.Tick? && !a.Evict? && a.id in Next(grace, s, a).actors
    ensures Counted(Next(grace, s, a).actors[a.id])
  {
    if a.id in s.actors { assert Counted(s.actors[a.id]); }
    if SweepStep(a) { SweepCounted(grace, s, a); }
  }

  lemma CountedStep(grace: int, s: State, a: Step)
    requires AllCounted(s) && Enabled(grace, s, a)
    ensures AllCounted(Next(grace, s, a))
  {
    var s' := Next(grace, s, a);
    forall i | i in s'.actors ensures Counted(s'.actors[i]) {
      if !a.Tick? && !a.Evict? && i == a.id { OwnCounted(grace, s, a); } else { assert Counted(s.actors[i]); }
    }
  }

  lemma {:induction false} CountedKept(t: Timing, s: State, steps: seq<Step>)
    requires AllCounted(s) && Run(t, s, steps)
    ensures AllCounted(Final(t, s, steps))
    decreases |steps|
  {
    if steps == [] {
    } else {
      CountedStep(t.grace, s, steps[0]);
      CountedKept(t, Next(t.grace, s, steps[0]), steps[1..]);
    }
  }

  /** In every run, whatever the timing, a sweep reports as many deletions as it removed rows in
      completed batches, no chunk twice, and as freed the sizes its snapshot gave for them. */
  lemma CountsAreExact(t: Timing, now: int, steps: seq<Step>, id: nat)
    requires Run(t, Init(now), steps) && IsSweep(Final(t, Init(now), steps), id)
    ensures var x := Final(t, Init(now), steps).actors[id];
            && x.deleted == |x.removed| && NoRepeats(Chunks(x.removed))
            && x.freed == if x.phase.Sweeping? then Freed(x.removed, x.phase.sizes) else 0
  {
    CountedKept(t, Init(now), steps);
  }

  // ---- when the snapshot's sizes are those of the rows removed ----

  /** Rows only change csize by being deleted and inserted again, and what is inserted during a sweep
      is too fresh for it. */
  lemma OtherSized(t: Timing, s: State, a: Step, x: Actor)
    requires t.delay <= t.grace && Enabled(t.grace, s, a) && Timely(t, s, a) && Sized(t, s, x)
    ensures Sized(t, Next(t.grace, s, a), x)
  {
  }

  /** What a batch returns was to be deleted, and its sizes are those looked up. */
  lemma DeleteSizes(rows: map<Chunk, Row>, todo: seq<Chunk>, n: nat, cutoff: int, sizes: map<Chunk, nat>)
    requires n <= |todo|
    requires forall c :: c in todo && c in rows && rows[c].created < cutoff ==> c in sizes && sizes[c] == rows[c].csize
    ensures forall r :: r in Returning(rows, todo[..n], cutoff) ==> r.chunk in sizes && sizes[r.chunk] == r.csize
    ensures forall c :: c in todo[n..] ==> c in todo
  {
    ReturningSound(rows, todo[..n], cutoff);
    assert forall c :: c in todo[..n] ==> c in todo;
  }

  lemma DeleteSized(t: Timing, s: State, a: Step)
    requires Enabled(t.grace, s, a) && a.SweepDeleteRows? && Sized(t, s, s.actors[a.id])
    ensures Sized(t, Next(t.grace, s, a), SweepAfter(t.grace, s, a))
  {
    var x := s.actors[a.id];
    DeleteSizes(s.rows, x.phase.todo, BatchEnd(0, |x.phase.todo|, GC_BATCH_SIZE), x.started - t.grace, x.phase.sizes);
  }

  lemma FinishSized(t: Timing, s: State, a: Step)
    requires Enabled(t.grace, s, a) && a.SweepFinishBatch? && Sized(t, s, s.actors[a.id])
    ensures Sized(t, Next(t.grace, s, a), SweepAfter(t.grace, s, a))
  {
  }

  /** The sizes of the actor that moves. */
  lemma OwnSized(t: Timing, s: State, a: Step)
    requires Enabled(t.grace, s, a) && !a.Tick? && !a.Evict? && a.id in Next(t.grace, s, a).actors
    requires a.id in s.actors ==> Sized(t, s, s.actors[a.id]) && Counted(s.actors[a.id])
    ensures Sized(t, Next(t.grace, s, a), Next(t.grace, s, a).actors[a.id])
  {
    if a.SweepDeleteRows? {
      DeleteSized(t, s, a);
    } else if a.SweepFinishBatch? {
      FinishSized(t, s, a);
    }
  }

  lemma SizedStep(t: Timing, s: State, a: Step)
    requires t.delay <= t.grace && AllSized(t, s) && AllCounted(s) && Enabled(t.grace, s, a) && Timely(t, s, a)
    ensures AllSized(t, Next(t.grace, s, a))
  {
    var s' := Next(t.grace, s, a);
    forall i | i in s'.actors ensures Sized(t, s', s'.actors[i]) {
      if a.Tick? || a.Evict? || i != a.id { OtherSized(t, s, a, s.actors[i]); } else { OwnSized(t, s, a); }
    }
  }

  lemma {:induction false} SizedKept(t: Timing, s: State, steps: seq<Step>)
    requires t.delay <= t.grace && AllSized(t, s) && AllCounted(s) && Run(t, s, steps)
    ensures AllSized(t, Final(t, s, steps))
    decreases |steps|
  {
    if steps == [] {
    } else {
      SizedStep(t, s, steps[0]);
      CountedStep(t.grace, s, steps[0]);
      SizedKept(t, Next(t.grace, s, steps[0]), steps[1..]);
    }
  }

  ghost predicate FreedIsExact(s: State) {
    forall id :: IsSweep(s, id) ==> s.actors[id].freed == Total(s.actors[id].removed)
  }

  lemma FreedExactWithin(t: Timing, now: int, steps: seq<Step>)
    requires t.delay <= t.grace && Run(t, Init(now), steps)
    ensures FreedIsExact(Final(t, Init(now), steps))
  {
    var s := Final(t, Init(now), steps);
    CountedKept(t, Init(now), steps);
    SizedKept(t, Init(now), steps);
    forall id | IsSweep(s, id) ensures s.actors[id].freed == Total(s.actors[id].removed) {
      var x := s.actors[id];
      assert Counted(x) && Sized(t, s, x);
      if x.phase.Sweeping? { FreedIsTotal(x.removed, x.phase.sizes); }
    }
  }

  // ---- and when they are not ----

  /** A late upload of the chunk, compressed to another size, is about to insert its row, and two
      sweeps are under way. */
  ghost function Race(t: Timing, csize: nat, p1: SweepPhase, p2: SweepPhase): State {
    State(t.delay, map[C := Row(0, csize)], {C}, map[],
          map[0 := Upload(C, 2, Inserting(0)), 1 := Sweep("default", t.delay, p1, 0, 0, []),
              2 := Sweep("default", t.delay, p2, 0, 0, [])])
  }

  /** The chunk recorded with size 1, while that upload has its blob written and its clock read. */
  lemma TwoUploadsRun(t: Timing, reach: State -> bool)
    requires Closed(t, reach) && reach(Init(0))
    ensures reach(State(0, map[C := Row(0, 1)], {C}, map[], map[0 := Upload(C, 2, Inserting(0))]))
  {
    var late := Upload(C, 2, Inserting(0));
    var s1 := State(0, map[], {}, map[], map[0 := Upload(C, 2, Probed(false))]);
    Move(t, reach, Init(0), UploadStart(0, C, 2), s1);
    var s2 := State(0, map[], {C}, map[], map[0 := Upload(C, 2, Stored)]);
    Move(t, reach, s1, UploadPutBlob(0), s2);
    var s3 := State(0, map[], {C}, map[], map[0 := late]);
    Move(t, reach, s2, UploadCapture(0), s3);
    var s4 := State(0, map[], {C}, map[], map[0 := late, 3 := Upload(C, 1, Probed(false))]);
    Move(t, reach, s3, UploadStart(3, C, 1), s4);
    var s5 := State(0, map[], {C}, map[], map[0 := late, 3 := Upload(C, 1, Stored)]);
    Move(t, reach, s4, UploadPutBlob(3), s5);
    SecondInsertRun(t, reach, s5);
  }

  lemma SecondInsertRun(t: Timing, reach: State -> bool, s: State)
    requires Closed(t, reach) && reach(s)
    requires s == State(0, map[], {C}, map[], map[0 := Upload(C, 2, Inserting(0)), 3 := Upload(C, 1, Stored)])
    ensures reach(State(0, map[C := Row(0, 1)], {C}, map[], map[0 := Upload(C, 2, Inserting(0))]))
  {
    var s6 := s.(actors := map[0 := Upload(C, 2, Inserting(0)), 3 := Upload(C, 1, Inserting(0))]);
    Move(t, reach, s, UploadCapture(3), s6);
    var s7 := State(0, map[C := Row(0, 1)], {C}, map[], map[0 := Upload(C, 2, Inserting(0))]);
    assert s6.actors - {3} == s7.actors;
    Move(t, reach, s6, UploadInsert(3), s7);
  }

  lemma RaceRun(t: Timing, reach: State -> bool)
    requires Closed(t, reach) && reach(Init(0))
    ensures reach(Race(t, 1, CutoffTaken, CutoffTaken))
  {
    TwoUploadsRun(t, reach);
    var late := Upload(C, 2, Inserting(0));
    var s := State(0, map[C := Row(0, 1)], {C}, map[], map[0 := late]);
    var s1 := s.(now := t.delay);
    Move(t, reach, s, Tick(t.delay), s1);
    var s2 := s1.(actors := map[0 := late, 1 := Sweep("default", t.delay, CutoffTaken, 0, 0, [])]);
    Move(t, reach, s1, SweepStart(1, "default"), s2);
    Move(t, reach, s2, SweepStart(2, "default"), Race(t, 1, CutoffTaken, CutoffTaken));
  }

  lemma BothLiveRun(t: Timing, reach: State -> bool)
    requires Closed(t, reach) && reach(Init(0))
    ensures reach(Race(t, 1, LiveRead({}), LiveRead({})))
  {
    RaceRun(t, reach);
    assert LiveSet(Race(t, 1, CutoffTaken, CutoffTaken), "default") == {};
    Move(t, reach, Race(t, 1, CutoffTaken, CutoffTaken), SweepReadLive(1), Race(t, 1, LiveRead({}), CutoffTaken));
    assert LiveSet(Race(t, 1, LiveRead({}), CutoffTaken), "default") == {};
    Move(t, reach, Race(t, 1, LiveRead({}), CutoffTaken), SweepReadLive(2), Race(t, 1, LiveRead({}), LiveRead({})));
  }

  ghost function Reading(): SweepPhase { Sweeping([C], map[C := 1], [], {}) }

  /** Both sweeps have the chunk as a candidate of size 1. */
  lemma BothCandidatesRun(t: Timing, reach: State -> bool)
    requires Closed(t, reach) && reach(Init(0)) && t.delay > t.grace
    ensures reach(Race(t, 1, Reading(), Reading()))
  {
    BothLiveRun(t, reach);
    var s := Race(t, 1, LiveRead({}), LiveRead({}));
    assert (map c | c in s.rows && c in [C] :: s.rows[c].csize) == map[C := 1];
    Move(t, reach, s, SweepReadCandidates(1, [C]), Race(t, 1, Reading(), LiveRead({})));
    Move(t, reach, Race(t, 1, Reading(), LiveRead({})), SweepReadCandidates(2, [C]), Race(t, 1, Reading(), Reading()));
  }

  ghost function Taken(csize: nat): SweepPhase { Sweeping([], map[C := 1], [Removed(C, csize)], {C}) }

  lemma TakenBy(t: Timing, s: State, id: nat)
    requires IsSweep(s, id) && s.actors[id].phase == Reading()
    requires C in s.rows && s.rows[C].created < s.actors[id].started - t.grace
    ensures Enabled(t.grace, s, SweepDeleteRows(id))
    ensures SweepAfter(t.grace, s, SweepDeleteRows(id)) == s.actors[id].(phase := Taken(s.rows[C].csize))
    ensures WriteOf(t.grace, s, SweepDeleteRows(id)) == Delete({C}, s.actors[id].started - t.grace)
  {
    OneBatch();
    assert [C][..1] == [C] && [C][1..] == [];
    var gone := Returning(s.rows, [C], s.actors[id].started - t.grace);
    assert gone == [Removed(C, s.rows[C].csize)] + Returning(s.rows, [C][1..], s.actors[id].started - t.grace);
    assert gone == [Removed(C, s.rows[C].csize)];
    assert (set i | 0 <= i < |gone| :: gone[i].chunk) == {gone[0].chunk};
  }

  /** The second sweep takes the row, and the late upload puts it back with size 2, in time and still
      older than the cutoff. */
  lemma ReinsertedRun(t: Timing, reach: State -> bool)
    requires Closed(t, reach) && reach(Init(0)) && t.delay > t.grace
    ensures reach(Race(t, 2, Reading(), Taken(1)).(actors := Race(t, 2, Reading(), Taken(1)).actors - {0}))
  {
    BothCandidatesRun(t, reach);
    var s := Race(t, 1, Reading(), Reading());
    TakenBy(t, s, 2);
    var s1 := Race(t, 1, Reading(), Taken(1)).(rows := map[]);
    Move(t, reach, s, SweepDeleteRows(2), s1);
    var s2 := Race(t, 2, Reading(), Taken(1)).(actors := Race(t, 2, Reading(), Taken(1)).actors - {0});
    Move(t, reach, s1, UploadInsert(0), s2);
  }

  /** The first sweep takes that row too, */
  lemma TakenTwiceRun(t: Timing, reach: State -> bool) returns (s: State)
    requires Closed(t, reach) && reach(Init(0)) && t.delay > t.grace
    ensures reach(s) && IsSweep(s, 1)
    ensures s.actors[1] == Sweep("default", t.delay, Taken(2), 0, 0, [])
  {
    ReinsertedRun(t, reach);
    var s0 := Race(t, 2, Reading(), Taken(1)).(actors := Race(t, 2, Reading(), Taken(1)).actors - {0});
    TakenBy(t, s0, 1);
    s := Next(t.grace, s0, SweepDeleteRows(1));
    Move(t, reach, s0, SweepDeleteRows(1), s);
  }

  /** and reports the size it had before. */
  lemma MiscountedRun(t: Timing, reach: State -> bool) returns (bad: State)
    requires Closed(t, reach) && reach(Init(0)) && t.delay > t.grace
    ensures reach(bad) && !FreedIsExact(bad)
  {
    var s1 := TakenTwiceRun(t, reach);
    var s2 := Next(t.grace, s1, SweepDeleteBlob(1, C));
    Move(t, reach, s1, SweepDeleteBlob(1, C), s2);
    assert s2.actors[1].phase.pending == {};
    bad := Next(t.grace, s2, SweepFinishBatch(1));
    Move(t, reach, s2, SweepFinishBatch(1), bad);
    var gone := [Removed(C, 2)];
    assert s2.actors[1].phase.gone == gone && gone[1..] == [];
    assert Freed(gone, map[C := 1]) == 1 && Total(gone) == 2;
    assert bad.actors[1].removed == [] + gone && [] + gone == gone;
    assert IsSweep(bad, 1);
  }

  lemma MiscountingRun(t: Timing) returns (now: int, steps: seq<Step>)
    requires t.delay > t.grace
    ensures Run(t, Init(now), steps) && !FreedIsExact(Final(t, Init(now), steps))
  {
    ReachedClosed(t);
    assert Reached(t, Init(0)) by { assert Run(t, Init(0), []); }
    var bad := MiscountedRun(t, s => Reached(t, s));
    now, steps :| Run(t, Init(now), steps) && Final(t, Init(now), steps) == bad;
  }

  /** Every sweep of every run reports as freed exactly the compressed size of the rows it removed in
      completed batches if and only if no stamp is committed later than a grace period after its clock
      was read: the sizes come from a snapshot, and a row put back late can have another size. */
  lemma TotalsAreExact(t: Timing)
    ensures (forall now, steps :: Run(t, Init(now), steps) ==> FreedIsExact(Final(t, Init(now), steps)))
            <==> t.delay <= t.grace
  {
    if t.delay <= t.grace {
      forall now, steps | Run(t, Init(now), steps) ensures FreedIsExact(Final(t, Init(now), steps)) {
        FreedExactWithin(t, now, steps);
      }
    } else {
      var now, steps := MiscountingRun(t);
      assert !(Run(t, Init(now), steps) ==> FreedIsExact(Final(t, Init(now), steps)));
    }
  }
}
