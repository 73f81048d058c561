/** The chunk lifecycle protocol as a step system.

    Garbage-collection sweeps, put-path and adopt requests, get-missing-chunks queries,
    chunk uploads and path evictions share three tables with no lock around them: chunk
    rows, blobs and path rows. Every database write is one atomic step, and so is every
    batch of a batched read or write. Any number of actors are in flight at once and any
    of them may stop anywhere (an error, a crash, or the end of its work). */
module ChunkLifecycle {
  import opened Common

  /** Placeholders per query: TouchChunks and MissingChunks work in slices this long. */
  const BATCH_VARS: nat := 900

  /** Candidates per sweep batch. */
  const GC_BATCH_SIZE: nat := 500

  /** A chunk is addressed by its content hash within one storage backend. */
  datatype Chunk = Chunk(backend: string, hash: string)

  /** A chunk row: the grace-window stamp and the compressed size. */
  datatype Row = Row(created: int, csize: nat)

  datatype PathKey = PathKey(cache: int, storeHash: string)

  /** A row a sweep removed, with the size it had when it was removed. */
  datatype Removed = Removed(chunk: Chunk, csize: nat)

  datatype SweepPhase =
    | CutoffTaken
    | LiveRead(live: set<Chunk>)
      /** todo: candidates not yet batched; sizes: their compressed sizes as read with them;
          gone: rows the current batch removed; pending: blobs of that batch still to delete. */
    | Sweeping(todo: seq<Chunk>, sizes: map<Chunk, nat>, gone: seq<Removed>, pending: set<Chunk>)

  datatype UploadPhase =
    | Probed(found: bool)      // HasChunk answered
    | Touching(stamp: int)     // dedup hit, clock read
    | Stored                   // blob written, no row yet
    | Inserting(stamp: int)    // blob written, clock read

  datatype Actor =
      /** started: the clock read that fixes the cutoff. deleted and freed are the running totals
          the sweep reports; removed records the rows removed in completed batches. */
    | Sweep(backend: string, started: int, phase: SweepPhase,
            deleted: nat, freed: nat, removed: seq<Removed>)
      /** put-path, or adopt of one candidate: stamp every chunk, then check, then commit. */
    | Register(key: PathKey, chunks: seq<Chunk>, stamp: int,
               stamped: nat, checked: nat, missing: set<Chunk>)
      /** get-missing-chunks: check first ... */
    | Query(asked: seq<Chunk>, answered: nat, found: set<Chunk>)
      /** ... then stamp what it is about to promise. */
    | Promise(touch: seq<Chunk>, stamp: int, touched: nat)
    | Upload(chunk: Chunk, csize: nat, up: UploadPhase)

  datatype State = State(
    now: int,
    rows: map<Chunk, Row>,
    blobs: set<Chunk>,
    paths: map<PathKey, seq<Chunk>>,
    actors: map<nat, Actor>)

  datatype Step =
    | Tick(seconds: nat)
    | SweepStart(id: nat, backend: string)
    | SweepReadLive(id: nat)
    | SweepReadCandidates(id: nat, order: seq<Chunk>)
    | SweepDeleteRows(id: nat)
    | SweepDeleteBlob(id: nat, chunk: Chunk)
    | SweepFinishBatch(id: nat)
    | RegisterStart(id: nat, key: PathKey, chunks: seq<Chunk>)
    | RegisterStamp(id: nat)
    | RegisterCheck(id: nat)
    | RegisterCommit(id: nat)
    | QueryStart(id: nat, chunks: seq<Chunk>)
    | QueryCheck(id: nat)
    | QueryCapture(id: nat)
    | PromiseStamp(id: nat)
    | UploadStart(id: nat, chunk: Chunk, csize: nat)
    | UploadCapture(id: nat)
    | UploadTouch(id: nat)
    | UploadPutBlob(id: nat)
    | UploadInsert(id: nat)
    | Evict(keys: set<PathKey>)
    | Stop(id: nat)

  /** An empty store with nothing in flight. */
  function Init(now: int): State {
    State(now, map[], {}, map[], map[])
  }

  function BatchEnd(i: nat, n: nat, size: nat): nat {
    if i + size <= n then i + size else n
  }

  function Range(s: seq<Chunk>, lo: nat, hi: nat): set<Chunk>
    requires hi <= |s|
  {
    set i | lo <= i < hi :: s[i]
  }

  /** The hashes in order, keeping only those found. */
  function Present(asked: seq<Chunk>, found: set<Chunk>): seq<Chunk> {
    if asked == [] then []
    else (if asked[0] in found then [asked[0]] else []) + Present(asked[1..], found)
  }

  ghost predicate Registered(s: State, c: Chunk) {
    exists k :: k in s.paths && c in s.paths[k]
  }

  function LiveSet(s: State, backend: string): set<Chunk> {
    set k, i | k in s.paths && 0 <= i < |s.paths[k]| && s.paths[k][i].backend == backend :: s.paths[k][i]
  }

  function Candidates(rows: map<Chunk, Row>, backend: string, live: set<Chunk>, cutoff: int): set<Chunk> {
    set c | c in rows && c.backend == backend && c !in live && rows[c].created < cutoff
  }

  predicate Enumerates(order: seq<Chunk>, all: set<Chunk>) {
    && (forall i :: 0 <= i < |order| ==> order[i] in all)
    && (forall c :: c in all ==> c in order)
    && NoRepeats(order)
  }

  /** DELETE ... AND created<? RETURNING hash, over one batch. */
  function Returning(rows: map<Chunk, Row>, batch: seq<Chunk>, cutoff: int): seq<Removed> {
    if batch == [] then []
    else
      (if batch[0] in rows && rows[batch[0]].created < cutoff
       then [Removed(batch[0], rows[batch[0]].csize)] else [])
      + Returning(rows, batch[1..], cutoff)
  }

  /** Total of the sizes a sweep looks up for the rows it removed. */
  function Freed(gone: seq<Removed>, sizes: map<Chunk, nat>): nat {
    if gone == [] then 0
    else (if gone[0].chunk in sizes then sizes[gone[0].chunk] else 0) + Freed(gone[1..], sizes)
  }

  // ---- what a step writes to the chunk table ----

  datatype Write =
    | NoWrite
    | Touch(batch: set<Chunk>, stamp: int)            // UPDATE ... SET created=?
    | Insert(chunk: Chunk, csize: nat, stamp: int)    // INSERT ... ON CONFLICT DO UPDATE SET created
    | Delete(batch: set<Chunk>, cutoff: int)          // DELETE ... AND created<?

  function Apply(rows: map<Chunk, Row>, w: Write): map<Chunk, Row> {
    match w
    case NoWrite => rows
    case Touch(batch, stamp) =>
      map c | c in rows :: if c in batch then Row(stamp, rows[c].csize) else rows[c]
    case Insert(c, csize, stamp) =>
      rows[c := Row(stamp, if c in rows then rows[c].csize else csize)]
    case Delete(batch, cutoff) =>
      map c | c in rows && !(c in batch && rows[c].created < cutoff) :: rows[c]
  }

  /** What each actor may do next, as its handler is written. */
  predicate Enabled(grace: int, s: State, a: Step) {
    match a
    case Tick(_) => true
    case Evict(_) => true
    case SweepStart(id, _) => id !in s.actors
    case RegisterStart(id, _, _) => id !in s.actors
    case QueryStart(id, _) => id !in s.actors
    case UploadStart(id, _, _) => id !in s.actors
    case Stop(id) => id in s.actors
    case SweepReadLive(id) => IsSweep(s, id) && s.actors[id].phase.CutoffTaken?
    case SweepReadCandidates(id, order) =>
      && IsSweep(s, id) && s.actors[id].phase.LiveRead?
      && var me := s.actors[id];
         Enumerates(order, Candidates(s.rows, me.backend, me.phase.live, me.started - grace))
    case SweepDeleteRows(id) =>
      && IsSweep(s, id) && s.actors[id].phase.Sweeping?
      && s.actors[id].phase.todo != [] && s.actors[id].phase.gone == []
    case SweepDeleteBlob(id, c) =>
      IsSweep(s, id) && s.actors[id].phase.Sweeping? && c in s.actors[id].phase.pending
    case SweepFinishBatch(id) =>
      IsSweep(s, id) && s.actors[id].phase.Sweeping? && s.actors[id].phase.pending == {}
    case RegisterStamp(id) =>
      IsRegister(s, id) && s.actors[id].stamped < |s.actors[id].chunks|
    case RegisterCheck(id) =>
      && IsRegister(s, id) && s.actors[id].stamped == |s.actors[id].chunks|
      && s.actors[id].checked < |s.actors[id].chunks|
    case RegisterCommit(id) =>
      && IsRegister(s, id) && s.actors[id].stamped == s.actors[id].checked == |s.actors[id].chunks|
      && s.actors[id].missing == {}
    case QueryCheck(id) =>
      id in s.actors && s.actors[id].Query? && s.actors[id].answered < |s.actors[id].asked|
    case QueryCapture(id) =>
      id in s.actors && s.actors[id].Query? && s.actors[id].answered == |s.actors[id].asked|
    case PromiseStamp(id) =>
      id in s.actors && s.actors[id].Promise? && s.actors[id].touched < |s.actors[id].touch|
    case UploadCapture(id) =>
      IsUpload(s, id) && (s.actors[id].up == Probed(true) || s.actors[id].up.Stored?)
    case UploadTouch(id) => IsUpload(s, id) && s.actors[id].up.Touching?
    case UploadPutBlob(id) => IsUpload(s, id) && s.actors[id].up == Probed(false)
    case UploadInsert(id) => IsUpload(s, id) && s.actors[id].up.Inserting?
  }

  predicate IsSweep(s: State, id: nat) { id in s.actors && s.actors[id].Sweep? }

  predicate IsRegister(s: State, id: nat) { id in s.actors && s.actors[id].Register? }

  predicate IsUpload(s: State, id: nat) { id in s.actors && s.actors[id].Upload? }

  /** The write transaction a step commits on the chunk table, if any. */
  function WriteOf(grace: int, s: State, a: Step): Write
    requires Enabled(grace, s, a)
  {
    match a
    case SweepDeleteRows(id) =>
      var me := s.actors[id];
      Delete(Range(me.phase.todo, 0, BatchEnd(0, |me.phase.todo|, GC_BATCH_SIZE)), me.started - grace)
    case RegisterStamp(id) =>
      var me := s.actors[id];
      Touch(Range(me.chunks, me.stamped, BatchEnd(me.stamped, |me.chunks|, BATCH_VARS)), me.stamp)
    case PromiseStamp(id) =>
      var me := s.actors[id];
      Touch(Range(me.touch, me.touched, BatchEnd(me.touched, |me.touch|, BATCH_VARS)), me.stamp)
    case UploadTouch(id) => Touch({s.actors[id].chunk}, s.actors[id].up.stamp)
    case UploadInsert(id) => Insert(s.actors[id].chunk, s.actors[id].csize, s.actors[id].up.stamp)
    case _ => NoWrite
  }

  /** A later step of a sweep. */
  predicate SweepStep(a: Step) {
    a.SweepReadLive? || a.SweepReadCandidates? || a.SweepDeleteRows? || a.SweepDeleteBlob? || a.SweepFinishBatch?
  }

  /** One sweep step, as seen by the sweep. */
  function SweepAfter(grace: int, s: State, a: Step): Actor
    requires Enabled(grace, s, a)
    requires SweepStep(a)
  {
    var me := s.actors[a.id];
    match a
    case SweepReadLive(_) => me.(phase := LiveRead(LiveSet(s, me.backend)))
    case SweepReadCandidates(_, order) =>
      me.(phase := Sweeping(order, map c | c in s.rows && c in order :: s.rows[c].csize, [], {}))
    case SweepDeleteRows(_) =>
      var n := BatchEnd(0, |me.phase.todo|, GC_BATCH_SIZE);
      var gone := Returning(s.rows, me.phase.todo[..n], me.started - grace);
      me.(phase := me.phase.(todo := me.phase.todo[n..], gone := gone,
                             pending := set i | 0 <= i < |gone| :: gone[i].chunk))
    case SweepDeleteBlob(_, c) => me.(phase := me.phase.(pending := me.phase.pending - {c}))
    case SweepFinishBatch(_) =>
      me.(phase := me.phase.(gone := []),
          deleted := me.deleted + |me.phase.gone|,
          freed := me.freed + Freed(me.phase.gone, me.phase.sizes),
          removed := me.removed + me.phase.gone)
  }

  /** One request step, as seen by the request. */
  function RequestAfter(grace: int, s: State, a: Step): Actor
    requires Enabled(grace, s, a)
    requires a.RegisterStamp? || a.RegisterCheck? || a.QueryCheck? || a.QueryCapture? || a.PromiseStamp?
             || a.UploadCapture? || a.UploadPutBlob?
  {
    var me := s.actors[a.id];
    match a
    case RegisterStamp(_) => me.(stamped := BatchEnd(me.stamped, |me.chunks|, BATCH_VARS))
    case RegisterCheck(_) =>
      var hi := BatchEnd(me.checked, |me.chunks|, BATCH_VARS);
      me.(checked := hi, missing := me.missing + (Range(me.chunks, me.checked, hi) - s.rows.Keys))
    case QueryCheck(_) =>
      var hi := BatchEnd(me.answered, |me.asked|, BATCH_VARS);
      me.(answered := hi, found := me.found + (Range(me.asked, me.answered, hi) * s.rows.Keys))
    case QueryCapture(_) => Promise(Present(me.asked, me.found), s.now, 0)
    case PromiseStamp(_) => me.(touched := BatchEnd(me.touched, |me.touch|, BATCH_VARS))
    case UploadCapture(_) => me.(up := if me.up.Stored? then Inserting(s.now) else Touching(s.now))
    case UploadPutBlob(_) => me.(up := Stored)
  }

  function ActorsAfter(grace: int, s: State, a: Step): map<nat, Actor>
    requires Enabled(grace, s, a)
  {
    match a
    case Tick(_) => s.actors
    case Evict(_) => s.actors
    case SweepStart(id, backend) => s.actors[id := Sweep(backend, s.now, CutoffTaken, 0, 0, [])]
    case RegisterStart(id, key, chunks) => s.actors[id := Register(key, chunks, s.now, 0, 0, {})]
    case QueryStart(id, chunks) => s.actors[id := Query(chunks, 0, {})]
    case UploadStart(id, c, csize) => s.actors[id := Upload(c, csize, Probed(c in s.rows))]
    case Stop(id) => s.actors - {id}
    case RegisterCommit(id) => s.actors - {id}
    case UploadTouch(id) => s.actors - {id}
    case UploadInsert(id) => s.actors - {id}
    case RegisterStamp(id) => s.actors[id := RequestAfter(grace, s, a)]
    case RegisterCheck(id) => s.actors[id := RequestAfter(grace, s, a)]
    case QueryCheck(id) => s.actors[id := RequestAfter(grace, s, a)]
    case QueryCapture(id) => s.actors[id := RequestAfter(grace, s, a)]
    case PromiseStamp(id) => s.actors[id := RequestAfter(grace, s, a)]
    case UploadCapture(id) => s.actors[id := RequestAfter(grace, s, a)]
    case UploadPutBlob(id) => s.actors[id := RequestAfter(grace, s, a)]
    case _ => s.actors[a.id := SweepAfter(grace, s, a)]
  }

  /** The step relation: it is deterministic once the scheduler has picked the step. */
  function Next(grace: int, s: State, a: Step): State
    requires Enabled(grace, s, a)
  {
    State(
      if a.Tick? then s.now + a.seconds else s.now,
      Apply(s.rows, WriteOf(grace, s, a)),
      if a.UploadPutBlob? then s.blobs + {s.actors[a.id].chunk}
      else if a.SweepDeleteBlob? then s.blobs - {a.chunk}
      else s.blobs,
      if a.RegisterCommit? then s.paths[s.actors[a.id].key := s.actors[a.id].chunks]
      else if a.Evict? then s.paths - a.keys
      else s.paths,
      ActorsAfter(grace, s, a))
  }

  // ---- runs ----

  /** The timing a deployment keeps: grace window, the longest put-path or adopt takes from reading
      its stamp to its commit, and the longest any stamp takes from being read to being committed. */
  datatype Timing = Timing(grace: int, window: nat, delay: nat)

  predicate Timely(t: Timing, s: State, a: Step)
    requires Enabled(t.grace, s, a)
  {
    && (var w := WriteOf(t.grace, s, a);
        w.Touch? || w.Insert? ==> s.now <= w.stamp + t.delay)
    && (a.RegisterCommit? ==> s.now <= s.actors[a.id].stamp + t.window)
  }

  predicate Run(t: Timing, s: State, steps: seq<Step>)
    decreases |steps|
  {
    steps == [] ||
    (&& Enabled(t.grace, s, steps[0])
     && Timely(t, s, steps[0])
     && Run(t, Next(t.grace, s, steps[0]), steps[1..]))
  }

  function Final(t: Timing, s: State, steps: seq<Step>): State
    requires Run(t, s, steps)
    decreases |steps|
  {
    if steps == [] then s else Final(t, Next(t.grace, s, steps[0]), steps[1..])
  }
}
