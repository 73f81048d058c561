/** No registered path ever loses a chunk row, in any interleaving, exactly when the grace window
    covers the longest registration plus the longest stamp delay. */
module RowSafety {
  import opened ChunkLifecycle

  /** Every chunk of every registered path has a row. */
  ghost predicate Safe(s: State) {
    forall c :: Registered(s, c) ==> c in s.rows
  }

  predicate StampedSince(s: State, c: Chunk, t: int) {
    c in s.rows && s.rows[c].created >= t
  }

  /** What holds of one actor in flight. A sweep's doomed chunks never include a registered one
      unless that row has been stamped past the sweep's cutoff; a registration that is still within
      its window has a recent stamp on every row it found. */
  ghost predicate ActorOk(t: Timing, s: State, x: Actor) {
    match x
    case Sweep(backend, started, phase, _, _, _) =>
      && started <= s.now
      && (phase.LiveRead? ==>
            forall c :: Registered(s, c) && c.backend == backend && c !in phase.live
                        ==> StampedSince(s, c, started - t.grace))
      && (phase.Sweeping? ==>
            forall c :: Registered(s, c) && c in phase.todo ==> StampedSince(s, c, started - t.grace))
    case Register(_, chunks, stamp, stamped, checked, missing) =>
      && stamp <= s.now
      && stamped <= |chunks|
      && checked <= |chunks|
      && (checked > 0 ==> stamped == |chunks|)
      && (forall i :: 0 <= i < stamped && chunks[i] in s.rows ==> s.rows[chunks[i]].created >= stamp - t.delay)
      && (s.now <= stamp + t.window ==>
            forall i :: 0 <= i < checked ==> chunks[i] in missing || chunks[i] in s.rows)
    case Query(_, _, _) => true
    case Promise(_, stamp, _) => stamp <= s.now
    case Upload(_, _, up) => up.Touching? || up.Inserting? ==> up.stamp <= s.now
  }

  ghost predicate Inv(t: Timing, s: State) {
    && Safe(s)
    && forall id :: id in s.actors ==> ActorOk(t, s, s.actors[id])
  }

  ghost predicate Covered(t: Timing) {
    t.window + t.delay <= t.grace
  }

  /** A commit's chunks all have rows stamped past the cutoff of every sweep in flight. */
  lemma CommitIsFresh(t: Timing, s: State, a: Step, c: Chunk)
    requires Covered(t) && Inv(t, s) && Enabled(t.grace, s, a) && Timely(t, s, a)
    requires a.RegisterCommit? && c in s.actors[a.id].chunks
    ensures StampedSince(s, c, s.now - t.grace)
  {
    var me := s.actors[a.id];
    assert ActorOk(t, s, me);
    var i :| 0 <= i < |me.chunks| && me.chunks[i] == c;
  }

  /** Registration only grows by a commit. */
  lemma RegisteredAfter(t: Timing, s: State, a: Step, c: Chunk)
    requires Enabled(t.grace, s, a) && Registered(Next(t.grace, s, a), c)
    ensures Registered(s, c) || (a.RegisterCommit? && c in s.actors[a.id].chunks)
  {
  }

  /** A registered row is never deleted, and never falls below a cutoff it was above. */
  lemma RegisteredKept(t: Timing, s: State, a: Step, c: Chunk)
    requires Covered(t) && Inv(t, s) && Enabled(t.grace, s, a) && Timely(t, s, a)
    requires Registered(Next(t.grace, s, a), c)
    ensures c in Next(t.grace, s, a).rows
    ensures forall u :: u <= s.now - t.grace && StampedSince(s, c, u) ==> StampedSince(Next(t.grace, s, a), c, u)
  {
    RegisteredAfter(t, s, a, c);
    if a.RegisterCommit? && c in s.actors[a.id].chunks {
      CommitIsFresh(t, s, a, c);
    }
    if a.SweepDeleteRows? {
      assert ActorOk(t, s, s.actors[a.id]);
    }
  }

  lemma OtherKept(t: Timing, s: State, a: Step, x: Actor)
    requires Covered(t) && Inv(t, s) && Enabled(t.grace, s, a) && Timely(t, s, a)
    requires ActorOk(t, s, x)
    ensures ActorOk(t, Next(t.grace, s, a), x)
  {
    var s' := Next(t.grace, s, a);
    match x
    case Sweep(backend, started, phase, _, _, _) =>
      forall c | Registered(s', c)
        ensures StampedSince(s, c, started - t.grace) ==> StampedSince(s', c, started - t.grace)
        ensures Registered(s, c) || StampedSince(s', c, started - t.grace)
      {
        RegisteredKept(t, s, a, c);
        RegisteredAfter(t, s, a, c);
        if !Registered(s, c) { CommitIsFresh(t, s, a, c); }
      }
    case Register(_, _, _, _, _, _) =>
      if a.SweepDeleteRows? { assert ActorOk(t, s, s.actors[a.id]); }
    case _ =>
  }

  lemma SweepKept(t: Timing, s: State, a: Step)
    requires Covered(t) && Inv(t, s) && Enabled(t.grace, s, a) && Timely(t, s, a)
    requires SweepStep(a)
    ensures ActorOk(t, Next(t.grace, s, a), SweepAfter(t.grace, s, a))
  {
    OtherKept(t, s, a, s.actors[a.id]);
    LiveSetComplete(Next(t.grace, s, a), s.actors[a.id].backend);
  }

  lemma RequestKept(t: Timing, s: State, a: Step)
    requires Covered(t) && Inv(t, s) && Enabled(t.grace, s, a) && Timely(t, s, a)
    requires a.RegisterStamp? || a.RegisterCheck? || a.QueryCheck? || a.QueryCapture? || a.PromiseStamp?
             || a.UploadCapture? || a.UploadPutBlob?
    ensures ActorOk(t, Next(t.grace, s, a), RequestAfter(t.grace, s, a))
  {
    OtherKept(t, s, a, s.actors[a.id]);
  }

  lemma LiveSetComplete(s: State, backend: string)
    ensures forall c :: Registered(s, c) && c.backend == backend ==> c in LiveSet(s, backend)
  {
  }

  lemma StepKeeps(t: Timing, s: State, a: Step)
    requires Covered(t) && Inv(t, s) && Enabled(t.grace, s, a) && Timely(t, s, a)
    ensures Inv(t, Next(t.grace, s, a))
  {
    var s' := Next(t.grace, s, a);
    forall c | Registered(s', c) ensures c in s'.rows { RegisteredKept(t, s, a, c); }
    forall id | id in s'.actors ensures ActorOk(t, s', s'.actors[id]) {
      if a.Tick? || a.Evict? || id != a.id {
        OtherKept(t, s, a, s.actors[id]);
      } else if SweepStep(a) {
        SweepKept(t, s, a);
      } else if id in s.actors {
        RequestKept(t, s, a);
      }
    }
  }

  lemma {:induction false} RunKeeps(t: Timing, s: State, steps: seq<Step>)
    requires Covered(t) && Inv(t, s) && Run(t, s, steps)
    ensures Inv(t, Final(t, s, steps))
    decreases |steps|
  {
    if steps == [] {
    } else {
      StepKeeps(t, s, steps[0]);
      RunKeeps(t, Next(t.grace, s, steps[0]), steps[1..]);
    }
  }

  // ---- the window is exact ----

  /** A run may be extended by one enabled, timely step. */
  lemma {:induction false} Extend(t: Timing, s: State, steps: seq<Step>, a: Step)
    requires Run(t, s, steps)
    requires Enabled(t.grace, Final(t, s, steps), a) && Timely(t, Final(t, s, steps), a)
    ensures Run(t, s, steps + [a])
    ensures Final(t, s, steps + [a]) == Next(t.grace, Final(t, s, steps), a)
    decreases |steps|
  {
    if steps == [] {
      assert steps + [a] == [a];
      assert Run(t, Next(t.grace, s, a), []);
    } else {
      Extend(t, Next(t.grace, s, steps[0]), steps[1..], a);
      assert (steps + [a])[1..] == steps[1..] + [a];
    }
  }

  const C: Chunk := Chunk("default", "h")
  const K: PathKey := PathKey(1, "p")

  lemma OneBatch()
    ensures Range([C], 0, 1) == {C}
    ensures BatchEnd(0, 1, BATCH_VARS) == BatchEnd(0, 1, GC_BATCH_SIZE) == 1
  {
    assert [C][0] in Range([C], 0, 1);
  }

  /** A property of states that timely steps preserve. */
  ghost predicate Closed(t: Timing, reach: State -> bool) {
    forall s, a :: reach(s) && Enabled(t.grace, s, a) && Timely(t, s, a) ==> reach(Next(t.grace, s, a))
  }

  lemma Move(t: Timing, reach: State -> bool, s: State, a: Step, s': State)
    requires Closed(t, reach) && reach(s)
    requires Enabled(t.grace, s, a) && Timely(t, s, a) && Next(t.grace, s, a) == s'
    ensures reach(s')
  {
  }

  /** The chunk with a given stamp, and these actors in flight. */
  ghost function At(now: int, created: int, actors: map<nat, Actor>): State {
    State(now, map[C := Row(created, 1)], {C}, map[], actors)
  }

  lemma StoredRun(t: Timing, reach: State -> bool)
    requires Closed(t, reach) && reach(Init(0))
    ensures reach(State(0, map[], {C}, map[], map[0 := Upload(C, 1, Stored)]))
  {
    var s := Init(0).(actors := map[0 := Upload(C, 1, Probed(false))]);
    Move(t, reach, Init(0), UploadStart(0, C, 1), s);
    Move(t, reach, s, UploadPutBlob(0), State(0, map[], {C}, map[], map[0 := Upload(C, 1, Stored)]));
  }

  lemma UploadRun(t: Timing, reach: State -> bool)
    requires Closed(t, reach) && reach(Init(0))
    ensures reach(At(0, 0, map[]))
  {
    StoredRun(t, reach);
    var s := State(0, map[], {C}, map[], map[0 := Upload(C, 1, Stored)]);
    var s1 := s.(actors := map[0 := Upload(C, 1, Inserting(0))]);
    Move(t, reach, s, UploadCapture(0), s1);
    Move(t, reach, s1, UploadInsert(0), At(0, 0, map[]));
  }

  lemma PromisedRun(t: Timing, reach: State -> bool)
    requires Closed(t, reach) && reach(Init(0))
    ensures reach(At(t.delay, 0, map[1 := Promise([C], 0, 0)]))
  {
    OneBatch();
    UploadRun(t, reach);
    var s := At(0, 0, map[1 := Query([C], 0, {})]);
    Move(t, reach, At(0, 0, map[]), QueryStart(1, [C]), s);
    var s1 := At(0, 0, map[1 := Query([C], 1, {C})]);
    assert {} + ({C} * s.rows.Keys) == {C};
    Move(t, reach, s, QueryCheck(1), s1);
    var s2 := At(0, 0, map[1 := Promise([C], 0, 0)]);
    assert Present([C], {C}) == [C];
    Move(t, reach, s1, QueryCapture(1), s2);
    Move(t, reach, s2, Tick(t.delay), At(t.delay, 0, map[1 := Promise([C], 0, 0)]));
  }

  lemma StampedRun(t: Timing, reach: State -> bool)
    requires Closed(t, reach) && reach(Init(0))
    ensures reach(At(t.delay, t.delay, map[0 := Register(K, [C], t.delay, 1, 0, {}), 1 := Promise([C], 0, 0)]))
  {
    OneBatch();
    PromisedRun(t, reach);
    var me, other := Register(K, [C], t.delay, 0, 0, {}), Promise([C], 0, 0);
    var s := At(t.delay, 0, map[0 := me, 1 := other]);
    Move(t, reach, At(t.delay, 0, map[1 := other]), RegisterStart(0, K, [C]), s);
    var s1 := At(t.delay, t.delay, map[0 := me.(stamped := 1), 1 := other]);
    Move(t, reach, s, RegisterStamp(0), s1);
  }

  /** At time delay a registration has stamped and checked its chunk, but a promise whose clock was
      read at time 0 has committed in between and put the stamp back to 0. */
  lemma LoweredRun(t: Timing, reach: State -> bool)
    requires Closed(t, reach) && reach(Init(0))
    ensures reach(At(t.delay, 0, map[0 := Register(K, [C], t.delay, 1, 1, {}), 1 := Promise([C], 0, 1)]))
  {
    OneBatch();
    StampedRun(t, reach);
    var me, other := Register(K, [C], t.delay, 1, 0, {}), Promise([C], 0, 0);
    var s := At(t.delay, t.delay, map[0 := me, 1 := other]);
    var s1 := At(t.delay, 0, map[0 := me, 1 := other.(touched := 1)]);
    Move(t, reach, s, PromiseStamp(1), s1);
    var s2 := At(t.delay, 0, map[0 := me.(checked := 1), 1 := other.(touched := 1)]);
    assert {} + ({C} - s1.rows.Keys) == {};
    Move(t, reach, s1, RegisterCheck(0), s2);
  }

  /** That registration at the end of its window, with a sweep just started. */
  ghost function Doomed(t: Timing, phase: SweepPhase): State {
    At(t.delay + t.window, 0,
       map[0 := Register(K, [C], t.delay, 1, 1, {}), 1 := Promise([C], 0, 1),
           2 := Sweep("default", t.delay + t.window, phase, 0, 0, [])])
  }

  lemma SweepRun(t: Timing, reach: State -> bool)
    requires Closed(t, reach) && reach(Init(0))
    ensures reach(Doomed(t, CutoffTaken))
  {
    LoweredRun(t, reach);
    var s := At(t.delay + t.window, 0, map[0 := Register(K, [C], t.delay, 1, 1, {}), 1 := Promise([C], 0, 1)]);
    Move(t, reach, s.(now := t.delay), Tick(t.window), s);
    Move(t, reach, s, SweepStart(2, "default"), Doomed(t, CutoffTaken));
  }

  lemma UnreferencedRun(t: Timing, reach: State -> bool)
    requires Closed(t, reach) && reach(Init(0))
    ensures reach(Doomed(t, LiveRead({})))
  {
    SweepRun(t, reach);
    assert LiveSet(Doomed(t, CutoffTaken), "default") == {};
    Move(t, reach, Doomed(t, CutoffTaken), SweepReadLive(2), Doomed(t, LiveRead({})));
  }

  /** When the window is not covered, a sweep started at its end finds the chunk unreferenced and
      expired. */
  lemma DoomedRun(t: Timing, reach: State -> bool)
    requires Closed(t, reach) && reach(Init(0))
    requires !Covered(t)
    ensures reach(Doomed(t, Sweeping([C], map[C := 1], [], {})))
  {
    UnreferencedRun(t, reach);
    var s := Doomed(t, LiveRead({}));
    assert (map c | c in s.rows && c in [C] :: s.rows[c].csize) == map[C := 1];
    Move(t, reach, s, SweepReadCandidates(2, [C]), Doomed(t, Sweeping([C], map[C := 1], [], {})));
  }

  /** The sweep takes the row, and the registration still commits in time. */
  lemma DanglingRun(t: Timing, reach: State -> bool) returns (bad: State)
    requires Closed(t, reach) && reach(Init(0))
    requires !Covered(t)
    ensures reach(bad) && !Safe(bad)
  {
    OneBatch();
    DoomedRun(t, reach);
    var doomed := Doomed(t, Sweeping([C], map[C := 1], [], {}));
    var s := Next(t.grace, doomed, SweepDeleteRows(2));
    Move(t, reach, doomed, SweepDeleteRows(2), s);
    bad := Next(t.grace, s, RegisterCommit(0));
    Move(t, reach, s, RegisterCommit(0), bad);
    assert C !in bad.rows;
    assert Registered(bad, C) by { assert C in bad.paths[K]; }
  }

  ghost predicate Reached(t: Timing, s: State) {
    exists now, steps :: Run(t, Init(now), steps) && Final(t, Init(now), steps) == s
  }

  lemma ReachedClosed(t: Timing)
    ensures Closed(t, s => Reached(t, s))
  {
    forall s, a | Reached(t, s) && Enabled(t.grace, s, a) && Timely(t, s, a)
      ensures Reached(t, Next(t.grace, s, a))
    {
      var now, steps :| Run(t, Init(now), steps) && Final(t, Init(now), steps) == s;
      Extend(t, Init(now), steps, a);
    }
  }

  /** No interleaving registers a path whose chunk row is missing, or loses one afterwards, if and
      only if the window plus the stamp delay fits in the grace period. */
  lemma SafeExactlyWhenCovered(t: Timing)
    ensures (forall now, steps :: Run(t, Init(now), steps) ==> Safe(Final(t, Init(now), steps)))
            <==> t.window + t.delay <= t.grace
  {
    if Covered(t) {
      forall now, steps | Run(t, Init(now), steps) ensures Safe(Final(t, Init(now), steps)) {
        RunKeeps(t, Init(now), steps);
      }
    } else {
      var now, steps := UnsafeRun(t);
      assert !(Run(t, Init(now), steps) ==> Safe(Final(t, Init(now), steps)));
    }
  }

  lemma UnsafeRun(t: Timing) returns (now: int, steps: seq<Step>)
    requires !Covered(t)
    ensures Run(t, Init(now), steps) && !Safe(Final(t, Init(now), steps))
  {
    ReachedClosed(t);
    assert Reached(t, Init(0)) by { assert Run(t, Init(0), []); }
    var bad := DanglingRun(t, s => Reached(t, s));
    now, steps :| Run(t, Init(now), steps) && Final(t, Init(now), steps) == bad;
  }

  // ---- a found stamp protects its row ----

  /** The step commits a stamp on a row that is there when it commits. */
  predicate Stamps(grace: int, s: State, a: Step, c: Chunk, stamp: int)
    requires Enabled(grace, s, a)
  {
    var w := WriteOf(grace, s, a);
    (w.Touch? && c in w.batch && c in s.rows && w.stamp == stamp) || (w.Insert? && c == w.chunk && w.stamp == stamp)
  }

  /** Every sweep that deletes rows during the run read its clock no later than the given time. */
  predicate SweptBy(t: Timing, s: State, steps: seq<Step>, latest: int)
    requires Run(t, s, steps)
    decreases |steps|
  {
    steps == [] ||
    (&& (steps[0].SweepDeleteRows? ==> s.actors[steps[0].id].started <= latest)
     && SweptBy(t, Next(t.grace, s, steps[0]), steps[1..], latest))
  }

  /** No clock reading in flight is from the future. */
  ghost predicate ReadPast(s: State) {
    forall id :: id in s.actors ==>
      match s.actors[id]
      case Sweep(_, started, _, _, _, _) => started <= s.now
      case Register(_, _, stamp, _, _, _) => stamp <= s.now
      case Query(_, _, _) => true
      case Promise(_, stamp, _) => stamp <= s.now
      case Upload(_, _, up) => up.Touching? || up.Inserting? ==> up.stamp <= s.now
  }

  lemma {:induction false} RunReadsPast(t: Timing, s: State, steps: seq<Step>)
    requires ReadPast(s) && Run(t, s, steps)
    ensures ReadPast(Final(t, s, steps)) && s.now <= Final(t, s, steps).now
    decreases |steps|
  {
    if steps == [] {
    } else {
      RunReadsPast(t, Next(t.grace, s, steps[0]), steps[1..]);
    }
  }

  lemma {:induction false} FloorKept(t: Timing, s: State, steps: seq<Step>, c: Chunk, floor: int)
    requires StampedSince(s, c, floor) && floor <= s.now - t.delay
    requires Run(t, s, steps) && SweptBy(t, s, steps, floor + t.grace)
    ensures StampedSince(Final(t, s, steps), c, floor)
    decreases |steps|
  {
    if steps == [] {
    } else {
      FloorKept(t, Next(t.grace, s, steps[0]), steps[1..], c, floor);
    }
  }

  /** A row stamped at time stamp outlives every sweep started by stamp + grace - delay, however
      often other requests put an older stamp on it afterwards. */
  lemma StampedRowSurvives(t: Timing, now: int, before: seq<Step>, a: Step, after: seq<Step>, c: Chunk, stamp: int)
    requires Run(t, Init(now), before)
    requires Enabled(t.grace, Final(t, Init(now), before), a) && Timely(t, Final(t, Init(now), before), a)
    requires Stamps(t.grace, Final(t, Init(now), before), a, c, stamp)
    requires Run(t, Next(t.grace, Final(t, Init(now), before), a), after)
    requires SweptBy(t, Next(t.grace, Final(t, Init(now), before), a), after, stamp + t.grace - t.delay)
    ensures StampedSince(Final(t, Next(t.grace, Final(t, Init(now), before), a), after), c, stamp - t.delay)
  {
    RunReadsPast(t, Init(now), before);
    FloorKept(t, Next(t.grace, Final(t, Init(now), before), a), after, c, stamp - t.delay);
  }

  /** No registration of these chunks under this id has been told that one is missing. */
  predicate NothingMissing(s: State, id: nat, chunks: seq<Chunk>) {
    IsRegister(s, id) && s.actors[id].chunks == chunks ==> s.actors[id].missing == {}
  }

  /** One step, by a moment at which no sweep's cutoff has passed the stamps, keeps them, and so
      reports none of these chunks missing. */
  lemma PromiseStep(t: Timing, s: State, a: Step, id: nat, chunks: seq<Chunk>, stamp: int)
    requires ReadPast(s) && Enabled(t.grace, s, a) && Timely(t, s, a) && (chunks != [] ==> stamp <= s.now)
    requires forall i :: 0 <= i < |chunks| ==> StampedSince(s, chunks[i], stamp - t.delay)
    requires NothingMissing(s, id, chunks) && s.now <= stamp + t.grace - t.delay
    ensures forall i :: 0 <= i < |chunks| ==> StampedSince(Next(t.grace, s, a), chunks[i], stamp - t.delay)
    ensures NothingMissing(Next(t.grace, s, a), id, chunks) && ReadPast(Next(t.grace, s, a))
  {
    forall i | 0 <= i < |chunks| ensures StampedSince(Next(t.grace, s, a), chunks[i], stamp - t.delay) {
      assert StampedSince(s, chunks[i], stamp - t.delay);
    }
  }

  lemma {:induction false} PromiseHeldFrom(t: Timing, s: State, steps: seq<Step>, id: nat, chunks: seq<Chunk>, stamp: int)
    requires ReadPast(s) && Run(t, s, steps) && (chunks != [] ==> stamp <= s.now)
    requires forall i :: 0 <= i < |chunks| ==> StampedSince(s, chunks[i], stamp - t.delay)
    requires NothingMissing(s, id, chunks)
    requires Final(t, s, steps).now <= stamp + t.grace - t.delay
    ensures NothingMissing(Final(t, s, steps), id, chunks)
    decreases |steps|
  {
    if steps == [] {
    } else {
      var s' := Next(t.grace, s, steps[0]);
      RunReadsPast(t, s, steps);
      PromiseStep(t, s, steps[0], id, chunks, stamp);
      PromiseHeldFrom(t, s', steps[1..], id, chunks, stamp);
    }
  }

  /** Some step of the run commits a stamp of at least this time on a row that is there. */
  ghost predicate StampedDuring(t: Timing, s: State, steps: seq<Step>, c: Chunk, stamp: int)
    requires Run(t, s, steps)
    decreases |steps|
  {
    steps != [] &&
    (|| (exists u :: u >= stamp && Stamps(t.grace, s, steps[0], c, u))
     || StampedDuring(t, Next(t.grace, s, steps[0]), steps[1..], c, stamp))
  }

  /** Every sweep of a run read its clock by the end of the run. */
  lemma {:induction false} SweptByItsEnd(t: Timing, s: State, steps: seq<Step>, latest: int)
    requires ReadPast(s) && Run(t, s, steps) && Final(t, s, steps).now <= latest
    ensures SweptBy(t, s, steps, latest)
    decreases |steps|
  {
    if steps == [] {
    } else {
      ReadsPastStep(t, s, steps[0]);
      RunReadsPast(t, Next(t.grace, s, steps[0]), steps[1..]);
      SweptByItsEnd(t, Next(t.grace, s, steps[0]), steps[1..], latest);
    }
  }

  lemma StampCommits(t: Timing, s: State, a: Step, c: Chunk, u: int)
    requires ReadPast(s) && Enabled(t.grace, s, a) && Timely(t, s, a) && Stamps(t.grace, s, a, c, u)
    ensures var s' := Next(t.grace, s, a); ReadPast(s') && StampedSince(s', c, u) && u <= s'.now
  {
  }

  /** A stamp of at least this time found during a run still holds at its end, up to the delay, if no
      sweep could pass it by then. */
  lemma {:induction false} StampHeld(t: Timing, s: State, steps: seq<Step>, c: Chunk, stamp: int)
    requires ReadPast(s) && Run(t, s, steps) && StampedDuring(t, s, steps, c, stamp)
    requires Final(t, s, steps).now <= stamp + t.grace - t.delay
    ensures StampedSince(Final(t, s, steps), c, stamp - t.delay) && stamp <= Final(t, s, steps).now
    decreases |steps|
  {
    if steps == [] {
    } else {
      var s', rest := Next(t.grace, s, steps[0]), steps[1..];
      if u :| u >= stamp && Stamps(t.grace, s, steps[0], c, u) {
        StampCommits(t, s, steps[0], c, u);
        RunReadsPast(t, s', rest);
        SweptByItsEnd(t, s', rest, stamp + t.grace - t.delay);
        FloorKept(t, s', rest, c, stamp - t.delay);
      } else {
        ReadsPastStep(t, s, steps[0]);
        StampHeld(t, s', rest, c, stamp);
      }
    }
  }

  lemma ReadsPastStep(t: Timing, s: State, a: Step)
    requires ReadPast(s) && Enabled(t.grace, s, a)
    ensures ReadPast(Next(t.grace, s, a)) && s.now <= Next(t.grace, s, a).now
  {
  }

  /** A push whose chunks were all stamped at this time or later, each stamp finding its row, and whose
      put-path comes afterwards and is still checking by stamp + grace - delay, is never told that one
      of them is missing, whatever else goes on. */
  lemma PromisedChunksNeverMissing(t: Timing, now: int, before: seq<Step>, steps: seq<Step>,
                                   id: nat, chunks: seq<Chunk>, stamp: int)
    requires Run(t, Init(now), before) && id !in Final(t, Init(now), before).actors
    requires forall i :: 0 <= i < |chunks| ==> StampedDuring(t, Init(now), before, chunks[i], stamp)
    requires Run(t, Final(t, Init(now), before), steps)
    requires Final(t, Final(t, Init(now), before), steps).now <= stamp + t.grace - t.delay
    ensures NothingMissing(Final(t, Final(t, Init(now), before), steps), id, chunks)
  {
    var s := Final(t, Init(now), before);
    RunReadsPast(t, Init(now), before);
    RunReadsPast(t, s, steps);
    forall i | 0 <= i < |chunks| ensures StampedSince(s, chunks[i], stamp - t.delay) && stamp <= s.now {
      StampHeld(t, Init(now), before, chunks[i], stamp);
    }
    if chunks != [] { assert 0 < |chunks| && StampedSince(s, chunks[0], stamp - t.delay); }
    PromiseHeldFrom(t, s, steps, id, chunks, stamp);
  }
}
