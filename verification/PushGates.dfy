/** The three gates of a push: path workers, resolving windows and uploads. Every path runs one dump
    after another; a dump hands chunks and windows to goroutines and then waits for all of them. */
module PushGates {
  import opened Common
  import opened Sums

  /** The capacities of the three channels that serve as gates. */
  datatype Gates = Gates(workers: nat, windows: nat, uploads: nat)

  /** What a dump hands off: one chunk to upload, or a window of chunks whose fate is unknown. */
  datatype Act = Put | Window(chunks: nat)

  /** One attempt at a path. A small archive goes up whole, outside the upload gate. */
  datatype Dump = Stream(acts: seq<Act>) | Whole

  /** The attempts a path may need, in order; it stops at the first that succeeds. No attempt at all
      stands for a path whose stored manifest was accepted. */
  type Path = seq<Dump>

  datatype Worker =
    | Dumping(acts: seq<Act>, later: Path, failed: bool)             // at a chunk boundary
    | Handing(act: Act, acts: seq<Act>, later: Path, failed: bool)   // blocked on a gate
    | Draining(later: Path, failed: bool)                            // in wait()
    | Uploading(later: Path)                                         // a whole archive, ungated
    | Done

  datatype Resolution = Asking(chunks: nat) | Sending(left: nat)

  datatype Resolving = Resolving(owner: nat, phase: Resolution)

  /** The loop that spawns the workers. */
  datatype Spawner = AtTop | Acquiring | Joining | Returned

  datatype State = State(
    spawner: Spawner,
    todo: seq<Path>,
    stop: bool,               // some path has failed
    workers: seq<Worker>,     // in the order they were spawned
    counts: seq<nat>,         // each worker's WaitGroup
    windows: seq<Resolving>,  // holding the window gate
    uploads: seq<nat>)        // holding the upload gate, each by its owner

  datatype Step =
    | Check                            // look at the first error, then go for a worker slot or stop
    | Spawn
    | Join                             // every worker has finished
    | Offer(w: nat)                    // the dump reaches the next chunk or window
    | End(w: nat)                      // the dump is over: all read, or stopped early by a failure
    | Hand(w: nat)                     // the gate lets the blocked dump through
    | Retry(w: nat)                    // wait() is over, and the path is tried once more
    | Finish(w: nat, err: bool)        // wait() is over, and so is the path
    | WholeRetry(w: nat)
    | WholeFinish(w: nat, err: bool)
    | Answer(v: nat, need: nat)        // the server names the chunks of a window it lacks
    | Refuse(v: nat)                   // or the request fails
    | Send(v: nat)                     // a window gets one chunk through the upload gate
    | Close(v: nat)
    | Uploaded(u: nat, err: bool)

  predicate Active(w: Worker) { w.Dumping? || w.Handing? || w.Draining? }

  function Slot(w: Worker): nat { if w.Done? then 0 else 1 }
  function Ungated(w: Worker): nat { if w.Uploading? then 1 else 0 }

  /** How many workers hold a slot, and how many of them upload outside the gate. */
  function Running(s: State): nat { Sum(Slot, s.workers) }
  function WholeUploads(s: State): nat { Sum(Ungated, s.workers) }

  /** Nothing the worker started is in flight. */
  predicate Drained(s: State, w: nat) {
    w !in s.uploads && forall v: Resolving :: v in s.windows ==> v.owner != w
  }

  /** wait() comes back: the worker's count is zero. */
  predicate WaitOver(s: State, w: nat) { w < |s.counts| && s.counts[w] == 0 }

  predicate Enabled(g: Gates, s: State, a: Step) {
    match a
    case Check => s.spawner.AtTop?
    case Spawn => s.spawner.Acquiring? && s.todo != [] && Running(s) < g.workers
    case Join => s.spawner.Joining? && Running(s) == 0
    case Offer(w) => w < |s.workers| && s.workers[w].Dumping? && s.workers[w].acts != []
    case End(w) => w < |s.workers| && s.workers[w].Dumping?
    case Hand(w) =>
      && w < |s.workers| && s.workers[w].Handing?
      && (if s.workers[w].act.Put? then |s.uploads| < g.uploads else |s.windows| < g.windows)
    case Retry(w) => w < |s.workers| && s.workers[w].Draining? && s.workers[w].later != [] && WaitOver(s, w)
    case Finish(w, err) =>
      w < |s.workers| && s.workers[w].Draining? && (s.workers[w].failed ==> err) && WaitOver(s, w)
    case WholeRetry(w) => w < |s.workers| && s.workers[w].Uploading? && s.workers[w].later != []
    case WholeFinish(w, _) => w < |s.workers| && s.workers[w].Uploading?
    case Answer(v, need) => v < |s.windows| && s.windows[v].phase.Asking? && need <= s.windows[v].phase.chunks
    case Refuse(v) => v < |s.windows| && s.windows[v].phase.Asking?
    case Send(v) =>
      && v < |s.windows| && s.windows[v].phase.Sending? && s.windows[v].phase.left > 0
      && |s.uploads| < g.uploads
    case Close(v) => v < |s.windows| && s.windows[v].phase == Sending(0)
    case Uploaded(u, _) => u < |s.uploads|
  }

  function Begin(p: Path): Worker {
    if p == [] then Draining([], false)
    else match p[0]
      case Stream(acts) => Dumping(acts, p[1..], false)
      case Whole => Uploading(p[1..])
  }

  function Blame(workers: seq<Worker>, w: nat): seq<Worker> {
    if w < |workers| && Active(workers[w]) then workers[w := workers[w].(failed := true)] else workers
  }

  /** wg.Go, and the Done at its end. */
  function Entered(counts: seq<nat>, w: nat): seq<nat> {
    if w < |counts| then counts[w := counts[w] + 1] else counts
  }

  function Left(counts: seq<nat>, w: nat): seq<nat> {
    if w < |counts| && counts[w] > 0 then counts[w := counts[w] - 1] else counts
  }

  function Next(g: Gates, s: State, a: Step): State
    requires Enabled(g, s, a)
  {
    match a
    case Check => s.(spawner := if s.todo != [] && !s.stop then Acquiring else Joining)
    case Spawn =>
      s.(spawner := AtTop, todo := s.todo[1..], workers := s.workers + [Begin(s.todo[0])], counts := s.counts + [0])
    case Join => s.(spawner := Returned)
    case Offer(w) =>
      var x := s.workers[w];
      s.(workers := s.workers[w := Handing(x.acts[0], x.acts[1..], x.later, x.failed)])
    case End(w) => s.(workers := s.workers[w := Draining(s.workers[w].later, s.workers[w].failed)])
    case Hand(w) =>
      var x := s.workers[w];
      var s1 := s.(workers := s.workers[w := Dumping(x.acts, x.later, x.failed)], counts := Entered(s.counts, w));
      if x.act.Put? then s1.(uploads := s.uploads + [w])
      else s1.(windows := s.windows + [Resolving(w, Asking(x.act.chunks))])
    case Retry(w) => s.(workers := s.workers[w := Begin(s.workers[w].later)])
    case Finish(w, err) => s.(workers := s.workers[w := Done], stop := s.stop || err)
    case WholeRetry(w) => s.(workers := s.workers[w := Begin(s.workers[w].later)])
    case WholeFinish(w, err) => s.(workers := s.workers[w := Done], stop := s.stop || err)
    case Answer(v, need) => s.(windows := s.windows[v := s.windows[v].(phase := Sending(need))])
    case Refuse(v) =>
      s.(windows := Remove(s.windows, v), workers := Blame(s.workers, s.windows[v].owner),
         counts := Left(s.counts, s.windows[v].owner))
    case Send(v) =>
      s.(windows := s.windows[v := s.windows[v].(phase := Sending(s.windows[v].phase.left - 1))],
         uploads := s.uploads + [s.windows[v].owner], counts := Entered(s.counts, s.windows[v].owner))
    case Close(v) => s.(windows := Remove(s.windows, v), counts := Left(s.counts, s.windows[v].owner))
    case Uploaded(u, err) =>
      s.(uploads := Remove(s.uploads, u), workers := if err then Blame(s.workers, s.uploads[u]) else s.workers,
         counts := Left(s.counts, s.uploads[u]))
  }

  predicate Run(g: Gates, s: State, steps: seq<Step>)
    decreases |steps|
  {
    steps == [] || (Enabled(g, s, steps[0]) && Run(g, Next(g, s, steps[0]), steps[1..]))
  }

  function Final(g: Gates, s: State, steps: seq<Step>): State
    requires Run(g, s, steps)
    decreases |steps|
  {
    if steps == [] then s else Final(g, Next(g, s, steps[0]), steps[1..])
  }

  function Init(todo: seq<Path>): State { State(AtTop, todo, false, [], [], [], []) }

  lemma {:induction false} UngatedHoldsSlot(s: seq<Worker>)
    ensures Sum(Ungated, s) <= Sum(Slot, s)
  {
    if s == [] {
    } else {
      UngatedHoldsSlot(s[1..]);
    }
  }

  // ---- what every step keeps ----

  function Mine(w: nat): nat -> nat { u => if u == w then 1 else 0 }
  function MyWindow(w: nat): Resolving -> nat { (v: Resolving) => if v.owner == w then 1 else 0 }

  /** How much of what a worker started is in flight. */
  function InFlight(s: State, w: nat): nat { Sum(Mine(w), s.uploads) + Sum(MyWindow(w), s.windows) }

  /** Every WaitGroup counts what is in flight. */
  ghost predicate Counted(s: State) {
    |s.counts| == |s.workers| && forall w :: 0 <= w < |s.counts| ==> s.counts[w] == InFlight(s, w)
  }

  ghost predicate Inv(g: Gates, s: State) {
    && Running(s) <= g.workers && |s.windows| <= g.windows && |s.uploads| <= g.uploads
    && (forall u :: u in s.uploads ==> Owns(s.workers, u))
    && (forall v :: v in s.windows ==> Owns(s.workers, v.owner))
    && Counted(s)
    && (s.spawner.Acquiring? ==> s.todo != [])
    && (s.spawner.Joining? ==> s.todo == [] || s.stop)
    && (s.spawner.Returned? ==> Running(s) == 0 && (s.todo == [] || s.stop))
  }

  lemma SumIn<T>(f: T -> nat, s: seq<T>, x: T)
    requires x in s && f(x) > 0
    ensures Sum(f, s) > 0
  {
    var i :| 0 <= i < |s| && s[i] == x;
    SumAt(f, s, i);
  }

  lemma {:induction false} SumNone<T>(f: T -> nat, s: seq<T>)
    requires forall i :: 0 <= i < |s| ==> f(s[i]) == 0
    ensures Sum(f, s) == 0
  {
    if s == [] {
    } else {
      SumNone(f, s[1..]);
    }
  }

  /** A zero count means exactly that nothing is in flight. */
  lemma ZeroIsDrained(s: State, w: nat)
    ensures InFlight(s, w) == 0 <==> Drained(s, w)
  {
    if w in s.uploads { SumIn(Mine(w), s.uploads, w); }
    forall v | v in s.windows && v.owner == w ensures InFlight(s, w) > 0 { SumIn(MyWindow(w), s.windows, v); }
    if Drained(s, w) {
      SumNone(Mine(w), s.uploads);
      SumNone(MyWindow(w), s.windows);
    }
  }

  lemma UploadCounted(s: State, a: Step, g: Gates, w: nat)
    requires Enabled(g, s, a) && (a.Uploaded? || a.Refuse? || a.Close? || a.Answer?)
    ensures InFlight(Next(g, s, a), w) == InFlight(s, w) - if !a.Answer? && w == OwnerOf(s, a) then 1 else 0
  {
    if a.Uploaded? {
      SumAt(Mine(w), s.uploads, a.u);
    } else if a.Answer? {
      SumUpdate(MyWindow(w), s.windows, a.v, Next(g, s, a).windows[a.v]);
    } else {
      SumAt(MyWindow(w), s.windows, a.v);
    }
  }

  /** Whose work a step of a goroutine settles. */
  function OwnerOf(s: State, a: Step): nat
    requires (a.Uploaded? && a.u < |s.uploads|) || ((a.Refuse? || a.Close? || a.Answer? || a.Send?) && a.v < |s.windows|)
  {
    if a.Uploaded? then s.uploads[a.u] else s.windows[a.v].owner
  }

  lemma HandCounted(g: Gates, s: State, a: Step, w: nat)
    requires Enabled(g, s, a) && (a.Hand? || a.Send?)
    ensures InFlight(Next(g, s, a), w) == InFlight(s, w) + if w == (if a.Hand? then a.w else OwnerOf(s, a)) then 1 else 0
  {
    var s' := Next(g, s, a);
    if a.Send? {
      SumUpdate(MyWindow(w), s.windows, a.v, s'.windows[a.v]);
      SumSnoc(Mine(w), s.uploads, OwnerOf(s, a));
    } else if s.workers[a.w].act.Put? {
      SumSnoc(Mine(w), s.uploads, a.w);
    } else {
      SumSnoc(MyWindow(w), s.windows, s'.windows[|s.windows|]);
    }
  }

  lemma BlameLength(s: seq<Worker>, w: nat)
    ensures |Blame(s, w)| == |s|
  {
  }

  lemma SpawnCounted(g: Gates, s: State)
    requires Inv(g, s) && Enabled(g, s, Spawn)
    ensures Counted(Next(g, s, Spawn))
  {
    var s' := Next(g, s, Spawn);
    forall w | 0 <= w < |s'.counts| ensures s'.counts[w] == InFlight(s', w) {
      if w == |s.counts| { ZeroIsDrained(s', w); }
    }
  }

  lemma CountedKept(g: Gates, s: State, a: Step)
    requires Inv(g, s) && Enabled(g, s, a)
    ensures Counted(Next(g, s, a))
  {
    var s' := Next(g, s, a);
    if a.Spawn? {
      SpawnCounted(g, s);
    } else if a.Hand? || a.Send? {
      if a.Send? { assert s.windows[a.v] in s.windows; }
      forall w | 0 <= w < |s'.counts| ensures s'.counts[w] == InFlight(s', w) { HandCounted(g, s, a, w); }
    } else if a.Uploaded? || a.Refuse? || a.Close? || a.Answer? {
      if !a.Uploaded? { assert s.windows[a.v] in s.windows; }
      BlameLength(s.workers, OwnerOf(s, a));
      forall w | 0 <= w < |s'.counts| ensures s'.counts[w] == InFlight(s', w) { UploadCounted(s, a, g, w); }
    } else {
      forall w | 0 <= w < |s'.counts| ensures s'.counts[w] == InFlight(s', w) { assert InFlight(s', w) == InFlight(s, w); }
    }
  }

  lemma BlameKeeps(f: Worker -> nat, s: seq<Worker>, w: nat)
    requires forall x: Worker :: Active(x) ==> f(x.(failed := true)) == f(x)
    ensures Sum(f, Blame(s, w)) == Sum(f, s) && |Blame(s, w)| == |s|
    ensures forall i :: 0 <= i < |s| ==> Active(Blame(s, w)[i]) == Active(s[i])
  {
    if w < |s| && Active(s[w]) { SumUpdate(f, s, w, s[w].(failed := true)); }
  }

  lemma SlotsKept(g: Gates, s: State, a: Step)
    requires Enabled(g, s, a)
    ensures Running(s) <= g.workers ==> Running(Next(g, s, a)) <= g.workers
    ensures Running(Next(g, s, a)) <= Running(s) || a == Spawn
  {
    match a
    case Spawn => SumSnoc(Slot, s.workers, Begin(s.todo[0]));
    case Refuse(v) => BlameKeeps(Slot, s.workers, s.windows[v].owner);
    case Uploaded(u, _) => BlameKeeps(Slot, s.workers, s.uploads[u]);
    case Check =>
    case Join =>
    case Answer(_, _) =>
    case Send(_) =>
    case Close(_) =>
    case _ => SumUpdate(Slot, s.workers, a.w, Next(g, s, a).workers[a.w]);
  }

  predicate Owns(workers: seq<Worker>, w: nat) { w < |workers| && Active(workers[w]) }

  /** No step makes an owner of something in flight inactive. */
  lemma OwnerStays(g: Gates, s: State, a: Step, w: nat)
    requires Enabled(g, s, a) && Counted(s) && Owns(s.workers, w) && !Drained(s, w)
    ensures Owns(Next(g, s, a).workers, w)
  {
    ZeroIsDrained(s, w);
    if a.Refuse? { BlameKeeps(Slot, s.workers, s.windows[a.v].owner); }
    if a.Uploaded? { BlameKeeps(Slot, s.workers, s.uploads[a.u]); }
  }

  lemma OwnersKept(g: Gates, s: State, a: Step)
    requires Inv(g, s) && Enabled(g, s, a)
    ensures var s' := Next(g, s, a);
            && (forall u :: u in s'.uploads ==> Owns(s'.workers, u))
            && (forall v :: v in s'.windows ==> Owns(s'.workers, v.owner))
  {
    var s' := Next(g, s, a);
    if a.Send? || a.Answer? { assert s.windows[a.v] in s.windows; }
    forall v | v in s'.windows ensures Owns(s'.workers, v.owner) {
      if !a.Hand? || v in s.windows { OwnerStays(g, s, a, v.owner); }
    }
    forall u | u in s'.uploads ensures Owns(s'.workers, u) {
      if !a.Hand? || u in s.uploads { OwnerStays(g, s, a, u); }
    }
  }

  lemma StepKeeps(g: Gates, s: State, a: Step)
    requires Inv(g, s) && Enabled(g, s, a)
    ensures Inv(g, Next(g, s, a))
  {
    SlotsKept(g, s, a);
    OwnersKept(g, s, a);
    CountedKept(g, s, a);
    if s.spawner.Returned? { assert a != Spawn; }
  }

  // ---- no deadlock ----

  predicate Open(g: Gates) { g.workers > 0 && g.windows > 0 && g.uploads > 0 }

  /** What a worker does next when nothing it or another has handed off is in flight. */
  function WorkerStep(s: State, w: nat): Step
    requires w < |s.workers|
  {
    match s.workers[w]
    case Dumping(acts, _, _) => if acts == [] then End(w) else Offer(w)
    case Handing(_, _, _, _) => Hand(w)
    case Draining(_, failed) => Finish(w, failed)
    case Uploading(_) => WholeFinish(w, false)
    case Done => Join
  }

  lemma {:induction false} SomeRunning(s: seq<Worker>) returns (w: nat)
    requires Sum(Slot, s) > 0
    ensures w < |s| && !s[w].Done?
  {
    if !s[0].Done? { w := 0; } else {
      w := SomeRunning(s[1..]);
      w := w + 1;
    }
  }

  /** Not a failure, nor an answer to one: requests succeed, dumps read to their end, and a path ends in
      an error only if it had failed before. */
  predicate Benign(s: State, a: Step) {
    match a
    case Refuse(_) => false
    case Uploaded(_, err) => !err
    case End(w) => w < |s.workers| && s.workers[w].Dumping? && s.workers[w].acts == []
    case Finish(w, err) => w < |s.workers| && s.workers[w].Draining? && err == s.workers[w].failed
    case WholeFinish(_, err) => !err
    case Retry(_) => false
    case WholeRetry(_) => false
    case _ => true
  }

  /** Some step is enabled while anything is left to do, and one that is no failure: uploads finish, so
      windows get through, so dumps do, so the spawner does. */
  lemma Progress(g: Gates, s: State) returns (a: Step)
    requires Open(g) && Inv(g, s) && !s.spawner.Returned?
    ensures Enabled(g, s, a) && Benign(s, a)
  {
    if s.uploads != [] { return Uploaded(0, false); }
    if s.windows != [] {
      match s.windows[0].phase
      case Asking(_) => return Answer(0, 0);
      case Sending(left) => return if left > 0 then Send(0) else Close(0);
    }
    if s.spawner.AtTop? { return Check; }
    if Running(s) > 0 {
      var w := SomeRunning(s.workers);
      assert InFlight(s, w) == 0;
      return WorkerStep(s, w);
    }
    return if s.spawner.Acquiring? then Spawn else Join;
  }

  // ---- every run ends ----

  function ActCost(a: Act): nat { if a.Put? then 3 else 2 * a.chunks + 4 }
  function DumpCost(d: Dump): nat { if d.Whole? then 1 else Sum(ActCost, d.acts) + 2 }
  function PathCost(p: Path): nat { Sum(DumpCost, p) + 3 }
  function WorkerCost(w: Worker): nat {
    match w
    case Dumping(acts, later, _) => Sum(ActCost, acts) + 2 + Sum(DumpCost, later)
    case Handing(a, acts, later, _) => ActCost(a) - 1 + Sum(ActCost, acts) + 2 + Sum(DumpCost, later)
    case Draining(later, _) => 1 + Sum(DumpCost, later)
    case Uploading(later) => 1 + Sum(DumpCost, later)
    case Done => 0
  }
  function WindowCost(v: Resolving): nat {
    match v.phase
    case Asking(n) => 2 * n + 2
    case Sending(n) => 2 * n + 1
  }
  function SpawnerCost(p: Spawner): nat {
    match p
    case AtTop => 2
    case Acquiring => 1
    case Joining => 1
    case Returned => 0
  }

  function Cost(s: State): nat {
    SpawnerCost(s.spawner) + Sum(PathCost, s.todo) + Sum(WorkerCost, s.workers)
    + Sum(WindowCost, s.windows) + |s.uploads|
  }

  lemma WorkerStepCosts(g: Gates, s: State, a: Step)
    requires Enabled(g, s, a) && (a.Offer? || a.End? || a.Retry? || a.Finish? || a.WholeRetry? || a.WholeFinish?)
    ensures Cost(Next(g, s, a)) < Cost(s)
  {
    var x := Next(g, s, a).workers[a.w];
    SumUpdate(WorkerCost, s.workers, a.w, x);
    assert WorkerCost(x) < WorkerCost(s.workers[a.w]);
  }

  lemma HandCosts(g: Gates, s: State, w: nat)
    requires Enabled(g, s, Hand(w))
    ensures Cost(Next(g, s, Hand(w))) < Cost(s)
  {
    var s' := Next(g, s, Hand(w));
    SumUpdate(WorkerCost, s.workers, w, s'.workers[w]);
    if s.workers[w].act.Window? { SumSnoc(WindowCost, s.windows, s'.windows[|s.windows|]); }
  }

  lemma WindowStepCosts(g: Gates, s: State, a: Step)
    requires Enabled(g, s, a) && (a.Answer? || a.Refuse? || a.Send? || a.Close?)
    ensures Cost(Next(g, s, a)) < Cost(s)
  {
    if a.Answer? || a.Send? {
      SumUpdate(WindowCost, s.windows, a.v, Next(g, s, a).windows[a.v]);
    } else {
      SumAt(WindowCost, s.windows, a.v);
      BlameKeeps(WorkerCost, s.workers, s.windows[a.v].owner);
    }
  }

  lemma StepCosts(g: Gates, s: State, a: Step)
    requires Inv(g, s) && Enabled(g, s, a)
    ensures Cost(Next(g, s, a)) < Cost(s)
  {
    match a
    case Check =>
    case Join =>
    case Spawn => SumSnoc(WorkerCost, s.workers, Begin(s.todo[0]));
    case Hand(w) => HandCosts(g, s, w);
    case Uploaded(u, _) => BlameKeeps(WorkerCost, s.workers, s.uploads[u]);
    case Answer(_, _) => WindowStepCosts(g, s, a);
    case Refuse(_) => WindowStepCosts(g, s, a);
    case Send(_) => WindowStepCosts(g, s, a);
    case Close(_) => WindowStepCosts(g, s, a);
    case _ => WorkerStepCosts(g, s, a);
  }

  /** Whatever the server answers and however the goroutines interleave, every run keeps the invariant
      and makes a bounded number of steps. */
  lemma {:induction false} EveryRunEnds(g: Gates, s: State, steps: seq<Step>)
    requires Inv(g, s) && Run(g, s, steps)
    ensures Inv(g, Final(g, s, steps)) && |steps| + Cost(Final(g, s, steps)) <= Cost(s)
    decreases |steps|
  {
    if steps == [] {
    } else {
      StepKeeps(g, s, steps[0]);
      StepCosts(g, s, steps[0]);
      EveryRunEnds(g, Next(g, s, steps[0]), steps[1..]);
    }
  }

  // ---- what holds in every run ----

  /** Whose upload is in flight holds a worker slot, and uploads nothing whole. */
  lemma OwnerIsGated(s: State)
    requires s.uploads != [] && Owns(s.workers, s.uploads[0])
    ensures WholeUploads(s) < Running(s)
  {
    var w := s.uploads[0];
    SumAt(Slot, s.workers, w);
    SumAt(Ungated, s.workers, w);
    UngatedHoldsSlot(Remove(s.workers, w));
  }

  /** In every run: at most as many gated uploads and resolving windows as their gates allow, and at
      most one more upload per worker slot outside the gate; not all of both at once, since whoever has
      an upload in the gate holds a slot too. */
  lemma UploadsBounded(g: Gates, todo: seq<Path>, steps: seq<Step>)
    requires Run(g, Init(todo), steps)
    ensures var s := Final(g, Init(todo), steps);
            && |s.uploads| <= g.uploads && |s.windows| <= g.windows && Running(s) <= g.workers
            && WholeUploads(s) <= g.workers
            && (s.uploads != [] ==> |s.uploads| + WholeUploads(s) < g.uploads + g.workers)
  {
    EveryRunEnds(g, Init(todo), steps);
    var s := Final(g, Init(todo), steps);
    UngatedHoldsSlot(s.workers);
    if s.uploads != [] {
      assert s.uploads[0] in s.uploads;
      OwnerIsGated(s);
    }
  }

  /** wait() waits for exactly what its path started: in every reachable state a worker's count is zero
      if and only if it owns no window and no upload, and it is zero for every path that has gone on. */
  lemma WaitIsComplete(g: Gates, todo: seq<Path>, steps: seq<Step>, w: nat)
    requires Run(g, Init(todo), steps) && w < |Final(g, Init(todo), steps).workers|
    ensures var s := Final(g, Init(todo), steps);
            && (WaitOver(s, w) <==> Drained(s, w))
            && (!Active(s.workers[w]) ==> WaitOver(s, w))
  {
    EveryRunEnds(g, Init(todo), steps);
    ZeroIsDrained(Final(g, Init(todo), steps), w);
  }

  // ---- what a path's result says about its requests ----

  /** The step fails something this worker started: a window's request, or an upload. */
  predicate Fails(s: State, a: Step, w: nat) {
    || (a.Refuse? && a.v < |s.windows| && s.windows[a.v].owner == w)
    || (a.Uploaded? && a.err && a.u < |s.uploads| && s.uploads[a.u] == w)
  }

  /** The step begins a dump of this worker's path, the first or another. */
  predicate Begins(s: State, a: Step, w: nat) {
    (a.Spawn? && w == |s.workers|) || ((a.Retry? || a.WholeRetry?) && a.w == w)
  }

  /** Something of this worker's failed in the run since its last dump began; before says whether
      something had when the run started. */
  predicate FailedSince(g: Gates, s: State, steps: seq<Step>, w: nat, before: bool)
    requires Run(g, s, steps)
    decreases |steps|
  {
    if steps == [] then before
    else
      FailedSince(g, Next(g, s, steps[0]), steps[1..], w,
                  !Begins(s, steps[0], w) && (before || Fails(s, steps[0], w)))
  }

  /** What is noted of a path is whether something of it failed. */
  predicate Noted(s: State, w: nat, failed: bool) {
    Owns(s.workers, w) ==> s.workers[w].failed == failed
  }

  lemma StepNotes(g: Gates, s: State, a: Step, w: nat, before: bool)
    requires Inv(g, s) && Enabled(g, s, a) && Noted(s, w, before)
    ensures Noted(Next(g, s, a), w, !Begins(s, a, w) && (before || Fails(s, a, w)))
  {
    if a.Refuse? { assert s.windows[a.v] in s.windows; }
    if a.Uploaded? { assert s.uploads[a.u] in s.uploads; }
  }

  lemma {:induction false} RunNotes(g: Gates, s: State, steps: seq<Step>, w: nat, before: bool)
    requires Inv(g, s) && Run(g, s, steps) && Noted(s, w, before)
    ensures Noted(Final(g, s, steps), w, FailedSince(g, s, steps, w, before))
    decreases |steps|
  {
    if steps == [] {
    } else {
      StepKeeps(g, s, steps[0]);
      StepNotes(g, s, steps[0], w, before);
      RunNotes(g, Next(g, s, steps[0]), steps[1..], w, !Begins(s, steps[0], w) && (before || Fails(s, steps[0], w)));
    }
  }

  /** However uploads and windows interleave, a path in wait() can end without an error exactly when
      nothing it started is in flight and nothing it started has failed since its last dump began. */
  lemma EndsWellExactly(g: Gates, todo: seq<Path>, steps: seq<Step>, w: nat)
    requires Run(g, Init(todo), steps)
    requires var s := Final(g, Init(todo), steps); w < |s.workers| && s.workers[w].Draining?
    ensures var s := Final(g, Init(todo), steps);
            Enabled(g, s, Finish(w, false)) <==> Drained(s, w) && !FailedSince(g, Init(todo), steps, w, false)
  {
    EveryRunEnds(g, Init(todo), steps);
    RunNotes(g, Init(todo), steps, w, false);
    ZeroIsDrained(Final(g, Init(todo), steps), w);
  }

  lemma WaitStays(g: Gates, s: State, a: Step, w: nat)
    requires Inv(g, s) && Enabled(g, s, a) && w < |s.workers| && s.workers[w].Draining? && WaitOver(s, w)
    ensures WaitOver(Next(g, s, a), w)
  {
    ZeroIsDrained(s, w);
    if a.Send? { assert s.windows[a.v] in s.windows; }
  }

  /** A count never rises from zero while its path waits: what a window adds, it adds while the window
      itself is counted, and what a dump adds, it adds before it waits. */
  lemma WaitNeverRaces(g: Gates, todo: seq<Path>, steps: seq<Step>, a: Step, w: nat)
    requires Run(g, Init(todo), steps) && Enabled(g, Final(g, Init(todo), steps), a)
    requires var s := Final(g, Init(todo), steps); w < |s.workers| && s.workers[w].Draining? && WaitOver(s, w)
    ensures WaitOver(Next(g, Final(g, Init(todo), steps), a), w)
  {
    EveryRunEnds(g, Init(todo), steps);
    WaitStays(g, Final(g, Init(todo), steps), a, w);
  }

  /** Only its end makes a path done, and an end with an error stops the push; trying again puts it at the
      start of its next attempt. */
  lemma OnlyFinishEnds(g: Gates, s: State, a: Step, w: nat)
    requires Inv(g, s) && Enabled(g, s, a) && w < |s.workers|
    ensures var s' := Next(g, s, a);
            && (s'.workers[w].Done? <==> s.workers[w].Done? || a in {Finish(w, false), Finish(w, true), WholeFinish(w, false), WholeFinish(w, true)})
            && (s'.stop <==> s.stop || ((a.Finish? || a.WholeFinish?) && a.err))
            && (a == Retry(w) || a == WholeRetry(w) ==>
                  match s.workers[w].later[0]
                  case Stream(acts) => s'.workers[w] == Dumping(acts, s.workers[w].later[1..], false)
                  case Whole => s'.workers[w] == Uploading(s.workers[w].later[1..]))
  {
  }

  /** The push returns only when no worker, window or upload is left; and with no error only when
      every path was taken on. */
  lemma ReturnIsComplete(g: Gates, todo: seq<Path>, steps: seq<Step>)
    requires Run(g, Init(todo), steps) && Final(g, Init(todo), steps).spawner.Returned?
    ensures var s := Final(g, Init(todo), steps);
            && s.windows == [] && s.uploads == []
            && (forall w :: 0 <= w < |s.workers| ==> s.workers[w].Done?)
            && (!s.stop ==> s.todo == [])
  {
    var s := Final(g, Init(todo), steps);
    EveryRunEnds(g, Init(todo), steps);
    assert s.uploads == [] || s.uploads[0] in s.uploads;
    assert s.windows == [] || s.windows[0] in s.windows;
    forall w | 0 <= w < |s.workers| ensures s.workers[w].Done? { SumZero(Slot, s.workers, w); }
  }

  // ---- exactly when no push gets stuck ----

  ghost predicate Stuck(g: Gates, s: State) {
    !s.spawner.Returned? && forall a :: !Enabled(g, s, a)
  }

  ghost predicate CanGetStuck(g: Gates) {
    exists todo: seq<Path>, steps: seq<Step> :: Run(g, Init(todo), steps) && Stuck(g, Final(g, Init(todo), steps))
  }

  /** One more step in front of a run that gets stuck. */
  lemma Before(g: Gates, s: State, a: Step, s': State, steps: seq<Step>) returns (all: seq<Step>)
    requires Enabled(g, s, a) && Next(g, s, a) == s' && Run(g, s', steps)
    ensures Run(g, s, all) && Final(g, s, all) == Final(g, s', steps)
  {
    all := [a] + steps;
    assert all[1..] == steps;
  }

  function OneWorker(w: Worker): State { State(AtTop, [], false, [w], [0], [], []) }

  lemma ClosedGateBlocks(g: Gates, a: Act) returns (steps: seq<Step>)
    requires g.workers > 0 && (if a.Put? then g.uploads == 0 else g.windows == 0)
    ensures Run(g, OneWorker(Handing(a, [], [], false)), steps)
    ensures Stuck(g, Final(g, OneWorker(Handing(a, [], [], false)), steps))
  {
    var s := OneWorker(Handing(a, [], [], false));
    var s' := s.(spawner := Joining);
    steps := Before(g, s, Check, s', []);
    assert Running(s') == Slot(s'.workers[0]) + Sum(Slot, s'.workers[1..]);
    assert Stuck(g, s');
  }

  lemma OfferedFirst(g: Gates, a: Act, rest: seq<Step>) returns (steps: seq<Step>)
    requires Run(g, OneWorker(Handing(a, [], [], false)), rest)
    ensures Run(g, OneWorker(Dumping([a], [], false)), steps)
    ensures Final(g, OneWorker(Dumping([a], [], false)), steps) == Final(g, OneWorker(Handing(a, [], [], false)), rest)
  {
    var acts := [a];
    assert acts[1..] == [];
    var s, s' := OneWorker(Dumping(acts, [], false)), OneWorker(Handing(a, [], [], false));
    assert s.workers[0 := s'.workers[0]] == s'.workers;
    steps := Before(g, s, Offer(0), s', rest);
  }

  /** The run in which one path has one thing to hand over, and the gate for it has no room. */
  lemma ClosedGateSticks(g: Gates, a: Act)
    requires g.workers > 0 && (if a.Put? then g.uploads == 0 else g.windows == 0)
    ensures CanGetStuck(g)
  {
    var path := [Stream([a])];
    assert path[1..] == [];
    var s := Init([path]);
    assert s.todo[1..] == [];
    var rest := ClosedGateBlocks(g, a);
    rest := OfferedFirst(g, a, rest);
    var steps := Before(g, s.(spawner := Acquiring), Spawn, OneWorker(Dumping([a], [], false)), rest);
    steps := Before(g, s, Check, s.(spawner := Acquiring), steps);
  }

  lemma NoWorkerSticks(g: Gates)
    requires g.workers == 0
    ensures CanGetStuck(g)
  {
    var s0 := Init([[]]);
    var s1 := s0.(spawner := Acquiring);
    var all := Before(g, s0, Check, s1, []);
    assert Stuck(g, s1);
  }

  /** No push ever gets stuck, whatever it has to do and however it interleaves, exactly when every
      gate has room for one. The client sizes them jobs, max(2, jobs) and jobs, with jobs at least 1. */
  lemma StuckExactlyWhenAGateIsClosed(g: Gates)
    ensures CanGetStuck(g) <==> !Open(g)
  {
    if Open(g) {
      if CanGetStuck(g) {
        var todo: seq<Path>, steps: seq<Step> :|
          Run(g, Init(todo), steps) && Stuck(g, Final(g, Init(todo), steps));
        EveryRunEnds(g, Init(todo), steps);
        var a := Progress(g, Final(g, Init(todo), steps));
        assert false;
      }
    } else if g.workers == 0 {
      NoWorkerSticks(g);
    } else {
      ClosedGateSticks(g, if g.uploads == 0 then Put else Window(0));
    }
  }

  /** The gates a client with this many jobs makes; a configured count below one becomes one. */
  function GatesOf(jobs: int): Gates {
    var n := if jobs < 1 then 1 else jobs;
    Gates(n, if n < 2 then 2 else n, n)
  }

  predicate BenignRun(g: Gates, s: State, steps: seq<Step>)
    requires Run(g, s, steps)
    decreases |steps|
  {
    steps == [] || (Benign(s, steps[0]) && BenignRun(g, Next(g, s, steps[0]), steps[1..]))
  }

  predicate Failed(w: Worker) { Active(w) && w.failed }

  /** Nothing has failed so far. */
  predicate Clean(s: State) {
    !s.stop && forall w :: 0 <= w < |s.workers| ==> !Failed(s.workers[w])
  }

  lemma BenignKeepsClean(g: Gates, s: State, a: Step)
    requires Enabled(g, s, a) && Benign(s, a) && Clean(s)
    ensures Clean(Next(g, s, a))
  {
  }

  /** From every reachable state the push can go on to its return without any failure, and then, if
      nothing had failed before, every path has been pushed. */
  lemma {:induction false} CanFinish(g: Gates, s: State) returns (steps: seq<Step>)
    requires Open(g) && Inv(g, s)
    ensures Run(g, s, steps) && BenignRun(g, s, steps)
    ensures var s' := Final(g, s, steps); s'.spawner.Returned? && (Clean(s) ==> !s'.stop && s'.todo == [])
    decreases Cost(s)
  {
    if s.spawner.Returned? {
      steps := [];
    } else {
      var a := Progress(g, s);
      StepKeeps(g, s, a);
      StepCosts(g, s, a);
      if Clean(s) { BenignKeepsClean(g, s, a); }
      var rest := CanFinish(g, Next(g, s, a));
      steps := [a] + rest;
      assert steps[1..] == rest;
    }
  }

  /** Every run of the client is bounded and can always go on without a failure until it returns; and
      with jobs counted as at least one, at no moment has it more than jobs paths in hand, jobs uploads
      in the gate, jobs windows (or two) resolving, or twice jobs uploads less one in all. */
  lemma PushCompletes(jobs: int, todo: seq<Path>, steps: seq<Step>) returns (rest: seq<Step>)
    requires Run(GatesOf(jobs), Init(todo), steps)
    ensures var g := GatesOf(jobs); var s := Final(g, Init(todo), steps);
            && |steps| <= Cost(Init(todo))
            && Run(g, s, rest) && BenignRun(g, s, rest) && Final(g, s, rest).spawner.Returned?
    ensures var s := Final(GatesOf(jobs), Init(todo), steps); var n := Max(jobs, 1);
            && |s.uploads| <= n && |s.windows| <= Max(2, n) && Running(s) <= n
            && |s.uploads| + WholeUploads(s) <= 2 * n - 1
  {
    var g := GatesOf(jobs);
    EveryRunEnds(g, Init(todo), steps);
    UploadsBounded(g, todo, steps);
    rest := CanFinish(g, Final(g, Init(todo), steps));
  }

  // ---- the bounds are met ----

  function Repeat<T>(x: T, n: nat): seq<T> { seq(n, _ => x) }

  lemma RepeatRest<T>(x: T, n: nat)
    requires n > 0
    ensures Repeat(x, n)[0] == x && Repeat(x, n)[1..] == Repeat(x, n - 1)
  {
  }

  function IsPut(a: Act): nat { if a.Put? then 1 else 0 }
  function IsWindow(a: Act): nat { if a.Window? then 1 else 0 }

  /** The same, but for what the first worker has handed off. */
  predicate HandedOff(s: State, s': State, puts: nat, windows: nat) {
    && s'.spawner == s.spawner && s'.todo == s.todo && s'.stop == s.stop
    && |s'.uploads| == |s.uploads| + puts && |s'.windows| == |s.windows| + windows
    && |s'.workers| == |s.workers| > 0 && s'.workers[1..] == s.workers[1..]
    && s.workers[0].Dumping? && s'.workers[0] == Dumping([], s.workers[0].later, s.workers[0].failed)
  }

  lemma HandOne(g: Gates, s: State) returns (s1: State, s2: State)
    requires |s.workers| > 0 && s.workers[0].Dumping? && s.workers[0].acts != []
    requires if s.workers[0].acts[0].Put? then |s.uploads| < g.uploads else |s.windows| < g.windows
    ensures Enabled(g, s, Offer(0)) && s1 == Next(g, s, Offer(0))
    ensures Enabled(g, s1, Hand(0)) && s2 == Next(g, s1, Hand(0))
    ensures var a := s.workers[0].acts[0];
            && s2.spawner == s.spawner && s2.todo == s.todo && s2.stop == s.stop
            && |s2.uploads| == |s.uploads| + IsPut(a) && |s2.windows| == |s.windows| + IsWindow(a)
            && |s2.workers| == |s.workers| && s2.workers[1..] == s.workers[1..]
            && s2.workers[0] == Dumping(s.workers[0].acts[1..], s.workers[0].later, s.workers[0].failed)
  {
    s1 := Next(g, s, Offer(0));
    s2 := Next(g, s1, Hand(0));
  }

  /** While the gates have room for all of it, a dump hands off everything. */
  lemma {:induction false} HandAll(g: Gates, s: State, acts: seq<Act>) returns (steps: seq<Step>)
    requires |s.workers| > 0 && s.workers[0].Dumping? && s.workers[0].acts == acts
    requires |s.uploads| + Sum(IsPut, acts) <= g.uploads && |s.windows| + Sum(IsWindow, acts) <= g.windows
    ensures Run(g, s, steps) && HandedOff(s, Final(g, s, steps), Sum(IsPut, acts), Sum(IsWindow, acts))
    decreases |acts|
  {
    if acts == [] {
      steps := [];
    } else {
      var s1, s2 := HandOne(g, s);
      steps := HandAll(g, s2, acts[1..]);
      steps := Before(g, s1, Hand(0), s2, steps);
      steps := Before(g, s, Offer(0), s1, steps);
    }
  }

  /** With slots for all of them, small paths are all uploaded at once. */
  lemma {:induction false} SpawnWholes(g: Gates, s: State, k: nat) returns (steps: seq<Step>)
    requires s.spawner.AtTop? && !s.stop && s.todo == Repeat([Whole], k) && Running(s) + k <= g.workers
    ensures Run(g, s, steps)
    ensures var s' := Final(g, s, steps);
            s'.uploads == s.uploads && s'.windows == s.windows
            && WholeUploads(s') == WholeUploads(s) + k && Running(s') == Running(s) + k
    decreases k
  {
    if k == 0 {
      steps := [];
    } else {
      RepeatRest([Whole], k);
      var s1 := s.(spawner := Acquiring);
      var s2 := Next(g, s1, Spawn);
      SumSnoc(Slot, s.workers, Begin([Whole]));
      SumSnoc(Ungated, s.workers, Begin([Whole]));
      steps := SpawnWholes(g, s2, k - 1);
      steps := Before(g, s1, Spawn, s2, steps);
      steps := Before(g, s, Check, s1, steps);
    }
  }

  lemma {:induction false} SumRepeat<T>(f: T -> nat, x: T, n: nat)
    ensures Sum(f, Repeat(x, n)) == n * f(x)
    decreases n
  {
    if n == 0 {
    } else {
      RepeatRest(x, n);
      SumRepeat(f, x, n - 1);
      assert n * f(x) == f(x) + (n - 1) * f(x);
    }
  }

  lemma {:induction false} Joined(g: Gates, s: State, a: seq<Step>, b: seq<Step>)
    requires Run(g, s, a) && Run(g, Final(g, s, a), b)
    ensures Run(g, s, a + b) && Final(g, s, a + b) == Final(g, Final(g, s, a), b)
    decreases |a|
  {
    if a == [] {
      Nothing(b);
    } else {
      Joined(g, Next(g, s, a[0]), a[1..], b);
      var all := Before(g, s, a[0], Next(g, s, a[0]), a[1..] + b);
      HeadFirst(a, b);
    }
  }

  lemma HeadFirst(a: seq<Step>, b: seq<Step>)
    requires a != []
    ensures (a + b)[0] == a[0] && (a + b)[1..] == a[1..] + b
  {
  }

  /** As many chunks and windows as these. */
  function Acts(puts: nat, windows: nat): seq<Act> { Repeat(Put, puts) + Repeat(Window(0), windows) }

  lemma ActsCount(puts: nat, windows: nat)
    ensures Sum(IsPut, Acts(puts, windows)) == puts && Sum(IsWindow, Acts(puts, windows)) == windows
  {
    SumAppend(IsPut, Repeat(Put, puts), Repeat(Window(0), windows));
    SumAppend(IsWindow, Repeat(Put, puts), Repeat(Window(0), windows));
    SumRepeat(IsPut, Put, puts);
    SumRepeat(IsPut, Window(0), windows);
    SumRepeat(IsWindow, Put, puts);
    SumRepeat(IsWindow, Window(0), windows);
  }

  /** One path hands off everything, then small ones fill the other slots. */
  lemma FillGates(g: Gates, acts: seq<Act>, k: nat) returns (steps: seq<Step>)
    requires Sum(IsPut, acts) <= g.uploads && Sum(IsWindow, acts) <= g.windows && k < g.workers
    ensures var s := State(AtTop, Repeat([Whole], k), false, [Dumping(acts, [], false)], [0], [], []);
            && Run(g, s, steps)
            && var s' := Final(g, s, steps);
               && |s'.uploads| == Sum(IsPut, acts) && |s'.windows| == Sum(IsWindow, acts)
               && WholeUploads(s') == k && Running(s') == k + 1
  {
    var s := State(AtTop, Repeat([Whole], k), false, [Dumping(acts, [], false)], [0], [], []);
    var handed := HandAll(g, s, acts);
    var s1 := Final(g, s, handed);
    OneDumping(s1);
    var spawned := SpawnWholes(g, s1, k);
    Joined(g, s, handed, spawned);
    steps := handed + spawned;
  }

  lemma OneDumping(s: State)
    requires |s.workers| == 1 && s.workers[0].Dumping?
    ensures Running(s) == 1 && WholeUploads(s) == 0
  {
    assert Sum(Slot, s.workers[1..]) == 0 && Sum(Ungated, s.workers[1..]) == 0;
  }

  /** All the bounds of a client are met, in one moment of one run. */
  lemma BoundsReached(jobs: int) returns (todo: seq<Path>, steps: seq<Step>)
    ensures Run(GatesOf(jobs), Init(todo), steps)
    ensures var s := Final(GatesOf(jobs), Init(todo), steps); var n := Max(jobs, 1);
            && |s.uploads| == n && |s.windows| == Max(2, n) && Running(s) == n
            && |s.uploads| + WholeUploads(s) == 2 * n - 1
  {
    var g, n := GatesOf(jobs), Max(jobs, 1);
    var acts := Acts(n, Max(2, n));
    ActsCount(n, Max(2, n));
    steps := FillGates(g, acts, n - 1);
    todo, steps := StartsDumping(g, acts, n - 1, steps);
  }

  lemma StartsDumping(g: Gates, acts: seq<Act>, k: nat, rest: seq<Step>) returns (todo: seq<Path>, steps: seq<Step>)
    requires g.workers > 0
    requires Run(g, State(AtTop, Repeat([Whole], k), false, [Dumping(acts, [], false)], [0], [], []), rest)
    ensures Run(g, Init(todo), steps)
    ensures Final(g, Init(todo), steps)
            == Final(g, State(AtTop, Repeat([Whole], k), false, [Dumping(acts, [], false)], [0], [], []), rest)
  {
    var path := [Stream(acts)];
    todo := [path] + Repeat([Whole], k);
    assert path[1..] == [] && todo[1..] == Repeat([Whole], k);
    var s0 := Init(todo);
    var s1 := s0.(spawner := Acquiring);
    var s2 := State(AtTop, Repeat([Whole], k), false, [Dumping(acts, [], false)], [0], [], []);
    steps := Before(g, s1, Spawn, s2, rest);
    steps := Before(g, s0, Check, s1, steps);
  }

  // ---- nothing handed over is forgotten ----

  function Unsent(w: nat): Resolving -> nat {
    (v: Resolving) => if v.owner == w && v.phase.Sending? then v.phase.left else 0
  }

  /** The uploads a worker still has coming: those in the gate, and what its windows have yet to send. */
  function Outstanding(s: State, w: nat): nat { Sum(Mine(w), s.uploads) + Sum(Unsent(w), s.windows) }

  /** The uploads a step calls for: a chunk handed over, or those the server lacks of a window. */
  function Owed(s: State, a: Step, w: nat): nat {
    match a
    case Hand(x) => if x == w && w < |s.workers| && s.workers[w].Handing? && s.workers[w].act.Put? then 1 else 0
    case Answer(v, need) => if v < |s.windows| && s.windows[v].owner == w then need else 0
    case _ => 0
  }

  function Paid(s: State, a: Step, w: nat): nat {
    if a.Uploaded? && a.u < |s.uploads| && s.uploads[a.u] == w then 1 else 0
  }

  function OwedAlong(g: Gates, s: State, steps: seq<Step>, w: nat): nat
    requires Run(g, s, steps)
    decreases |steps|
  {
    if steps == [] then 0 else Owed(s, steps[0], w) + OwedAlong(g, Next(g, s, steps[0]), steps[1..], w)
  }

  function PaidAlong(g: Gates, s: State, steps: seq<Step>, w: nat): nat
    requires Run(g, s, steps)
    decreases |steps|
  {
    if steps == [] then 0 else Paid(s, steps[0], w) + PaidAlong(g, Next(g, s, steps[0]), steps[1..], w)
  }

  lemma StepBalances(g: Gates, s: State, a: Step, w: nat)
    requires Enabled(g, s, a)
    ensures Outstanding(Next(g, s, a), w) + Paid(s, a, w) == Outstanding(s, w) + Owed(s, a, w)
  {
    var s' := Next(g, s, a);
    match a
    case Hand(x) =>
      if s.workers[x].act.Put? {
        SumSnoc(Mine(w), s.uploads, x);
      } else {
        SumSnoc(Unsent(w), s.windows, s'.windows[|s.windows|]);
      }
    case Answer(v, _) => SumUpdate(Unsent(w), s.windows, v, s'.windows[v]);
    case Send(v) =>
      SumUpdate(Unsent(w), s.windows, v, s'.windows[v]);
      SumSnoc(Mine(w), s.uploads, s.windows[v].owner);
    case Refuse(v) => SumAt(Unsent(w), s.windows, v);
    case Close(v) => SumAt(Unsent(w), s.windows, v);
    case Uploaded(u, _) => SumAt(Mine(w), s.uploads, u);
    case _ =>
  }

  lemma {:induction false} RunBalances(g: Gates, s: State, steps: seq<Step>, w: nat)
    requires Run(g, s, steps)
    ensures Outstanding(Final(g, s, steps), w) + PaidAlong(g, s, steps, w) == Outstanding(s, w) + OwedAlong(g, s, steps, w)
    decreases |steps|
  {
    if steps == [] {
    } else {
      StepBalances(g, s, steps[0], w);
      RunBalances(g, Next(g, s, steps[0]), steps[1..], w);
    }
  }

  /** At every moment what a path has called for is what it has uploaded and what is outstanding; so when
      its wait() is over, it has uploaded as many chunks as it handed over and the server asked for. */
  lemma NothingForgotten(g: Gates, todo: seq<Path>, steps: seq<Step>, w: nat)
    requires Run(g, Init(todo), steps)
    ensures var s := Final(g, Init(todo), steps);
            && OwedAlong(g, Init(todo), steps, w) == PaidAlong(g, Init(todo), steps, w) + Outstanding(s, w)
            && (WaitOver(s, w) ==> OwedAlong(g, Init(todo), steps, w) == PaidAlong(g, Init(todo), steps, w))
  {
    var s := Final(g, Init(todo), steps);
    EveryRunEnds(g, Init(todo), steps);
    RunBalances(g, Init(todo), steps, w);
    ZeroIsDrained(s, w);
    if WaitOver(s, w) {
      SumNone(Mine(w), s.uploads);
      SumNone(Unsent(w), s.windows);
    }
  }
}
