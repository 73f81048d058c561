/** Who holds which read buffer while chunks are fetched ahead and consumed in order. The pools are
    shared with other requests, and a buffer is just memory: whoever holds it may write it. */
module BufferLoans {
  import opened Common
  import F = OrderedFetch

  type Buffer = nat

  /** What the pools contain, what each fetch in flight has taken out, the results waiting in their
      channels, the one the consumer is reading, what other requests hold, and what is in the buffers.
      Buffers below made have been allocated; seen is what the consumer found in what it was given. */
  datatype State = State(
    fetch: F.State,
    pool: multiset<Buffer>,
    taken: set<(nat, Buffer)>,
    ready: map<nat, Buffer>,
    reading: Option<Buffer>,
    others: set<Buffer>,
    memory: map<Buffer, F.Data>,
    made: nat,
    seen: seq<F.Data>)

  datatype Step =
    | Take(i: nat, b: Buffer)                  // a fetch gets a recycled buffer,
    | Make(i: nat)                             // or a new one, also when it outgrows one
    | Fill(i: nat, b: Buffer, d: F.Data)
    | Put(i: nat, b: Buffer)                   // gives it back when done with it,
    | Forget(i: nat, b: Buffer)                // or not, when its capacity is that of no pool
    | Deliver(i: nat, b: Buffer)               // puts its result in its channel
    | Fail(i: nat)                             // or its error
    | Receive                                  // the loop hands the next result to the consumer,
    | Finish(recycled: bool)                   // which returns; then the buffer is given back
    | ReceiveError
    | Return
    | OtherTake(b: Buffer)
    | OtherMake
    | OtherFill(b: Buffer, d: F.Data)
    | OtherPut(b: Buffer)
    | Collect(b: Buffer)                       // a pool forgets a buffer

  function Init(j: F.Job): State { State(F.Init(j), multiset{}, {}, map[], None, {}, map[], 0, []) }

  predicate InFlight(j: F.Job, s: State, i: nat) { F.Enabled(j, s.fetch, F.Complete(i)) }

  /** The loop may take the next result off its channel. */
  predicate NextReady(j: F.Job, s: State) { F.Enabled(j, s.fetch, F.Consume) && s.reading.None? }

  predicate Enabled(j: F.Job, s: State, a: Step) {
    match a
    case Take(i, b) => InFlight(j, s, i) && b in s.pool
    case Make(i) => InFlight(j, s, i)
    case Fill(i, b, _) => (i, b) in s.taken
    case Put(i, b) => (i, b) in s.taken
    case Forget(i, b) => (i, b) in s.taken
    case Deliver(i, b) =>
      && InFlight(j, s, i) && (i, b) in s.taken && (forall p :: p in s.taken && p.0 == i ==> p.1 == b)
      && b in s.memory && j.fetch(i) == F.Ok(s.memory[b])
    case Fail(i) => InFlight(j, s, i) && (forall p :: p in s.taken ==> p.0 != i) && j.fetch(i).Err?
    case Receive => NextReady(j, s) && s.fetch.next in s.ready
    case Finish(_) => F.Enabled(j, s.fetch, F.Consume) && s.reading.Some? && s.reading.value in s.memory
    case ReceiveError => NextReady(j, s) && j.fetch(s.fetch.next).Err?
    case Return => F.Enabled(j, s.fetch, F.Return)
    case OtherTake(b) => b in s.pool
    case OtherMake => true
    case OtherFill(b, _) => b in s.others
    case OtherPut(b) => b in s.others
    case Collect(b) => b in s.pool
  }

  function Next(j: F.Job, s: State, a: Step): State
    requires Enabled(j, s, a)
  {
    match a
    case Take(i, b) => s.(pool := s.pool - multiset{b}, taken := s.taken + {(i, b)})
    case Make(i) => s.(made := s.made + 1, taken := s.taken + {(i, s.made)})
    case Fill(i, b, d) => s.(memory := s.memory[b := d])
    case Put(i, b) => s.(pool := s.pool + multiset{b}, taken := s.taken - {(i, b)})
    case Forget(i, b) => s.(taken := s.taken - {(i, b)})
    case Deliver(i, b) =>
      s.(fetch := F.Next(j, s.fetch, F.Complete(i)), ready := s.ready[i := b], taken := s.taken - {(i, b)})
    case Fail(i) => s.(fetch := F.Next(j, s.fetch, F.Complete(i)))
    case Receive => s.(reading := Some(s.ready[s.fetch.next]), ready := s.ready - {s.fetch.next})
    case Finish(recycled) =>
      s.(fetch := F.Next(j, s.fetch, F.Consume), reading := None,
         pool := if recycled then s.pool + multiset{s.reading.value} else s.pool,
         seen := s.seen + [s.memory[s.reading.value]])
    case ReceiveError => s.(fetch := F.Next(j, s.fetch, F.Consume))
    case Return => s.(fetch := F.Next(j, s.fetch, F.Return))
    case OtherTake(b) => s.(pool := s.pool - multiset{b}, others := s.others + {b})
    case OtherMake => s.(made := s.made + 1, others := s.others + {s.made})
    case OtherFill(b, d) => s.(memory := s.memory[b := d])
    case OtherPut(b) => s.(pool := s.pool + multiset{b}, others := s.others - {b})
    case Collect(b) => s.(pool := s.pool - multiset{b})
  }

  predicate Run(j: F.Job, s: State, steps: seq<Step>)
    decreases |steps|
  {
    steps == [] || (Enabled(j, s, steps[0]) && Run(j, Next(j, s, steps[0]), steps[1..]))
  }

  function Final(j: F.Job, s: State, steps: seq<Step>): State
    requires Run(j, s, steps)
    decreases |steps|
  {
    if steps == [] then s else Final(j, Next(j, s, steps[0]), steps[1..])
  }

  // ---- one holder a buffer ----

  datatype Holder = InPool | Fetching(i: nat) | Waiting(i: nat) | Reading | Elsewhere

  predicate Holds(s: State, h: Holder, b: Buffer) {
    match h
    case InPool => b in s.pool
    case Fetching(i) => (i, b) in s.taken
    case Waiting(i) => i in s.ready && s.ready[i] == b
    case Reading => s.reading == Some(b)
    case Elsewhere => b in s.others
  }

  /** Nobody holds a buffer somebody else holds, and no pool has one twice. */
  ghost predicate OneHolder(s: State) {
    && (forall h, g, b: Buffer :: Holds(s, h, b) && Holds(s, g, b) ==> h == g)
    && (forall b :: s.pool[b] <= 1)
    && forall h, b: Buffer :: Holds(s, h, b) ==> b < s.made
  }

  /** The results waiting and the one being read are those of their chunks, and nothing else has been
      seen. */
  ghost predicate RightData(j: F.Job, s: State) {
    && (forall i :: i in s.ready ==>
          i in s.fetch.done && s.ready[i] in s.memory && j.fetch(i) == F.Ok(s.memory[s.ready[i]]))
    && (s.reading.Some? ==>
          && F.Enabled(j, s.fetch, F.Consume) && s.fetch.next !in s.ready
          && s.reading.value in s.memory && j.fetch(s.fetch.next) == F.Ok(s.memory[s.reading.value]))
    && s.seen == s.fetch.out
  }

  ghost predicate Inv(j: F.Job, s: State) {
    OneHolder(s) && RightData(j, s)
  }

  /** A buffer changing hands; from nobody when it is newly made, to nobody when it is let go. */
  datatype Handover = Handover(b: Buffer, from: Option<Holder>, to: Option<Holder>)

  function HandoverOf(s: State, a: Step): Option<Handover> {
    match a
    case Take(i, b) => Some(Handover(b, Some(InPool), Some(Fetching(i))))
    case Make(i) => Some(Handover(s.made, None, Some(Fetching(i))))
    case Put(i, b) => Some(Handover(b, Some(Fetching(i)), Some(InPool)))
    case Forget(i, b) => Some(Handover(b, Some(Fetching(i)), None))
    case Deliver(i, b) => Some(Handover(b, Some(Fetching(i)), Some(Waiting(i))))
    case Receive =>
      if s.fetch.next in s.ready
      then Some(Handover(s.ready[s.fetch.next], Some(Waiting(s.fetch.next)), Some(Reading))) else None
    case Finish(recycled) =>
      if s.reading.Some?
      then Some(Handover(s.reading.value, Some(Reading), if recycled then Some(InPool) else None)) else None
    case OtherTake(b) => Some(Handover(b, Some(InPool), Some(Elsewhere)))
    case OtherMake => Some(Handover(s.made, None, Some(Elsewhere)))
    case OtherPut(b) => Some(Handover(b, Some(Elsewhere), Some(InPool)))
    case Collect(b) => Some(Handover(b, Some(InPool), None))
    case _ => None
  }

  /** Nobody else gains a buffer, and who passes it on has it no more. */
  ghost predicate OnlyPasses(s: State, s': State, v: Handover) {
    && v.from != v.to
    && (if v.from.Some? then Holds(s, v.from.value, v.b) && !Holds(s', v.from.value, v.b) && s'.made == s.made
        else v.b == s.made && s'.made == s.made + 1)
    && (forall h, x: Buffer :: Holds(s', h, x) ==> Holds(s, h, x) || (x == v.b && v.to == Some(h)))
    && forall x :: s'.pool[x] <= s.pool[x] + if x == v.b && v.to == Some(InPool) then 1 else 0
  }

  lemma HandoverKeepsHolders(s: State, s': State, v: Handover)
    requires OneHolder(s) && OnlyPasses(s, s', v)
    ensures OneHolder(s')
  {
    assert v.from.Some? ==> forall h :: Holds(s, h, v.b) ==> v.from == Some(h);
    forall h, g, x: Buffer | Holds(s', h, x) && Holds(s', g, x) ensures h == g {
      if x != v.b { assert Holds(s, h, x) && Holds(s, g, x); }
    }
    if s.pool[v.b] > 0 { assert Holds(s, InPool, v.b); }
  }

  lemma FetchPasses(j: F.Job, s: State, a: Step)
    requires OneHolder(s) && Enabled(j, s, a) && (a.Make? || a.Put? || a.Forget? || a.Deliver?)
    ensures OnlyPasses(s, Next(j, s, a), HandoverOf(s, a).value)
  {
  }

  lemma LoopPasses(j: F.Job, s: State, a: Step)
    requires OneHolder(s) && Enabled(j, s, a) && (a.Receive? || a.Finish?)
    ensures OnlyPasses(s, Next(j, s, a), HandoverOf(s, a).value)
  {
  }

  lemma OtherPasses(j: F.Job, s: State, a: Step)
    requires OneHolder(s) && Enabled(j, s, a) && (a.OtherMake? || a.OtherPut?)
    ensures OnlyPasses(s, Next(j, s, a), HandoverOf(s, a).value)
  {
  }

  lemma PoolPasses(j: F.Job, s: State, a: Step)
    requires OneHolder(s) && Enabled(j, s, a) && (a.Take? || a.OtherTake? || a.Collect?)
    ensures OnlyPasses(s, Next(j, s, a), HandoverOf(s, a).value)
  {
    assert (s.pool - multiset{a.b})[a.b] == 0;
  }

  lemma StepKeepsHolders(j: F.Job, s: State, a: Step)
    requires Inv(j, s) && Enabled(j, s, a)
    ensures OneHolder(Next(j, s, a))
  {
    var s' := Next(j, s, a);
    match HandoverOf(s, a)
    case None =>
      assert forall h, x :: Holds(s', h, x) ==> Holds(s, h, x);
    case Some(v) =>
      if a.Receive? || a.Finish? { LoopPasses(j, s, a); }
      else if a.OtherMake? || a.OtherPut? { OtherPasses(j, s, a); }
      else if a.Take? || a.OtherTake? || a.Collect? { PoolPasses(j, s, a); }
      else { FetchPasses(j, s, a); }
      HandoverKeepsHolders(s, s', v);
  }

  /** Whoever fills a buffer holds it, so it is nobody's result. */
  lemma FillKeepsData(j: F.Job, s: State, h: Holder, b: Buffer, d: F.Data)
    requires Inv(j, s) && Holds(s, h, b) && !h.Waiting? && !h.Reading?
    ensures RightData(j, s.(memory := s.memory[b := d]))
  {
    assert forall i :: i in s.ready ==> Holds(s, Waiting(i), s.ready[i]);
    assert s.reading.Some? ==> Holds(s, Reading, s.reading.value);
  }

  lemma StepKeepsData(j: F.Job, s: State, a: Step)
    requires Inv(j, s) && Enabled(j, s, a)
    ensures RightData(j, Next(j, s, a))
  {
    if a.Fill? {
      FillKeepsData(j, s, Fetching(a.i), a.b, a.d);
    } else if a.OtherFill? {
      FillKeepsData(j, s, Elsewhere, a.b, a.d);
    }
  }

  lemma {:induction false} RunKeeps(j: F.Job, s: State, steps: seq<Step>)
    requires Inv(j, s) && Run(j, s, steps)
    ensures Inv(j, Final(j, s, steps))
    decreases |steps|
  {
    if steps == [] {
    } else {
      StepKeepsHolders(j, s, steps[0]);
      StepKeepsData(j, s, steps[0]);
      RunKeeps(j, Next(j, s, steps[0]), steps[1..]);
    }
  }

  // ---- the same runs as without buffers ----

  /** The step of the fetching loop in a step here, if any. */
  function FetchStep(a: Step): Option<F.Step> {
    match a
    case Deliver(i, _) => Some(F.Complete(i))
    case Fail(i) => Some(F.Complete(i))
    case Finish(_) => Some(F.Consume)
    case ReceiveError => Some(F.Consume)
    case Return => Some(F.Return)
    case _ => None
  }

  /** Forgetting the buffers, every run is one of the fetching loop. */
  lemma {:induction false} Projects(j: F.Job, s: State, steps: seq<Step>) returns (f: seq<F.Step>)
    requires Run(j, s, steps)
    ensures F.Run(j, s.fetch, f) && F.Final(j, s.fetch, f) == Final(j, s, steps).fetch
    decreases |steps|
  {
    if steps == [] {
      f := [];
    } else {
      f := Projects(j, Next(j, s, steps[0]), steps[1..]);
      var a := FetchStep(steps[0]);
      if a.Some? {
        ghost var rest := f;
        f := [a.value] + rest;
        assert f[1..] == rest;
      }
    }
  }

  /** No fetch has a buffer yet and the consumer is waiting; every result that came is in its channel. */
  ghost predicate Quiet(j: F.Job, s: State) {
    && s.taken == {} && s.reading.None?
    && forall i :: i in s.fetch.done && j.fetch(i).Ok? ==> i in s.ready
  }

  lemma Before(j: F.Job, s: State, a: Step, steps: seq<Step>)
    requires Enabled(j, s, a) && Run(j, Next(j, s, a), steps)
    ensures Run(j, s, [a] + steps) && Final(j, s, [a] + steps) == Final(j, Next(j, s, a), steps)
  {
    assert ([a] + steps)[1..] == steps;
  }

  lemma HeadFirst(a: seq<Step>, b: seq<Step>)
    requires a != []
    ensures [a[0]] + (a[1..] + b) == a + b
  {
  }

  lemma {:induction false} Joined(j: F.Job, s: State, a: seq<Step>, b: seq<Step>)
    requires Run(j, s, a) && Run(j, Final(j, s, a), b)
    ensures Run(j, s, a + b) && Final(j, s, a + b) == Final(j, Final(j, s, a), b)
    decreases |a|
  {
    if a == [] {
      Nothing(b);
    } else {
      var t := Next(j, s, a[0]);
      Joined(j, t, a[1..], b);
      Before(j, s, a[0], a[1..] + b);
      HeadFirst(a, b);
    }
  }

  lemma CompleteLifts(j: F.Job, s: State, i: nat) returns (steps: seq<Step>)
    requires Inv(j, s) && Quiet(j, s) && InFlight(j, s, i)
    ensures Run(j, s, steps) && Quiet(j, Final(j, s, steps))
    ensures Final(j, s, steps).fetch == F.Next(j, s.fetch, F.Complete(i))
  {
    if j.fetch(i).Err? {
      Before(j, s, Fail(i), []);
      return [Fail(i)];
    }
    var b, d := s.made, j.fetch(i).data;
    var s1 := Next(j, s, Make(i));
    var s2 := Next(j, s1, Fill(i, b, d));
    Before(j, s2, Deliver(i, b), []);
    Before(j, s1, Fill(i, b, d), [Deliver(i, b)]);
    Before(j, s, Make(i), [Fill(i, b, d)] + [Deliver(i, b)]);
    return [Make(i)] + ([Fill(i, b, d)] + [Deliver(i, b)]);
  }

  lemma ConsumeLifts(j: F.Job, s: State) returns (steps: seq<Step>)
    requires Inv(j, s) && Quiet(j, s) && F.Enabled(j, s.fetch, F.Consume)
    ensures Run(j, s, steps) && Quiet(j, Final(j, s, steps))
    ensures Final(j, s, steps).fetch == F.Next(j, s.fetch, F.Consume)
  {
    if j.fetch(s.fetch.next).Err? {
      Before(j, s, ReceiveError, []);
      return [ReceiveError];
    }
    var s1 := Next(j, s, Receive);
    Before(j, s1, Finish(true), []);
    Before(j, s, Receive, [Finish(true)]);
    return [Receive] + [Finish(true)];
  }

  lemma StepLifts(j: F.Job, s: State, a: F.Step) returns (steps: seq<Step>)
    requires Inv(j, s) && Quiet(j, s) && F.Enabled(j, s.fetch, a)
    ensures Run(j, s, steps) && Quiet(j, Final(j, s, steps))
    ensures Final(j, s, steps).fetch == F.Next(j, s.fetch, a)
  {
    match a
    case Return =>
      Before(j, s, Return, []);
      steps := [Return];
    case Complete(i) =>
      steps := CompleteLifts(j, s, i);
    case Consume =>
      steps := ConsumeLifts(j, s);
  }

  /** And every run of the fetching loop is one of these, forgetting the buffers. */
  lemma {:induction false} Lifts(j: F.Job, s: State, f: seq<F.Step>) returns (steps: seq<Step>)
    requires Inv(j, s) && Quiet(j, s) && F.Run(j, s.fetch, f)
    ensures Run(j, s, steps) && Final(j, s, steps).fetch == F.Final(j, s.fetch, f)
    decreases |f|
  {
    if f == [] {
      steps := [];
    } else {
      var first := StepLifts(j, s, f[0]);
      RunKeeps(j, s, first);
      var rest := Lifts(j, Final(j, s, first), f[1..]);
      Joined(j, s, first, rest);
      steps := first + rest;
    }
  }

  /** What having one holder means for the others. */
  lemma HeldBy(s: State, h: Holder, b: Buffer)
    requires OneHolder(s) && Holds(s, h, b)
    ensures b in s.pool ==> h == InPool
    ensures b in s.others ==> h == Elsewhere
    ensures s.reading == Some(b) ==> h == Reading
    ensures forall p :: p in s.taken && p.1 == b ==> h == Fetching(p.0)
    ensures forall k :: k in s.ready && s.ready[k] == b ==> h == Waiting(k)
  {
    assert b in s.pool ==> Holds(s, InPool, b);
    assert b in s.others ==> Holds(s, Elsewhere, b);
    assert s.reading == Some(b) ==> Holds(s, Reading, b);
    forall p | p in s.taken && p.1 == b ensures h == Fetching(p.0) { assert Holds(s, Fetching(p.0), b); }
    forall k | k in s.ready && s.ready[k] == b ensures h == Waiting(k) { assert Holds(s, Waiting(k), b); }
  }

  /** While the consumer reads a buffer it is in no pool, no fetch and no other request has it, and it
      holds the chunk the consumer was given, whatever everybody else does; and what the consumer has
      read is a first part of what fetching one by one would give it. */
  lemma UndisturbedReading(j: F.Job, steps: seq<Step>)
    requires Run(j, Init(j), steps)
    ensures var s := Final(j, Init(j), steps);
            && (s.reading.Some? ==>
                  var b := s.reading.value;
                  && b !in s.pool && b !in s.others && b !in s.ready.Values && (forall p :: p in s.taken ==> p.1 != b)
                  && b in s.memory && j.fetch(s.fetch.next) == F.Ok(s.memory[b]))
            && s.seen == s.fetch.out && s.seen <= F.OneByOne(j, 0).0
  {
    RunKeeps(j, Init(j), steps);
    var s := Final(j, Init(j), steps);
    var f := Projects(j, Init(j), steps);
    F.StrictlyInOrder(j, f);
    if s.reading.Some? {
      var b := s.reading.value;
      HeldBy(s, Reading, b);
    }
  }

  /** A result waiting in its channel is as undisturbed, and no buffer is ever in the pools twice. */
  lemma UndisturbedWaiting(j: F.Job, steps: seq<Step>, i: nat)
    requires Run(j, Init(j), steps) && i in Final(j, Init(j), steps).ready
    ensures var s := Final(j, Init(j), steps); var b := s.ready[i];
            && b !in s.pool && b !in s.others && s.reading != Some(b) && (forall p :: p in s.taken ==> p.1 != b)
            && (forall k :: k in s.ready && s.ready[k] == b ==> k == i)
            && b in s.memory && j.fetch(i) == F.Ok(s.memory[b])
    ensures forall x :: Final(j, Init(j), steps).pool[x] <= 1
  {
    RunKeeps(j, Init(j), steps);
    var s := Final(j, Init(j), steps);
    var b := s.ready[i];
    HeldBy(s, Waiting(i), b);
  }

  // ---- a fetch left to itself ----

  /** The buffers a fetch has taken. */
  function TakenBy(s: State, i: nat): set<(nat, Buffer)> { set p | p in s.taken && p.0 == i }

  lemma TakenIsEmpty(s: State, i: nat)
    ensures TakenBy(s, i) == {} <==> forall p :: p in s.taken ==> p.0 != i
  {
    if TakenBy(s, i) == {} {
      forall p | p in s.taken ensures p.0 != i { assert p !in TakenBy(s, i); }
    }
  }

  /** In every state a fetch in flight can complete by its own steps, whatever it and the others hold: it
      gives back what it has, and delivers its chunk in a buffer of its own, or its error. */
  lemma {:induction false} FetchCompletes(j: F.Job, s: State, i: nat) returns (steps: seq<Step>)
    requires InFlight(j, s, i)
    ensures Run(j, s, steps) && Final(j, s, steps).fetch == F.Next(j, s.fetch, F.Complete(i))
    ensures j.fetch(i).Ok? ==>
              var s' := Final(j, s, steps);
              i in s'.ready && s'.ready[i] in s'.memory && s'.memory[s'.ready[i]] == j.fetch(i).data
    decreases |TakenBy(s, i)|
  {
    TakenIsEmpty(s, i);
    if TakenBy(s, i) != {} {
      var p :| p in TakenBy(s, i);
      var a := Put(i, p.1);
      assert TakenBy(Next(j, s, a), i) == TakenBy(s, i) - {p};
      var rest := FetchCompletes(j, Next(j, s, a), i);
      Before(j, s, a, rest);
      steps := [a] + rest;
    } else if j.fetch(i).Err? {
      Before(j, s, Fail(i), []);
      steps := [Fail(i)];
      assert [Fail(i)][1..] == [];
    } else {
      steps := DeliversFresh(j, s, i);
    }
  }

  lemma DeliversFresh(j: F.Job, s: State, i: nat) returns (steps: seq<Step>)
    requires InFlight(j, s, i) && j.fetch(i).Ok? && forall p :: p in s.taken ==> p.0 != i
    ensures Run(j, s, steps) && Final(j, s, steps).fetch == F.Next(j, s.fetch, F.Complete(i))
    ensures var s' := Final(j, s, steps);
            i in s'.ready && s'.ready[i] in s'.memory && s'.memory[s'.ready[i]] == j.fetch(i).data
  {
    var b, d := s.made, j.fetch(i).data;
    var s1 := Next(j, s, Make(i));
    var s2 := Next(j, s1, Fill(i, b, d));
    Before(j, s2, Deliver(i, b), []);
    Before(j, s1, Fill(i, b, d), [Deliver(i, b)]);
    Before(j, s, Make(i), [Fill(i, b, d)] + [Deliver(i, b)]);
    steps := [Make(i)] + ([Fill(i, b, d)] + [Deliver(i, b)]);
    assert [Deliver(i, b)][1..] == [];
  }

  // ---- no buffer is lost ----

  /** Nobody lets a buffer go. */
  predicate Thrifty(a: Step) { !a.Forget? && !a.Collect? && a != Finish(false) }

  ghost predicate Held(s: State, b: Buffer) { exists h :: Holds(s, h, b) }

  ghost predicate AllHeld(s: State) { forall b: Buffer :: b < s.made ==> Held(s, b) }

  lemma HeldStays(j: F.Job, s: State, a: Step, h: Holder, b: Buffer)
    requires Inv(j, s) && Enabled(j, s, a) && Thrifty(a) && Holds(s, h, b)
    ensures Held(Next(j, s, a), b)
  {
    var s' := Next(j, s, a);
    match HandoverOf(s, a)
    case None =>
      NotHandedOver(j, s, a, h, b);
    case Some(v) =>
      if v.b == b {
        HandedOver(j, s, a, v);
      } else {
        NotHandedOver(j, s, a, h, b);
      }
  }

  lemma NotHandedOver(j: F.Job, s: State, a: Step, h: Holder, b: Buffer)
    requires Inv(j, s) && Enabled(j, s, a) && Holds(s, h, b)
    requires HandoverOf(s, a).Some? ==> HandoverOf(s, a).value.b != b
    ensures Holds(Next(j, s, a), h, b)
  {
    assert forall i :: i in s.ready ==> i in s.fetch.done;
  }

  lemma HandedOver(j: F.Job, s: State, a: Step, v: Handover)
    requires Enabled(j, s, a) && Thrifty(a) && HandoverOf(s, a) == Some(v)
    ensures v.to.Some? && Holds(Next(j, s, a), v.to.value, v.b)
  {
  }

  lemma StepHolds(j: F.Job, s: State, a: Step)
    requires Inv(j, s) && Enabled(j, s, a) && Thrifty(a) && AllHeld(s)
    ensures AllHeld(Next(j, s, a))
  {
    forall b: Buffer | b < Next(j, s, a).made ensures Held(Next(j, s, a), b) {
      if b < s.made {
        assert Held(s, b);
        var h :| Holds(s, h, b);
        HeldStays(j, s, a, h, b);
      } else {
        HandedOver(j, s, a, HandoverOf(s, a).value);
      }
    }
  }

  lemma {:induction false} RunHolds(j: F.Job, s: State, steps: seq<Step>)
    requires Inv(j, s) && Run(j, s, steps) && AllHeld(s) && forall k :: 0 <= k < |steps| ==> Thrifty(steps[k])
    ensures AllHeld(Final(j, s, steps))
    decreases |steps|
  {
    if steps == [] {
    } else {
      assert Thrifty(steps[0]);
      StepHolds(j, s, steps[0]);
      StepKeepsHolders(j, s, steps[0]);
      StepKeepsData(j, s, steps[0]);
      RunHolds(j, Next(j, s, steps[0]), steps[1..]);
    }
  }

  /** In a run in which nobody lets a buffer go, each one ever made is somewhere, and in one place only:
      in the pools again, with a fetch, in a channel, with the consumer or with another request. */
  lemma NoBufferLost(j: F.Job, steps: seq<Step>, b: Buffer)
    requires Run(j, Init(j), steps) && forall k :: 0 <= k < |steps| ==> Thrifty(steps[k])
    requires b < Final(j, Init(j), steps).made
    ensures exists h :: Holds(Final(j, Init(j), steps), h, b)
                        && forall g :: Holds(Final(j, Init(j), steps), g, b) ==> g == h
  {
    RunKeeps(j, Init(j), steps);
    RunHolds(j, Init(j), steps);
    assert Held(Final(j, Init(j), steps), b);
    var h :| Holds(Final(j, Init(j), steps), h, b);
    assert forall g :: Holds(Final(j, Init(j), steps), g, b) ==> g == h;
  }
}
