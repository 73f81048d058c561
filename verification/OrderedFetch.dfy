/** Fetching the chunks of a NAR concurrently and handing them to the consumer in list order. */
module OrderedFetch {
  import opened Common

  type Data = seq<int>

  datatype Fetched = Ok(data: Data) | Err

  /** The list to fetch: how many chunks, how far ahead to fetch, what each fetch comes back with, and
      whether the consumer accepts the chunk. */
  datatype Job = Job(count: nat, ahead: int, fetch: nat -> Fetched, accepts: nat -> bool)

  datatype Status = Running | Succeeded | FetchFailed(at: nat) | ConsumerFailed(at: nat)

  /** done holds the results waiting in their channels; out is what the consumer was given. */
  datatype State = State(launched: nat, done: set<nat>, next: nat, out: seq<Data>, status: Status)

  datatype Step =
    | Complete(i: nat)   // a fetch in flight puts its result in its channel
    | Consume            // the loop takes the result it is waiting for
    | Return             // no chunk is left

  function Ahead(j: Job): nat { if j.ahead < 1 then 1 else j.ahead }

  function Init(j: Job): State { State(Min(j.count, Ahead(j)), {}, 0, [], Running) }

  predicate Enabled(j: Job, s: State, a: Step) {
    match a
    case Complete(i) => s.next <= i < s.launched && i !in s.done
    case Consume => s.status.Running? && s.next < j.count && s.next in s.done
    case Return => s.status.Running? && s.next == j.count
  }

  function Next(j: Job, s: State, a: Step): State
    requires Enabled(j, s, a)
  {
    match a
    case Complete(i) => s.(done := s.done + {i})
    case Return => s.(status := Succeeded)
    case Consume =>
      var i := s.next;
      var s1 := s.(done := s.done - {i}, next := i + 1);
      if j.fetch(i).Err? then s1.(status := FetchFailed(i))
      else if !j.accepts(i) then s1.(out := s.out + [j.fetch(i).data], status := ConsumerFailed(i))
      else s1.(out := s.out + [j.fetch(i).data],
               launched := if i + Ahead(j) < j.count then s.launched + 1 else s.launched)
  }

  predicate Run(j: Job, s: State, steps: seq<Step>)
    decreases |steps|
  {
    steps == [] || (Enabled(j, s, steps[0]) && Run(j, Next(j, s, steps[0]), steps[1..]))
  }

  function Final(j: Job, s: State, steps: seq<Step>): State
    requires Run(j, s, steps)
    decreases |steps|
  {
    if steps == [] then s else Final(j, Next(j, s, steps[0]), steps[1..])
  }

  // ---- the same, one chunk at a time ----

  /** What a loop that fetches and consumes one chunk after another gives the consumer from chunk i
      on, and how it ends. */
  function OneByOne(j: Job, i: nat): (seq<Data>, Status)
    requires i <= j.count
    decreases j.count - i
  {
    if i == j.count then ([], Succeeded)
    else if j.fetch(i).Err? then ([], FetchFailed(i))
    else if !j.accepts(i) then ([j.fetch(i).data], ConsumerFailed(i))
    else var (rest, status) := OneByOne(j, i + 1); ([j.fetch(i).data] + rest, status)
  }

  /** At every moment the next chunks in line, ahead of them, are launched and no others; what the
      consumer has been given, and what it is still to be given, is what the simple loop gives. */
  ghost predicate Inv(j: Job, s: State) {
    && s.next <= s.launched <= Min(j.count, s.next + Ahead(j))
    && (s.status.Running? ==> s.launched == Min(j.count, s.next + Ahead(j)))
    && (forall i :: i in s.done ==> s.next <= i < s.launched)
    && (s.status.Running? ==>
          && |s.out| == s.next
          && s.out + OneByOne(j, s.next).0 == OneByOne(j, 0).0
          && OneByOne(j, s.next).1 == OneByOne(j, 0).1)
    && (!s.status.Running? ==> (s.out, s.status) == OneByOne(j, 0))
  }

  lemma StepKeeps(j: Job, s: State, a: Step)
    requires Inv(j, s) && Enabled(j, s, a)
    ensures Inv(j, Next(j, s, a))
  {
    if a.Consume? && j.fetch(s.next).Ok? {
      var d := [j.fetch(s.next).data];
      if j.accepts(s.next) {
        var rest := OneByOne(j, s.next + 1).0;
        assert s.out + (d + rest) == (s.out + d) + rest;
      }
    }
    if a.Return? { assert s.out + [] == s.out; }
    if a.Consume? && j.fetch(s.next).Err? { assert s.out + [] == s.out; }
  }

  lemma {:induction false} RunKeeps(j: Job, s: State, steps: seq<Step>)
    requires Inv(j, s) && Run(j, s, steps)
    ensures Inv(j, Final(j, s, steps))
    decreases |steps|
  {
    if steps == [] {
    } else {
      StepKeeps(j, s, steps[0]);
      RunKeeps(j, Next(j, s, steps[0]), steps[1..]);
    }
  }

  lemma InitKeeps(j: Job)
    ensures Inv(j, Init(j))
  {
    assert [] + OneByOne(j, 0).0 == OneByOne(j, 0).0;
  }

  lemma RangeSize(lo: nat, hi: nat, s: set<nat>)
    requires lo <= hi && forall i :: i in s ==> lo <= i < hi
    ensures |s| <= hi - lo
    decreases hi - lo
  {
    if lo < hi {
      assert forall i :: i in s - {lo} ==> lo + 1 <= i < hi;
      RangeSize(lo + 1, hi, s - {lo});
      assert s <= (s - {lo}) + {lo};
      assert |s| <= |s - {lo}| + 1;
    } else {
      assert s == {};
    }
  }

  /** However the fetches finish, the consumer is given the chunks in list order and nothing else: at
      every moment what it has is a first part of what the simple loop would give it. */
  lemma StrictlyInOrder(j: Job, steps: seq<Step>)
    requires Run(j, Init(j), steps)
    ensures Final(j, Init(j), steps).out <= OneByOne(j, 0).0
  {
    InitKeeps(j);
    RunKeeps(j, Init(j), steps);
  }

  /** At every moment at most `ahead` chunks are launched and not consumed, so at most that many
      results are held, and while the loop runs so many are, as far as there are chunks; a configured
      depth below one counts as one. */
  lemma BoundedAhead(j: Job, steps: seq<Step>)
    requires Run(j, Init(j), steps)
    ensures var s := Final(j, Init(j), steps); var ahead := Max(j.ahead, 1);
            && s.next <= s.launched <= s.next + ahead && |s.done| <= ahead
            && (s.status.Running? ==> s.launched == Min(j.count, s.next + ahead))
  {
    InitKeeps(j);
    RunKeeps(j, Init(j), steps);
    var s := Final(j, Init(j), steps);
    RangeSize(s.next, s.launched, s.done);
  }

  /** The loop never waits for a chunk that was not launched: until it has returned, some step is
      enabled. */
  lemma NeverStuck(j: Job, steps: seq<Step>) returns (a: Step)
    requires Run(j, Init(j), steps) && Final(j, Init(j), steps).status.Running?
    ensures Enabled(j, Final(j, Init(j), steps), a)
  {
    InitKeeps(j);
    RunKeeps(j, Init(j), steps);
    var s := Final(j, Init(j), steps);
    return if s.next == j.count then Return else if s.next in s.done then Consume else Complete(s.next);
  }

  function Left(j: Job, s: State): int {
    j.count - s.next - |s.done| + (if s.status.Running? then j.count - s.next + 1 else 0)
  }

  /** A run makes at most two steps a chunk, and one more. */
  lemma {:induction false} EveryRunEnds(j: Job, s: State, steps: seq<Step>)
    requires Inv(j, s) && Run(j, s, steps)
    ensures |steps| <= Left(j, s)
    decreases |steps|
  {
    RangeSize(s.next, s.launched, s.done);
    if steps == [] {
    } else {
      StepKeeps(j, s, steps[0]);
      EveryRunEnds(j, Next(j, s, steps[0]), steps[1..]);
    }
  }

  lemma StepsBounded(j: Job, steps: seq<Step>)
    requires Run(j, Init(j), steps)
    ensures |steps| <= 2 * j.count + 1
  {
    InitKeeps(j);
    EveryRunEnds(j, Init(j), steps);
  }

  /** Whatever the completion order, a run that has returned ended as the simple loop ends; when it
      succeeded the consumer has exactly every chunk, in order. */
  lemma SameAsOneByOne(j: Job, steps: seq<Step>)
    requires Run(j, Init(j), steps) && !Final(j, Init(j), steps).status.Running?
    ensures var s := Final(j, Init(j), steps);
            && (s.out, s.status) == OneByOne(j, 0)
            && (s.status.Succeeded? ==>
                  && |s.out| == j.count
                  && forall i :: 0 <= i < j.count ==> j.fetch(i).Ok? && j.accepts(i) && s.out[i] == j.fetch(i).data)
            && (s.status.FetchFailed? ==>
                  && s.status.at == |s.out| < j.count && j.fetch(s.status.at).Err?
                  && forall i :: 0 <= i < s.status.at ==> j.fetch(i).Ok? && j.accepts(i) && s.out[i] == j.fetch(i).data)
            && (s.status.ConsumerFailed? ==>
                  && s.status.at + 1 == |s.out| <= j.count && !j.accepts(s.status.at)
                  && (forall i :: 0 <= i <= s.status.at ==> j.fetch(i).Ok? && s.out[i] == j.fetch(i).data)
                  && forall i :: 0 <= i < s.status.at ==> j.accepts(i))
  {
    InitKeeps(j);
    RunKeeps(j, Init(j), steps);
    OneByOneIs(j, 0);
    OneByOneFails(j, 0);
  }

  /** Where the simple loop stops when it does not succeed, and what it has given by then. */
  lemma {:induction false} OneByOneFails(j: Job, i: nat)
    requires i <= j.count
    ensures var (out, status) := OneByOne(j, i);
            && !status.Running?
            && (status.FetchFailed? ==>
                  && i + |out| == status.at < j.count && j.fetch(status.at).Err?
                  && forall k :: i <= k < status.at ==> j.fetch(k).Ok? && j.accepts(k) && out[k - i] == j.fetch(k).data)
            && (status.ConsumerFailed? ==>
                  && i + |out| == status.at + 1 <= j.count && !j.accepts(status.at)
                  && (forall k :: i <= k <= status.at ==> j.fetch(k).Ok? && out[k - i] == j.fetch(k).data)
                  && forall k :: i <= k < status.at ==> j.accepts(k))
    decreases j.count - i
  {
    if i == j.count || j.fetch(i).Err? || !j.accepts(i) {
    } else {
      OneByOneFails(j, i + 1);
      var (rest, status) := OneByOne(j, i + 1);
      assert OneByOne(j, i).0 == [j.fetch(i).data] + rest;
    }
  }

  /** The simple loop succeeds exactly when every fetch and every consumption does. */
  lemma {:induction false} OneByOneIs(j: Job, i: nat)
    requires i <= j.count
    ensures var (out, status) := OneByOne(j, i);
            && (status.Succeeded? <==> forall k :: i <= k < j.count ==> j.fetch(k).Ok? && j.accepts(k))
            && (status.Succeeded? ==>
                  && |out| == j.count - i
                  && forall k :: i <= k < j.count ==> out[k - i] == j.fetch(k).data)
    decreases j.count - i
  {
    if i < j.count && j.fetch(i).Ok? && j.accepts(i) { OneByOneIs(j, i + 1); }
  }

  /** The loop itself, with each fetch's result taken when it is waited for. What it waits for has
      always been launched: a channel that was never made would block it for good. */
  method EachOrdered(j: Job) returns (out: seq<Data>, status: Status)
    ensures (out, status) == OneByOne(j, 0)
  {
    var ahead := if j.ahead < 1 then 1 else j.ahead;
    var launched := new bool[j.count](_ => false);
    for i := 0 to Min(j.count, ahead)
      invariant forall k :: 0 <= k < i ==> launched[k]
    {
      launched[i] := true;
    }
    out := [];
    assert [] + OneByOne(j, 0).0 == OneByOne(j, 0).0;
    for i := 0 to j.count
      invariant forall k :: 0 <= k < Min(j.count, i + ahead) ==> launched[k]
      invariant out + OneByOne(j, i).0 == OneByOne(j, 0).0 && OneByOne(j, i).1 == OneByOne(j, 0).1
    {
      assert launched[i];
      var r := j.fetch(i);
      if r.Err? {
        assert out + [] == out;
        return out, FetchFailed(i);
      }
      Reassociate(out, [r.data], if j.accepts(i) then OneByOne(j, i + 1).0 else []);
      out := out + [r.data];
      if !j.accepts(i) {
        assert out + [] == out;
        return out, ConsumerFailed(i);
      }
      if i + ahead < j.count { launched[i + ahead] := true; }
    }
    assert out + [] == out;
    return out, Succeeded;
  }

  function Flatten(ds: seq<Data>): Data {
    if ds == [] then [] else ds[0] + Flatten(ds[1..])
  }

  /** Serving chunks that are stored encoded. */
  function Serving(chunks: seq<Data>, encode: Data -> Data, decode: Data -> Fetched, ahead: int): Job {
    Job(|chunks|, ahead, (i: nat) => if i < |chunks| then decode(encode(chunks[i])) else Err, i => true)
  }

  /** When decoding undoes encoding, a run that has returned succeeded and gave the consumer the bytes
      of the archive. */
  lemma DeliversTheArchive(chunks: seq<Data>, encode: Data -> Data, decode: Data -> Fetched, ahead: int, steps: seq<Step>)
    requires forall d :: decode(encode(d)) == Ok(d)
    requires var j := Serving(chunks, encode, decode, ahead);
             Run(j, Init(j), steps) && !Final(j, Init(j), steps).status.Running?
    ensures var j := Serving(chunks, encode, decode, ahead);
            Final(j, Init(j), steps).status.Succeeded? && Flatten(Final(j, Init(j), steps).out) == Flatten(chunks)
  {
    var j := Serving(chunks, encode, decode, ahead);
    SameAsOneByOne(j, steps);
    OneByOneIs(j, 0);
    assert Final(j, Init(j), steps).out == chunks;
  }
}
