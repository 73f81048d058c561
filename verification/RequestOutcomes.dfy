/** What requests leave behind in the chunk lifecycle: put-path registers what it was asked to, and
    get-missing-chunks answers what it saw and stamps what it promised. */
module RequestOutcomes {
  import opened Common
  import opened ChunkLifecycle
  import opened RowSafety

  lemma {:induction false} SplitRun(t: Timing, s: State, a: seq<Step>, b: seq<Step>)
    requires Run(t, s, a + b)
    ensures Run(t, s, a) && Run(t, Final(t, s, a), b) && Final(t, s, a + b) == Final(t, Final(t, s, a), b)
    decreases |a|
  {
    if a == [] {
      Nothing(b);
    } else {
      HeadFirst(a, b);
      SplitRun(t, Next(t.grace, s, a[0]), a[1..], b);
    }
  }

  lemma HeadFirst(a: seq<Step>, b: seq<Step>)
    requires a != []
    ensures (a + b)[0] == a[0] && (a + b)[1..] == a[1..] + b
  {
  }

  lemma OneStep(t: Timing, s: State, a: Step, rest: seq<Step>)
    requires Run(t, s, [a] + rest)
    ensures Enabled(t.grace, s, a) && Timely(t, s, a) && Run(t, Next(t.grace, s, a), rest)
    ensures Final(t, s, [a] + rest) == Final(t, Next(t.grace, s, a), rest)
  {
    assert ([a] + rest)[1..] == rest;
  }

  // ---- the path table ----

  /** The step neither evicts the path nor commits a registration of it. */
  predicate LeavesPath(s: State, a: Step, key: PathKey) {
    && (a.Evict? ==> key !in a.keys)
    && (a.RegisterCommit? && IsRegister(s, a.id) ==> s.actors[a.id].key != key)
  }

  predicate PathLeft(t: Timing, s: State, steps: seq<Step>, key: PathKey)
    requires Run(t, s, steps)
    decreases |steps|
  {
    steps == [] || (LeavesPath(s, steps[0], key) && PathLeft(t, Next(t.grace, s, steps[0]), steps[1..], key))
  }

  lemma {:induction false} PathStays(t: Timing, s: State, steps: seq<Step>, key: PathKey)
    requires Run(t, s, steps) && PathLeft(t, s, steps, key)
    ensures var s' := Final(t, s, steps);
            (key in s'.paths <==> key in s.paths) && (key in s.paths ==> s'.paths[key] == s.paths[key])
    decreases |steps|
  {
    if steps == [] {
    } else {
      PathStays(t, Next(t.grace, s, steps[0]), steps[1..], key);
    }
  }

  /** Nobody stops this request, or commits it. */
  predicate RequestLeft(steps: seq<Step>, id: nat) {
    forall k :: 0 <= k < |steps| ==> steps[k] != Stop(id) && steps[k] != RegisterCommit(id)
  }

  lemma {:induction false} RequestStays(t: Timing, s: State, steps: seq<Step>, id: nat)
    requires Run(t, s, steps) && IsRegister(s, id) && RequestLeft(steps, id)
    ensures var s' := Final(t, s, steps);
            IsRegister(s', id) && s'.actors[id].key == s.actors[id].key && s'.actors[id].chunks == s.actors[id].chunks
    decreases |steps|
  {
    if steps == [] {
    } else {
      assert steps[0] != Stop(id) && steps[0] != RegisterCommit(id);
      RequestStays(t, Next(t.grace, s, steps[0]), steps[1..], id);
    }
  }

  /** In every run: a put-path that commits registers exactly the chunk list it was given, in order, and
      until the path is evicted or registered again it is registered so; and when the timing is covered
      each of its chunks has its row. */
  lemma RegistersWhatWasAsked(t: Timing, now: int, before: seq<Step>, id: nat, key: PathKey, chunks: seq<Chunk>,
                              during: seq<Step>, after: seq<Step>)
    requires Run(t, Init(now), before + ([RegisterStart(id, key, chunks)] + (during + ([RegisterCommit(id)] + after))))
    requires RequestLeft(during, id)
    requires var steps := before + ([RegisterStart(id, key, chunks)] + (during + [RegisterCommit(id)]));
             Run(t, Init(now), steps) && Run(t, Final(t, Init(now), steps), after)
             && PathLeft(t, Final(t, Init(now), steps), after, key)
    ensures var s := Final(t, Init(now), before + ([RegisterStart(id, key, chunks)] + (during + ([RegisterCommit(id)] + after))));
            && key in s.paths && s.paths[key] == chunks
            && (t.window + t.delay <= t.grace ==> forall i :: 0 <= i < |chunks| ==> chunks[i] in s.rows)
  {
    var start, commit := RegisterStart(id, key, chunks), RegisterCommit(id);
    var all := before + ([start] + (during + ([commit] + after)));
    if t.window + t.delay <= t.grace { RunKeeps(t, Init(now), all); }
    SplitRun(t, Init(now), before, [start] + (during + ([commit] + after)));
    SplitRun(t, Init(now), before, [start] + (during + [commit]));
    var s0 := Final(t, Init(now), before);
    OneStep(t, s0, start, during + ([commit] + after));
    OneStep(t, s0, start, during + [commit]);
    var s1 := Next(t.grace, s0, start);
    SplitRun(t, s1, during, [commit] + after);
    SplitRun(t, s1, during, [commit]);
    RequestStays(t, s1, during, id);
    var s2 := Final(t, s1, during);
    OneStep(t, s2, commit, after);
    SingleStep(t, s2, commit);
    var s3 := Next(t.grace, s2, commit);
    assert s3.paths[key] == chunks;
    PathStays(t, s3, after, key);
    assert Final(t, Init(now), all) == Final(t, s3, after);
  }

  lemma SingleStep(t: Timing, s: State, a: Step)
    requires Run(t, s, [a])
    ensures Final(t, s, [a]) == Next(t.grace, s, a)
  {
    assert [a][1..] == [];
  }

  /** A path that was evicted, or never registered, is not there until somebody registers it. */
  lemma EvictedIsGone(t: Timing, s: State, keys: set<PathKey>, after: seq<Step>, key: PathKey)
    requires key in keys && Run(t, Next(t.grace, s, Evict(keys)), after)
    requires PathLeft(t, Next(t.grace, s, Evict(keys)), after, key)
    ensures key !in Final(t, Next(t.grace, s, Evict(keys)), after).paths
  {
    PathStays(t, Next(t.grace, s, Evict(keys)), after, key);
  }

  lemma NeverThere(t: Timing, now: int, steps: seq<Step>, key: PathKey)
    requires Run(t, Init(now), steps) && PathLeft(t, Init(now), steps, key)
    ensures key !in Final(t, Init(now), steps).paths
  {
    PathStays(t, Init(now), steps, key);
  }

  // ---- get-missing-chunks ----

  predicate IsQuery(s: State, id: nat) { id in s.actors && s.actors[id].Query? }

  predicate IsPromise(s: State, id: nat) { id in s.actors && s.actors[id].Promise? }

  /** The step looks for the rows of a batch that has this chunk. */
  predicate Checks(s: State, a: Step, id: nat, c: Chunk) {
    a == QueryCheck(id) && IsQuery(s, id) && s.actors[id].answered < |s.actors[id].asked|
    && c in Range(s.actors[id].asked, s.actors[id].answered, BatchEnd(s.actors[id].answered, |s.actors[id].asked|, BATCH_VARS))
  }

  /** At some check of the chunk during the run its row was there, or was not. */
  predicate CheckedDuring(t: Timing, s: State, steps: seq<Step>, id: nat, c: Chunk, there: bool)
    requires Run(t, s, steps)
    decreases |steps|
  {
    steps != [] && ((Checks(s, steps[0], id, c) && (c in s.rows) == there)
                    || CheckedDuring(t, Next(t.grace, s, steps[0]), steps[1..], id, c, there))
  }

  predicate QueryLeft(steps: seq<Step>, id: nat) {
    forall k :: 0 <= k < |steps| ==> steps[k] != Stop(id) && steps[k] != QueryCapture(id)
  }

  lemma CheckStep(t: Timing, s: State, a: Step, id: nat, c: Chunk)
    requires Enabled(t.grace, s, a) && IsQuery(s, id) && s.actors[id].answered <= |s.actors[id].asked|
    requires a != Stop(id) && a != QueryCapture(id)
    ensures var s' := Next(t.grace, s, a);
            && IsQuery(s', id) && s'.actors[id].asked == s.actors[id].asked
            && s.actors[id].answered <= s'.actors[id].answered <= |s.actors[id].asked|
            && (c in s'.actors[id].found <==> c in s.actors[id].found || (Checks(s, a, id, c) && c in s.rows))
            && forall i :: s.actors[id].answered <= i < s'.actors[id].answered ==> Checks(s, a, id, s.actors[id].asked[i])
  {
    if a == QueryCheck(id) {
      var x := s.actors[id];
      var hi := BatchEnd(x.answered, |x.asked|, BATCH_VARS);
      forall i | x.answered <= i < hi ensures x.asked[i] in Range(x.asked, x.answered, hi) {}
    }
  }

  lemma {:induction false} AnswersSoFar(t: Timing, s: State, steps: seq<Step>, id: nat, c: Chunk)
    requires Run(t, s, steps) && IsQuery(s, id) && s.actors[id].answered <= |s.actors[id].asked| && QueryLeft(steps, id)
    ensures var s' := Final(t, s, steps);
            && IsQuery(s', id) && s'.actors[id].asked == s.actors[id].asked
            && s.actors[id].answered <= s'.actors[id].answered <= |s.actors[id].asked|
            && (c in s'.actors[id].found <==> c in s.actors[id].found || CheckedDuring(t, s, steps, id, c, true))
            && forall i :: s.actors[id].answered <= i < s'.actors[id].answered && s.actors[id].asked[i] == c ==>
                 CheckedDuring(t, s, steps, id, c, true) || CheckedDuring(t, s, steps, id, c, false)
    decreases |steps|
  {
    if steps == [] {
    } else {
      assert steps[0] != Stop(id) && steps[0] != QueryCapture(id);
      CheckStep(t, s, steps[0], id, c);
      AnswersSoFar(t, Next(t.grace, s, steps[0]), steps[1..], id, c);
    }
  }

  lemma {:induction false} PresentIs(asked: seq<Chunk>, found: set<Chunk>, c: Chunk)
    ensures c in Present(asked, found) <==> c in asked && c in found
  {
    if asked == [] {
    } else {
      PresentIs(asked[1..], found, c);
      assert asked == [asked[0]] + asked[1..];
    }
  }

  /** What a query promises, when it has checked everything: of what it was asked, exactly the chunks
      that had their row at a check; and it calls a chunk missing only if at its check it had none. */
  lemma PromisesWhatWasThere(t: Timing, s: State, id: nat, chunks: seq<Chunk>, steps: seq<Step>, c: Chunk)
    requires Enabled(t.grace, s, QueryStart(id, chunks)) && QueryLeft(steps, id)
    requires Run(t, Next(t.grace, s, QueryStart(id, chunks)), steps)
    requires Enabled(t.grace, Final(t, Next(t.grace, s, QueryStart(id, chunks)), steps), QueryCapture(id))
    ensures var s1 := Next(t.grace, s, QueryStart(id, chunks));
            var s' := Next(t.grace, Final(t, s1, steps), QueryCapture(id));
            && IsPromise(s', id) && s'.actors[id].touched == 0 && s'.actors[id].stamp == s'.now
            && (c in s'.actors[id].touch <==> c in chunks && CheckedDuring(t, s1, steps, id, c, true))
            && (c in chunks && c !in s'.actors[id].touch ==> CheckedDuring(t, s1, steps, id, c, false))
  {
    var s1 := Next(t.grace, s, QueryStart(id, chunks));
    AnswersSoFar(t, s1, steps, id, c);
    PresentIs(chunks, Final(t, s1, steps).actors[id].found, c);
  }

  /** During the run the promise put its stamp on the chunk's row, if it still had one. */
  predicate TouchedDuring(t: Timing, s: State, steps: seq<Step>, id: nat, c: Chunk, stamp: int)
    requires Run(t, s, steps)
    decreases |steps|
  {
    steps != [] && ((steps[0] == PromiseStamp(id) && Touches(t, s, steps[0], c, stamp))
                    || TouchedDuring(t, Next(t.grace, s, steps[0]), steps[1..], id, c, stamp))
  }

  predicate Touches(t: Timing, s: State, a: Step, c: Chunk, stamp: int)
    requires Enabled(t.grace, s, a)
  {
    var rows := Next(t.grace, s, a).rows;
    (c in s.rows <==> c in rows) && (c in rows ==> rows[c].created == stamp)
  }

  lemma TouchStep(t: Timing, s: State, a: Step, id: nat, i: nat)
    requires Enabled(t.grace, s, a) && IsPromise(s, id) && s.actors[id].touched <= i < |s.actors[id].touch| && a != Stop(id)
    ensures var s' := Next(t.grace, s, a);
            && IsPromise(s', id) && s'.actors[id].touch == s.actors[id].touch && s'.actors[id].stamp == s.actors[id].stamp
            && (i < s'.actors[id].touched ==> a == PromiseStamp(id) && Touches(t, s, a, s.actors[id].touch[i], s.actors[id].stamp))
  {
    if a == PromiseStamp(id) {
      var x := s.actors[id];
      var hi := BatchEnd(x.touched, |x.touch|, BATCH_VARS);
      if i < hi { assert x.touch[i] in Range(x.touch, x.touched, hi); }
    }
  }

  /** A promise that ends has stamped every chunk it made. */
  lemma {:induction false} PromisesAreStamped(t: Timing, s: State, steps: seq<Step>, id: nat, i: nat)
    requires Run(t, s, steps) && IsPromise(s, id) && s.actors[id].touched <= i < |s.actors[id].touch|
    requires forall k :: 0 <= k < |steps| ==> steps[k] != Stop(id)
    ensures var s' := Final(t, s, steps);
            && IsPromise(s', id) && s'.actors[id].touch == s.actors[id].touch
            && (i < s'.actors[id].touched ==> TouchedDuring(t, s, steps, id, s.actors[id].touch[i], s.actors[id].stamp))
    decreases |steps|
  {
    if steps == [] {
    } else {
      assert steps[0] != Stop(id);
      TouchStep(t, s, steps[0], id, i);
      var s1 := Next(t.grace, s, steps[0]);
      if i >= s1.actors[id].touched {
        PromisesAreStamped(t, s1, steps[1..], id, i);
      } else {
        PromiseRemains(t, s1, steps[1..], id);
      }
    }
  }

  lemma {:induction false} PromiseRemains(t: Timing, s: State, steps: seq<Step>, id: nat)
    requires Run(t, s, steps) && IsPromise(s, id)
    requires forall k :: 0 <= k < |steps| ==> steps[k] != Stop(id)
    ensures var s' := Final(t, s, steps); IsPromise(s', id) && s'.actors[id].touch == s.actors[id].touch
    decreases |steps|
  {
    if steps == [] {
    } else {
      assert steps[0] != Stop(id);
      PromiseRemains(t, Next(t.grace, s, steps[0]), steps[1..], id);
    }
  }

  // ---- uploads ----

  lemma {:induction false} UploadStays(t: Timing, s: State, steps: seq<Step>, id: nat)
    requires Run(t, s, steps) && IsUpload(s, id)
    requires forall k :: 0 <= k < |steps| ==> steps[k] !in {Stop(id), UploadTouch(id), UploadInsert(id)}
    ensures var s' := Final(t, s, steps);
            IsUpload(s', id) && s'.actors[id].chunk == s.actors[id].chunk && s'.actors[id].csize == s.actors[id].csize
    decreases |steps|
  {
    if steps == [] {
    } else {
      assert steps[0] !in {Stop(id), UploadTouch(id), UploadInsert(id)};
      UploadStays(t, Next(t.grace, s, steps[0]), steps[1..], id);
    }
  }

  /** An upload that gets to its insert leaves a row for its chunk, with the size it has if there was none,
      and with the size on record if there was. */
  lemma UploadRecordsItsChunk(t: Timing, s: State, id: nat, c: Chunk, csize: nat, during: seq<Step>)
    requires Run(t, s, [UploadStart(id, c, csize)] + (during + [UploadInsert(id)]))
    requires forall k :: 0 <= k < |during| ==> during[k] !in {Stop(id), UploadTouch(id), UploadInsert(id)}
    ensures Run(t, s, [UploadStart(id, c, csize)] + during)
    ensures var before := Final(t, s, [UploadStart(id, c, csize)] + during).rows;
            var after := Final(t, s, [UploadStart(id, c, csize)] + (during + [UploadInsert(id)])).rows;
            && c in after && after[c].csize == (if c in before then before[c].csize else csize)
            && forall x :: x != c ==> (x in after <==> x in before) && (x in before ==> after[x] == before[x])
  {
    var start, s1 := [UploadStart(id, c, csize)], Next(t.grace, s, UploadStart(id, c, csize));
    OneStep(t, s, UploadStart(id, c, csize), during + [UploadInsert(id)]);
    SplitRun(t, s1, during, [UploadInsert(id)]);
    UploadStays(t, s1, during, id);
    OneStep(t, Final(t, s1, during), UploadInsert(id), []);
    SingleStep(t, Final(t, s1, during), UploadInsert(id));
    assert (start + during)[1..] == during;
  }

  lemma Lead(t: Timing, s: State, a: Step, rest: seq<Step>)
    requires Enabled(t.grace, s, a) && Timely(t, s, a) && Run(t, Next(t.grace, s, a), rest)
    ensures Run(t, s, [a] + rest) && Final(t, s, [a] + rest) == Final(t, Next(t.grace, s, a), rest)
  {
    assert ([a] + rest)[1..] == rest;
  }

  lemma KnownGoesThrough(t: Timing, s: State, id: nat) returns (steps: seq<Step>)
    requires IsUpload(s, id) && s.actors[id].up == Probed(true) && s.actors[id].chunk in s.rows
    ensures Run(t, s, steps)
    ensures var s', c := Final(t, s, steps), s.actors[id].chunk;
            c in s'.rows && s'.rows[c].created == s.now && id !in s'.actors && s'.blobs == s.blobs
  {
    var s2 := Next(t.grace, s, UploadCapture(id));
    Lead(t, s2, UploadTouch(id), []);
    Lead(t, s, UploadCapture(id), [UploadTouch(id)]);
    SingleStep(t, s2, UploadTouch(id));
    steps := [UploadCapture(id)] + [UploadTouch(id)];
  }

  lemma NewGoesThrough(t: Timing, s: State, id: nat) returns (steps: seq<Step>)
    requires IsUpload(s, id) && s.actors[id].up == Probed(false)
    ensures Run(t, s, steps)
    ensures var s', c := Final(t, s, steps), s.actors[id].chunk;
            c in s'.rows && s'.rows[c].created == s.now && id !in s'.actors && s'.blobs == s.blobs + {c}
  {
    var s2 := Next(t.grace, s, UploadPutBlob(id));
    var s3 := Next(t.grace, s2, UploadCapture(id));
    Lead(t, s3, UploadInsert(id), []);
    Lead(t, s2, UploadCapture(id), [UploadInsert(id)]);
    Lead(t, s, UploadPutBlob(id), [UploadCapture(id)] + [UploadInsert(id)]);
    SingleStep(t, s3, UploadInsert(id));
    steps := [UploadPutBlob(id)] + ([UploadCapture(id)] + [UploadInsert(id)]);
  }

  /** An upload left to itself goes through: its chunk has a row stamped just then, and its blob, written
      unless there was a row. */
  lemma UploadGoesThrough(t: Timing, s: State, id: nat, c: Chunk, csize: nat) returns (steps: seq<Step>)
    requires id !in s.actors
    ensures Run(t, s, steps)
    ensures var s' := Final(t, s, steps);
            && c in s'.rows && s'.rows[c].created == s.now && id !in s'.actors
            && s'.blobs == (if c in s.rows then s.blobs else s.blobs + {c})
  {
    var start := UploadStart(id, c, csize);
    var s1 := Next(t.grace, s, start);
    var rest: seq<Step>;
    if c in s.rows { rest := KnownGoesThrough(t, s1, id); } else { rest := NewGoesThrough(t, s1, id); }
    Lead(t, s, start, rest);
    steps := [start] + rest;
  }

  /** A put-path in the middle of its work, at the moment it started, with all its chunks there. */
  predicate Underway(s: State, id: nat) {
    && IsRegister(s, id) && s.actors[id].stamp == s.now && s.actors[id].missing == {}
    && s.actors[id].stamped <= |s.actors[id].chunks| && s.actors[id].checked <= |s.actors[id].chunks|
    && (s.actors[id].checked > 0 ==> s.actors[id].stamped == |s.actors[id].chunks|)
    && forall i :: 0 <= i < |s.actors[id].chunks| ==> s.actors[id].chunks[i] in s.rows
  }

  function NextOf(s: State, id: nat): Step
    requires IsRegister(s, id)
  {
    var x := s.actors[id];
    if x.stamped < |x.chunks| then RegisterStamp(id) else if x.checked < |x.chunks| then RegisterCheck(id) else RegisterCommit(id)
  }

  lemma UnderwayStep(t: Timing, s: State, id: nat)
    requires Underway(s, id)
    ensures Enabled(t.grace, s, NextOf(s, id)) && Timely(t, s, NextOf(s, id))
    ensures var s' := Next(t.grace, s, NextOf(s, id));
            if NextOf(s, id).RegisterCommit? then s'.paths == s.paths[s.actors[id].key := s.actors[id].chunks]
            else
              && Underway(s', id) && s'.paths == s.paths
              && s'.actors[id].key == s.actors[id].key && s'.actors[id].chunks == s.actors[id].chunks
              && s'.actors[id].stamped + s'.actors[id].checked > s.actors[id].stamped + s.actors[id].checked
  {
    var x := s.actors[id];
    if NextOf(s, id).RegisterCheck? {
      var hi := BatchEnd(x.checked, |x.chunks|, BATCH_VARS);
      assert Range(x.chunks, x.checked, hi) <= s.rows.Keys;
    }
  }

  lemma {:induction false} UnderwayArrives(t: Timing, s: State, id: nat) returns (steps: seq<Step>)
    requires Underway(s, id)
    ensures Run(t, s, steps) && Final(t, s, steps).paths == s.paths[s.actors[id].key := s.actors[id].chunks]
    decreases 2 * |s.actors[id].chunks| - s.actors[id].stamped - s.actors[id].checked
  {
    var a := NextOf(s, id);
    UnderwayStep(t, s, id);
    if a.RegisterCommit? {
      Lead(t, s, a, []);
      SingleStep(t, s, a);
      steps := [a];
      assert [a] + [] == [a];
    } else {
      var rest := UnderwayArrives(t, Next(t.grace, s, a), id);
      Lead(t, s, a, rest);
      steps := [a] + rest;
    }
  }

  /** A put-path left to itself registers its path when every chunk has a row. */
  lemma RegistersWhenAllIsThere(t: Timing, s: State, id: nat, key: PathKey, chunks: seq<Chunk>) returns (steps: seq<Step>)
    requires id !in s.actors && forall i :: 0 <= i < |chunks| ==> chunks[i] in s.rows
    ensures Run(t, s, steps) && Final(t, s, steps).paths == s.paths[key := chunks]
  {
    var start := RegisterStart(id, key, chunks);
    var rest := UnderwayArrives(t, Next(t.grace, s, start), id);
    Lead(t, s, start, rest);
    steps := [start] + rest;
  }

  // ---- sweeps ----

  predicate SweepLeft(steps: seq<Step>, id: nat) {
    forall k :: 0 <= k < |steps| ==> !(steps[k] == Stop(id) || (SweepStep(steps[k]) && steps[k].id == id))
  }

  lemma {:induction false} SweepStays(t: Timing, s: State, steps: seq<Step>, id: nat)
    requires Run(t, s, steps) && IsSweep(s, id) && SweepLeft(steps, id)
    ensures IsSweep(Final(t, s, steps), id) && Final(t, s, steps).actors[id] == s.actors[id]
    decreases |steps|
  {
    if steps == [] {
    } else {
      assert !(steps[0] == Stop(id) || (SweepStep(steps[0]) && steps[0].id == id));
      SweepStays(t, Next(t.grace, s, steps[0]), steps[1..], id);
    }
  }

  /** Whatever goes on beside it, a sweep picks exactly the rows of its backend that no path listed when
      it read the paths and that were older, when it reads them, than a grace period before its start. */
  lemma SweepPicks(t: Timing, s0: State, id: nat, backend: string, between: seq<Step>, meanwhile: seq<Step>,
                   order: seq<Chunk>, c: Chunk)
    requires Enabled(t.grace, s0, SweepStart(id, backend)) && SweepLeft(between, id) && SweepLeft(meanwhile, id)
    requires Run(t, Next(t.grace, s0, SweepStart(id, backend)), between)
    requires Enabled(t.grace, Final(t, Next(t.grace, s0, SweepStart(id, backend)), between), SweepReadLive(id))
    requires var s1 := Final(t, Next(t.grace, s0, SweepStart(id, backend)), between);
             Run(t, Next(t.grace, s1, SweepReadLive(id)), meanwhile)
             && Enabled(t.grace, Final(t, Next(t.grace, s1, SweepReadLive(id)), meanwhile), SweepReadCandidates(id, order))
    ensures var s1 := Final(t, Next(t.grace, s0, SweepStart(id, backend)), between);
            var s2 := Final(t, Next(t.grace, s1, SweepReadLive(id)), meanwhile);
            c in order <==>
              && c in s2.rows && c.backend == backend && s2.rows[c].created < s0.now - t.grace
              && forall k :: k in s1.paths ==> c !in s1.paths[k]
  {
    SweepStays(t, Next(t.grace, s0, SweepStart(id, backend)), between, id);
    var s1 := Final(t, Next(t.grace, s0, SweepStart(id, backend)), between);
    SweepStays(t, Next(t.grace, s1, SweepReadLive(id)), meanwhile, id);
    LiveIs(s1, backend, c);
  }

  lemma LiveIs(s: State, backend: string, c: Chunk)
    ensures c in LiveSet(s, backend) <==> c.backend == backend && exists k :: k in s.paths && c in s.paths[k]
  {
    if c.backend == backend {
      forall k | k in s.paths && c in s.paths[k] ensures c in LiveSet(s, backend) {
        var i :| 0 <= i < |s.paths[k]| && s.paths[k][i] == c;
      }
    }
  }

  /** One delete of a sweep takes exactly the rows among its next 500 candidates, or all that are left,
      that are still that old. */
  lemma SweepDeletes(t: Timing, s: State, id: nat, c: Chunk)
    requires Enabled(t.grace, s, SweepDeleteRows(id))
    ensures var x, s' := s.actors[id], Next(t.grace, s, SweepDeleteRows(id)); var n := Min(500, |x.phase.todo|);
            && (c in s'.rows <==> c in s.rows && !(c in x.phase.todo[..n] && s.rows[c].created < x.started - t.grace))
            && (c in s'.rows ==> s'.rows[c] == s.rows[c])
            && IsSweep(s', id) && s'.actors[id].phase.Sweeping? && s'.actors[id].phase.todo == x.phase.todo[n..]
  {
    var x := s.actors[id];
    var n := Min(500, |x.phase.todo|);
    assert c in x.phase.todo[..n] <==> c in Range(x.phase.todo, 0, n);
  }

  /** Anybody may stop at any moment, and any paths be evicted; nothing else changes by it. */
  lemma AnyMoment(t: Timing, s: State, id: nat, keys: set<PathKey>)
    ensures id in s.actors ==> Enabled(t.grace, s, Stop(id)) && Timely(t, s, Stop(id))
                               && Next(t.grace, s, Stop(id)) == s.(actors := s.actors - {id})
    ensures Enabled(t.grace, s, Evict(keys)) && Timely(t, s, Evict(keys))
            && Next(t.grace, s, Evict(keys)) == s.(paths := s.paths - keys)
  {
  }
}
