/** With upload verification on, every registered path's chunks concatenate to bytes that hash to its
    NAR hash, even where the verify cache stood in for reading them. */
module VerifiedPaths {
  import opened Common
  import opened RecencyCaches

  type Bytes = seq<int>

  /** The hash of a chunk, of an archive, and the digest that shortens a cache key. */
  datatype Params = Params(
    sha: Bytes -> string, narSha: Bytes -> string, digest: string -> string, verify: bool, cacheSize: nat)

  /** The digests do not collide, and a chunk hash is one non-empty line. */
  ghost predicate Sound(p: Params) {
    && (forall a, b :: p.sha(a) == p.sha(b) ==> a == b)
    && (forall a, b :: p.digest(a) == p.digest(b) ==> a == b)
    && forall a :: Line(p.sha(a))
  }

  predicate Line(s: string) { s != "" && '\n' !in s }

  predicate Clean(s: string) { '\0' !in s }

  // ---- the cache key ----

  function Join(lines: seq<string>): string {
    if lines == [] then "" else if |lines| == 1 then lines[0] else lines[0] + "\n" + Join(lines[1..])
  }

  /** What is digested: the storage, the NAR hash and the chunk hashes, one a line. */
  function Encoded(storage: string, nar: string, chunks: seq<string>): string {
    storage + "\0" + nar + "\0" + Join(chunks)
  }

  function CacheKey(p: Params, storage: string, nar: string, chunks: seq<string>): string {
    p.digest(Encoded(storage, nar, chunks))
  }

  /** Folds the inputs into the hash as the server does, a line at a time. */
  method VerifyKey(p: Params, storage: string, nar: string, chunks: seq<string>) returns (key: string)
    ensures key == CacheKey(p, storage, nar, chunks)
  {
    var h := storage + "\0" + nar + "\0";
    ghost var start := h;
    for i := 0 to |chunks|
      invariant h == start + Join(chunks[..i])
    {
      var line := if i > 0 then "\n" + chunks[i] else chunks[i];
      h := h + line;
      JoinSnoc(chunks[..i], chunks[i]);
      assert chunks[..i + 1] == chunks[..i] + [chunks[i]];
    }
    assert chunks[..|chunks|] == chunks;
    return p.digest(h);
  }

  lemma {:induction false} JoinSnoc(lines: seq<string>, s: string)
    ensures Join(lines + [s]) == if lines == [] then s else Join(lines) + "\n" + s
  {
    if |lines| > 1 {
      assert (lines + [s])[1..] == lines[1..] + [s];
      JoinSnoc(lines[1..], s);
      Reassociate(lines[0] + "\n", Join(lines[1..]) + "\n", s);
      Reassociate(lines[0] + "\n", Join(lines[1..]), "\n");
    } else if |lines| == 1 {
      assert (lines + [s])[1..] == [s];
    }
  }

  /** Two texts that agree up to the end, and whose parts before the first separator have none, agree
      part by part. */
  lemma CutUnique(sep: char, a: string, x: string, b: string, y: string)
    requires sep !in a && sep !in b && a + [sep] + x == b + [sep] + y
    ensures a == b && x == y
  {
    var s := a + [sep] + x;
    assert s == b + [sep] + y;
    assert s[|a|] == sep && s[|b|] == sep;
    assert (forall i :: 0 <= i < |a| ==> s[i] == a[i]) && (forall i :: 0 <= i < |b| ==> s[i] == b[i]);
    assert a == s[..|a|] && b == s[..|b|];
    assert x == s[|a| + 1..] && y == s[|b| + 1..];
  }

  lemma CutMissing(sep: char, a: string, b: string, y: string)
    requires sep !in a
    ensures a != b + [sep] + y
  {
    assert (b + [sep] + y)[|b|] == sep;
  }

  predicate Lines(chunks: seq<string>) { forall i :: 0 <= i < |chunks| ==> Line(chunks[i]) }

  lemma {:induction false} JoinInjective(a: seq<string>, b: seq<string>)
    requires Lines(a) && Lines(b) && Join(a) == Join(b)
    ensures a == b
  {
    if a == [] || b == [] {
    } else if |a| == 1 && |b| == 1 {
    } else if |a| == 1 {
      CutMissing('\n', a[0], b[0], Join(b[1..]));
    } else if |b| == 1 {
      CutMissing('\n', b[0], a[0], Join(a[1..]));
    } else {
      CutUnique('\n', a[0], Join(a[1..]), b[0], Join(b[1..]));
      JoinInjective(a[1..], b[1..]);
      assert a == [a[0]] + a[1..] && b == [b[0]] + b[1..];
    }
  }

  /** Two requests with the same key ask for the same thing. */
  lemma KeyInjective(p: Params, st: string, nar: string, cs: seq<string>, st': string, nar': string, cs': seq<string>)
    requires Sound(p) && Clean(st) && Clean(nar) && Clean(st') && Clean(nar') && Lines(cs) && Lines(cs')
    requires CacheKey(p, st, nar, cs) == CacheKey(p, st', nar', cs')
    ensures st == st' && nar == nar' && cs == cs'
  {
    var x, x' := nar + "\0" + Join(cs), nar' + "\0" + Join(cs');
    assert Encoded(st, nar, cs) == st + "\0" + x && Encoded(st', nar', cs') == st' + "\0" + x';
    CutUnique('\0', st, x, st', x');
    CutUnique('\0', nar, Join(cs), nar', Join(cs'));
    JoinInjective(cs, cs');
  }

  // ---- the server ----

  datatype Path = Path(storage: string, nar: string, chunks: seq<string>)

  /** Where a registration stands: checking presence, confirming blobs after a cache hit, reading the
      chunks, or through. An adoption checks the presence of the chunks of the path it has read. */
  datatype Phase = Checking(n: nat) | Confirming(n: nat) | Reading(datas: seq<Bytes>) | Proved | Copying(n: nat)

  datatype Request = Request(path: Path, phase: Phase)

  /** A chunk in a storage backend, and a path in a cache. */
  type Chunk = (string, string)
  type PathKey = (int, string)

  datatype State = State(
    blobs: map<Chunk, Bytes>,
    rows: set<Chunk>,
    paths: map<PathKey, Path>,
    requests: map<nat, Request>,
    cache: List<string>)

  datatype Step =
    | Upload(storage: string, data: Bytes)      // verified against its hash, stored, recorded
    | RemoveRow(chunk: Chunk)
    | RemoveBlob(chunk: Chunk)
    | RemovePath(key: PathKey)
    | Begin(id: nat, path: Path)
    | CheckOne(id: nat)
    | Decide(id: nat)                           // consult the settings and the verify cache
    | ConfirmOne(id: nat)
    | ConfirmAll(id: nat)
    | ReadOne(id: nat)
    | Conclude(id: nat)                         // compare the hash of what was read
    | Drop(id: nat)                             // the request fails, for any reason
    | Commit(id: nat, key: PathKey)
    | ReadCandidate(id: nat, source: PathKey, want: string)   // a path with the NAR hash asked for
    | CopyOne(id: nat)                          // one of its chunks has a row

  function Concat(ds: seq<Bytes>): Bytes {
    if ds == [] then [] else ds[0] + Concat(ds[1..])
  }

  function KeyOf(p: Params, x: Path): string { CacheKey(p, x.storage, x.nar, x.chunks) }

  predicate In(s: State, id: nat) { id in s.requests }

  predicate Enabled(p: Params, s: State, a: Step) {
    match a
    case Upload(_, _) => true
    case RemoveRow(_) => true
    case RemoveBlob(_) => true
    case RemovePath(_) => true
    case Begin(id, path) => !In(s, id) && Clean(path.storage) && Clean(path.nar)
    case Drop(id) => In(s, id)
    case Commit(id, _) =>
      In(s, id) && s.requests[id].phase in {Proved, Copying(|s.requests[id].path.chunks|)}
    case ReadCandidate(id, source, want) => !In(s, id) && source in s.paths && s.paths[source].nar == want
    case CopyOne(id) =>
      && In(s, id) && s.requests[id].phase.Copying? && s.requests[id].phase.n < |s.requests[id].path.chunks|
      && (s.requests[id].path.storage, s.requests[id].path.chunks[s.requests[id].phase.n]) in s.rows
    case CheckOne(id) =>
      && In(s, id) && s.requests[id].phase.Checking? && s.requests[id].phase.n < |s.requests[id].path.chunks|
      && (s.requests[id].path.storage, s.requests[id].path.chunks[s.requests[id].phase.n]) in s.rows
    case Decide(id) => In(s, id) && s.requests[id].phase == Checking(|s.requests[id].path.chunks|)
    case ConfirmOne(id) =>
      In(s, id) && s.requests[id].phase.Confirming? && s.requests[id].phase.n < |s.requests[id].path.chunks|
    case ConfirmAll(id) => In(s, id) && s.requests[id].phase == Confirming(|s.requests[id].path.chunks|)
    case ReadOne(id) =>
      && In(s, id) && s.requests[id].phase.Reading? && |s.requests[id].phase.datas| < |s.requests[id].path.chunks|
      && (s.requests[id].path.storage, s.requests[id].path.chunks[|s.requests[id].phase.datas|]) in s.blobs
    case Conclude(id) =>
      && In(s, id) && s.requests[id].phase.Reading? && |s.requests[id].phase.datas| == |s.requests[id].path.chunks|
      && p.narSha(Concat(s.requests[id].phase.datas)) == s.requests[id].path.nar
  }

  function Move(s: State, id: nat, phase: Phase): State
    requires In(s, id)
  {
    s.(requests := s.requests[id := s.requests[id].(phase := phase)])
  }

  function Next(p: Params, s: State, a: Step): State
    requires Enabled(p, s, a)
  {
    match a
    case Upload(st, d) => s.(blobs := s.blobs[(st, p.sha(d)) := d], rows := s.rows + {(st, p.sha(d))})
    case RemoveRow(c) => s.(rows := s.rows - {c})
    case RemoveBlob(c) => s.(blobs := s.blobs - {c})
    case RemovePath(k) => s.(paths := s.paths - {k})
    case Begin(id, path) => s.(requests := s.requests[id := Request(path, Checking(0))])
    case Drop(id) => s.(requests := s.requests - {id})
    case Commit(id, k) => s.(paths := s.paths[k := s.requests[id].path], requests := s.requests - {id})
    case ReadCandidate(id, source, _) => s.(requests := s.requests[id := Request(s.paths[source], Copying(0))])
    case CopyOne(id) => Move(s, id, Copying(s.requests[id].phase.n + 1))
    case CheckOne(id) => Move(s, id, Checking(s.requests[id].phase.n + 1))
    case Decide(id) =>
      var k := KeyOf(p, s.requests[id].path);
      if !p.verify then Move(s, id, Proved)
      else if Has(s.cache, k) then Move(s, id, Confirming(0)).(cache := Touched(s.cache, p.cacheSize, k))
      else Move(s, id, Reading([]))
    case ConfirmOne(id) =>
      var x := s.requests[id];
      Move(s, id, if (x.path.storage, x.path.chunks[x.phase.n]) in s.blobs then Confirming(x.phase.n + 1) else Reading([]))
    case ConfirmAll(id) => Move(s, id, Proved)
    case ReadOne(id) =>
      var x := s.requests[id];
      Move(s, id, Reading(x.phase.datas + [s.blobs[(x.path.storage, x.path.chunks[|x.phase.datas|])]]))
    case Conclude(id) => Move(s, id, Proved).(cache := Touched(s.cache, p.cacheSize, KeyOf(p, s.requests[id].path)))
  }

  predicate Run(p: Params, s: State, steps: seq<Step>)
    decreases |steps|
  {
    steps == [] || (Enabled(p, s, steps[0]) && Run(p, Next(p, s, steps[0]), steps[1..]))
  }

  function Final(p: Params, s: State, steps: seq<Step>): State
    requires Run(p, s, steps)
    decreases |steps|
  {
    if steps == [] then s else Final(p, Next(p, s, steps[0]), steps[1..])
  }

  const EMPTY: State := State(map[], {}, map[], map[], Nil)

  // ---- what every step keeps ----

  predicate HashTo(p: Params, ds: seq<Bytes>, chunks: seq<string>) {
    |ds| == |chunks| && forall i :: 0 <= i < |ds| ==> p.sha(ds[i]) == chunks[i]
  }

  /** The chunk list stands for an archive with the claimed hash. */
  ghost predicate Genuine(p: Params, x: Path) {
    exists ds: seq<Bytes> :: HashTo(p, ds, x.chunks) && p.narSha(Concat(ds)) == x.nar
  }

  ghost predicate WellFormed(x: Path) { Clean(x.storage) && Clean(x.nar) && Lines(x.chunks) }

  ghost predicate RequestOk(p: Params, x: Request) {
    && (x.phase.Copying? || (Clean(x.path.storage) && Clean(x.path.nar)))
    && match x.phase
       case Checking(n) => n <= |x.path.chunks| && Lines(x.path.chunks[..n])
       case Confirming(n) => Lines(x.path.chunks) && Genuine(p, x.path)
       case Reading(ds) =>
         Lines(x.path.chunks) && |ds| <= |x.path.chunks| && HashTo(p, ds, x.path.chunks[..|ds|])
       case Proved => p.verify ==> Genuine(p, x.path)
       case Copying(n) => n <= |x.path.chunks| && (p.verify ==> Genuine(p, x.path))
  }

  ghost predicate KeyOk(p: Params, k: string) {
    exists x: Path :: WellFormed(x) && Genuine(p, x) && k == KeyOf(p, x)
  }

  ghost predicate CacheOk(p: Params, cache: List<string>) {
    forall k :: Has(cache, k) ==> KeyOk(p, k)
  }

  ghost predicate Inv(p: Params, s: State) {
    && (forall c :: c in s.blobs ==> p.sha(s.blobs[c]) == c.1)
    && (forall c :: c in s.rows ==> Line(c.1))
    && CacheOk(p, s.cache)
    && (forall id :: id in s.requests ==> RequestOk(p, s.requests[id]))
    && (p.verify ==> forall k :: k in s.paths ==> Genuine(p, s.paths[k]))
  }

  lemma TouchedKeepsOk(p: Params, cache: List<string>, k: string)
    requires CacheOk(p, cache) && KeyOk(p, k)
    ensures CacheOk(p, Touched(cache, p.cacheSize, k))
  {
    WithoutIs(cache, k);
    TakeDistinct(Cons(k, cache), p.cacheSize);
  }

  /** A key found in the cache was put there for this very chunk list and NAR hash. */
  lemma HitIsGenuine(p: Params, s: State, x: Path)
    requires Sound(p) && Inv(p, s) && WellFormed(x) && Has(s.cache, KeyOf(p, x))
    ensures Genuine(p, x)
  {
    var y: Path :| WellFormed(y) && Genuine(p, y) && KeyOf(p, x) == KeyOf(p, y);
    KeyInjective(p, x.storage, x.nar, x.chunks, y.storage, y.nar, y.chunks);
  }

  /** The step uses the verify cache. */
  predicate Touches(p: Params, s: State, a: Step) {
    match a
    case Conclude(id) => true
    case Decide(id) => p.verify && In(s, id) && Has(s.cache, KeyOf(p, s.requests[id].path))
    case _ => false
  }

  /** The steps of one request. */
  predicate OfRequest(a: Step) {
    a.CheckOne? || a.Decide? || a.ConfirmOne? || a.ConfirmAll? || a.ReadOne? || a.Conclude? || a.CopyOne?
  }

  lemma ReadStepOk(p: Params, s: State, a: Step)
    requires Inv(p, s) && Enabled(p, s, a) && (a.ReadOne? || a.Conclude?)
    ensures RequestOk(p, Next(p, s, a).requests[a.id])
    ensures a.Conclude? ==> KeyOk(p, KeyOf(p, s.requests[a.id].path))
  {
    var x := s.requests[a.id];
    assert RequestOk(p, x);
    var n := |x.phase.datas|;
    if a.ReadOne? {
      assert x.path.chunks[..n + 1] == x.path.chunks[..n] + [x.path.chunks[n]];
    } else {
      assert x.path.chunks[..n] == x.path.chunks;
      assert HashTo(p, x.phase.datas, x.path.chunks);
      assert Genuine(p, x.path);
    }
  }

  lemma RequestStepOk(p: Params, s: State, a: Step)
    requires Sound(p) && Inv(p, s) && Enabled(p, s, a) && OfRequest(a)
    ensures RequestOk(p, Next(p, s, a).requests[a.id])
    ensures Touches(p, s, a) ==> KeyOk(p, KeyOf(p, s.requests[a.id].path))
  {
    if a.ReadOne? || a.Conclude? {
      ReadStepOk(p, s, a);
      return;
    }
    var x := s.requests[a.id];
    assert RequestOk(p, x);
    if a.CheckOne? {
      assert x.path.chunks[..x.phase.n + 1] == x.path.chunks[..x.phase.n] + [x.path.chunks[x.phase.n]];
    } else if a.Decide? {
      assert x.path.chunks[..|x.path.chunks|] == x.path.chunks;
      if Has(s.cache, KeyOf(p, x.path)) { HitIsGenuine(p, s, x.path); }
    }
  }

  lemma CacheKept(p: Params, s: State, a: Step)
    requires Sound(p) && Inv(p, s) && Enabled(p, s, a)
    ensures CacheOk(p, Next(p, s, a).cache)
  {
    if Touches(p, s, a) {
      RequestStepOk(p, s, a);
      TouchedKeepsOk(p, s.cache, KeyOf(p, s.requests[a.id].path));
    }
  }

  lemma RequestStepKeeps(p: Params, s: State, a: Step)
    requires Sound(p) && Inv(p, s) && Enabled(p, s, a) && OfRequest(a)
    ensures Inv(p, Next(p, s, a))
  {
    var s' := Next(p, s, a);
    RequestStepOk(p, s, a);
    CacheKept(p, s, a);
    assert s'.requests == s.requests[a.id := s'.requests[a.id]];
    assert s'.blobs == s.blobs && s'.rows == s.rows && s'.paths == s.paths;
  }

  lemma StepKeeps(p: Params, s: State, a: Step)
    requires Sound(p) && Inv(p, s) && Enabled(p, s, a)
    ensures Inv(p, Next(p, s, a))
  {
    if OfRequest(a) {
      RequestStepKeeps(p, s, a);
    } else if a.Commit? {
      assert RequestOk(p, s.requests[a.id]);
    }
  }

  lemma {:induction false} RunKeeps(p: Params, s: State, steps: seq<Step>)
    requires Sound(p) && Inv(p, s) && Run(p, s, steps)
    ensures Inv(p, Final(p, s, steps))
    decreases |steps|
  {
    if steps == [] {
    } else {
      StepKeeps(p, s, steps[0]);
      RunKeeps(p, Next(p, s, steps[0]), steps[1..]);
    }
  }

  ghost predicate AllGenuine(p: Params) {
    forall steps: seq<Step> :: Run(p, EMPTY, steps) ==>
      forall k :: k in Final(p, EMPTY, steps).paths ==> Genuine(p, Final(p, EMPTY, steps).paths[k])
  }

  /** Every path of every run is genuine exactly when the server verifies; what its cache skips never
      lets another one through. */
  lemma GenuineExactlyWhenVerifying(p: Params)
    requires Sound(p)
    ensures AllGenuine(p) <==> p.verify
  {
    if p.verify {
      forall steps: seq<Step> | Run(p, EMPTY, steps)
        ensures forall k :: k in Final(p, EMPTY, steps).paths ==> Genuine(p, Final(p, EMPTY, steps).paths[k])
      {
        RunKeeps(p, EMPTY, steps);
      }
    } else {
      var steps, x := ForgedRun(p);
      assert !Genuine(p, Final(p, EMPTY, steps).paths[(0, "")]);
    }
  }

  lemma Before(p: Params, s: State, a: Step, s': State, steps: seq<Step>) returns (all: seq<Step>)
    requires Enabled(p, s, a) && Next(p, s, a) == s' && Run(p, s', steps)
    ensures Run(p, s, all) && Final(p, s, all) == Final(p, s', steps)
  {
    all := [a] + steps;
    assert all[1..] == steps;
  }

  /** With verification off, a path with no chunks at all goes in under a hash that is not that of the
      empty archive. */
  lemma ForgedRun(p: Params) returns (steps: seq<Step>, x: Path)
    requires !p.verify
    ensures Run(p, EMPTY, steps) && (0, "") in Final(p, EMPTY, steps).paths
    ensures Final(p, EMPTY, steps).paths[(0, "")] == x && !Genuine(p, x)
  {
    x := Path("", if p.narSha([]) == "a" then "b" else "a", []);
    var s1 := EMPTY.(requests := map[0 := Request(x, Checking(0))]);
    var s2 := EMPTY.(requests := map[0 := Request(x, Proved)]);
    var s3 := EMPTY.(paths := map[(0, "") := x]);
    steps := Before(p, s2, Commit(0, (0, "")), s3, []);
    steps := Before(p, s1, Decide(0), s2, steps);
    steps := Before(p, EMPTY, Begin(0, x), s1, steps);
    forall ds: seq<Bytes> | HashTo(p, ds, x.chunks) ensures p.narSha(Concat(ds)) != x.nar { assert ds == []; }
  }

  // ---- what can be registered ----

  /** Every chunk of the path has a row. */
  predicate Present(s: State, x: Path) {
    forall i :: 0 <= i < |x.chunks| ==> (x.storage, x.chunks[i]) in s.rows
  }

  predicate Stored(s: State, x: Path) {
    forall i :: 0 <= i < |x.chunks| ==> (x.storage, x.chunks[i]) in s.blobs
  }

  function BlobsOf(s: State, x: Path): seq<Bytes>
    requires Stored(s, x)
  {
    seq(|x.chunks|, i requires 0 <= i < |x.chunks| => s.blobs[(x.storage, x.chunks[i])])
  }

  /** The chunks are there, and when the server verifies so are their blobs, which make up an archive
      with the claimed hash. */
  predicate Registrable(p: Params, s: State, x: Path) {
    Present(s, x) && (p.verify ==> Stored(s, x) && p.narSha(Concat(BlobsOf(s, x))) == x.nar)
  }

  /** A step the request makes by itself, short of its commit. */
  predicate OwnStep(a: Step, id: nat) { OfRequest(a) && a.id == id }

  /** The request is on its way, and can go on as long as nobody interferes. */
  predicate OnTrack(p: Params, s: State, id: nat) {
    && In(s, id)
    && var x := s.requests[id].path;
       match s.requests[id].phase
       case Checking(n) => Registrable(p, s, x) && n <= |x.chunks|
       case Confirming(n) => Registrable(p, s, x) && p.verify && n <= |x.chunks|
       case Reading(ds) =>
         Registrable(p, s, x) && p.verify && |ds| <= |x.chunks| && ds == BlobsOf(s, x)[..|ds|]
       case Proved => true
       case Copying(n) => Present(s, x) && n <= |x.chunks|
  }

  function StepsLeft(s: State, id: nat): int
    requires In(s, id)
  {
    var l := |s.requests[id].path.chunks|;
    match s.requests[id].phase
    case Checking(n) => 2 * l + 3 - n
    case Confirming(n) => l + 1 - n
    case Reading(ds) => l + 1 - |ds|
    case Proved => 0
    case Copying(n) => l - n
  }

  /** The request's next step, if it is not yet to commit. */
  function OwnNext(s: State, id: nat): Option<Step>
    requires In(s, id)
  {
    var l := |s.requests[id].path.chunks|;
    match s.requests[id].phase
    case Checking(n) => Some(if n < l then CheckOne(id) else Decide(id))
    case Confirming(n) => Some(if n < l then ConfirmOne(id) else ConfirmAll(id))
    case Reading(ds) => Some(if |ds| < l then ReadOne(id) else Conclude(id))
    case Proved => None
    case Copying(n) => if n < l then Some(CopyOne(id)) else None
  }

  lemma OwnNextOnTrack(p: Params, s: State, id: nat)
    requires OnTrack(p, s, id) && OwnNext(s, id).Some?
    ensures Enabled(p, s, OwnNext(s, id).value) && OnTrack(p, Next(p, s, OwnNext(s, id).value), id)
    ensures StepsLeft(s, id) > 0 && StepsLeft(Next(p, s, OwnNext(s, id).value), id) < StepsLeft(s, id)
    ensures OwnStep(OwnNext(s, id).value, id)
  {
    var x := s.requests[id];
    if x.phase.Reading? {
      var n := |x.phase.datas|;
      if n < |x.path.chunks| {
        assert BlobsOf(s, x.path)[..n + 1] == BlobsOf(s, x.path)[..n] + [BlobsOf(s, x.path)[n]];
      } else {
        assert BlobsOf(s, x.path)[..n] == BlobsOf(s, x.path);
      }
    }
  }

  /** A request on track registers its path, whether the verify cache answers for it or not. */
  lemma {:induction false} Arrives(p: Params, s: State, id: nat, key: PathKey) returns (steps: seq<Step>)
    requires OnTrack(p, s, id)
    ensures forall k :: 0 <= k < |steps| ==> OwnStep(steps[k], id)
    ensures Run(p, s, steps + [Commit(id, key)])
    ensures Final(p, s, steps + [Commit(id, key)]).paths == s.paths[key := s.requests[id].path]
    decreases StepsLeft(s, id)
  {
    if OwnNext(s, id).None? {
      assert Enabled(p, s, Commit(id, key));
      var all := Before(p, s, Commit(id, key), Next(p, s, Commit(id, key)), []);
      steps := [];
      assert steps + [Commit(id, key)] == [Commit(id, key)];
      assert [Commit(id, key)][1..] == [];
    } else {
      var a := OwnNext(s, id).value;
      OwnNextOnTrack(p, s, id);
      var rest := Arrives(p, Next(p, s, a), id, key);
      steps := [a] + rest;
      Uncons(p, s, a, rest, Commit(id, key));
    }
  }

  lemma Uncons(p: Params, s: State, a: Step, rest: seq<Step>, last: Step)
    requires Enabled(p, s, a) && Run(p, Next(p, s, a), rest + [last])
    ensures Run(p, s, [a] + rest + [last]) && Final(p, s, [a] + rest + [last]) == Final(p, Next(p, s, a), rest + [last])
  {
    assert ([a] + rest + [last])[1..] == rest + [last];
  }

  /** Where a request stands when nobody interferes with it. */
  ghost predicate Came(p: Params, s: State, id: nat, x: Path) {
    && In(s, id) && s.requests[id].path == x
    && match s.requests[id].phase
       case Checking(n) => n <= |x.chunks| && forall i :: 0 <= i < n ==> (x.storage, x.chunks[i]) in s.rows
       case Confirming(n) =>
         Present(s, x) && n <= |x.chunks| && forall i :: 0 <= i < n ==> (x.storage, x.chunks[i]) in s.blobs
       case Reading(ds) =>
         && Present(s, x) && |ds| <= |x.chunks|
         && forall i :: 0 <= i < |ds| ==> (x.storage, x.chunks[i]) in s.blobs && s.blobs[(x.storage, x.chunks[i])] == ds[i]
       case Proved => Registrable(p, s, x)
       case Copying(_) => false
  }

  /** Blobs whose hashes make up a genuine path are its archive. */
  lemma GenuineBlobs(p: Params, s: State, x: Path)
    requires Sound(p) && Inv(p, s) && Genuine(p, x) && Stored(s, x)
    ensures p.narSha(Concat(BlobsOf(s, x))) == x.nar
  {
    var ds: seq<Bytes> :| HashTo(p, ds, x.chunks) && p.narSha(Concat(ds)) == x.nar;
    forall i | 0 <= i < |ds| ensures ds[i] == BlobsOf(s, x)[i] {
      assert p.sha(s.blobs[(x.storage, x.chunks[i])]) == x.chunks[i] == p.sha(ds[i]);
    }
    assert ds == BlobsOf(s, x);
  }

  lemma CameRead(p: Params, s: State, a: Step, id: nat, x: Path)
    requires Came(p, s, id, x) && Enabled(p, s, a) && (a.ReadOne? || a.Conclude?) && a.id == id
    ensures Came(p, Next(p, s, a), id, x)
  {
    if a.Conclude? { assert s.requests[id].phase.datas == BlobsOf(s, x); }
  }

  lemma CameConfirmed(p: Params, s: State, a: Step, id: nat, x: Path)
    requires Sound(p) && Inv(p, s) && Came(p, s, id, x) && Enabled(p, s, a) && (a.ConfirmOne? || a.ConfirmAll?) && a.id == id
    ensures Came(p, Next(p, s, a), id, x)
  {
    if a.ConfirmAll? {
      assert RequestOk(p, s.requests[id]);
      GenuineBlobs(p, s, x);
    }
  }

  lemma CameStep(p: Params, s: State, a: Step, id: nat, x: Path)
    requires Sound(p) && Inv(p, s) && Came(p, s, id, x) && Enabled(p, s, a) && OwnStep(a, id)
    ensures Came(p, Next(p, s, a), id, x)
    ensures Next(p, s, a).rows == s.rows && Next(p, s, a).blobs == s.blobs
  {
    if a.ConfirmOne? || a.ConfirmAll? {
      CameConfirmed(p, s, a, id, x);
    } else if a.ReadOne? || a.Conclude? {
      CameRead(p, s, a, id, x);
    }
  }

  lemma {:induction false} CameRun(p: Params, s: State, steps: seq<Step>, id: nat, x: Path, key: PathKey)
    requires Sound(p) && Inv(p, s) && Came(p, s, id, x) && Run(p, s, steps + [Commit(id, key)])
    requires forall k :: 0 <= k < |steps| ==> OwnStep(steps[k], id)
    ensures Registrable(p, s, x)
    decreases |steps|
  {
    var all := steps + [Commit(id, key)];
    if steps == [] {
      assert Enabled(p, s, all[0]);
    } else {
      assert all[0] == steps[0] && all[1..] == steps[1..] + [Commit(id, key)];
      CameStep(p, s, steps[0], id, x);
      StepKeeps(p, s, steps[0]);
      CameRun(p, Next(p, s, steps[0]), steps[1..], id, x, key);
    }
  }

  /** In every reachable state a new request that nobody interferes with can register its path exactly
      when the path can be registered; and then it does. */
  lemma RegistersExactlyWhenItCan(p: Params, before: seq<Step>, id: nat, x: Path, key: PathKey)
    requires Sound(p) && Run(p, EMPTY, before) && Clean(x.storage) && Clean(x.nar)
    requires !In(Final(p, EMPTY, before), id)
    ensures var s := Final(p, EMPTY, before); var s' := Next(p, s, Begin(id, x));
            Registrable(p, s, x) <==>
              exists steps: seq<Step> ::
                && (forall k :: 0 <= k < |steps| ==> OwnStep(steps[k], id))
                && Run(p, s', steps + [Commit(id, key)])
                && Final(p, s', steps + [Commit(id, key)]).paths == s.paths[key := x]
  {
    var s := Final(p, EMPTY, before);
    var s' := Next(p, s, Begin(id, x));
    RunKeeps(p, EMPTY, before);
    StepKeeps(p, s, Begin(id, x));
    if Registrable(p, s, x) {
      var steps := Arrives(p, s', id, key);
    }
    forall steps: seq<Step> | (forall k :: 0 <= k < |steps| ==> OwnStep(steps[k], id)) && Run(p, s', steps + [Commit(id, key)])
      ensures Registrable(p, s, x)
    {
      CameRun(p, s', steps, id, x, key);
    }
  }

  function Hashed(p: Params, datas: seq<Bytes>): seq<string> {
    seq(|datas|, i requires 0 <= i < |datas| => p.sha(datas[i]))
  }

  function Uploads(storage: string, datas: seq<Bytes>): seq<Step> {
    seq(|datas|, i requires 0 <= i < |datas| => Upload(storage, datas[i]))
  }

  lemma {:induction false} UploadsStore(p: Params, s: State, storage: string, datas: seq<Bytes>)
    requires Sound(p)
    ensures Run(p, s, Uploads(storage, datas))
    ensures var s' := Final(p, s, Uploads(storage, datas));
            && (forall i :: 0 <= i < |datas| ==>
                  (storage, p.sha(datas[i])) in s'.rows && (storage, p.sha(datas[i])) in s'.blobs
                  && s'.blobs[(storage, p.sha(datas[i]))] == datas[i])
            && (forall c :: c in s.rows ==> c in s'.rows)
            && (forall c :: c in s.blobs && p.sha(s.blobs[c]) == c.1 ==> c in s'.blobs && s'.blobs[c] == s.blobs[c])
    decreases |datas|
  {
    if datas == [] {
    } else {
      var a := Upload(storage, datas[0]);
      assert Uploads(storage, datas)[1..] == Uploads(storage, datas[1..]);
      UploadsStore(p, Next(p, s, a), storage, datas[1..]);
      forall i | 1 <= i < |datas| ensures datas[i] == datas[1..][i - 1] {}
    }
  }

  /** Once its chunks are uploaded, in whatever state of the server, the path they make up can be
      registered. */
  lemma UploadedIsRegistrable(p: Params, s: State, storage: string, datas: seq<Bytes>)
    requires Sound(p)
    ensures Run(p, s, Uploads(storage, datas))
    ensures Registrable(p, Final(p, s, Uploads(storage, datas)),
                        Path(storage, p.narSha(Concat(datas)), Hashed(p, datas)))
  {
    UploadsStore(p, s, storage, datas);
    var x := Path(storage, p.narSha(Concat(datas)), Hashed(p, datas));
    assert Stored(Final(p, s, Uploads(storage, datas)), x);
    assert BlobsOf(Final(p, s, Uploads(storage, datas)), x) == datas;
  }

  /** A path another cache has is adopted when its chunks all have rows. */
  lemma AdoptsWhenItCan(p: Params, s: State, id: nat, source: PathKey, key: PathKey) returns (steps: seq<Step>)
    requires !In(s, id) && source in s.paths && Present(s, s.paths[source])
    ensures var s' := Next(p, s, ReadCandidate(id, source, s.paths[source].nar));
            && Run(p, s', steps + [Commit(id, key)])
            && Final(p, s', steps + [Commit(id, key)]).paths == s.paths[key := s.paths[source]]
  {
    steps := Arrives(p, Next(p, s, ReadCandidate(id, source, s.paths[source].nar)), id, key);
  }

  /** Rows, blobs and paths may go at any moment, and any request fail. */
  lemma AnyMoment(p: Params, s: State, c: Chunk, key: PathKey, id: nat)
    ensures Enabled(p, s, RemoveRow(c)) && Next(p, s, RemoveRow(c)) == s.(rows := s.rows - {c})
    ensures Enabled(p, s, RemoveBlob(c)) && Next(p, s, RemoveBlob(c)) == s.(blobs := s.blobs - {c})
    ensures Enabled(p, s, RemovePath(key)) && Next(p, s, RemovePath(key)) == s.(paths := s.paths - {key})
    ensures In(s, id) ==> Enabled(p, s, Drop(id)) && Next(p, s, Drop(id)) == s.(requests := s.requests - {id})
  {
  }
}
