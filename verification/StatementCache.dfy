/** The per-connection cache of prepared statements: a recency list and a map over the same
    statements. A statement evicted while checked out is closed by its release. */
module StatementCache {
  import opened Common

  const CACHE_SIZE: nat := 256

  /** One prepared statement; closes counts the Close calls its driver statement has had. */
  datatype Stmt = Stmt(query: string, busy: bool, evicted: bool, closes: nat)

  /** Statements are known by the order they were prepared in. */
  type Handle = nat

  datatype Cache = Cache(
    lru: seq<Handle>,              // front = most recently used
    byQuery: map<string, Handle>,
    stmts: seq<Stmt>,              // every statement ever prepared on the connection
    shut: bool)

  datatype Outcome = Unavailable | Got(handle: Handle) | Failed

  /** What the driver does when asked: prepare the statement or not, and close the victim cleanly or
      with an error. */
  datatype Driver = Driver(prepares: bool, closeFails: bool)

  datatype Op = Acquire(query: string, driver: Driver) | Release(handle: Handle) | Shut

  /** The list without one element. */
  function Without(s: seq<Handle>, x: Handle): seq<Handle> {
    if s == [] then [] else if s[0] == x then s[1..] else [s[0]] + Without(s[1..], x)
  }

  lemma {:induction false} WithoutIs(s: seq<Handle>, x: Handle)
    requires NoRepeats(s)
    ensures NoRepeats(Without(s, x))
    ensures forall y :: y in Without(s, x) <==> y in s && y != x
    ensures |Without(s, x)| == |s| - (if x in s then 1 else 0)
  {
    if s == [] {
    } else {
      WithoutIs(s[1..], x);
      assert s[0] !in s[1..];
      assert s == [s[0]] + s[1..];
    }
  }

  // ---- the three states of a statement ----

  predicate Listed(c: Cache, h: Handle)
    requires h < |c.stmts|
  {
    var s := c.stmts[h];
    h in c.lru && s.query in c.byQuery && c.byQuery[s.query] == h && !s.evicted && s.closes == 0
  }

  /** Evicted while checked out, and waiting for its release. */
  predicate Detached(c: Cache, h: Handle)
    requires h < |c.stmts|
  {
    var s := c.stmts[h];
    h !in c.lru && s.evicted && s.busy && s.closes == 0
  }

  /** Closed, once. Only shutting the connection closes a statement that is checked out. */
  predicate Closed(c: Cache, h: Handle)
    requires h < |c.stmts|
  {
    var s := c.stmts[h];
    h !in c.lru && s.closes == 1 && (s.busy ==> c.shut && !s.evicted)
  }

  predicate Indexed(c: Cache) {
    && NoRepeats(c.lru)
    && (forall i :: 0 <= i < |c.lru| ==> c.lru[i] < |c.stmts|)
    && (forall q :: q in c.byQuery ==> c.byQuery[q] in c.lru && c.byQuery[q] < |c.stmts| && c.stmts[c.byQuery[q]].query == q)
    && (forall h: Handle :: h < |c.stmts| ==> Listed(c, h) || Detached(c, h) || Closed(c, h))
  }

  predicate Valid(c: Cache) {
    Indexed(c) && |c.lru| <= CACHE_SIZE && (c.shut ==> c.lru == [])
  }

  // ---- the operations ----

  /** Takes the last statement off the list; closes it unless somebody has it checked out. */
  function Evict(c: Cache): Cache
    requires c.lru != [] && c.lru[|c.lru| - 1] < |c.stmts|
  {
    var h := c.lru[|c.lru| - 1];
    var s := c.stmts[h];
    c.(lru := c.lru[..|c.lru| - 1],
       byQuery := c.byQuery - {s.query},
       stmts := c.stmts[h := if s.busy then s.(evicted := true) else s.(closes := s.closes + 1)])
  }

  /** Gives a statement back; one evicted meanwhile is closed now. */
  function Released(c: Cache, h: Handle): Cache
    requires h < |c.stmts|
  {
    var s := c.stmts[h];
    c.(stmts := c.stmts[h := s.(busy := false, closes := s.closes + if s.evicted then 1 else 0)])
  }

  /** Prepares a statement and puts it in front. */
  function Added(c: Cache, query: string): Cache {
    c.(lru := [|c.stmts|] + c.lru,
       byQuery := c.byQuery[query := |c.stmts|],
       stmts := c.stmts + [Stmt(query, true, false, 0)])
  }

  function Acquired(c: Cache, query: string, d: Driver): (Cache, Outcome)
    requires Valid(c)
  {
    if query in c.byQuery then
      var h := c.byQuery[query];
      if c.stmts[h].busy then (c, Unavailable)
      else (c.(lru := [h] + Without(c.lru, h), stmts := c.stmts[h := c.stmts[h].(busy := true)]), Got(h))
    else if !d.prepares then (c, Failed)
    else
      var h, c1 := |c.stmts|, Added(c, query);
      if |c1.lru| <= CACHE_SIZE then (c1, Got(h))
      else if d.closeFails && !c1.stmts[c1.lru[|c1.lru| - 1]].busy then (Released(Evict(c1), h), Failed)
      else (Evict(c1), Got(h))
  }

  /** Closes every listed statement, checked out or not. */
  function ShutDown(c: Cache): Cache {
    Cache([], map[],
          seq(|c.stmts|, h requires 0 <= h < |c.stmts| =>
            if h in c.lru then c.stmts[h].(closes := c.stmts[h].closes + 1) else c.stmts[h]),
          true)
  }

  predicate Enabled(c: Cache, op: Op) {
    match op
    case Acquire(_, _) => !c.shut
    case Release(h) => h < |c.stmts| && c.stmts[h].busy
    case Shut => !c.shut
  }

  function Next(c: Cache, op: Op): Cache
    requires Valid(c) && Enabled(c, op)
  {
    match op
    case Acquire(query, d) => Acquired(c, query, d).0
    case Release(h) => Released(c, h)
    case Shut => ShutDown(c)
  }

  // ---- every run ----

  lemma AddedIndexed(c: Cache, query: string)
    requires Valid(c) && !c.shut && query !in c.byQuery
    ensures Indexed(Added(c, query))
  {
    var c1 := Added(c, query);
    forall h: Handle | h < |c1.stmts| ensures Listed(c1, h) || Detached(c1, h) || Closed(c1, h) {
      if h < |c.stmts| { assert Listed(c, h) || Detached(c, h) || Closed(c, h); }
    }
  }

  lemma EvictIndexed(c: Cache)
    requires Indexed(c) && c.lru != []
    ensures Indexed(Evict(c))
  {
    var c1, v := Evict(c), c.lru[|c.lru| - 1];
    assert Listed(c, v);
    forall h: Handle | h < |c1.stmts| ensures Listed(c1, h) || Detached(c1, h) || Closed(c1, h) {
      assert Listed(c, h) || Detached(c, h) || Closed(c, h);
      assert h in c.lru && h != v ==> h in c1.lru;
    }
    forall q | q in c1.byQuery ensures c1.byQuery[q] in c1.lru {
      assert c.byQuery[q] in c.lru;
    }
  }

  lemma ReleasedIndexed(c: Cache, h: Handle)
    requires Indexed(c) && h < |c.stmts| && c.stmts[h].busy
    ensures Indexed(Released(c, h))
  {
    var c1 := Released(c, h);
    forall g: Handle | g < |c1.stmts| ensures Listed(c1, g) || Detached(c1, g) || Closed(c1, g) {
      assert Listed(c, g) || Detached(c, g) || Closed(c, g);
    }
  }

  lemma HitIndexed(c: Cache, query: string, d: Driver)
    requires Valid(c) && !c.shut && query in c.byQuery
    ensures Valid(Acquired(c, query, d).0)
  {
    var h, c1 := c.byQuery[query], Acquired(c, query, d).0;
    WithoutIs(c.lru, h);
    forall i | 0 <= i < |c1.lru| ensures c1.lru[i] < |c1.stmts| {
      assert c1.lru[i] in c1.lru && c1.lru[i] in c.lru;
    }
    forall g: Handle | g < |c1.stmts| ensures Listed(c1, g) || Detached(c1, g) || Closed(c1, g) {
      assert Listed(c, g) || Detached(c, g) || Closed(c, g);
    }
  }

  lemma ShutIndexed(c: Cache)
    requires Valid(c)
    ensures Valid(ShutDown(c))
  {
    var c1 := ShutDown(c);
    forall g: Handle | g < |c1.stmts| ensures Closed(c1, g) || Detached(c1, g) {
      assert Listed(c, g) || Detached(c, g) || Closed(c, g);
    }
  }

  lemma MissValid(c: Cache, query: string, d: Driver)
    requires Valid(c) && !c.shut && query !in c.byQuery && d.prepares
    ensures Valid(Acquired(c, query, d).0)
  {
    AddedIndexed(c, query);
    var c1 := Added(c, query);
    if |c1.lru| > CACHE_SIZE {
      EvictIndexed(c1);
      if d.closeFails && !c1.stmts[c1.lru[|c1.lru| - 1]].busy { ReleasedIndexed(Evict(c1), |c.stmts|); }
    }
  }

  lemma StepValid(c: Cache, op: Op)
    requires Valid(c) && Enabled(c, op)
    ensures Valid(Next(c, op))
  {
    match op
    case Release(h) => ReleasedIndexed(c, h);
    case Shut => ShutIndexed(c);
    case Acquire(query, d) =>
      if query in c.byQuery { HitIndexed(c, query, d); } else if d.prepares { MissValid(c, query, d); }
  }

  predicate Run(c: Cache, ops: seq<Op>)
    requires Valid(c)
    decreases |ops|
  {
    ops == [] || (Enabled(c, ops[0]) && (StepValid(c, ops[0]); Run(Next(c, ops[0]), ops[1..])))
  }

  function Final(c: Cache, ops: seq<Op>): (r: Cache)
    requires Valid(c) && Run(c, ops)
    ensures Valid(r)
    decreases |ops|
  {
    if ops == [] then c else
    StepValid(c, ops[0]);
    Final(Next(c, ops[0]), ops[1..])
  }

  const EMPTY: Cache := Cache([], map[], [], false)

  /** In every run each statement ever prepared is in exactly one of the three states, and at most
      256 are listed. */
  lemma ExactlyOneState(ops: seq<Op>, h: Handle)
    requires Run(EMPTY, ops) && h < |Final(EMPTY, ops).stmts|
    ensures var c := Final(EMPTY, ops);
            && (Listed(c, h) || Detached(c, h) || Closed(c, h))
            && !(Listed(c, h) && Detached(c, h)) && !(Listed(c, h) && Closed(c, h)) && !(Detached(c, h) && Closed(c, h))
            && |c.lru| <= 256
  {
  }

  /** Once the connection is shut and everything has been given back, every statement ever prepared
      has been closed exactly once. */
  lemma ClosedExactlyOnce(ops: seq<Op>)
    requires Run(EMPTY, ops)
    requires var c := Final(EMPTY, ops); c.shut && forall h: Handle :: h < |c.stmts| ==> !c.stmts[h].busy
    ensures forall h: Handle :: h < |Final(EMPTY, ops).stmts| ==> Final(EMPTY, ops).stmts[h].closes == 1
  {
    var c := Final(EMPTY, ops);
    forall h: Handle | h < |c.stmts| ensures c.stmts[h].closes == 1 {
      assert Listed(c, h) || Detached(c, h) || Closed(c, h);
    }
  }

  /** One step leaves a checked-out statement alone, unless it gives that statement back or shuts
      the connection. */
  lemma StepLeavesCheckedOut(c: Cache, op: Op, h: Handle)
    requires Valid(c) && Enabled(c, op) && h < |c.stmts| && c.stmts[h].busy && c.stmts[h].closes == 0
    requires op != Release(h) && op != Shut
    ensures var c' := Next(c, op);
            h < |c'.stmts| && c'.stmts[h] in {c.stmts[h], c.stmts[h].(evicted := true)}
  {
  }

  /** A checked-out statement stays open, and its own, through every run in which nobody gives it
      back and the connection is not shut, however many other statements come and go. */
  lemma {:induction false} OpenUntilGivenBack(c: Cache, ops: seq<Op>, h: Handle)
    requires Valid(c) && Run(c, ops) && h < |c.stmts| && c.stmts[h].busy && c.stmts[h].closes == 0
    requires Release(h) !in ops && Shut !in ops
    ensures var c' := Final(c, ops);
            h < |c'.stmts| && c'.stmts[h] in {c.stmts[h], c.stmts[h].(evicted := true)}
    decreases |ops|
  {
    if ops == [] {
    } else {
      StepValid(c, ops[0]);
      StepLeavesCheckedOut(c, ops[0], h);
      OpenUntilGivenBack(Next(c, ops[0]), ops[1..], h);
    }
  }

  /** A statement handed out by acquire is open, checked out to nobody else, and for that query. */
  lemma GotIsExclusive(c: Cache, query: string, d: Driver)
    requires Valid(c) && !c.shut && Acquired(c, query, d).1.Got?
    ensures var (c', o) := Acquired(c, query, d);
            && o.handle < |c'.stmts| && c'.stmts[o.handle] == Stmt(query, true, false, 0)
            && (o.handle < |c.stmts| ==> !c.stmts[o.handle].busy)
            && c'.lru != [] && c'.lru[0] == o.handle
  {
    if query in c.byQuery { assert Listed(c, c.byQuery[query]); }
  }

  /** A listed statement is handed out as it is, unless somebody has it, and then nothing is; nothing is
      prepared, and nothing leaves the list. */
  lemma HitIsHandedOut(c: Cache, h: Handle, d: Driver)
    requires Valid(c) && !c.shut && h in c.lru && h < |c.stmts|
    ensures var (c', o) := Acquired(c, c.stmts[h].query, d);
            if c.stmts[h].busy then (c', o) == (c, Unavailable)
            else o == Got(h) && |c'.stmts| == |c.stmts| && (forall g :: g in c'.lru <==> g in c.lru)
  {
    assert Listed(c, h);
    WithoutIs(c.lru, h);
  }

  /** For any other query a new statement is prepared and handed out, unless preparing it fails, and then
      nothing happens, or closing the one it displaces does. */
  lemma MissPrepares(c: Cache, query: string, d: Driver)
    requires Valid(c) && !c.shut && forall h: Handle :: h in c.lru && h < |c.stmts| ==> c.stmts[h].query != query
    ensures var (c', o) := Acquired(c, query, d);
            if !d.prepares then (c', o) == (c, Failed)
            else
              && |c'.stmts| == |c.stmts| + 1 && c'.stmts[|c.stmts|].query == query
              && c'.lru != [] && c'.lru[0] == |c.stmts|
              && o == (if |c.lru| == 256 && d.closeFails && !c.stmts[c.lru[255]].busy then Failed else Got(|c.stmts|))
  {
    assert query !in c.byQuery;
    var c1 := Added(c, query);
    if |c.lru| == 256 { assert c1.lru[256] == c.lru[255] < |c.stmts|; }
  }

  // ---- the order of the list ----

  /** Where an element stands last in a list, or -1. */
  function LastIn(log: seq<Handle>, h: Handle): int {
    if log == [] then -1 else if log[|log| - 1] == h then |log| - 1 else LastIn(log[..|log| - 1], h)
  }

  lemma {:induction false} LastInIs(log: seq<Handle>, h: Handle)
    ensures -1 <= LastIn(log, h) < |log|
    ensures LastIn(log, h) >= 0 ==> log[LastIn(log, h)] == h
    ensures forall i :: LastIn(log, h) < i < |log| ==> log[i] != h
  {
    if log == [] {
    } else {
      LastInIs(log[..|log| - 1], h);
    }
  }

  lemma LastInSnoc(log: seq<Handle>, x: Handle, h: Handle)
    ensures LastIn(log + [x], h) == if x == h then |log| else LastIn(log, h)
  {
    assert (log + [x])[..|log|] == log;
  }

  /** The later in the log, the nearer the front. */
  ghost predicate ByUse(lru: seq<Handle>, log: seq<Handle>) {
    forall i, j :: 0 <= i < j < |lru| ==> LastIn(log, lru[i]) > LastIn(log, lru[j])
  }

  lemma {:induction false} WithoutByUse(lru: seq<Handle>, x: Handle, log: seq<Handle>)
    requires ByUse(lru, log) && NoRepeats(lru)
    ensures ByUse(Without(lru, x), log)
  {
    if lru == [] || lru[0] == x {
    } else {
      var rest := Without(lru[1..], x);
      WithoutByUse(lru[1..], x, log);
      WithoutIs(lru[1..], x);
      forall j | 0 <= j < |rest| ensures LastIn(log, lru[0]) > LastIn(log, rest[j]) {
        assert rest[j] in rest;
        var k :| 0 <= k < |lru[1..]| && lru[1..][k] == rest[j];
        assert lru[k + 1] == rest[j];
      }
    }
  }

  lemma FrontByUse(lru: seq<Handle>, h: Handle, log: seq<Handle>)
    requires ByUse(lru, log) && h !in lru
    ensures ByUse([h] + lru, log + [h])
  {
    var all := [h] + lru;
    LastInSnoc(log, h, h);
    forall i | 0 <= i < |lru| ensures LastIn(log + [h], lru[i]) == LastIn(log, lru[i]) < |log| {
      LastInSnoc(log, h, lru[i]);
      LastInIs(log, lru[i]);
    }
    forall i, j | 0 <= i < j < |all| ensures LastIn(log + [h], all[i]) > LastIn(log + [h], all[j]) {
      assert all[j] == lru[j - 1];
      if i > 0 { assert all[i] == lru[i - 1]; }
    }
  }

  /** The statement a step uses: the one handed out, or the one prepared and given back. */
  function Used(c: Cache, op: Op): seq<Handle>
    requires Valid(c) && Enabled(c, op)
  {
    if !op.Acquire? then []
    else
      var (c', o) := Acquired(c, op.query, op.driver);
      if o.Got? then [o.handle] else if |c'.stmts| > |c.stmts| then [|c.stmts|] else []
  }

  /** The statements a run uses, in order. */
  function Uses(c: Cache, ops: seq<Op>): seq<Handle>
    requires Valid(c) && Run(c, ops)
    decreases |ops|
  {
    if ops == [] then []
    else
      StepValid(c, ops[0]);
      Used(c, ops[0]) + Uses(Next(c, ops[0]), ops[1..])
  }

  lemma StepByUse(c: Cache, op: Op, log: seq<Handle>)
    requires Valid(c) && Enabled(c, op) && ByUse(c.lru, log)
    ensures ByUse(Next(c, op).lru, log + Used(c, op))
  {
    Nothing(log);
    if op.Acquire? {
      if op.query in c.byQuery {
        var h := c.byQuery[op.query];
        WithoutIs(c.lru, h);
        WithoutByUse(c.lru, h, log);
        FrontByUse(Without(c.lru, h), h, log);
      } else if op.driver.prepares {
        assert |c.stmts| !in c.lru;
        FrontByUse(c.lru, |c.stmts|, log);
      }
    }
  }

  lemma {:induction false} RunByUse(c: Cache, ops: seq<Op>, log: seq<Handle>)
    requires Valid(c) && Run(c, ops) && ByUse(c.lru, log)
    ensures ByUse(Final(c, ops).lru, log + Uses(c, ops))
    decreases |ops|
  {
    if ops == [] {
      Nothing(log);
    } else {
      StepValid(c, ops[0]);
      StepByUse(c, ops[0], log);
      RunByUse(Next(c, ops[0]), ops[1..], log + Used(c, ops[0]));
      Reassociate(log, Used(c, ops[0]), Uses(Next(c, ops[0]), ops[1..]));
    }
  }

  /** In every run the list is in the order of latest use. */
  lemma MostRecentFirst(ops: seq<Op>)
    requires Run(EMPTY, ops)
    ensures ByUse(Final(EMPTY, ops).lru, Uses(EMPTY, ops))
  {
    RunByUse(EMPTY, ops, []);
    Nothing(Uses(EMPTY, ops));
  }

  /** What the end of a list in order of use gives up was used before the rest of it. */
  lemma LastIsOldest(lru: seq<Handle>, log: seq<Handle>, h: Handle, g: Handle)
    requires ByUse(lru, log) && lru != [] && h in lru && h !in lru[..|lru| - 1] && g in lru[..|lru| - 1]
    ensures LastIn(log, h) < LastIn(log, g)
  {
    assert lru == lru[..|lru| - 1] + [lru[|lru| - 1]];
    var k :| 0 <= k < |lru| - 1 && lru[..|lru| - 1][k] == g;
    assert lru[k] == g;
  }

  /** Only preparing a statement for a full list displaces one. */
  lemma DisplacedWhen(c: Cache, op: Op, h: Handle)
    requires Valid(c) && Enabled(c, op) && op.Acquire? && h in c.lru && h !in Next(c, op).lru
    ensures |c.lru| == 256 && op.query !in c.byQuery && Used(c, op) == [|c.stmts|]
    ensures Next(c, op).lru == ([|c.stmts|] + c.lru)[..256]
  {
    if op.query in c.byQuery { WithoutIs(c.lru, c.byQuery[op.query]); }
  }

  /** What an acquire displaces was used before everything it leaves. */
  lemma DisplacedIsOldest(ops: seq<Op>, op: Op, h: Handle, g: Handle)
    requires Run(EMPTY, ops) && op.Acquire? && Enabled(Final(EMPTY, ops), op)
    requires var c := Final(EMPTY, ops); h in c.lru && h !in Next(c, op).lru && g in Next(c, op).lru
    ensures |Final(EMPTY, ops).lru| == 256
    ensures var log := Uses(EMPTY, ops) + Used(Final(EMPTY, ops), op); LastIn(log, h) < LastIn(log, g)
  {
    var c, log := Final(EMPTY, ops), Uses(EMPTY, ops);
    MostRecentFirst(ops);
    DisplacedWhen(c, op, h);
    assert |c.stmts| !in c.lru;
    FrontByUse(c.lru, |c.stmts|, log);
    LastIsOldest([|c.stmts|] + c.lru, log + [|c.stmts|], h, g);
  }

  // ---- the connection object ----

  class StmtConn {
    var lru: seq<Handle>
    var byQuery: map<string, Handle>
    var stmts: seq<Stmt>
    var shut: bool

    function View(): Cache reads this { Cache(lru, byQuery, stmts, shut) }

    constructor ()
      ensures View() == EMPTY
    {
      lru, byQuery, stmts, shut := [], map[], [], false;
    }

    method DoEvict(closeFails: bool) returns (err: bool)
      requires lru != [] && lru[|lru| - 1] < |stmts|
      modifies this
      ensures View() == Evict(old(View()))
      ensures err == (closeFails && !old(stmts[lru[|lru| - 1]].busy))
    {
      var h := lru[|lru| - 1];
      lru := lru[..|lru| - 1];
      byQuery := byQuery - {stmts[h].query};
      if stmts[h].busy {
        stmts := stmts[h := stmts[h].(evicted := true)];
        return false;
      }
      stmts := stmts[h := stmts[h].(closes := stmts[h].closes + 1)];
      return closeFails;
    }

    method DoRelease(h: Handle)
      requires h < |stmts|
      modifies this
      ensures View() == Released(old(View()), h)
    {
      stmts := stmts[h := stmts[h].(busy := false)];
      if stmts[h].evicted {
        stmts := stmts[h := stmts[h].(closes := stmts[h].closes + 1)];
      }
    }

    method DoAcquire(query: string, d: Driver) returns (o: Outcome)
      requires Valid(View()) && !shut
      modifies this
      ensures (View(), o) == Acquired(old(View()), query, d)
      ensures Valid(View())
    {
      StepValid(View(), Acquire(query, d));
      if query in byQuery {
        var h := byQuery[query];
        if stmts[h].busy { return Unavailable; }
        lru := [h] + Without(lru, h);
        stmts := stmts[h := stmts[h].(busy := true)];
        return Got(h);
      }
      if !d.prepares { return Failed; }
      AddedIndexed(View(), query);
      o := Prepare(query, d.closeFails);
    }

    /** The query is not cached: its new statement goes in front, and may push out the last. */
    method Prepare(query: string, closeFails: bool) returns (o: Outcome)
      requires Indexed(Added(View(), query))
      modifies this
      ensures var h, c1 := |old(stmts)|, Added(old(View()), query);
              (View(), o) ==
                if |c1.lru| <= CACHE_SIZE then (c1, Got(h))
                else if closeFails && !c1.stmts[c1.lru[|c1.lru| - 1]].busy then (Released(Evict(c1), h), Failed)
                else (Evict(c1), Got(h))
    {
      var h := |stmts|;
      stmts := stmts + [Stmt(query, true, false, 0)];
      lru := [h] + lru;
      byQuery := byQuery[query := h];
      assert View() == Added(old(View()), query);
      if |lru| > CACHE_SIZE {
        var err := DoEvict(closeFails);
        if err {
          DoRelease(h);
          return Failed;
        }
      }
      return Got(h);
    }

    /** The statements with those listed first closed once more. */
    static ghost predicate ClosedOnceMore(before: seq<Stmt>, now: seq<Stmt>, listed: seq<Handle>) {
      && |now| == |before|
      && forall h: Handle :: h < |now| ==>
           now[h] == if h in listed then before[h].(closes := before[h].closes + 1) else before[h]
    }

    static lemma OneMoreClosed(before: seq<Stmt>, now: seq<Stmt>, listed: seq<Handle>, h: Handle)
      requires ClosedOnceMore(before, now, listed) && h < |now| && h !in listed
      ensures ClosedOnceMore(before, now[h := now[h].(closes := now[h].closes + 1)], listed + [h])
    {
    }

    method Close()
      requires Valid(View()) && !shut
      modifies this
      ensures View() == ShutDown(old(View())) && Valid(View())
    {
      ghost var before := stmts;
      StepValid(View(), Shut);
      for i := 0 to |lru|
        invariant lru == old(lru) && ClosedOnceMore(before, stmts, lru[..i])
      {
        var h := lru[i];
        assert h !in lru[..i];
        OneMoreClosed(before, stmts, lru[..i], h);
        stmts := stmts[h := stmts[h].(closes := stmts[h].closes + 1)];
        assert lru[..i + 1] == lru[..i] + [h];
      }
      assert lru[..|lru|] == lru;
      lru, byQuery, shut := [], map[], true;
    }
  }
}
