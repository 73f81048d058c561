/** The token buckets that throttle password attempts: how many attempts an address gets, and that
    forgetting idle buckets is never noticed. Times are in seconds and tokens are real numbers. */
module LoginLimiter {
  import Common

  datatype Bucket = Bucket(tokens: real, last: real)

  type Buckets = map<string, Bucket>

  const BURST: real := 10.0
  const REFILL: real := 10.0
  const PRUNE_ABOVE: nat := 4096

  function Min(a: real, b: real): real { if a < b then a else b }

  /** Full buckets are forgotten once there are many. */
  function Pruned(b: Buckets, now: real): Buckets {
    if |b| <= PRUNE_ABOVE then b
    else map ip | ip in b && !(now - b[ip].last > BURST * REFILL) :: b[ip]
  }

  /** What an address has to spend at a moment; an address without a bucket has a full one. */
  function Level(b: Buckets, ip: string, now: real): real {
    if ip in b then Min(BURST, b[ip].tokens + (now - b[ip].last) / REFILL) else BURST
  }

  /** One attempt, without the pruning. */
  function Spent(b: Buckets, ip: string, now: real): (Buckets, bool) {
    var t := Level(b, ip, now);
    if t < 1.0 then (b[ip := Bucket(t, now)], false) else (b[ip := Bucket(t - 1.0, now)], true)
  }

  function Allowed(b: Buckets, ip: string, now: real): (Buckets, bool) {
    Spent(Pruned(b, now), ip, now)
  }

  /** No bucket holds less than nothing or more than the burst, or was used in the future. */
  predicate Valid(b: Buckets, now: real) {
    forall ip :: ip in b ==> 0.0 <= b[ip].tokens <= BURST && b[ip].last <= now
  }

  class Limiter {
    var buckets: Buckets

    constructor ()
      ensures buckets == map[]
    {
      buckets := map[];
    }

    method Prune(now: real)
      modifies this
      ensures buckets == Pruned(old(buckets), now)
      ensures |old(buckets)| <= 4096 ==> buckets == old(buckets)
      ensures |old(buckets)| > 4096 ==>
                buckets == map ip | ip in old(buckets) && now - old(buckets)[ip].last <= 100.0 :: old(buckets)[ip]
    {
      if |buckets| > PRUNE_ABOVE {
        var left := buckets.Keys;
        while left != {}
          invariant left <= old(buckets).Keys
          invariant buckets == map ip | ip in old(buckets) && (ip in left || !(now - old(buckets)[ip].last > BURST * REFILL))
                                 :: old(buckets)[ip]
          decreases |left|
        {
          Common.SomeElement(left);
          var ip :| ip in left;
          left := left - {ip};
          if now - buckets[ip].last > BURST * REFILL { buckets := buckets - {ip}; }
        }
      }
    }

    method Allow(ip: string, now: real) returns (ok: bool)
      requires Valid(buckets, now)
      modifies this
      ensures (buckets, ok) == Allowed(old(buckets), ip, now)
      ensures Valid(buckets, now)
    {
      Prune(now);
      var b := if ip in buckets then buckets[ip] else Bucket(BURST, now);
      var tokens := b.tokens + (now - b.last) / REFILL;
      if tokens > BURST { tokens := BURST; }
      if tokens < 1.0 {
        buckets := buckets[ip := Bucket(tokens, now)];
        return false;
      }
      buckets := buckets[ip := Bucket(tokens - 1.0, now)];
      return true;
    }
  }

  // ---- runs ----

  datatype Attempt = Attempt(ip: string, at: real)

  /** The clock never goes back, and nothing is before the start. */
  predicate InOrder(run: seq<Attempt>, start: real) {
    run == [] || (start <= run[0].at && InOrder(run[1..], run[0].at))
  }

  function Last(run: seq<Attempt>, start: real): real {
    if run == [] then start else run[|run| - 1].at
  }

  /** The verdicts of a run, with pruning or without. */
  function Verdicts(b: Buckets, run: seq<Attempt>, prune: bool): seq<bool>
    decreases |run|
  {
    if run == [] then [] else
    var (b', ok) := if prune then Allowed(b, run[0].ip, run[0].at) else Spent(b, run[0].ip, run[0].at);
    [ok] + Verdicts(b', run[1..], prune)
  }

  /** How many attempts of an address are admitted. */
  function Admitted(b: Buckets, run: seq<Attempt>, ip: string): nat
    decreases |run|
  {
    if run == [] then 0 else
    var (b', ok) := Allowed(b, run[0].ip, run[0].at);
    (if ok && run[0].ip == ip then 1 else 0) + Admitted(b', run[1..], ip)
  }

  // ---- what one attempt does to the levels ----

  lemma PruneKeepsLevels(b: Buckets, now: real, ip: string, t: real)
    requires Valid(b, now) && now <= t
    ensures Level(Pruned(b, now), ip, t) == Level(b, ip, t)
    ensures Valid(Pruned(b, now), now)
  {
  }

  lemma LevelRises(b: Buckets, ip: string, now: real, t: real)
    requires Valid(b, now) && now <= t
    ensures 0.0 <= Level(b, ip, now) <= Level(b, ip, t) <= Level(b, ip, now) + (t - now) / REFILL
  {
  }

  lemma SpentLevels(b: Buckets, ip: string, now: real, other: string, t: real)
    requires Valid(b, now) && now <= t
    ensures var (b', ok) := Spent(b, ip, now);
            && Valid(b', now)
            && (ok <==> Level(b, ip, now) >= 1.0)
            && (other != ip ==> Level(b', other, t) == Level(b, other, t))
            && Level(b', ip, now) == Level(b, ip, now) - (if ok then 1.0 else 0.0)
  {
  }

  lemma ValidLater(b: Buckets, now: real, t: real)
    requires Valid(b, now) && now <= t
    ensures Valid(b, t)
  {
  }

  /** Counting what is admitted against what is left to spend. */
  lemma {:induction false} AdmittedAgainstLevel(b: Buckets, run: seq<Attempt>, start: real, ip: string)
    requires Valid(b, start) && InOrder(run, start)
    ensures start <= Last(run, start)
    ensures Admitted(b, run, ip) as real <= Level(b, ip, start) + (Last(run, start) - start) / 10.0
    decreases |run|
  {
    if run == [] {
      LevelRises(b, ip, start, start);
    } else {
      var now := run[0].at;
      var b', ok := Allowed(b, run[0].ip, now).0, Allowed(b, run[0].ip, now).1;
      ValidLater(b, start, now);
      PruneKeepsLevels(b, now, ip, now);
      PruneKeepsLevels(b, now, run[0].ip, now);
      SpentLevels(Pruned(b, now), run[0].ip, now, ip, now);
      LevelRises(b, ip, start, now);
      AdmittedAgainstLevel(b', run[1..], now, ip);
      assert Last(run, start) == Last(run[1..], now);
    }
  }

  /** The buckets after a run. */
  function After(b: Buckets, run: seq<Attempt>): Buckets
    decreases |run|
  {
    if run == [] then b else After(Allowed(b, run[0].ip, run[0].at).0, run[1..])
  }

  lemma StepValid(b: Buckets, ip: string, start: real, now: real)
    requires Valid(b, start) && start <= now
    ensures Valid(Allowed(b, ip, now).0, now)
  {
    ValidLater(b, start, now);
    PruneKeepsLevels(b, now, ip, now);
    SpentLevels(Pruned(b, now), ip, now, ip, now);
  }

  lemma {:induction false} AfterValid(b: Buckets, run: seq<Attempt>, start: real)
    requires Valid(b, start) && InOrder(run, start)
    ensures start <= Last(run, start) && Valid(After(b, run), Last(run, start))
    decreases |run|
  {
    if run == [] {
    } else {
      StepValid(b, run[0].ip, start, run[0].at);
      AfterValid(Allowed(b, run[0].ip, run[0].at).0, run[1..], run[0].at);
    }
  }

  lemma {:induction false} AdmittedConcat(b: Buckets, run: seq<Attempt>, more: seq<Attempt>, ip: string)
    ensures Admitted(b, run + more, ip) == Admitted(b, run, ip) + Admitted(After(b, run), more, ip)
    decreases |run|
  {
    if run == [] {
      assert run + more == more;
    } else {
      assert (run + more)[1..] == run[1..] + more;
      AdmittedConcat(Allowed(b, run[0].ip, run[0].at).0, run[1..], more, ip);
    }
  }

  /** In every window of every run, of attempts from any addresses, an address is admitted at most ten
      times and once more for every ten seconds from the window's first attempt to its last. */
  lemma WindowBound(before: seq<Attempt>, window: seq<Attempt>, start: real, ip: string)
    requires window != [] && InOrder(before, start) && InOrder(window, Last(before, start))
    ensures Admitted(map[], before + window, ip) >= Admitted(map[], before, ip)
    ensures (Admitted(map[], before + window, ip) - Admitted(map[], before, ip)) as real
            <= 10.0 + (window[|window| - 1].at - window[0].at) / 10.0
  {
    var b := After(map[], before);
    AfterValid(map[], before, start);
    AdmittedConcat(map[], before, window, ip);
    ValidLater(b, Last(before, start), window[0].at);
    AdmittedAgainstLevel(b, window, window[0].at, ip);
    LevelRises(b, ip, window[0].at, window[0].at);
  }

  function Repeat(a: Attempt, n: nat): seq<Attempt> { if n == 0 then [] else [a] + Repeat(a, n - 1) }

  lemma {:induction false} AtOnce(b: Buckets, ip: string, now: real, k: nat, level: nat)
    requires Valid(b, now) && Level(b, ip, now) == level as real
    ensures Admitted(b, Repeat(Attempt(ip, now), k), ip) == if k < level then k else level
    decreases k
  {
    if k == 0 {
    } else {
      var run := Repeat(Attempt(ip, now), k);
      assert run[1..] == Repeat(Attempt(ip, now), k - 1);
      PruneKeepsLevels(b, now, ip, now);
      SpentLevels(Pruned(b, now), ip, now, ip, now);
      AtOnce(Allowed(b, ip, now).0, ip, now, k - 1, if level > 0 then level - 1 else 0);
    }
  }

  /** The bound is met: of any number of attempts at one moment, a new address gets ten. */
  lemma TenAtOnce(ip: string, now: real, k: nat)
    requires k >= 10
    ensures Admitted(map[], Repeat(Attempt(ip, now), k), ip) == 10
  {
    AtOnce(map[], ip, now, k, 10);
  }

  lemma {:induction false} LevelAfter(b: Buckets, ip: string, now: real, k: nat, level: nat)
    requires Valid(b, now) && Level(b, ip, now) == level as real && k <= level
    ensures Valid(After(b, Repeat(Attempt(ip, now), k)), now)
    ensures Level(After(b, Repeat(Attempt(ip, now), k)), ip, now) == (level - k) as real
    ensures k > 0 ==> var c := After(b, Repeat(Attempt(ip, now), k)); ip in c && c[ip] == Bucket((level - k) as real, now)
    decreases k
  {
    if k == 0 {
    } else {
      var run := Repeat(Attempt(ip, now), k);
      assert run[1..] == Repeat(Attempt(ip, now), k - 1);
      PruneKeepsLevels(b, now, ip, now);
      SpentLevels(Pruned(b, now), ip, now, ip, now);
      LevelAfter(Allowed(b, ip, now).0, ip, now, k - 1, level - 1);
    }
  }

  /** Who has just used up all ten is refused until ten seconds have passed, and then admitted. */
  lemma RefusedForTenSeconds(ip: string, now: real, later: real)
    requires now <= later
    ensures Allowed(After(map[], Repeat(Attempt(ip, now), 10)), ip, later).1 <==> later - now >= 10.0
  {
    LevelAfter(map[], ip, now, 10, 10);
    var c := After(map[], Repeat(Attempt(ip, now), 10));
    PruneKeepsLevels(c, now, ip, later);
    ValidLater(c, now, later);
    PruneKeepsLevels(c, later, ip, later);
  }

  /** Two sets of buckets that no later attempt can tell apart. */
  ghost predicate SameLevels(a: Buckets, b: Buckets, now: real) {
    forall ip, t :: t >= now ==> Level(a, ip, t) == Level(b, ip, t)
  }

  lemma SameStep(a: Buckets, b: Buckets, ip: string, start: real, now: real)
    requires Valid(a, start) && Valid(b, start) && start <= now && SameLevels(a, b, start)
    ensures var (a', ok) := Allowed(a, ip, now); var (b', ok') := Spent(b, ip, now);
            ok == ok' && Valid(a', now) && Valid(b', now) && SameLevels(a', b', now)
  {
    ValidLater(a, start, now);
    ValidLater(b, start, now);
    var p := Pruned(a, now);
    PruneKeepsLevels(a, now, ip, now);
    var (a', ok) := Spent(p, ip, now);
    var (b', ok') := Spent(b, ip, now);
    SpentLevels(p, ip, now, ip, now);
    SpentLevels(b, ip, now, ip, now);
    assert a'[ip] == b'[ip];
    forall other, t | t >= now ensures Level(a', other, t) == Level(b', other, t) {
      PruneKeepsLevels(a, now, other, t);
      SpentLevels(p, ip, now, other, t);
      SpentLevels(b, ip, now, other, t);
    }
  }

  lemma {:induction false} PruningUnnoticedFrom(a: Buckets, b: Buckets, run: seq<Attempt>, start: real)
    requires Valid(a, start) && Valid(b, start) && SameLevels(a, b, start) && InOrder(run, start)
    ensures Verdicts(a, run, true) == Verdicts(b, run, false)
    decreases |run|
  {
    if run == [] {
    } else {
      SameStep(a, b, run[0].ip, start, run[0].at);
      PruningUnnoticedFrom(Allowed(a, run[0].ip, run[0].at).0, Spent(b, run[0].ip, run[0].at).0, run[1..], run[0].at);
    }
  }

  /** Pruning never changes a verdict of any run. */
  lemma PruningUnnoticed(run: seq<Attempt>, start: real)
    requires InOrder(run, start)
    ensures Verdicts(map[], run, true) == Verdicts(map[], run, false)
  {
    PruningUnnoticedFrom(map[], map[], run, start);
  }

  /** An address that has waited ten seconds since its latest attempt is admitted. */
  lemma WaitingIsAdmitted(b: Buckets, ip: string, start: real, now: real)
    requires Valid(b, start) && start <= now
    requires ip in b ==> now - b[ip].last >= 10.0
    ensures Allowed(b, ip, now).1
  {
    ValidLater(b, start, now);
    PruneKeepsLevels(b, now, ip, now);
  }
}
