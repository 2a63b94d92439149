/**
 The sliding-window-log rate limiter of pkg/ratelimit/limiter.go, in integer milliseconds.

 A Redis sorted set is the ascending sequence of its scores; member names carry the call's nanosecond stamp and an
 index and are taken to be distinct.  Concurrent calls share one clock, and any of their steps may come in between:
 reading the clock, pruning, counting and adding.
 */
module RateLimiter {

  datatype Config = Config(limit: int, window: int)

  // --- Sorted sets ------------------------------------------------------------------------

  predicate Sorted(s: seq<int>) {
    forall i, j | 0 <= i < j < |s| :: s[i] <= s[j]
  }

  /** ZREMRANGEBYSCORE -inf cut. */
  function Prune(s: seq<int>, cut: int): seq<int> {
    if s == [] then []
    else
      var r := Prune(s[..|s| - 1], cut);
      if s[|s| - 1] <= cut then r else r + [s[|s| - 1]]
  }

  /** ZADD of one new member. */
  function Insert(s: seq<int>, x: int): seq<int> {
    if s == [] || s[|s| - 1] <= x then s + [x]
    else Insert(s[..|s| - 1], x) + [s[|s| - 1]]
  }

  function InsertMany(s: seq<int>, x: int, n: nat): seq<int> {
    if n == 0 then s else Insert(InsertMany(s, x, n - 1), x)
  }

  predicate InWindow(x: int, lo: int, hi: int) { lo < x <= hi }

  /** How many scores lie in the half-open window (lo, hi]. */
  function CountIn(s: seq<int>, lo: int, hi: int): nat {
    if s == [] then 0
    else CountIn(s[..|s| - 1], lo, hi) + if InWindow(s[|s| - 1], lo, hi) then 1 else 0
  }

  predicate Above(s: seq<int>, lo: int) {
    forall i | 0 <= i < |s| :: lo < s[i]
  }

  predicate Below(s: seq<int>, hi: int) {
    forall i | 0 <= i < |s| :: s[i] <= hi
  }

  lemma {:induction false} InsertBelow(s: seq<int>, x: int, hi: int)
    requires Below(s, hi) && x <= hi
    ensures Below(Insert(s, x), hi)
  {
    if s != [] && s[|s| - 1] > x {
      InsertBelow(s[..|s| - 1], x, hi);
    }
  }

  lemma {:induction false} InsertSorted(s: seq<int>, x: int)
    requires Sorted(s)
    ensures Sorted(Insert(s, x)) && |Insert(s, x)| == |s| + 1
  {
    if s != [] && s[|s| - 1] > x {
      InsertSorted(s[..|s| - 1], x);
      InsertBelow(s[..|s| - 1], x, s[|s| - 1]);
    }
  }

  lemma {:induction false} InsertCount(s: seq<int>, x: int, lo: int, hi: int)
    ensures CountIn(Insert(s, x), lo, hi) == CountIn(s, lo, hi) + if InWindow(x, lo, hi) then 1 else 0
  {
    var r := Insert(s, x);
    if s == [] || s[|s| - 1] <= x {
      assert r[..|r| - 1] == s;
    } else {
      InsertCount(s[..|s| - 1], x, lo, hi);
      assert r[..|r| - 1] == Insert(s[..|s| - 1], x);
    }
  }

  lemma {:induction false} InsertManyFacts(s: seq<int>, x: int, n: nat, hi: int)
    requires Sorted(s) && Below(s, hi) && x <= hi
    ensures |InsertMany(s, x, n)| == |s| + n
    ensures Sorted(InsertMany(s, x, n)) && Below(InsertMany(s, x, n), hi)
  {
    if n > 0 {
      InsertManyFacts(s, x, n - 1, hi);
      InsertSorted(InsertMany(s, x, n - 1), x);
      InsertBelow(InsertMany(s, x, n - 1), x, hi);
    }
  }

  lemma {:induction false} InsertManyCount(s: seq<int>, x: int, n: nat, lo: int, hi: int)
    ensures CountIn(InsertMany(s, x, n), lo, hi) == CountIn(s, lo, hi) + if InWindow(x, lo, hi) then n else 0
  {
    var r := s;
    for k := 0 to n
      invariant r == InsertMany(s, x, k)
      invariant CountIn(r, lo, hi) == CountIn(s, lo, hi) + if InWindow(x, lo, hi) then k else 0
    {
      InsertCount(r, x, lo, hi);
      r := Insert(r, x);
    }
  }

  lemma {:induction false} PruneCount(s: seq<int>, cut: int, lo: int, hi: int)
    ensures CountIn(Prune(s, cut), lo, hi) == CountIn(s, if lo < cut then cut else lo, hi)
  {
    if s != [] {
      PruneCount(s[..|s| - 1], cut, lo, hi);
      var r := Prune(s, cut);
      if s[|s| - 1] > cut {
        assert r[..|r| - 1] == Prune(s[..|s| - 1], cut);
      }
    }
  }

  /** How many scores of a sorted set pruning drops. */
  function Dropped(s: seq<int>, cut: int): (d: nat)
    ensures d <= |s|
  {
    if s == [] || cut < s[0] then 0 else 1 + Dropped(s[1..], cut)
  }

  lemma {:induction false} DroppedSplits(s: seq<int>, cut: int, i: nat)
    requires Sorted(s) && i < |s|
    ensures s[i] <= cut <==> i < Dropped(s, cut)
  {
    if s[0] <= cut && i > 0 { DroppedSplits(s[1..], cut, i - 1); }
  }

  lemma {:induction false} PruneIsSuffix(s: seq<int>, cut: int)
    requires Sorted(s)
    ensures Prune(s, cut) == s[Dropped(s, cut)..]
  {
    if s == [] {
    } else if cut < s[0] {
      KeepAll(s, cut);
    } else {
      PruneIsSuffix(s[1..], cut);
      PruneHead(s, cut);
    }
  }

  /** On a sorted set pruning removes exactly an initial part. */
  lemma {:induction false} PruneDropsPrefix(s: seq<int>, cut: int)
    requires Sorted(s)
    ensures Prune(s, cut) == s[Dropped(s, cut)..]
    ensures Below(s[..Dropped(s, cut)], cut) && Above(s[Dropped(s, cut)..], cut)
  {
    PruneIsSuffix(s, cut);
    forall i | 0 <= i < |s| ensures s[i] <= cut <==> i < Dropped(s, cut) {
      DroppedSplits(s, cut, i);
    }
  }

  lemma {:induction false} PruneHead(s: seq<int>, cut: int)
    requires s != [] && s[0] <= cut
    ensures Prune(s, cut) == Prune(s[1..], cut)
  {
    if |s| > 1 {
      var init := s[..|s| - 1];
      PruneHead(init, cut);
      assert s[1..][..|s| - 2] == init[1..];
    }
  }

  lemma {:induction false} KeepAll(s: seq<int>, cut: int)
    requires Above(s, cut)
    ensures Prune(s, cut) == s
  {
    if s != [] { KeepAll(s[..|s| - 1], cut); }
  }

  /** With every score in the window, the window holds the whole set. */
  lemma {:induction false} CountAll(s: seq<int>, lo: int, hi: int)
    requires Above(s, lo) && Below(s, hi)
    ensures CountIn(s, lo, hi) == |s|
  {
    if s != [] { CountAll(s[..|s| - 1], lo, hi); }
  }

  // --- One call ---------------------------------------------------------------------------

  /** The first round trip: prune, count, decide. */
  function Check(cfg: Config, s: seq<int>, n: nat, now: int): (seq<int>, bool) {
    var kept := Prune(s, now - cfg.window);
    (kept, |kept| + n <= cfg.limit)
  }

  datatype Verdict =
    | Allowed(remaining: int, resetAt: int)
    | Denied(remaining: int, resetAt: int, retryAfter: int)

  function Max(a: int, b: int): int { if a > b then a else b }

  function Lookup(store: map<string, seq<int>>, key: string): seq<int> {
    if key in store then store[key] else []
  }

  /** A call of AllowN: `now` is the clock at its start and `later` the clock when the wait is computed. */
  datatype Request = Request(key: string, units: nat, cfg: Config, now: int, later: int)

  /** An undisturbed call. */
  function Serve(keyPrefix: string, store: map<string, seq<int>>, c: Request): (map<string, seq<int>>, Verdict) {
    var k := keyPrefix + c.key;
    var (kept, ok) := Check(c.cfg, Lookup(store, k), c.units, c.now);
    var resetAt := c.now + c.cfg.window;
    if ok then (store[k := InsertMany(kept, c.now, c.units)], Allowed(c.cfg.limit - |kept| - c.units, resetAt))
    else
      (store[k := kept],
       Denied(Max(0, c.cfg.limit - |kept|), resetAt, if kept == [] then 0 else Max(0, kept[0] + c.cfg.window - c.later)))
  }

  class Limiter {
    const keyPrefix: string
    var store: map<string, seq<int>>

    constructor (keyPrefix: string)
      ensures this.keyPrefix == keyPrefix && store == map[]
    {
      this.keyPrefix := keyPrefix;
      store := map[];
    }

    method AllowN(key: string, n: nat, cfg: Config, now: int, later: int) returns (r: Verdict)
      requires n >= 1
      modifies this
      ensures (store, r) == Serve(keyPrefix, old(store), Request(key, n, cfg, now, later))
    {
      var redisKey := keyPrefix + key;
      var kept := Prune(Lookup(store, redisKey), now - cfg.window);
      store := store[redisKey := kept];
      var currentCount := |kept|;
      assert Check(cfg, Lookup(old(store), redisKey), n, now) == (kept, currentCount + n <= cfg.limit);
      var resetAt := now + cfg.window;
      if currentCount + n > cfg.limit {
        var retryAfter := 0;
        if |kept| > 0 {
          retryAfter := kept[0] + cfg.window - later;
          if retryAfter < 0 { retryAfter := 0; }
        }
        return Denied(Max(0, cfg.limit - currentCount), resetAt, retryAfter);
      }
      var members := kept;
      var i := 0;
      while i < n
        invariant 0 <= i <= n
        invariant members == InsertMany(kept, now, i)
      {
        members := Insert(members, now);
        i := i + 1;
      }
      store := store[redisKey := members];
      assert store == old(store)[redisKey := members];
      return Allowed(cfg.limit - currentCount - n, resetAt);
    }
  }

  // --- Concurrent calls on one key ------------------------------------------------------------

  /**
   A call reads the clock, prunes, counts and adds in four separate steps: the two commands of a pipeline are not a
   transaction.
   */
  datatype Stage = Started | Pruned | Approved

  datatype Call = Call(at: int, units: nat, stage: Stage)

  /**
   `clock` is when the last call started; `horizon` is the latest cut that any call has pruned at; `admitted` is every
   unit ever added, while the sorted set itself forgets old ones.
   */
  datatype System = System(clock: int, horizon: int, store: seq<int>, calls: seq<Call>, admitted: seq<int>)

  datatype Event =
    | Start(wait: nat, units: nat)
    | PruneStep(call: nat)
    | CountStep(call: nat)
    | AddStep(call: nat)
    | Fail(call: nat)

  function Without(calls: seq<Call>, i: nat): seq<Call>
    requires i < |calls|
  {
    calls[..i] + calls[i + 1..]
  }

  function At(calls: seq<Call>, i: nat, stage: Stage): seq<Call>
    requires i < |calls|
  {
    calls[i := calls[i].(stage := stage)]
  }

  function Step(cfg: Config, s: System, e: Event): System {
    if e.Start? then
      s.(clock := s.clock + e.wait, calls := s.calls + [Call(s.clock + e.wait, e.units, Started)])
    else if e.call >= |s.calls| then s
    else
      var i := e.call;
      var c := s.calls[i];
      match e
      case PruneStep(_) =>
        if c.stage != Started then s
        else s.(store := Prune(s.store, c.at - cfg.window), horizon := Max(s.horizon, c.at - cfg.window),
                calls := At(s.calls, i, Pruned))
      case CountStep(_) =>
        if c.stage != Pruned then s
        else if |s.store| + c.units <= cfg.limit then s.(calls := At(s.calls, i, Approved))
        else s.(calls := Without(s.calls, i))
      case AddStep(_) =>
        if c.stage != Approved then s
        else s.(store := InsertMany(s.store, c.at, c.units), admitted := InsertMany(s.admitted, c.at, c.units),
                calls := Without(s.calls, i))
      case Fail(_) => s.(calls := Without(s.calls, i))
  }

  function Run(cfg: Config, start: int, es: seq<Event>): System {
    if es == [] then System(start, start - cfg.window, [], [], [])
    else Step(cfg, Run(cfg, start, es[..|es| - 1]), es[|es| - 1])
  }

  predicate UnitsIn(e: Event, n: nat) { e.Start? ==> 1 <= e.units <= n }

  /** At no moment are more than k calls under way, and no call asks for more than n units. */
  predicate Bounded(cfg: Config, start: int, es: seq<Event>, k: nat, n: nat) {
    es == [] ||
    (&& Bounded(cfg, start, es[..|es| - 1], k, n)
     && |Run(cfg, start, es).calls| <= k && UnitsIn(es[|es| - 1], n))
  }

  function Approvals(calls: seq<Call>): nat {
    if calls == [] then 0
    else Approvals(calls[..|calls| - 1]) + if calls[|calls| - 1].stage == Approved then 1 else 0
  }

  /** No call with a later clock has pruned before this one counts. */
  predicate CountsInOrder(cfg: Config, s: System, e: Event) {
    e.CountStep? && e.call < |s.calls| && s.calls[e.call].stage == Pruned ==>
      s.horizon <= s.calls[e.call].at - cfg.window
  }

  /**
   Calls reach the store in the order of their clocks, at no moment are more than k calls between counting and adding,
   and no call asks for more than n units.
   */
  predicate InOrder(cfg: Config, start: int, es: seq<Event>, k: nat, n: nat) {
    es == [] ||
    (&& InOrder(cfg, start, es[..|es| - 1], k, n)
     && CountsInOrder(cfg, Run(cfg, start, es[..|es| - 1]), es[|es| - 1])
     && Approvals(Run(cfg, start, es).calls) <= k && UnitsIn(es[|es| - 1], n))
  }

  // The load of a window: units admitted, units about to be added, and a reserve for each call that has not counted.

  function Share(c: Call, reserve: nat, lo: int, hi: int): nat {
    if !InWindow(c.at, lo, hi) then 0 else if c.stage == Approved then c.units else reserve
  }

  function Weight(calls: seq<Call>, reserve: nat, lo: int, hi: int): nat {
    if calls == [] then 0
    else Weight(calls[..|calls| - 1], reserve, lo, hi) + Share(calls[|calls| - 1], reserve, lo, hi)
  }

  lemma {:induction false} WeightAppend(calls: seq<Call>, c: Call, reserve: nat, lo: int, hi: int)
    ensures Weight(calls + [c], reserve, lo, hi) == Weight(calls, reserve, lo, hi) + Share(c, reserve, lo, hi)
    ensures Approvals(calls + [c]) == Approvals(calls) + if c.stage == Approved then 1 else 0
  {
    assert (calls + [c])[..|calls|] == calls;
  }

  lemma {:induction false} WeightWithout(calls: seq<Call>, i: nat, reserve: nat, lo: int, hi: int)
    requires i < |calls|
    ensures Weight(calls, reserve, lo, hi)
         == Weight(Without(calls, i), reserve, lo, hi) + Share(calls[i], reserve, lo, hi)
    ensures Approvals(calls) == Approvals(Without(calls, i)) + if calls[i].stage == Approved then 1 else 0
  {
    var m := |calls| - 1;
    if i == m {
      assert Without(calls, i) == calls[..m];
    } else {
      WeightWithout(calls[..m], i, reserve, lo, hi);
      assert calls[..m][..i] == calls[..i] && calls[..m][i + 1..] + [calls[m]] == calls[i + 1..];
      assert Without(calls, i) == Without(calls[..m], i) + [calls[m]];
      WeightAppend(Without(calls[..m], i), calls[m], reserve, lo, hi);
    }
  }

  lemma {:induction false} WeightAt(calls: seq<Call>, i: nat, stage: Stage, reserve: nat, lo: int, hi: int)
    requires i < |calls|
    ensures Weight(At(calls, i, stage), reserve, lo, hi)
         == Weight(calls, reserve, lo, hi) - Share(calls[i], reserve, lo, hi)
          + Share(calls[i].(stage := stage), reserve, lo, hi)
    ensures Approvals(At(calls, i, stage)) == Approvals(calls)
      - (if calls[i].stage == Approved then 1 else 0) + (if stage == Approved then 1 else 0)
  {
    WeightWithout(calls, i, reserve, lo, hi);
    WeightWithout(At(calls, i, stage), i, reserve, lo, hi);
    assert Without(At(calls, i, stage), i) == Without(calls, i);
  }

  predicate UnitsAtMost(calls: seq<Call>, n: nat) {
    forall i | 0 <= i < |calls| :: 1 <= calls[i].units <= n
  }

  lemma {:induction false} WeightBound(calls: seq<Call>, n: nat, lo: int, hi: int)
    requires UnitsAtMost(calls, n)
    ensures Weight(calls, 0, lo, hi) <= Approvals(calls) * n
    ensures Approvals(calls) <= |calls|
  {
    if calls != [] {
      var rest := calls[..|calls| - 1];
      WeightBound(rest, n, lo, hi);
      MulStep(Approvals(rest) + 1, n);
    }
  }

  /** A reserve of n for every call adds at most n for each of them. */
  lemma {:induction false} ReserveBound(calls: seq<Call>, n: nat, lo: int, hi: int)
    ensures Weight(calls, n, lo, hi) <= Weight(calls, 0, lo, hi) + |calls| * n
    ensures Weight(calls, 0, lo, hi) <= Weight(calls, n, lo, hi)
  {
    if calls != [] {
      ReserveBound(calls[..|calls| - 1], n, lo, hi);
      MulStep(|calls|, n);
    }
  }

  lemma {:induction false} MulStep(m: int, n: int)
    ensures m * n == (m - 1) * n + n
  {
  }

  lemma {:induction false} MulMonotone(a: int, b: int, n: nat)
    requires a <= b
    ensures a * n <= b * n
  {
  }

  function Load(cfg: Config, s: System, reserve: nat, t: int): nat {
    CountIn(s.admitted, t - cfg.window, t) + Weight(s.calls, reserve, t - cfg.window, t)
  }

  /** Unless some call has pruned into the window that ends at t, the sorted set holds all of it. */
  predicate Agrees(cfg: Config, s: System, t: int) {
    s.horizon <= t - cfg.window ==>
      CountIn(s.store, t - cfg.window, t) == CountIn(s.admitted, t - cfg.window, t)
  }

  predicate Past(calls: seq<Call>, clock: int) {
    forall i | 0 <= i < |calls| :: calls[i].at <= clock
  }

  predicate Shape(cfg: Config, s: System, n: nat) {
    UnitsAtMost(s.calls, n) && Past(s.calls, s.clock) && s.horizon <= s.clock - cfg.window
  }

  /** What holds of every window: `reserve` units are set aside for each call under way. */
  predicate LoadedAt(cfg: Config, s: System, reserve: nat, bound: int, t: int) {
    Load(cfg, s, reserve, t) <= bound
  }

  lemma {:induction false} CountAtMost(s: seq<int>, lo: int, hi: int)
    ensures CountIn(s, lo, hi) <= |s|
  {
    if s != [] { CountAtMost(s[..|s| - 1], lo, hi); }
  }

  lemma {:induction false} WithoutKeeps(calls: seq<Call>, i: nat, n: nat, clock: int)
    requires i < |calls|
    ensures UnitsAtMost(calls, n) ==> UnitsAtMost(Without(calls, i), n)
    ensures Past(calls, clock) ==> Past(Without(calls, i), clock)
  {
    var rest := Without(calls, i);
    forall j | 0 <= j < |rest| ensures rest[j] == if j < i then calls[j] else calls[j + 1] {
    }
  }

  lemma {:induction false} StepPast(cfg: Config, s: System, e: Event)
    requires Past(s.calls, s.clock)
    ensures Past(Step(cfg, s, e).calls, Step(cfg, s, e).clock)
  {
    if !e.Start? && e.call < |s.calls| { WithoutKeeps(s.calls, e.call, 0, s.clock); }
  }

  lemma {:induction false} StepUnits(cfg: Config, s: System, e: Event, n: nat)
    requires UnitsAtMost(s.calls, n) && UnitsIn(e, n)
    ensures UnitsAtMost(Step(cfg, s, e).calls, n)
  {
    if !e.Start? && e.call < |s.calls| { WithoutKeeps(s.calls, e.call, n, s.clock); }
  }

  lemma {:induction false} StepShape(cfg: Config, s: System, e: Event, n: nat)
    requires Shape(cfg, s, n) && UnitsIn(e, n)
    ensures Shape(cfg, Step(cfg, s, e), n)
  {
    StepUnits(cfg, s, e, n);
    StepPast(cfg, s, e);
  }

  lemma {:induction false} StepAgrees(cfg: Config, s: System, e: Event, t: int)
    requires Agrees(cfg, s, t)
    ensures Agrees(cfg, Step(cfg, s, e), t)
  {
    if e.PruneStep? && e.call < |s.calls| && s.calls[e.call].stage == Started {
      PruneCount(s.store, s.calls[e.call].at - cfg.window, t - cfg.window, t);
    } else if e.AddStep? && e.call < |s.calls| && s.calls[e.call].stage == Approved {
      AddAgrees(cfg, s, e.call, t);
    }
  }

  lemma {:induction false} AddAgrees(cfg: Config, s: System, i: nat, t: int)
    requires Agrees(cfg, s, t) && i < |s.calls| && s.calls[i].stage == Approved
    ensures Agrees(cfg, Step(cfg, s, AddStep(i)), t)
  {
    var r := Step(cfg, s, AddStep(i));
    assert r.store == InsertMany(s.store, s.calls[i].at, s.calls[i].units);
    assert r.admitted == InsertMany(s.admitted, s.calls[i].at, s.calls[i].units);
    BothInserted(s.store, s.admitted, s.calls[i].at, s.calls[i].units, t - cfg.window, t);
    assert r.horizon == s.horizon;
  }

  lemma {:induction false} BothInserted(store: seq<int>, admitted: seq<int>, x: int, n: nat, lo: int, hi: int)
    ensures CountIn(InsertMany(store, x, n), lo, hi) == CountIn(InsertMany(admitted, x, n), lo, hi)
      <==> CountIn(store, lo, hi) == CountIn(admitted, lo, hi)
  {
    InsertManyCount(store, x, n, lo, hi);
    InsertManyCount(admitted, x, n, lo, hi);
  }

  /** A step other than a count never adds to the load, except for the reserve of a call that starts. */
  lemma {:induction false} QuietLoad(cfg: Config, s: System, e: Event, reserve: nat, t: int)
    requires e.Start? ==> reserve == 0 || t < s.clock + e.wait
    requires !(e.CountStep? && e.call < |s.calls| && s.calls[e.call].stage == Pruned)
    ensures Load(cfg, Step(cfg, s, e), reserve, t) <= Load(cfg, s, reserve, t)
  {
    var lo := t - cfg.window;
    if e.Start? {
      WeightAppend(s.calls, Call(s.clock + e.wait, e.units, Started), reserve, lo, t);
    } else if e.call < |s.calls| {
      var c := s.calls[e.call];
      WeightWithout(s.calls, e.call, reserve, lo, t);
      WeightAt(s.calls, e.call, Pruned, reserve, lo, t);
      InsertManyCount(s.admitted, c.at, c.units, lo, t);
    }
  }

  /** A count turns a full reserve into at most that many units. */
  lemma {:induction false} CountReserved(cfg: Config, s: System, e: Event, n: nat, t: int)
    requires e.CountStep? && UnitsAtMost(s.calls, n)
    ensures Load(cfg, Step(cfg, s, e), n, t) <= Load(cfg, s, n, t)
  {
    if e.call < |s.calls| {
      WeightWithout(s.calls, e.call, n, t - cfg.window, t);
      WeightAt(s.calls, e.call, Approved, n, t - cfg.window, t);
    }
  }

  function Cap(cfg: Config): int { Max(0, cfg.limit) }

  /** A count that sees the whole window leaves it within the limit and the units of the others that are approved. */
  lemma {:induction false} CountSeen(cfg: Config, s: System, i: nat, n: nat, m: int, t: int)
    requires i < |s.calls| && s.calls[i].stage == Pruned && UnitsAtMost(s.calls, n)
    requires Agrees(cfg, s, t) && (InWindow(s.calls[i].at, t - cfg.window, t) ==> s.horizon <= t - cfg.window)
    requires Approvals(Step(cfg, s, CountStep(i)).calls) <= m && 1 <= m
    requires LoadedAt(cfg, s, 0, Cap(cfg) + (m - 1) * n, t)
    ensures LoadedAt(cfg, Step(cfg, s, CountStep(i)), 0, Cap(cfg) + (m - 1) * n, t)
  {
    var lo, c := t - cfg.window, s.calls[i];
    WeightWithout(s.calls, i, 0, lo, t);
    WeightAt(s.calls, i, Approved, 0, lo, t);
    if |s.store| + c.units <= cfg.limit && InWindow(c.at, lo, t) {
      CountAtMost(s.store, lo, t);
      WeightBound(s.calls, n, lo, t);
      MulMonotone(Approvals(s.calls), m - 1, n);
    }
  }

  // --- The bounds ------------------------------------------------------------------------------------

  predicate OrderInv(cfg: Config, s: System, k: nat, n: nat, t: int) {
    Shape(cfg, s, n) && Agrees(cfg, s, t) && LoadedAt(cfg, s, 0, Cap(cfg) + (k - 1) * n, t)
  }

  /**
   A window that no call has outlived yet is loaded as if calls came in order; in one that some call has outlived,
   every call still under way may be approved once more.
   */
  predicate Inv(cfg: Config, s: System, k: nat, n: nat, t: int) {
    && Shape(cfg, s, n) && Agrees(cfg, s, t)
    && if s.clock <= t then LoadedAt(cfg, s, 0, Cap(cfg) + (k - 1) * n, t)
       else LoadedAt(cfg, s, n, Cap(cfg) + 2 * ((k - 1) * n), t)
  }

  lemma {:induction false} OrderStep(cfg: Config, s: System, e: Event, k: nat, n: nat, t: int)
    requires OrderInv(cfg, s, k, n, t) && k >= 1 && UnitsIn(e, n)
    requires CountsInOrder(cfg, s, e) && Approvals(Step(cfg, s, e).calls) <= k
    ensures OrderInv(cfg, Step(cfg, s, e), k, n, t)
  {
    StepShape(cfg, s, e, n);
    StepAgrees(cfg, s, e, t);
    if e.CountStep? && e.call < |s.calls| && s.calls[e.call].stage == Pruned {
      CountSeen(cfg, s, e.call, n, k, t);
    } else {
      QuietLoad(cfg, s, e, 0, t);
    }
  }

  lemma {:induction false} StepInv(cfg: Config, s: System, e: Event, k: nat, n: nat, t: int)
    requires Inv(cfg, s, k, n, t) && k >= 1 && UnitsIn(e, n)
    requires |s.calls| <= k && |Step(cfg, s, e).calls| <= k
    ensures Inv(cfg, Step(cfg, s, e), k, n, t)
  {
    StepShape(cfg, s, e, n);
    StepAgrees(cfg, s, e, t);
    var r := Step(cfg, s, e);
    if e.CountStep? && e.call < |s.calls| && s.calls[e.call].stage == Pruned {
      if s.clock <= t {
        WeightBound(r.calls, n, t - cfg.window, t);
        CountSeen(cfg, s, e.call, n, k, t);
      } else {
        CountReserved(cfg, s, e, n, t);
      }
    } else if r.clock <= t {
      QuietLoad(cfg, s, e, 0, t);
    } else {
      QuietLoad(cfg, s, e, n, t);
      if s.clock <= t { Outlived(cfg, s, k, n, t); }
    }
  }

  /** When a call starts after the window that ends at t, at most k - 1 others are still under way. */
  lemma {:induction false} Outlived(cfg: Config, s: System, k: nat, n: nat, t: int)
    requires LoadedAt(cfg, s, 0, Cap(cfg) + (k - 1) * n, t) && |s.calls| <= k - 1
    ensures LoadedAt(cfg, s, n, Cap(cfg) + 2 * ((k - 1) * n), t)
  {
    ReserveBound(s.calls, n, t - cfg.window, t);
    MulMonotone(|s.calls|, k - 1, n);
  }

  lemma {:induction false} MulNonNegative(k: nat, n: nat)
    requires k >= 1
    ensures (k - 1) * n >= 0
  {
  }

  lemma {:induction false} OrderRunInv(cfg: Config, start: int, es: seq<Event>, k: nat, n: nat, t: int)
    requires k >= 1 && InOrder(cfg, start, es, k, n)
    ensures OrderInv(cfg, Run(cfg, start, es), k, n, t)
  {
    MulNonNegative(k, n);
    if es != [] {
      OrderRunInv(cfg, start, es[..|es| - 1], k, n, t);
      OrderStep(cfg, Run(cfg, start, es[..|es| - 1]), es[|es| - 1], k, n, t);
    }
  }

  lemma {:induction false} RunInv(cfg: Config, start: int, es: seq<Event>, k: nat, n: nat, t: int)
    requires k >= 1 && Bounded(cfg, start, es, k, n)
    ensures Inv(cfg, Run(cfg, start, es), k, n, t) && |Run(cfg, start, es).calls| <= k
  {
    MulNonNegative(k, n);
    if es != [] {
      RunInv(cfg, start, es[..|es| - 1], k, n, t);
      StepInv(cfg, Run(cfg, start, es[..|es| - 1]), es[|es| - 1], k, n, t);
    }
  }

  // --- Main results -----------------------------------------------------------------------------

  /** How many units were ever admitted with a time in the window that ends at t. */
  function InWindowOf(cfg: Config, start: int, es: seq<Event>, t: int): nat {
    CountIn(Run(cfg, start, es).admitted, t - cfg.window, t)
  }

  /**
   For every interleaving in which at most k calls, of at most n units each, are under way at any moment, no window of
   length `window` ever holds more than limit + 2 (k - 1) n admitted units.
   */
  lemma {:induction false} OverAdmissionBound(cfg: Config, start: int, es: seq<Event>, k: nat, n: nat, t: int)
    requires k >= 1 && Bounded(cfg, start, es, k, n)
    ensures InWindowOf(cfg, start, es, t) <= Cap(cfg) + 2 * ((k - 1) * n)
  {
    MulNonNegative(k, n);
    RunInv(cfg, start, es, k, n, t);
  }

  /**
   If calls moreover reach the store in the order of their clocks, only those between counting and adding matter: with
   at most k of them the bound is limit + (k - 1) n.
   */
  lemma {:induction false} InOrderBound(cfg: Config, start: int, es: seq<Event>, k: nat, n: nat, t: int)
    requires k >= 1 && InOrder(cfg, start, es, k, n)
    ensures InWindowOf(cfg, start, es, t) <= Cap(cfg) + (k - 1) * n
  {
    OrderRunInv(cfg, start, es, k, n, t);
  }

  /** Serial calls, one at a time: every window holds at most `limit` units. */
  lemma {:induction false} SerialLimit(cfg: Config, start: int, es: seq<Event>, n: nat, t: int)
    requires Bounded(cfg, start, es, 1, n)
    ensures InWindowOf(cfg, start, es, t) <= Cap(cfg)
  {
    OverAdmissionBound(cfg, start, es, 1, n, t);
  }

  /** One call of AllowN with nobody in between is its four steps one after the other. */
  lemma {:induction false} CallIsFourSteps(cfg: Config, s: System, wait: nat, units: nat)
    requires s.calls == []
    ensures var (kept, ok) := Check(cfg, s.store, units, s.clock + wait);
      var counted := Step(cfg, Step(cfg, Step(cfg, s, Start(wait, units)), PruneStep(0)), CountStep(0));
      var after := Step(cfg, counted, AddStep(0));
      && after.calls == [] && after.clock == s.clock + wait
      && after.store == (if ok then InsertMany(kept, s.clock + wait, units) else kept)
      && after.admitted == (if ok then InsertMany(s.admitted, s.clock + wait, units) else s.admitted)
  {
    var now := s.clock + wait;
    var s1 := Step(cfg, s, Start(wait, units));
    assert s1 == s.(clock := now, calls := [Call(now, units, Started)]);
    var s2 := Step(cfg, s1, PruneStep(0));
    assert s2.calls == [Call(now, units, Pruned)] && s2.store == Prune(s.store, now - cfg.window);
    var s3 := Step(cfg, s2, CountStep(0));
    assert s3.calls == if |s2.store| + units <= cfg.limit then [Call(now, units, Approved)] else [];
  }

  // --- Calls on many keys ------------------------------------------------------------------------------

  /** The store after the first j calls. */
  function StoreAfter(keyPrefix: string, calls: seq<Request>, j: nat): map<string, seq<int>>
    requires j <= |calls|
  {
    if j == 0 then map[] else Serve(keyPrefix, StoreAfter(keyPrefix, calls, j - 1), calls[j - 1]).0
  }

  function Answer(keyPrefix: string, calls: seq<Request>, j: nat): Verdict
    requires j < |calls|
  {
    Serve(keyPrefix, StoreAfter(keyPrefix, calls, j), calls[j]).1
  }

  /** The units that the first j calls were granted on a key at instants of the window (lo, hi]. */
  function Granted(keyPrefix: string, calls: seq<Request>, j: nat, key: string, lo: int, hi: int): nat
    requires j <= |calls|
  {
    if j == 0 then 0
    else
      var c := calls[j - 1];
      Granted(keyPrefix, calls, j - 1, key, lo, hi)
        + if c.key == key && lo < c.now <= hi && Answer(keyPrefix, calls, j - 1).Allowed? then c.units else 0
  }

  /** The calls on the key come in the order of their clocks and with one configuration. */
  predicate InTurn(calls: seq<Request>, key: string, cfg: Config) {
    && (forall i | 0 <= i < |calls| && calls[i].key == key :: calls[i].cfg == cfg)
    && (forall i, k | 0 <= i < k < |calls| && calls[i].key == calls[k].key == key :: calls[i].now <= calls[k].now)
  }

  lemma {:induction false} PrefixInjective(keyPrefix: string, a: string, b: string)
    requires keyPrefix + a == keyPrefix + b
    ensures a == b
  {
    assert (keyPrefix + a)[|keyPrefix|..] == a && (keyPrefix + b)[|keyPrefix|..] == b;
  }

  lemma {:induction false} OtherKey(keyPrefix: string, store: map<string, seq<int>>, c: Request, key: string)
    requires c.key != key
    ensures Lookup(Serve(keyPrefix, store, c).0, keyPrefix + key) == Lookup(store, keyPrefix + key)
  {
    if keyPrefix + c.key == keyPrefix + key { PrefixInjective(keyPrefix, c.key, key); }
  }

  /** Beyond lo the set stored up to instant t holds `units` in the window (lo, hi]. */
  predicate Stores(s: seq<int>, t: int, lo: int, hi: int, units: nat) {
    Sorted(s) && Below(s, t) && CountIn(s, lo, hi) == units
  }

  lemma {:induction false} PruneStores(s: seq<int>, cut: int, t: int, lo: int, hi: int, units: nat)
    requires Stores(s, t, lo, hi, units) && cut <= lo
    ensures Stores(Prune(s, cut), t, lo, hi, units)
  {
    PrunedOrdered(s, cut, t);
    PruneCount(s, cut, lo, hi);
  }

  lemma {:induction false} InsertStores(s: seq<int>, n: nat, now: int, lo: int, hi: int, units: nat)
    requires Stores(s, now, lo, hi, units)
    ensures Stores(InsertMany(s, now, n), now, lo, hi, units + if InWindow(now, lo, hi) then n else 0)
  {
    InsertManyFacts(s, now, n, now);
    InsertManyCount(s, now, n, lo, hi);
  }

  lemma {:induction false} StoresLater(s: seq<int>, t: int, later: int, lo: int, hi: int, units: nat)
    requires Stores(s, t, lo, hi, units) && t <= later
    ensures Stores(s, later, lo, hi, units)
  {
  }

  /** One call on a sorted set: what it adds to every window that begins no earlier than its own. */
  lemma {:induction false} CallStores(cfg: Config, s: seq<int>, n: nat, now: int, lo: int, hi: int, units: nat)
    requires Stores(s, now, lo, hi, units) && now - cfg.window <= lo
    ensures var (kept, ok) := Check(cfg, s, n, now);
      if ok then Stores(InsertMany(kept, now, n), now, lo, hi, if InWindow(now, lo, hi) then units + n else units)
      else Stores(kept, now, lo, hi, units)
  {
    PruneStores(s, now - cfg.window, now, lo, hi, units);
    InsertStores(Prune(s, now - cfg.window), n, now, lo, hi, units);
  }

  lemma {:induction false} ServeStores(
    keyPrefix: string, store: map<string, seq<int>>, c: Request, t: int, lo: int, hi: int, units: nat)
    requires Stores(Lookup(store, keyPrefix + c.key), c.now, lo, hi, units) && c.now <= t && c.now - c.cfg.window <= lo
    ensures var (store', r) := Serve(keyPrefix, store, c);
      Stores(Lookup(store', keyPrefix + c.key), t, lo, hi, if r.Allowed? && lo < c.now <= hi then units + c.units else units)
  {
    var (store', r) := Serve(keyPrefix, store, c);
    CallStores(c.cfg, Lookup(store, keyPrefix + c.key), c.units, c.now, lo, hi, units);
    StoresLater(Lookup(store', keyPrefix + c.key), c.now, t, lo, hi,
                if r.Allowed? && lo < c.now <= hi then units + c.units else units);
  }

  /** Every window that has not been pruned away holds in the store just what was granted in it. */
  lemma {:induction false} StoredCounts(
    keyPrefix: string, calls: seq<Request>, j: nat, key: string, cfg: Config, t: int, lo: int, hi: int)
    requires j <= |calls| && InTurn(calls, key, cfg)
    requires forall i | 0 <= i < j && calls[i].key == key :: calls[i].now <= t
    requires t - cfg.window <= lo
    ensures Stores(Lookup(StoreAfter(keyPrefix, calls, j), keyPrefix + key), t, lo, hi,
                   Granted(keyPrefix, calls, j, key, lo, hi))
  {
    if j > 0 {
      var c := calls[j - 1];
      var store := StoreAfter(keyPrefix, calls, j - 1);
      StoredCounts(keyPrefix, calls, j - 1, key, cfg, if c.key == key then c.now else t, lo, hi);
      if c.key == key {
        ServeStores(keyPrefix, store, c, t, lo, hi, Granted(keyPrefix, calls, j - 1, key, lo, hi));
      } else {
        OtherKey(keyPrefix, store, c, key);
      }
    }
  }

  /** The answer to a call when the units granted in its window so far are `used`. */
  predicate AnswersFor(r: Verdict, c: Request, used: nat) {
    && (r.Allowed? <==> used + c.units <= c.cfg.limit)
    && (r.Allowed? ==> r.remaining == c.cfg.limit - used - c.units)
    && (r.Denied? ==> r.remaining == if used < c.cfg.limit then c.cfg.limit - used else 0)
    && r.resetAt == c.now + c.cfg.window
  }

  lemma {:induction false} ServeAnswers(keyPrefix: string, store: map<string, seq<int>>, c: Request, used: nat)
    requires Stores(Lookup(store, keyPrefix + c.key), c.now, c.now - c.cfg.window, c.now, used)
    ensures AnswersFor(Serve(keyPrefix, store, c).1, c, used)
  {
    KeptIsWindow(Lookup(store, keyPrefix + c.key), c.now - c.cfg.window, c.now);
  }

  /**
   What AllowN answers, in any sequence of calls on any keys: with the units that earlier calls on this key were granted
   in the window that ends now, a call is allowed exactly if its own fit beside them.
   */
  lemma {:induction false} AllowNExact(keyPrefix: string, calls: seq<Request>, j: nat)
    requires j < |calls| && InTurn(calls, calls[j].key, calls[j].cfg)
    ensures var c := calls[j];
      AnswersFor(Answer(keyPrefix, calls, j), c, Granted(keyPrefix, calls, j, c.key, c.now - c.cfg.window, c.now))
  {
    var c := calls[j];
    StoredCounts(keyPrefix, calls, j, c.key, c.cfg, c.now, c.now - c.cfg.window, c.now);
    ServeAnswers(keyPrefix, StoreAfter(keyPrefix, calls, j), c,
                 Granted(keyPrefix, calls, j, c.key, c.now - c.cfg.window, c.now));
  }

  lemma {:induction false} GrantedWider(
    keyPrefix: string, calls: seq<Request>, j: nat, key: string, lo: int, hi: int, from: int, until: int)
    requires j <= |calls| && from <= lo
    requires forall i | 0 <= i < j && calls[i].key == key :: calls[i].now <= until
    ensures Granted(keyPrefix, calls, j, key, lo, hi) <= Granted(keyPrefix, calls, j, key, from, until)
  {
    if j > 0 { GrantedWider(keyPrefix, calls, j - 1, key, lo, hi, from, until); }
  }

  /** So whatever is called on other keys, no window of a key is ever granted more than the limit. */
  lemma {:induction false} GrantedWithinLimit(
    keyPrefix: string, calls: seq<Request>, j: nat, key: string, cfg: Config, t: int)
    requires j <= |calls| && InTurn(calls, key, cfg)
    ensures Granted(keyPrefix, calls, j, key, t - cfg.window, t) <= Cap(cfg)
  {
    if j > 0 {
      GrantedWithinLimit(keyPrefix, calls, j - 1, key, cfg, t);
      var c := calls[j - 1];
      if c.key == key && t - cfg.window < c.now <= t {
        AllowNExact(keyPrefix, calls, j - 1);
        GrantedWider(keyPrefix, calls, j - 1, key, t - cfg.window, t, c.now - cfg.window, c.now);
      }
    }
  }

  lemma {:induction false} OldestCount(s: seq<int>, lo: int)
    requires Sorted(s) && s != []
    ensures CountIn(s, lo, s[0] - 1) == 0 && CountIn(s, s[0] - 1, s[0]) > 0
  {
    if |s| > 1 { OldestCount(s[..|s| - 1], lo); } else { assert s[..0] == []; }
  }

  /**
   The wait of a denied call lasts until the earliest grant in the window leaves it; there is none if there is nothing in
   the window.
   */
  lemma {:induction false} RetryAfterOldest(keyPrefix: string, calls: seq<Request>, j: nat) returns (first: int)
    requires j < |calls| && InTurn(calls, calls[j].key, calls[j].cfg) && Answer(keyPrefix, calls, j).Denied?
    ensures var c, r := calls[j], Answer(keyPrefix, calls, j); var lo := c.now - c.cfg.window;
      if Granted(keyPrefix, calls, j, c.key, lo, c.now) == 0 then r.retryAfter == 0
      else
        && lo < first && Granted(keyPrefix, calls, j, c.key, lo, first - 1) == 0
        && Granted(keyPrefix, calls, j, c.key, first - 1, first) > 0
        && r.retryAfter == if first + c.cfg.window < c.later then 0 else first + c.cfg.window - c.later
  {
    var c := calls[j];
    var lo := c.now - c.cfg.window;
    var s := Lookup(StoreAfter(keyPrefix, calls, j), keyPrefix + c.key);
    StoredCounts(keyPrefix, calls, j, c.key, c.cfg, c.now, lo, c.now);
    KeptIsWindow(s, lo, c.now);
    first := 0;
    if Prune(s, lo) != [] {
      first := Prune(s, lo)[0];
      OldestKept(s, lo);
      StoredCounts(keyPrefix, calls, j, c.key, c.cfg, c.now, lo, first - 1);
      StoredCounts(keyPrefix, calls, j, c.key, c.cfg, c.now, first - 1, first);
    }
  }

  lemma {:induction false} OldestKept(s: seq<int>, lo: int)
    requires Sorted(s) && Prune(s, lo) != []
    ensures var first := Prune(s, lo)[0];
      lo < first && CountIn(s, lo, first - 1) == 0 && CountIn(s, first - 1, first) > 0
  {
    var kept := Prune(s, lo);
    PrunedSorted(s, lo);
    OldestCount(kept, lo);
    PruneCount(s, lo, lo, kept[0] - 1);
    PruneCount(s, lo, kept[0] - 1, kept[0]);
  }

  lemma {:induction false} PrunedSorted(s: seq<int>, cut: int)
    requires Sorted(s)
    ensures Sorted(Prune(s, cut)) && Above(Prune(s, cut), cut)
  {
    PruneDropsPrefix(s, cut);
  }

  function OneCall(wait: nat, units: nat): seq<Event> { [Start(wait, units), PruneStep(0), CountStep(0), AddStep(0)] }

  /** The clock after the first j calls, as the calls on the key move it. */
  function ClockOf(calls: seq<Request>, j: nat, key: string, start: int): int
    requires j <= |calls|
  {
    if j == 0 then start else Max(ClockOf(calls, j - 1, key, start), if calls[j - 1].key == key then calls[j - 1].now else start)
  }

  /** The steps of the calls on one key, one call after the other. */
  function EventsOf(calls: seq<Request>, j: nat, key: string, start: int): seq<Event>
    requires j <= |calls|
  {
    if j == 0 then []
    else
      var es, c := EventsOf(calls, j - 1, key, start), calls[j - 1];
      if c.key == key then es + OneCall(ClockOf(calls, j, key, start) - ClockOf(calls, j - 1, key, start), c.units) else es
  }

  lemma {:induction false} RunNext(cfg: Config, start: int, es: seq<Event>, e: Event)
    ensures Run(cfg, start, es + [e]) == Step(cfg, Run(cfg, start, es), e)
  {
    assert (es + [e])[..|es|] == es;
  }

  function FourSteps(cfg: Config, s: System, wait: nat, units: nat): System {
    Step(cfg, Step(cfg, Step(cfg, Step(cfg, s, Start(wait, units)), PruneStep(0)), CountStep(0)), AddStep(0))
  }

  lemma {:induction false} RunFour(cfg: Config, start: int, es: seq<Event>, wait: nat, units: nat)
    ensures Run(cfg, start, es + OneCall(wait, units)) == FourSteps(cfg, Run(cfg, start, es), wait, units)
  {
    var es1 := es + [Start(wait, units)];
    var es2 := es1 + [PruneStep(0)];
    var es3 := es2 + [CountStep(0)];
    RunNext(cfg, start, es, Start(wait, units));
    RunNext(cfg, start, es1, PruneStep(0));
    RunNext(cfg, start, es2, CountStep(0));
    RunNext(cfg, start, es3, AddStep(0));
    assert es + OneCall(wait, units) == es3 + [AddStep(0)];
  }

  /** What one call makes of a sorted set. */
  function SetAfter(cfg: Config, s: seq<int>, n: nat, now: int): seq<int> {
    var (kept, ok) := Check(cfg, s, n, now);
    if ok then InsertMany(kept, now, n) else kept
  }

  /** The set that the first j calls make of the key's empty set. */
  function SetOf(calls: seq<Request>, j: nat, key: string): seq<int>
    requires j <= |calls|
  {
    if j == 0 then []
    else
      var c := calls[j - 1];
      var s := SetOf(calls, j - 1, key);
      if c.key == key then SetAfter(c.cfg, s, c.units, c.now) else s
  }

  lemma {:induction false} OwnKey(keyPrefix: string, store: map<string, seq<int>>, c: Request)
    ensures Lookup(Serve(keyPrefix, store, c).0, keyPrefix + c.key) ==
      SetAfter(c.cfg, Lookup(store, keyPrefix + c.key), c.units, c.now)
  {
  }

  lemma {:induction false} StoreIsSet(keyPrefix: string, calls: seq<Request>, j: nat, key: string)
    requires j <= |calls|
    ensures Lookup(StoreAfter(keyPrefix, calls, j), keyPrefix + key) == SetOf(calls, j, key)
  {
    if j > 0 {
      StoreIsSet(keyPrefix, calls, j - 1, key);
      var store, c := StoreAfter(keyPrefix, calls, j - 1), calls[j - 1];
      if c.key == key { OwnKey(keyPrefix, store, c); } else { OtherKey(keyPrefix, store, c, key); }
    }
  }

  /** The serial run leads to this set, at this clock and with no call under way. */
  ghost predicate Leads(cfg: Config, start: int, es: seq<Event>, clock: int, stored: seq<int>) {
    exists s: System :: s.calls == [] && s.clock == clock && s.store == stored && Run(cfg, start, es) == s
  }

  lemma {:induction false} FourStepsSet(cfg: Config, s: System, wait: nat, n: nat)
    requires s.calls == []
    ensures var t := FourSteps(cfg, s, wait, n);
      t.calls == [] && t.clock == s.clock + wait && t.store == SetAfter(cfg, s.store, n, s.clock + wait)
  {
    CallIsFourSteps(cfg, s, wait, n);
  }

  lemma {:induction false} CallRun(
    cfg: Config, start: int, es: seq<Event>, s: System, wait: nat, n: nat) returns (t: System)
    requires Run(cfg, start, es) == s && s.calls == []
    ensures Run(cfg, start, es + OneCall(wait, n)) == t
    ensures t.calls == [] && t.clock == s.clock + wait && t.store == SetAfter(cfg, s.store, n, s.clock + wait)
  {
    t := FourSteps(cfg, s, wait, n);
    FourStepsSet(cfg, s, wait, n);
    RunFour(cfg, start, es, wait, n);
  }

  lemma {:induction false} LeadsNext(
    cfg: Config, start: int, es: seq<Event>, clock: int, stored: seq<int>, n: nat, now: int)
    requires Leads(cfg, start, es, clock, stored) && clock <= now
    ensures Leads(cfg, start, es + OneCall(now - clock, n), now, SetAfter(cfg, stored, n, now))
  {
    var s: System :| s.calls == [] && s.clock == clock && s.store == stored && Run(cfg, start, es) == s;
    var t := CallRun(cfg, start, es, s, now - clock, n);
  }

  lemma {:induction false} ClockIsLast(calls: seq<Request>, j: nat, key: string, start: int, t: int)
    requires j <= |calls| && start <= t
    requires forall i | 0 <= i < j && calls[i].key == key :: calls[i].now <= t
    ensures start <= ClockOf(calls, j, key, start) <= t
  {
    if j > 0 { ClockIsLast(calls, j - 1, key, start, t); }
  }

  lemma {:induction false} ClockMoves(calls: seq<Request>, j: nat, key: string, cfg: Config, start: int)
    requires j < |calls| && InTurn(calls, key, cfg)
    requires forall i | 0 <= i < |calls| && calls[i].key == key :: start <= calls[i].now
    ensures start <= ClockOf(calls, j, key, start)
    ensures ClockOf(calls, j + 1, key, start) == if calls[j].key == key then calls[j].now else ClockOf(calls, j, key, start)
  {
    if calls[j].key == key { ClockIsLast(calls, j, key, start, calls[j].now); } else { ClockStarts(calls, j, key, start); }
  }

  lemma {:induction false} ClockStarts(calls: seq<Request>, j: nat, key: string, start: int)
    requires j <= |calls|
    ensures start <= ClockOf(calls, j, key, start)
  {
    if j > 0 { ClockStarts(calls, j - 1, key, start); }
  }

  lemma {:induction false} SetIsSerialRun(calls: seq<Request>, j: nat, key: string, cfg: Config, start: int)
    requires j <= |calls| && InTurn(calls, key, cfg)
    requires forall i | 0 <= i < |calls| && calls[i].key == key :: start <= calls[i].now
    ensures Leads(cfg, start, EventsOf(calls, j, key, start), ClockOf(calls, j, key, start), SetOf(calls, j, key))
  {
    if j > 0 {
      SetIsSerialRun(calls, j - 1, key, cfg, start);
      ClockMoves(calls, j - 1, key, cfg, start);
      if calls[j - 1].key == key {
        ClockStarts(calls, j, key, start);
        LeadsNext(cfg, start, EventsOf(calls, j - 1, key, start), ClockOf(calls, j - 1, key, start),
                  SetOf(calls, j - 1, key), calls[j - 1].units, calls[j - 1].now);
      }
    } else {
      LeadsStart(cfg, start);
    }
  }

  lemma {:induction false} LeadsStart(cfg: Config, start: int)
    ensures Leads(cfg, start, [], start, [])
  {
    assert Run(cfg, start, []) == System(start, start - cfg.window, [], [], []);
  }

  /** What is stored under a key is the sorted set of the serial run of that key's calls. */
  lemma {:induction false} StoreIsSerialRun(
    keyPrefix: string, calls: seq<Request>, j: nat, key: string, cfg: Config, start: int)
    requires j <= |calls| && InTurn(calls, key, cfg)
    requires forall i | 0 <= i < |calls| && calls[i].key == key :: start <= calls[i].now
    ensures var store, k := StoreAfter(keyPrefix, calls, j), keyPrefix + key;
      Leads(cfg, start, EventsOf(calls, j, key, start), ClockOf(calls, j, key, start), if k in store then store[k] else [])
  {
    StoreIsSet(keyPrefix, calls, j, key);
    SetIsSerialRun(calls, j, key, cfg, start);
  }

  /** A retry of one unit, with nobody else calling meanwhile, is admitted exactly from this instant on. */
  lemma {:induction false} RetryInstant(cfg: Config, s: seq<int>, t: int)
    requires Sorted(s) && 1 <= cfg.limit <= |s|
    ensures Check(cfg, s, 1, t).1 <==> s[|s| - cfg.limit] + cfg.window <= t
  {
    var cut := t - cfg.window;
    PruneDropsPrefix(s, cut);
    var d := Dropped(s, cut);
    var j := |s| - cfg.limit;
    if j < d {
      assert s[j] == s[..d][j];
    } else {
      assert s[j] == s[d..][j - d];
    }
  }

  predicate Ordered(s: System) {
    Sorted(s.store) && Below(s.store, s.clock) && Past(s.calls, s.clock)
  }

  lemma {:induction false} PrunedOrdered(store: seq<int>, cut: int, hi: int)
    requires Sorted(store) && Below(store, hi)
    ensures Sorted(Prune(store, cut)) && Below(Prune(store, cut), hi)
  {
    PruneDropsPrefix(store, cut);
  }

  lemma {:induction false} StepOrdered(cfg: Config, s: System, e: Event)
    requires Ordered(s)
    ensures Ordered(Step(cfg, s, e))
  {
    StepPast(cfg, s, e);
    if !e.Start? && e.call < |s.calls| {
      var c := s.calls[e.call];
      if e.PruneStep? { PrunedOrdered(s.store, c.at - cfg.window, s.clock); }
      if e.AddStep? { InsertManyFacts(s.store, c.at, c.units, s.clock); }
    }
  }

  lemma {:induction false} RunOrdered(cfg: Config, start: int, es: seq<Event>)
    ensures Ordered(Run(cfg, start, es))
  {
    if es != [] {
      RunOrdered(cfg, start, es[..|es| - 1]);
      StepOrdered(cfg, Run(cfg, start, es[..|es| - 1]), es[|es| - 1]);
    }
  }

  /** A state that serial calls lead to. */
  ghost predicate SerialState(cfg: Config, s: System) {
    exists start: int, es: seq<Event>, n: nat :: Bounded(cfg, start, es, 1, n) && s == Run(cfg, start, es)
  }

  lemma {:induction false} SerialFacts(cfg: Config, s: System, t: int) returns (n: nat)
    requires SerialState(cfg, s)
    ensures Inv(cfg, s, 1, n, t) && Ordered(s)
  {
    var start: int, es: seq<Event>, m: nat :| Bounded(cfg, start, es, 1, m) && s == Run(cfg, start, es);
    n := m;
    RunInv(cfg, start, es, 1, n, t);
    RunOrdered(cfg, start, es);
  }

  /**
   After serial calls the expiry of the oldest entry, from which RetryAfter is computed, is the exact earliest instant
   at which a denied single-unit call would be admitted.
   */
  lemma {:induction false} RetryAfterExact(cfg: Config, s: System, wait: nat, t: int)
    requires SerialState(cfg, s) && cfg.limit >= 1 && !Check(cfg, s.store, 1, s.clock + wait).1
    ensures var kept := Check(cfg, s.store, 1, s.clock + wait).0;
      kept != [] && (Check(cfg, kept, 1, t).1 <==> kept[0] + cfg.window <= t)
  {
    var n := SerialFacts(cfg, s, s.clock + wait);
    DeniedRetry(cfg, s, n, wait, t);
  }

  lemma {:induction false} DeniedRetry(cfg: Config, s: System, n: nat, wait: nat, t: int)
    requires Inv(cfg, s, 1, n, s.clock + wait) && Ordered(s) && cfg.limit >= 1
    requires !Check(cfg, s.store, 1, s.clock + wait).1
    ensures var kept := Check(cfg, s.store, 1, s.clock + wait).0;
      kept != [] && (Check(cfg, kept, 1, t).1 <==> kept[0] + cfg.window <= t)
  {
    var kept := Prune(s.store, s.clock + wait - cfg.window);
    KeptIsWindow(s.store, s.clock + wait - cfg.window, s.clock + wait);
    assert |kept| == cfg.limit;
    PrunedOrdered(s.store, s.clock + wait - cfg.window, s.clock);
    RetryInstant(cfg, kept, t);
  }

  /** Pruning keeps exactly the window that ends now. */
  lemma {:induction false} KeptIsWindow(store: seq<int>, cut: int, now: int)
    requires Sorted(store) && Below(store, now)
    ensures |Prune(store, cut)| == CountIn(store, cut, now)
  {
    PruneDropsPrefix(store, cut);
    CountAll(Prune(store, cut), cut, now);
    PruneCount(store, cut, cut, now);
  }

  // --- The bounds are reached --------------------------------------------------------------------------

  /** A run from instant 0 that keeps the bounds, and the order if asked for, leads to the state. */
  ghost predicate Reaches(cfg: Config, k: nat, n: nat, ordered: bool, s: System) {
    exists es: seq<Event> ::
      Bounded(cfg, 0, es, k, n) && (ordered ==> InOrder(cfg, 0, es, k, n)) && Run(cfg, 0, es) == s
  }

  lemma {:induction false} ReachesNext(cfg: Config, k: nat, n: nat, ordered: bool, s: System, e: Event)
    requires Reaches(cfg, k, n, ordered, s) && UnitsIn(e, n) && |Step(cfg, s, e).calls| <= k
    requires ordered ==> CountsInOrder(cfg, s, e)
    ensures Reaches(cfg, k, n, ordered, Step(cfg, s, e))
  {
    var es: seq<Event> :|
      Bounded(cfg, 0, es, k, n) && (ordered ==> InOrder(cfg, 0, es, k, n)) && Run(cfg, 0, es) == s;
    assert (es + [e])[..|es|] == es;
    ApprovalsAtMost(Step(cfg, s, e).calls);
    assert Bounded(cfg, 0, es + [e], k, n) && Run(cfg, 0, es + [e]) == Step(cfg, s, e);
  }

  lemma {:induction false} ApprovalsAtMost(calls: seq<Call>)
    ensures Approvals(calls) <= |calls|
  {
    if calls != [] { ApprovalsAtMost(calls[..|calls| - 1]); }
  }

  predicate Zeros(z: seq<int>) {
    forall i | 0 <= i < |z| :: z[i] == 0
  }

  /** A state at instant 0 with the units z added and `calls` under way. */
  function AtZero(cfg: Config, z: seq<int>, calls: seq<Call>): System {
    System(0, 0 - cfg.window, z, calls, z)
  }

  lemma {:induction false} ZerosInWindow(z: seq<int>, cut: int)
    requires Zeros(z) && cut < 0
    ensures Prune(z, cut) == z && CountIn(z, cut, 0) == |z|
  {
    KeepAll(z, cut);
    CountAll(z, cut, 0);
  }

  lemma {:induction false} ZerosMore(z: seq<int>, u: nat)
    requires Zeros(z)
    ensures Zeros(InsertMany(z, 0, u)) && |InsertMany(z, 0, u)| == |z| + u
  {
    if u > 0 { ZerosMore(z, u - 1); }
  }

  lemma {:induction false} CheckOne(cfg: Config, k: nat, n: nat, z: seq<int>, calls: seq<Call>, u: nat)
    requires cfg.window >= 1 && Zeros(z) && Reaches(cfg, k, n, true, AtZero(cfg, z, calls))
    requires 1 <= u <= n && |z| + u <= cfg.limit && |calls| < k
    ensures Reaches(cfg, k, n, true, AtZero(cfg, z, calls + [Call(0, u, Approved)]))
  {
    var i := |calls|;
    ZerosInWindow(z, 0 - cfg.window);
    ReachesNext(cfg, k, n, true, AtZero(cfg, z, calls), Start(0, u));
    var started := AtZero(cfg, z, calls + [Call(0, u, Started)]);
    assert Step(cfg, AtZero(cfg, z, calls), Start(0, u)) == started;
    assert At(started.calls, i, Pruned) == calls + [Call(0, u, Pruned)];
    ReachesNext(cfg, k, n, true, started, PruneStep(i));
    var pruned := AtZero(cfg, z, calls + [Call(0, u, Pruned)]);
    assert Step(cfg, started, PruneStep(i)) == pruned;
    assert At(pruned.calls, i, Approved) == calls + [Call(0, u, Approved)];
    ReachesNext(cfg, k, n, true, pruned, CountStep(i));
  }

  lemma {:induction false} AddOne(
    cfg: Config, k: nat, n: nat, z: seq<int>, calls: seq<Call>, u: nat) returns (more: seq<int>)
    requires Zeros(z) && Reaches(cfg, k, n, true, AtZero(cfg, z, calls + [Call(0, u, Approved)])) && |calls| < k
    ensures Zeros(more) && |more| == |z| + u && Reaches(cfg, k, n, true, AtZero(cfg, more, calls))
  {
    var s := AtZero(cfg, z, calls + [Call(0, u, Approved)]);
    assert s.calls[|calls|] == Call(0, u, Approved) && Without(s.calls, |calls|) == calls;
    ZerosMore(z, u);
    more := InsertMany(z, 0, u);
    ReachesNext(cfg, k, n, true, s, AddStep(|calls|));
  }

  lemma {:induction false} Fill(cfg: Config, k: nat, n: nat, m: nat) returns (z: seq<int>)
    requires cfg.window >= 1 && k >= 1 && n >= 1 && m <= cfg.limit
    ensures Zeros(z) && |z| == m && Reaches(cfg, k, n, true, AtZero(cfg, z, []))
  {
    if m == 0 {
      z := [];
      assert Bounded(cfg, 0, [], k, n) && InOrder(cfg, 0, [], k, n) && Run(cfg, 0, []) == AtZero(cfg, [], []);
    } else {
      z := Fill(cfg, k, n, m - 1);
      CheckOne(cfg, k, n, z, [], 1);
      z := AddOne(cfg, k, n, z, [], 1);
    }
  }

  function Waiting(n: nat, j: nat, stage: Stage): (calls: seq<Call>)
    ensures |calls| == j && forall i | 0 <= i < j :: calls[i] == Call(0, n, stage)
  {
    seq(j, i => Call(0, n, stage))
  }

  lemma {:induction false} WaitingNext(n: nat, j: nat, stage: Stage)
    ensures Waiting(n, j + 1, stage) == Waiting(n, j, stage) + [Call(0, n, stage)]
  {
  }

  lemma {:induction false} ManyChecks(cfg: Config, k: nat, n: nat, z: seq<int>, j: nat)
    requires cfg.window >= 1 && 1 <= n && Zeros(z) && |z| + n <= cfg.limit && j <= k
    requires Reaches(cfg, k, n, true, AtZero(cfg, z, []))
    ensures Reaches(cfg, k, n, true, AtZero(cfg, z, Waiting(n, j, Approved)))
  {
    if j == 0 {
      assert Waiting(n, 0, Approved) == [];
    } else {
      ManyChecks(cfg, k, n, z, j - 1);
      WaitingNext(n, j - 1, Approved);
      CheckOne(cfg, k, n, z, Waiting(n, j - 1, Approved), n);
    }
  }

  /** j times n, by addition. */
  function Times(j: nat, n: nat): nat { if j == 0 then 0 else Times(j - 1, n) + n }

  lemma {:induction false} TimesIsProduct(j: nat, n: nat)
    ensures Times(j, n) == j * n
  {
    if j > 0 {
      TimesIsProduct(j - 1, n);
      MulStep(j, n);
    }
  }

  lemma {:induction false} ManyAdds(cfg: Config, k: nat, n: nat, z: seq<int>, j: nat) returns (more: seq<int>)
    requires Zeros(z) && Reaches(cfg, k, n, true, AtZero(cfg, z, Waiting(n, j, Approved))) && j <= k
    ensures Zeros(more) && |more| == |z| + Times(j, n) && Reaches(cfg, k, n, true, AtZero(cfg, more, []))
    decreases j
  {
    more := z;
    if j == 0 {
      assert Waiting(n, 0, Approved) == [];
    } else {
      WaitingNext(n, j - 1, Approved);
      more := AddOne(cfg, k, n, z, Waiting(n, j - 1, Approved), n);
      more := ManyAdds(cfg, k, n, more, j - 1);
    }
  }

  lemma {:induction false} FirstWave(cfg: Config, k: nat, n: nat) returns (z: seq<int>)
    requires cfg.window >= 1 && k >= 1 && 1 <= n <= cfg.limit
    ensures Zeros(z) && |z| == cfg.limit + Times(k - 1, n) && Reaches(cfg, k, n, true, AtZero(cfg, z, []))
  {
    z := Fill(cfg, k, n, cfg.limit - n);
    ManyChecks(cfg, k, n, z, k);
    z := ManyAdds(cfg, k, n, z, k);
  }

  /** k calls that count before any of them adds do put limit + (k - 1) n units in one window. */
  lemma {:induction false} InOrderBoundReached(cfg: Config, k: nat, n: nat) returns (es: seq<Event>)
    requires cfg.window >= 1 && k >= 1 && 1 <= n <= cfg.limit
    ensures InOrder(cfg, 0, es, k, n) && InWindowOf(cfg, 0, es, 0) == cfg.limit + (k - 1) * n
  {
    es := FirstWaveRun(cfg, k, n);
    TimesIsProduct(k - 1, n);
  }

  lemma {:induction false} FirstWaveRun(cfg: Config, k: nat, n: nat) returns (es: seq<Event>)
    requires cfg.window >= 1 && k >= 1 && 1 <= n <= cfg.limit
    ensures InOrder(cfg, 0, es, k, n) && InWindowOf(cfg, 0, es, 0) == cfg.limit + Times(k - 1, n)
  {
    var z := FirstWave(cfg, k, n);
    ZerosInWindow(z, 0 - cfg.window);
    es :| Bounded(cfg, 0, es, k, n) && InOrder(cfg, 0, es, k, n) && Run(cfg, 0, es) == AtZero(cfg, z, []);
  }

  // The second wave: k - 1 calls start at instant 0, and one that starts a window later prunes before they count.

  function Late(cfg: Config): Call { Call(cfg.window, 1, Pruned) }

  /** j of the second wave's calls have been approved. */
  function SecondWave(cfg: Config, z: seq<int>, n: nat, others: nat, j: nat): System
    requires j <= others
  {
    System(cfg.window, 0, [], Waiting(n, j, Approved) + Waiting(n, others - j, Started) + [Late(cfg)], z)
  }

  lemma {:induction false} ManyStarts(cfg: Config, k: nat, n: nat, z: seq<int>, j: nat)
    requires Reaches(cfg, k, n, true, AtZero(cfg, z, [])) && j <= k && n >= 1
    ensures Reaches(cfg, k, n, true, AtZero(cfg, z, Waiting(n, j, Started)))
  {
    if j == 0 {
      assert Waiting(n, 0, Started) == [];
    } else {
      ManyStarts(cfg, k, n, z, j - 1);
      WaitingNext(n, j - 1, Started);
      ReachesNext(cfg, k, n, true, AtZero(cfg, z, Waiting(n, j - 1, Started)), Start(0, n));
    }
  }

  lemma {:induction false} AllPruned(s: seq<int>, cut: int)
    requires Below(s, cut)
    ensures Prune(s, cut) == []
  {
    if s != [] { AllPruned(s[..|s| - 1], cut); }
  }

  lemma {:induction false} Latecomer(cfg: Config, k: nat, n: nat, z: seq<int>)
    requires cfg.window >= 1 && k >= 1 && n >= 1 && Zeros(z)
    requires Reaches(cfg, k, n, true, AtZero(cfg, z, Waiting(n, k - 1, Started)))
    ensures Reaches(cfg, k, n, false, SecondWave(cfg, z, n, k - 1, 0))
  {
    AllPruned(z, 0);
    var s := AtZero(cfg, z, Waiting(n, k - 1, Started));
    assert Reaches(cfg, k, n, false, s);
    ReachesNext(cfg, k, n, false, s, Start(cfg.window, 1));
    var t := Step(cfg, s, Start(cfg.window, 1));
    assert t.calls[k - 1] == Call(cfg.window, 1, Started);
    ReachesNext(cfg, k, n, false, t, PruneStep(k - 1));
    assert At(t.calls, k - 1, Pruned) == SecondWave(cfg, z, n, k - 1, 0).calls;
  }

  lemma {:induction false} LateCheck(cfg: Config, k: nat, n: nat, z: seq<int>, j: nat)
    requires 1 <= n <= cfg.limit && cfg.window >= 1 && j + 1 < k
    requires Reaches(cfg, k, n, false, SecondWave(cfg, z, n, k - 1, j))
    ensures Reaches(cfg, k, n, false, SecondWave(cfg, z, n, k - 1, j + 1))
  {
    var s := SecondWave(cfg, z, n, k - 1, j);
    assert s.calls[j] == Call(0, n, Started);
    ReachesNext(cfg, k, n, false, s, PruneStep(j));
    var t := Step(cfg, s, PruneStep(j));
    ReachesNext(cfg, k, n, false, t, CountStep(j));
    assert At(At(s.calls, j, Pruned), j, Approved) == SecondWave(cfg, z, n, k - 1, j + 1).calls;
  }

  lemma {:induction false} LateChecks(cfg: Config, k: nat, n: nat, z: seq<int>, j: nat)
    requires 1 <= n <= cfg.limit && cfg.window >= 1 && j < k
    requires Reaches(cfg, k, n, false, SecondWave(cfg, z, n, k - 1, 0))
    ensures Reaches(cfg, k, n, false, SecondWave(cfg, z, n, k - 1, j))
  {
    if j > 0 {
      LateChecks(cfg, k, n, z, j - 1);
      LateCheck(cfg, k, n, z, j - 1);
    }
  }

  /** The first j calls, all approved for n units at instant 0, add them. */
  lemma {:induction false} LateAdds(cfg: Config, k: nat, n: nat, s: System, j: nat) returns (t: System)
    requires cfg.window >= 1 && Reaches(cfg, k, n, false, s) && j <= |s.calls| <= k
    requires forall i | 0 <= i < j :: s.calls[i] == Call(0, n, Approved)
    ensures Reaches(cfg, k, n, false, t)
    ensures CountIn(t.admitted, 0 - cfg.window, 0) == CountIn(s.admitted, 0 - cfg.window, 0) + Times(j, n)
    decreases j
  {
    t := s;
    if j > 0 {
      InsertManyCount(s.admitted, 0, n, 0 - cfg.window, 0);
      ReachesNext(cfg, k, n, false, s, AddStep(0));
      t := LateAdds(cfg, k, n, Step(cfg, s, AddStep(0)), j - 1);
    }
  }

  lemma {:induction false} SecondWaveStarts(cfg: Config, k: nat, n: nat) returns (z: seq<int>)
    requires cfg.window >= 1 && k >= 1 && 1 <= n <= cfg.limit
    ensures Zeros(z) && |z| == cfg.limit + Times(k - 1, n) && Reaches(cfg, k, n, false, SecondWave(cfg, z, n, k - 1, 0))
  {
    z := FirstWave(cfg, k, n);
    ManyStarts(cfg, k, n, z, k - 1);
    Latecomer(cfg, k, n, z);
  }

  lemma {:induction false} BothWaves(cfg: Config, k: nat, n: nat) returns (t: System)
    requires cfg.window >= 1 && k >= 1 && 1 <= n <= cfg.limit
    ensures Reaches(cfg, k, n, false, t)
    ensures CountIn(t.admitted, 0 - cfg.window, 0) == cfg.limit + Times(k - 1, n) + Times(k - 1, n)
  {
    var z := SecondWaveStarts(cfg, k, n);
    LateChecks(cfg, k, n, z, k - 1);
    t := SecondAdds(cfg, k, n, z);
  }

  lemma {:induction false} AllApproved(cfg: Config, z: seq<int>, n: nat, others: nat)
    ensures var calls := SecondWave(cfg, z, n, others, others).calls;
      |calls| == others + 1 && forall i | 0 <= i < others :: calls[i] == Call(0, n, Approved)
  {
  }

  lemma {:induction false} SecondAdds(cfg: Config, k: nat, n: nat, z: seq<int>) returns (t: System)
    requires cfg.window >= 1 && k >= 1 && Zeros(z)
    requires Reaches(cfg, k, n, false, SecondWave(cfg, z, n, k - 1, k - 1))
    ensures Reaches(cfg, k, n, false, t)
    ensures CountIn(t.admitted, 0 - cfg.window, 0) == |z| + Times(k - 1, n)
  {
    ZerosInWindow(z, 0 - cfg.window);
    AllApproved(cfg, z, n, k - 1);
    t := LateAdds(cfg, k, n, SecondWave(cfg, z, n, k - 1, k - 1), k - 1);
  }

  /** Some interleaving within the bounds k and n does put limit + 2 (k - 1) n units in one window. */
  lemma {:induction false} OverAdmissionReached(cfg: Config, k: nat, n: nat) returns (es: seq<Event>)
    requires cfg.window >= 1 && k >= 1 && 1 <= n <= cfg.limit
    ensures Bounded(cfg, 0, es, k, n)
    ensures InWindowOf(cfg, 0, es, 0) == cfg.limit + 2 * ((k - 1) * n)
  {
    var t := BothWaves(cfg, k, n);
    es :| Bounded(cfg, 0, es, k, n) && Run(cfg, 0, es) == t;
    TimesIsProduct(k - 1, n);
  }
}
