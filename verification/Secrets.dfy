/**
 The secret manager and its cache, pkg/secrets/secrets.go.

 First the manager as serial code, which refines reading the provider directly; then its calls step by step, interleaved
 with each other and with writes that bypass it, where the age of an answer is bounded.
 */
module Secrets {
  import opened Prelude

  datatype Secret = Secret(value: string, version: string)

  datatype CacheEntry = CacheEntry(secret: Secret, expiresAt: int)

  datatype SecretError = ProviderNotFound | ProviderFailed

  /** Providers by name, each with what it stores; a time to live that is not positive means no cache. */
  datatype Managed = Managed(
    providers: map<string, map<string, Secret>>, primary: string, cacheTtl: int, cache: map<string, CacheEntry>)

  predicate Fresh(m: Managed, key: string, now: int) {
    m.cacheTtl > 0 && key in m.cache && now <= m.cache[key].expiresAt
  }

  /** The provider's own answer; `ok` says whether it can be reached. */
  function Fetch(m: Managed, name: string, key: string, ok: bool): Result<Secret, SecretError> {
    if name !in m.providers then Failure(ProviderNotFound)
    else if !ok || key !in m.providers[name] then Failure(ProviderFailed)
    else Success(m.providers[name][key])
  }

  /** GetFrom: the cache is looked up at `now` and filled at `done`. */
  function Look(m: Managed, name: string, key: string, now: int, done: int, ok: bool): (Managed, Result<Secret, SecretError>) {
    if Fresh(m, key, now) then (m, Success(m.cache[key].secret))
    else
      match Fetch(m, name, key, ok)
      case Failure(e) => (m, Failure(e))
      case Success(secret) =>
        if m.cacheTtl > 0 then (m.(cache := m.cache[key := CacheEntry(secret, done + m.cacheTtl)]), Success(secret))
        else (m, Success(secret))
  }

  /** Put of a value that the primary provider turns into `secret`, unless it refuses. */
  function Store(m: Managed, key: string, secret: Secret, ok: bool): (Managed, Option<SecretError>) {
    if m.primary !in m.providers then (m, Some(ProviderNotFound))
    else if !ok then (m, Some(ProviderFailed))
    else
      (m.(providers := m.providers[m.primary := m.providers[m.primary][key := secret]], cache := m.cache - {key}), None)
  }

  class Manager {
    var providers: map<string, map<string, Secret>>
    var primary: string
    const cacheTtl: int
    var cache: map<string, CacheEntry>

    ghost function View(): Managed reads this { Managed(providers, primary, cacheTtl, cache) }

    constructor (primaryProvider: string, cacheTtl: int)
      ensures View() == Managed(map[], primaryProvider, cacheTtl, map[])
    {
      providers, primary, cache := map[], primaryProvider, map[];
      this.cacheTtl := cacheTtl;
    }

    /** The first provider of a manager without a primary one becomes it. */
    method RegisterProvider(name: string, secrets: map<string, Secret>)
      modifies this
      ensures View() == old(View()).(
        providers := old(providers)[name := secrets], primary := if old(primary) == "" then name else old(primary))
    {
      providers := providers[name := secrets];
      if primary == "" { primary := name; }
    }

    method GetFrom(name: string, key: string, now: int, done: int, ok: bool) returns (r: Result<Secret, SecretError>)
      modifies this
      ensures View() == Look(old(View()), name, key, now, done, ok).0
      ensures r == Look(old(View()), name, key, now, done, ok).1
    {
      if cacheTtl > 0 && key in cache && !(now > cache[key].expiresAt) {
        return Success(cache[key].secret);
      }
      if name !in providers { return Failure(ProviderNotFound); }
      if !ok || key !in providers[name] { return Failure(ProviderFailed); }
      var secret := providers[name][key];
      if cacheTtl > 0 { cache := cache[key := CacheEntry(secret, done + cacheTtl)]; }
      return Success(secret);
    }

    method Get(key: string, now: int, done: int, ok: bool) returns (r: Result<Secret, SecretError>)
      modifies this
      ensures View() == Look(old(View()), old(primary), key, now, done, ok).0
      ensures r == Look(old(View()), old(primary), key, now, done, ok).1
    {
      r := GetFrom(primary, key, now, done, ok);
    }

    method Put(key: string, secret: Secret, ok: bool) returns (err: Option<SecretError>)
      modifies this
      ensures View() == Store(old(View()), key, secret, ok).0
      ensures err == Store(old(View()), key, secret, ok).1
    {
      if primary !in providers { return Some(ProviderNotFound); }
      if !ok { return Some(ProviderFailed); }
      providers := providers[primary := providers[primary][key := secret]];
      cache := cache - {key};
      return None;
    }
  }

  // --- Serial runs over one provider -------------------------------------------------------------

  datatype Operation =
    | GetOp(key: string, now: int, done: int, ok: bool)
    | PutOp(key: string, secret: Secret, ok: bool)

  function Perform(m: Managed, op: Operation): Managed {
    match op
    case GetOp(key, now, done, ok) => Look(m, m.primary, key, now, done, ok).0
    case PutOp(key, secret, ok) => Store(m, key, secret, ok).0
  }

  function RunSerial(m: Managed, ops: seq<Operation>): Managed {
    if ops == [] then m else Perform(RunSerial(m, ops[..|ops| - 1]), ops[|ops| - 1])
  }

  /** A manager as it is before its first call. */
  predicate Unused(m: Managed) { m.cache == map[] }

  predicate Coherent(m: Managed) {
    forall key | key in m.cache :: Fetch(m, m.primary, key, true) == Success(m.cache[key].secret)
  }

  lemma {:induction false} PerformCoherent(m: Managed, op: Operation)
    requires Coherent(m)
    ensures Coherent(Perform(m, op)) && Perform(m, op).primary == m.primary
  {
  }

  /**
   With all writes through Put, every serial Get answers what reading the provider at that moment would, or, while the
   provider cannot be reached, what it would have answered.
   */
  lemma {:induction false} CacheIsTransparent(m: Managed, ops: seq<Operation>, key: string, now: int, done: int, ok: bool)
    requires Unused(m)
    ensures var s := RunSerial(m, ops);
      && Coherent(s)
      && Look(s, s.primary, key, now, done, ok).1 == Fetch(s, s.primary, key, ok || Fresh(s, key, now))
  {
    if ops != [] {
      CacheIsTransparent(m, ops[..|ops| - 1], key, now, done, ok);
      PerformCoherent(RunSerial(m, ops[..|ops| - 1]), ops[|ops| - 1]);
    }
  }

  /** What a provider stores is what reads of it are made of: a run's writes are those of its accepted Puts. */
  lemma {:induction false} LastPutIsStored(m: Managed, ops: seq<Operation>, key: string)
    requires m.primary in m.providers
    ensures var s := RunSerial(m, ops);
      && s.primary == m.primary && s.primary in s.providers
      && (match LastPut(ops, key)
          case Some(secret) => Fetch(s, s.primary, key, true) == Success(secret)
          case None => Fetch(s, s.primary, key, true) == Fetch(m, m.primary, key, true))
  {
    if ops != [] {
      LastPutIsStored(m, ops[..|ops| - 1], key);
    }
  }

  function LastPut(ops: seq<Operation>, key: string): Option<Secret> {
    if ops == [] then None
    else
      var op := ops[|ops| - 1];
      if op.PutOp? && op.key == key && op.ok then Some(op.secret) else LastPut(ops[..|ops| - 1], key)
  }

  /** The cache does not know which provider an entry came from: another one's read answers with it. */
  lemma {:induction false} CacheIgnoresProvider(m: Managed, a: string, b: string, key: string, now: int)
    requires Unused(m) && m.cacheTtl > 0 && a in m.providers && b in m.providers
    requires key in m.providers[a] && key in m.providers[b]
    ensures var after := Look(m, a, key, now, now, true).0;
      Look(after, b, key, now, now, true).1 == Fetch(m, b, key, true) <==> m.providers[a][key] == m.providers[b][key]
  {
  }

  /**
   A secret that was read at `now` and cached at `done` answers every read of that key up to and including `done` plus the
   time to live, whatever has happened to the providers; after that, and for keys that are not cached, the provider asked
   decides.
   */
  lemma {:induction false} CachedExactly(
    m: Managed, a: string, key: string, now: int, done: int, providers: map<string, map<string, Secret>>,
    b: string, other: string, later: int, ok: bool)
    requires key !in m.cache && a in m.providers && key in m.providers[a] && other !in m.cache
    ensures Look(m, a, key, now, done, true).1 == Success(m.providers[a][key])
    ensures var changed := Look(m, a, key, now, done, true).0.(providers := providers);
      Look(changed, b, other, later, later, ok).1 ==
        if other == key && m.cacheTtl > 0 && later <= done + m.cacheTtl then Success(m.providers[a][key])
        else if b !in providers then Failure(ProviderNotFound)
        else if !ok || other !in providers[b] then Failure(ProviderFailed)
        else Success(providers[b][other])
  {
  }

  /** A Put is refused without a primary provider or by it; otherwise it changes just that key there and uncaches it. */
  lemma {:induction false} PutExact(m: Managed, key: string, secret: Secret, ok: bool)
    ensures var (m', error) := Store(m, key, secret, ok);
      && (error == Some(ProviderNotFound) <==> m.primary !in m.providers)
      && (error == Some(ProviderFailed) <==> m.primary in m.providers && !ok)
      && (error.Some? ==> m' == m)
      && (error.None? ==>
          && m'.providers.Keys == m.providers.Keys && m'.cache == m.cache - {key}
          && (forall p | p in m.providers && p != m.primary :: m'.providers[p] == m.providers[p])
          && m'.providers[m.primary] == m.providers[m.primary][key := secret]
          && m' == m.(providers := m'.providers, cache := m'.cache))
  {
  }

  // --- Interleavings -----------------------------------------------------------------------------------

  /** A change of what the provider stores under a key, from whatever side. */
  datatype Write = Write(at: int, key: string, value: Option<Secret>)

  function Stored(history: seq<Write>, key: string): Option<Secret> {
    if history == [] then None
    else if history[|history| - 1].key == key then history[|history| - 1].value
    else Stored(history[..|history| - 1], key)
  }

  /** After i writes the provider stored the secret, and that moment lies in the instant `at`. */
  predicate HeldAfter(history: seq<Write>, i: nat, key: string, secret: Secret, at: int)
    requires i <= |history|
  {
    && Stored(history[..i], key) == Some(secret)
    && (i == 0 || history[i - 1].at <= at)
    && (i == |history| || at <= history[i].at)
  }

  ghost predicate Held(history: seq<Write>, key: string, secret: Secret, at: int) {
    exists i: nat | i <= |history| :: HeldAfter(history, i, key, secret, at)
  }

  /** A Get: it missed the cache, or has read the provider, or has answered with a secret read at `source`. */
  datatype Call =
    | Missed(key: string)
    | Read(key: string, secret: Secret, source: int)
    | Answered(key: string, secret: Secret, source: int, at: int)
    | NotAnswered

  datatype Cached = Cached(secret: Secret, expiresAt: int, source: int)

  datatype System = System(history: seq<Write>, cache: map<string, Cached>, calls: seq<Call>, clock: int)

  datatype Event =
    | Change(key: string, value: Option<Secret>)
    | Invalidate(key: string)
    | Begin(key: string)
    | ReadProvider(call: nat, ok: bool)
    | Fill(call: nat)

  datatype Timed = Timed(now: int, event: Event)

  const EMPTY := System([], map[], [], 0)

  /** `latency` is the longest time a Get takes from reading the provider to filling the cache. */
  function Act(ttl: int, latency: int, s: System, e: Event): System {
    match e
    case Change(key, value) => s.(history := s.history + [Write(s.clock, key, value)])
    case Invalidate(key) => s.(cache := s.cache - {key})
    case Begin(key) =>
      if key in s.cache && s.clock <= s.cache[key].expiresAt
      then s.(calls := s.calls + [Answered(key, s.cache[key].secret, s.cache[key].source, s.clock)])
      else s.(calls := s.calls + [Missed(key)])
    case ReadProvider(i, ok) =>
      if i < |s.calls| && s.calls[i].Missed? then
        match (if ok then Stored(s.history, s.calls[i].key) else None)
        case Some(secret) => s.(calls := s.calls[i := Read(s.calls[i].key, secret, s.clock)])
        case None => s.(calls := s.calls[i := NotAnswered])
      else s
    case Fill(i) =>
      if i < |s.calls| && s.calls[i].Read? && s.clock <= s.calls[i].source + latency then
        var c := s.calls[i];
        s.(cache := s.cache[c.key := Cached(c.secret, s.clock + ttl, c.source)],
           calls := s.calls[i := Answered(c.key, c.secret, c.source, s.clock)])
      else s
  }

  function Step(ttl: int, latency: int, s: System, t: Timed): System {
    if t.now < s.clock then s else Act(ttl, latency, s.(clock := t.now), t.event)
  }

  function RunFrom(ttl: int, latency: int, s: System, es: seq<Timed>): System {
    if es == [] then s else Step(ttl, latency, RunFrom(ttl, latency, s, es[..|es| - 1]), es[|es| - 1])
  }

  function Run(ttl: int, latency: int, es: seq<Timed>): System { RunFrom(ttl, latency, EMPTY, es) }

  ghost predicate CallGood(ttl: int, latency: int, s: System, c: Call) {
    match c
    case Read(key, secret, source) => source <= s.clock && Held(s.history, key, secret, source)
    case Answered(key, secret, source, at) =>
      at - ttl - latency <= source <= at <= s.clock && Held(s.history, key, secret, source)
    case _ => true
  }

  ghost predicate CachedGood(ttl: int, latency: int, s: System, key: string)
    requires key in s.cache
  {
    var c := s.cache[key];
    && c.source <= s.clock && c.expiresAt <= c.source + latency + ttl
    && Held(s.history, key, c.secret, c.source)
  }

  ghost predicate Inv(ttl: int, latency: int, s: System) {
    && (forall i | 0 <= i < |s.calls| :: CallGood(ttl, latency, s, s.calls[i]))
    && (forall key | key in s.cache :: CachedGood(ttl, latency, s, key))
    && (forall i | 0 <= i < |s.history| :: s.history[i].at <= s.clock)
  }

  lemma {:induction false} HeldStays(history: seq<Write>, w: Write, key: string, secret: Secret, at: int)
    requires Held(history, key, secret, at) && at <= w.at
    ensures Held(history + [w], key, secret, at)
  {
    var i: nat :| i <= |history| && HeldAfter(history, i, key, secret, at);
    assert (history + [w])[..i] == history[..i];
    assert HeldAfter(history + [w], i, key, secret, at);
  }

  lemma {:induction false} HeldNow(history: seq<Write>, key: string, secret: Secret, now: int)
    requires Stored(history, key) == Some(secret)
    requires forall i | 0 <= i < |history| :: history[i].at <= now
    ensures Held(history, key, secret, now)
  {
    assert history[..|history|] == history;
    assert HeldAfter(history, |history|, key, secret, now);
  }

  lemma {:induction false} ChangeInv(ttl: int, latency: int, s: System, key: string, value: Option<Secret>)
    requires Inv(ttl, latency, s)
    ensures Inv(ttl, latency, Act(ttl, latency, s, Change(key, value)))
  {
    var w := Write(s.clock, key, value);
    forall k, secret, at | at <= s.clock && Held(s.history, k, secret, at) ensures Held(s.history + [w], k, secret, at) {
      HeldStays(s.history, w, k, secret, at);
    }
  }

  lemma {:induction false} CallInv(ttl: int, latency: int, s: System, e: Event)
    requires 0 <= latency && 0 < ttl && Inv(ttl, latency, s) && !e.Change?
    ensures Inv(ttl, latency, Act(ttl, latency, s, e))
  {
    if e.ReadProvider? && e.call < |s.calls| && s.calls[e.call].Missed? && e.ok {
      match Stored(s.history, s.calls[e.call].key)
      case Some(secret) => HeldNow(s.history, s.calls[e.call].key, secret, s.clock);
      case None =>
    }
  }

  lemma {:induction false} RunInv(ttl: int, latency: int, es: seq<Timed>)
    requires 0 <= latency && 0 < ttl
    ensures Inv(ttl, latency, Run(ttl, latency, es))
  {
    if es != [] {
      RunInv(ttl, latency, es[..|es| - 1]);
      var s, t := Run(ttl, latency, es[..|es| - 1]), es[|es| - 1];
      if t.now >= s.clock {
        var r := s.(clock := t.now);
        assert Inv(ttl, latency, r);
        if t.event.Change? { ChangeInv(ttl, latency, r, t.event.key, t.event.value); } else { CallInv(ttl, latency, r, t.event); }
      }
    }
  }

  /**
   Bounded staleness, in every interleaving and whoever writes to the provider: a secret answered at t was the provider's
   at some instant no later than t and no earlier than t minus the time to live and the latency of a fill.
   */
  lemma {:induction false} AnswersAreRecent(ttl: int, latency: int, es: seq<Timed>, i: nat)
    requires 0 <= latency && 0 < ttl
    requires i < |Run(ttl, latency, es).calls| && Run(ttl, latency, es).calls[i].Answered?
    ensures var s := Run(ttl, latency, es); var c := s.calls[i];
      exists at | c.at - ttl - latency <= at <= c.at :: Held(s.history, c.key, c.secret, at)
  {
    RunInv(ttl, latency, es);
    var s := Run(ttl, latency, es);
    assert CallGood(ttl, latency, s, s.calls[i]);
  }

  // --- When a completed Put is seen ----------------------------------------------------------------------

  /** The provider stored the secret at some point after write p. */
  ghost predicate Since(history: seq<Write>, key: string, secret: Secret, p: nat) {
    exists i: nat | p < i <= |history| :: Stored(history[..i], key) == Some(secret)
  }

  /** A call on the key has read a secret that is older than write p, and can still fill the cache with it. */
  ghost predicate Stale(latency: int, s: System, i: nat, key: string, p: nat) {
    && i < |s.calls| && s.calls[i].Read? && s.calls[i].key == key
    && s.clock <= s.calls[i].source + latency && !Since(s.history, key, s.calls[i].secret, p)
  }

  ghost predicate AnswersSince(s: System, base: nat, key: string, p: nat) {
    forall i | base <= i < |s.calls| && s.calls[i].Answered? && s.calls[i].key == key ::
      Since(s.history, key, s.calls[i].secret, p)
  }

  /** Whatever happens next, every Get of the key that begins from now on and answers does so with a secret stored after write p. */
  ghost predicate SeenByAll(ttl: int, latency: int, s: System, key: string, p: nat) {
    forall es: seq<Timed> :: AnswersSince(RunFrom(ttl, latency, s, es), |s.calls|, key, p)
  }

  ghost predicate Seen(latency: int, s: System, base: nat, key: string, p: nat) {
    && base <= |s.calls| && p < |s.history|
    && (forall i: nat :: !Stale(latency, s, i, key, p))
    && (key in s.cache ==> Since(s.history, key, s.cache[key].secret, p))
    && AnswersSince(s, base, key, p)
  }

  lemma {:induction false} SinceStays(history: seq<Write>, w: Write, key: string, secret: Secret, p: nat)
    requires Since(history, key, secret, p)
    ensures Since(history + [w], key, secret, p)
  {
    var i: nat :| p < i <= |history| && Stored(history[..i], key) == Some(secret);
    assert (history + [w])[..i] == history[..i];
  }

  lemma {:induction false} SinceNow(history: seq<Write>, key: string, secret: Secret, p: nat)
    requires p < |history| && Stored(history, key) == Some(secret)
    ensures Since(history, key, secret, p)
  {
    assert history[..|history|] == history;
  }

  lemma {:induction false} ChangeSeen(
    ttl: int, latency: int, s: System, base: nat, key: string, p: nat, k: string, value: Option<Secret>)
    requires Seen(latency, s, base, key, p)
    ensures Seen(latency, Act(ttl, latency, s, Change(k, value)), base, key, p)
  {
    forall secret | Since(s.history, key, secret, p) ensures Since(s.history + [Write(s.clock, k, value)], key, secret, p) {
      SinceStays(s.history, Write(s.clock, k, value), key, secret, p);
    }
    forall j: nat ensures !Stale(latency, Act(ttl, latency, s, Change(k, value)), j, key, p) {
      assert !Stale(latency, s, j, key, p);
    }
  }

  lemma {:induction false} ReadSeen(ttl: int, latency: int, s: System, base: nat, key: string, p: nat, i: nat, ok: bool)
    requires Seen(latency, s, base, key, p)
    ensures Seen(latency, Act(ttl, latency, s, ReadProvider(i, ok)), base, key, p)
  {
    var r := Act(ttl, latency, s, ReadProvider(i, ok));
    forall j: nat ensures !Stale(latency, r, j, key, p) {
      assert !Stale(latency, s, j, key, p);
      if j == i && j < |r.calls| && r.calls[j] != s.calls[j] && r.calls[j].Read? && r.calls[j].key == key {
        SinceNow(s.history, key, r.calls[j].secret, p);
      }
    }
  }

  lemma {:induction false} OtherSeen(ttl: int, latency: int, s: System, base: nat, key: string, p: nat, e: Event)
    requires Seen(latency, s, base, key, p) && !e.Change? && !e.ReadProvider?
    ensures Seen(latency, Act(ttl, latency, s, e), base, key, p)
  {
    var r := Act(ttl, latency, s, e);
    forall j: nat ensures !Stale(latency, r, j, key, p) { assert !Stale(latency, s, j, key, p); }
    if e.Fill? { assert !Stale(latency, s, e.call, key, p); }
  }

  lemma {:induction false} StepSeen(ttl: int, latency: int, s: System, base: nat, key: string, p: nat, t: Timed)
    requires Seen(latency, s, base, key, p)
    ensures Seen(latency, Step(ttl, latency, s, t), base, key, p)
  {
    if t.now >= s.clock {
      var later := s.(clock := t.now);
      forall j: nat ensures !Stale(latency, later, j, key, p) { assert !Stale(latency, s, j, key, p); }
      match t.event
      case Change(k, value) => ChangeSeen(ttl, latency, later, base, key, p, k, value);
      case ReadProvider(i, ok) => ReadSeen(ttl, latency, later, base, key, p, i, ok);
      case _ => OtherSeen(ttl, latency, later, base, key, p, t.event);
    }
  }

  lemma {:induction false} RunSeen(ttl: int, latency: int, s: System, base: nat, key: string, p: nat, es: seq<Timed>)
    requires Seen(latency, s, base, key, p)
    ensures Seen(latency, RunFrom(ttl, latency, s, es), base, key, p)
  {
    if es != [] {
      RunSeen(ttl, latency, s, base, key, p, es[..|es| - 1]);
      StepSeen(ttl, latency, RunFrom(ttl, latency, s, es[..|es| - 1]), base, key, p, es[|es| - 1]);
    }
  }

  /** A stale read fills the cache, and the next Get answers with it. */
  lemma {:induction false} StaleIsAnswered(
    ttl: int, latency: int, s: System, i: nat, key: string, p: nat) returns (es: seq<Timed>)
    requires 0 <= ttl && Stale(latency, s, i, key, p)
    ensures !AnswersSince(RunFrom(ttl, latency, s, es), |s.calls|, key, p)
  {
    var fill, begin := Timed(s.clock, Fill(i)), Timed(s.clock, Begin(key));
    es := [fill, begin];
    assert es[..1] == [fill] && [fill][..0] == [] && RunFrom(ttl, latency, s, []) == s;
    var filled := Step(ttl, latency, s, fill);
    assert RunFrom(ttl, latency, s, [fill]) == filled;
    var r := Step(ttl, latency, filled, begin);
    assert RunFrom(ttl, latency, s, es) == r;
    assert r.calls[|s.calls|] == Answered(key, s.calls[i].secret, s.calls[i].source, s.clock) && r.history == s.history;
  }

  /**
   When a Put has changed the provider and invalidates the key, every Get that begins afterwards answers with a secret
   stored since that change, in every continuation, exactly if no call on the key then holds an older secret that it can
   still put into the cache.
   */
  lemma {:induction false} PutIsSeen(ttl: int, latency: int, s: System, key: string, p: nat)
    requires 0 <= ttl && p < |s.history|
    ensures SeenByAll(ttl, latency, Act(ttl, latency, s, Invalidate(key)), key, p)
      <==> forall i: nat :: !Stale(latency, s, i, key, p)
  {
    var r := Act(ttl, latency, s, Invalidate(key));
    assert forall i: nat :: Stale(latency, r, i, key, p) <==> Stale(latency, s, i, key, p);
    if i: nat :| Stale(latency, s, i, key, p) {
      var es := StaleIsAnswered(ttl, latency, r, i, key, p);
      assert !AnswersSince(RunFrom(ttl, latency, r, es), |r.calls|, key, p);
    } else {
      forall es: seq<Timed> ensures AnswersSince(RunFrom(ttl, latency, r, es), |r.calls|, key, p) {
        RunSeen(ttl, latency, r, |r.calls|, key, p, es);
      }
    }
  }

  // --- The serial manager is the steps undisturbed -------------------------------------------------------

  /** The serial manager and the system have the same cache and the same secrets in the primary provider. */
  ghost predicate Mirrors(m: Managed, s: System) {
    && m.cacheTtl > 0 && m.primary in m.providers
    && (forall key :: Stored(s.history, key) ==
          if key in m.providers[m.primary] then Some(m.providers[m.primary][key]) else None)
    && (forall key :: key in m.cache <==> key in s.cache)
    && (forall key | key in m.cache :: m.cache[key] == CacheEntry(s.cache[key].secret, s.cache[key].expiresAt))
  }

  /** A Get with nobody in between: begin, read the provider, fill the cache. */
  lemma {:induction false} GetIsItsSteps(m: Managed, s: System, latency: int, key: string, now: int, done: int, ok: bool)
    requires Mirrors(m, s) && s.clock <= now <= done <= now + latency
    ensures var i := |s.calls|; var (m', r) := Look(m, m.primary, key, now, done, ok);
      var s1 := Step(m.cacheTtl, latency, s, Timed(now, Begin(key)));
      var s3 := Step(m.cacheTtl, latency, Step(m.cacheTtl, latency, s1, Timed(now, ReadProvider(i, ok))), Timed(done, Fill(i)));
      && Mirrors(m', s3) && |s3.calls| == i + 1
      && match r
         case Success(secret) => s3.calls[i].Answered? && s3.calls[i].key == key && s3.calls[i].secret == secret
         case Failure(_) => s3.calls[i].NotAnswered?
  {
  }

  /** An accepted Put is a change and an invalidation. */
  lemma {:induction false} PutIsItsSteps(m: Managed, s: System, latency: int, key: string, secret: Secret, now: int)
    requires Mirrors(m, s) && s.clock <= now
    ensures var s1 := Step(m.cacheTtl, latency, s, Timed(now, Change(key, Some(secret))));
      Mirrors(Store(m, key, secret, true).0, Step(m.cacheTtl, latency, s1, Timed(now, Invalidate(key))))
  {
    var history := s.history + [Write(now, key, Some(secret))];
    assert history[..|s.history|] == s.history;
  }
}
