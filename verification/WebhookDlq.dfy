/**
 The dead letter queue for failed webhook deliveries, pkg/webhook/dlq.go: one row per delivery, retried by a worker on a
 fixed schedule until it succeeds, runs out of attempts or expires, with manual Replay and Abandon.

 Times are instants of one clock.  A run interleaves one worker, which may crash between any two calls, with anything
 the other callers do.
 */
module WebhookDlq {
  import opened Prelude

  datatype Status = Pending | Retrying | Succeeded | Exhausted | Expired | Abandoned

  /** What the caller hands over: the payload and why its delivery failed. */
  datatype Delivery = Delivery(webhookId: string, payload: string, reason: string, statusCode: int)

  datatype Entry = Entry(
    delivery: Delivery, attemptCount: int, maxAttempts: int, firstFailedAt: int, lastAttemptedAt: int,
    nextRetryAt: Option<int>, expiresAt: int, status: Status)

  type Table = map<string, Entry>

  const MINUTE := 60_000_000_000
  const HOUR := 60 * MINUTE

  datatype Config = Config(maxRetries: int, retryDelays: seq<int>, ttl: int)

  predicate Configured(cfg: Config) { cfg.maxRetries != 0 && cfg.retryDelays != [] && cfg.ttl != 0 }

  /** Zero values stand for the defaults. */
  function WithDefaults(cfg: Config): (r: Config)
    ensures Configured(r)
    ensures Configured(cfg) ==> r == cfg
  {
    Config(if cfg.maxRetries == 0 then 5 else cfg.maxRetries,
           if cfg.retryDelays == [] then [MINUTE, 5 * MINUTE, 30 * MINUTE, 2 * HOUR, 6 * HOUR] else cfg.retryDelays,
           if cfg.ttl == 0 then 7 * 24 * HOUR else cfg.ttl)
  }

  /** The delay after an attempt; the last one repeats. */
  function RetryDelay(cfg: Config, attemptCount: int): int
    requires Configured(cfg)
  {
    var n := if attemptCount <= 0 then 1 else attemptCount;
    if n - 1 >= |cfg.retryDelays| then cfg.retryDelays[|cfg.retryDelays| - 1] else cfg.retryDelays[n - 1]
  }

  // --- Statements --------------------------------------------------------------------------------

  function NewEntry(cfg: Config, d: Delivery, now: int): Entry
    requires Configured(cfg)
  {
    Entry(d, 1, cfg.maxRetries, now, now, Some(now + RetryDelay(cfg, 1)), now + cfg.ttl, Pending)
  }

  function SetStatus(t: Table, id: string, status: Status): Table {
    if id in t then t[id := t[id].(status := status)] else t
  }

  function Succeed(t: Table, id: string, now: int): Table {
    if id in t then t[id := t[id].(status := Status.Succeeded, lastAttemptedAt := now, nextRetryAt := None)] else t
  }

  function Failed(cfg: Config, e: Entry, reason: string, statusCode: int, now: int): Entry
    requires Configured(cfg)
  {
    var n := e.attemptCount + 1;
    var spent := n >= e.maxAttempts;
    e.(status := if spent then Exhausted else Pending,
       attemptCount := n,
       lastAttemptedAt := now,
       nextRetryAt := if spent then None else Some(now + RetryDelay(cfg, n)),
       delivery := e.delivery.(reason := reason, statusCode := statusCode))
  }

  function Replayed(t: Table, id: string, now: int): Table {
    if id in t then t[id := t[id].(status := Pending, nextRetryAt := Some(now))] else t
  }

  function Cleaned(t: Table, now: int): Table {
    map id | id in t :: if t[id].status == Pending && t[id].expiresAt <= now then t[id].(status := Expired) else t[id]
  }

  /** The WHERE clause of GetPendingRetries; a NULL next_retry_at is not due. */
  predicate Ready(e: Entry, now: int) {
    e.status == Pending && e.nextRetryAt.Some? && e.nextRetryAt.value <= now && e.expiresAt > now
  }

  predicate ReadyIn(t: Table, id: string, now: int) { id in t && Ready(t[id], now) }

  predicate Distinct(ids: seq<string>) {
    forall i, j | 0 <= i < j < |ids| :: ids[i] != ids[j]
  }

  function DueAt(t: Table, id: string): int {
    if id in t && t[id].nextRetryAt.Some? then t[id].nextRetryAt.value else 0
  }

  /** At most `limit` entries that are ready, earliest first; whatever is left out is no earlier than any listed. */
  ghost predicate Listing(t: Table, ids: seq<string>, limit: nat, now: int) {
    && |ids| <= limit && Distinct(ids)
    && (forall i | 0 <= i < |ids| :: ReadyIn(t, ids[i], now))
    && (forall i, j | 0 <= i < j < |ids| :: DueAt(t, ids[i]) <= DueAt(t, ids[j]))
    && (forall id | ReadyIn(t, id, now) && id !in ids ::
          |ids| == limit && forall i | 0 <= i < |ids| :: DueAt(t, ids[i]) <= DueAt(t, id))
  }

  /** The listing so far, and the ready entries that are left. */
  ghost predicate Picked(t: Table, ids: seq<string>, rest: set<string>, now: int) {
    && Distinct(ids)
    && (forall id :: id in rest <==> ReadyIn(t, id, now) && id !in ids)
    && (forall i | 0 <= i < |ids| :: ReadyIn(t, ids[i], now))
    && (forall i, id | 0 <= i < |ids| && id in rest :: DueAt(t, ids[i]) <= DueAt(t, id))
    && (forall i, j | 0 <= i < j < |ids| :: DueAt(t, ids[i]) <= DueAt(t, ids[j]))
  }

  lemma {:induction false} PickStep(t: Table, ids: seq<string>, rest: set<string>, now: int, id: string)
    requires Picked(t, ids, rest, now) && id in rest
    requires forall other | other in rest :: DueAt(t, id) <= DueAt(t, other)
    ensures Picked(t, ids + [id], rest - {id}, now)
  {
  }

  class DeadLetterQueue {
    var table: Table
    const cfg: Config

    ghost predicate Valid() { Configured(cfg) }

    constructor (cfg: Config)
      ensures Valid() && this.cfg == WithDefaults(cfg) && table == map[]
    {
      this.cfg, table := WithDefaults(cfg), map[];
    }

    function GetRetryDelay(attemptCount: int): (delay: int)
      requires Valid()
      ensures delay in cfg.retryDelays
      ensures delay == RetryDelay(cfg, attemptCount)
    {
      var n := if attemptCount <= 0 then 1 else attemptCount;
      var idx := n - 1;
      cfg.retryDelays[if idx >= |cfg.retryDelays| then |cfg.retryDelays| - 1 else idx]
    }

    method Add(id: string, d: Delivery, now: int) returns (ok: bool)
      requires Valid()
      modifies this
      ensures ok <==> id !in old(table)
      ensures table == if ok then old(table)[id := NewEntry(cfg, d, now)] else old(table)
    {
      var entry := Entry(d, 1, cfg.maxRetries, now, now, None, now + cfg.ttl, Pending);
      entry := entry.(nextRetryAt := Some(now + GetRetryDelay(entry.attemptCount)));
      if id in table { return false; }
      table := table[id := entry];
      return true;
    }

    method GetPendingRetries(limit: nat, now: int) returns (ids: seq<string>)
      ensures Listing(table, ids, limit, now)
    {
      ids := [];
      var rest := set id | id in table && Ready(table[id], now);
      while rest != {} && |ids| < limit
        invariant |ids| <= limit && Picked(table, ids, rest, now)
        decreases rest
      {
        EarliestExists(table, rest);
        var id :| id in rest && forall other | other in rest :: DueAt(table, id) <= DueAt(table, other);
        PickStep(table, ids, rest, now, id);
        ids := ids + [id];
        rest := rest - {id};
      }
    }

    method MarkRetrying(id: string)
      modifies this
      ensures table == SetStatus(old(table), id, Retrying)
    {
      if id in table { table := table[id := table[id].(status := Retrying)]; }
    }

    method RecordSuccess(id: string, now: int)
      modifies this
      ensures table == Succeed(old(table), id, now)
    {
      if id in table {
        table := table[id := table[id].(status := Status.Succeeded, lastAttemptedAt := now, nextRetryAt := None)];
      }
    }

    method RecordFailure(id: string, reason: string, statusCode: int, now: int) returns (ok: bool)
      requires Valid()
      modifies this
      ensures ok <==> id in old(table)
      ensures table == if ok then old(table)[id := Failed(cfg, old(table)[id], reason, statusCode, now)] else old(table)
    {
      if id !in table { return false; }
      var attemptCount, maxAttempts := table[id].attemptCount, table[id].maxAttempts;
      attemptCount := attemptCount + 1;
      var status, nextRetry;
      if attemptCount >= maxAttempts {
        status, nextRetry := Exhausted, None;
      } else {
        status, nextRetry := Pending, Some(now + GetRetryDelay(attemptCount));
      }
      table := table[id := table[id].(status := status, attemptCount := attemptCount, lastAttemptedAt := now,
                                      nextRetryAt := nextRetry,
                                      delivery := table[id].delivery.(reason := reason, statusCode := statusCode))];
      return true;
    }

    method Abandon(id: string)
      modifies this
      ensures table == SetStatus(old(table), id, Abandoned)
    {
      if id in table { table := table[id := table[id].(status := Abandoned)]; }
    }

    method Replay(id: string, now: int)
      modifies this
      ensures table == Replayed(old(table), id, now)
    {
      if id in table { table := table[id := table[id].(status := Pending, nextRetryAt := Some(now))]; }
    }

    method CleanupExpired(now: int) returns (affected: nat)
      modifies this
      ensures table == Cleaned(old(table), now)
      ensures affected == |set id | id in old(table) && old(table)[id].status == Pending && old(table)[id].expiresAt <= now|
    {
      var expired := set id | id in table && table[id].status == Pending && table[id].expiresAt <= now;
      table := map id | id in table :: if id in expired then table[id].(status := Expired) else table[id];
      return |expired|;
    }
  }

  lemma {:induction false} EarliestExists(t: Table, ids: set<string>)
    requires ids != {}
    ensures exists id :: id in ids && forall other | other in ids :: DueAt(t, id) <= DueAt(t, other)
    decreases |ids|
  {
    var id :| id in ids;
    var rest := ids - {id};
    if rest == {} {
      assert ids == {id};
    } else {
      EarliestExists(t, rest);
      var least :| least in rest && forall other | other in rest :: DueAt(t, least) <= DueAt(t, other);
      var r := if DueAt(t, id) <= DueAt(t, least) then id else least;
      assert forall other | other in ids :: other == id || other in rest;
      assert r in ids && forall other | other in ids :: DueAt(t, r) <= DueAt(t, other);
    }
  }

  // --- Runs ----------------------------------------------------------------------------------------

  /**
   The table; what the worker has listed and not started, and what it is delivering; the clock; and, as history, how
   often a failure of an entry was recorded and an entry replayed, and which entries were abandoned.
   */
  datatype System = System(
    table: Table, queue: seq<string>, inFlight: Option<string>, clock: int,
    failures: map<string, nat>, replays: map<string, nat>, abandoned: set<string>)

  const EMPTY := System(map[], [], None, 0, map[], map[], {})

  function Count(counts: map<string, nat>, id: string): nat { if id in counts then counts[id] else 0 }

  datatype Event =
    | Add(newId: string, delivery: Delivery)
    | Poll(limit: nat, ids: seq<string>)
    | Start
    | Success
    | Failure(reason: string, statusCode: int)
    | Crash
    | Abandon(id: string)
    | Replay(id: string)
    | Cleanup

  datatype Timed = Timed(now: int, event: Event)

  /** The worker polls when it is idle, then marks and delivers one entry after another.  Events that cannot occur do nothing. */
  ghost function Act(cfg: Config, s: System, e: Event): System
    requires Configured(cfg)
  {
    match e
    case Add(id, d) =>
      if id in s.table then s else s.(table := s.table[id := NewEntry(cfg, d, s.clock)])
    case Poll(limit, ids) =>
      if s.queue == [] && s.inFlight == None && Listing(s.table, ids, limit, s.clock) then s.(queue := ids) else s
    case Start =>
      if s.queue != [] && s.inFlight == None
      then s.(table := SetStatus(s.table, s.queue[0], Retrying), inFlight := Some(s.queue[0]), queue := s.queue[1..])
      else s
    case Success =>
      if s.inFlight.Some? then s.(table := Succeed(s.table, s.inFlight.value, s.clock), inFlight := None) else s
    case Failure(reason, statusCode) =>
      if s.inFlight.Some? && s.inFlight.value in s.table then
        var id := s.inFlight.value;
        s.(table := s.table[id := Failed(cfg, s.table[id], reason, statusCode, s.clock)],
           failures := s.failures[id := Count(s.failures, id) + 1],
           inFlight := None)
      else s
    case Crash => s.(queue := [], inFlight := None)
    case Abandon(id) => s.(table := SetStatus(s.table, id, Abandoned), abandoned := s.abandoned + {id})
    case Replay(id) =>
      if id in s.table
      then s.(table := Replayed(s.table, id, s.clock), replays := s.replays[id := Count(s.replays, id) + 1])
      else s
    case Cleanup => s.(table := Cleaned(s.table, s.clock))
  }

  ghost function Step(cfg: Config, s: System, t: Timed): System
    requires Configured(cfg)
  {
    if t.now < s.clock then s else Act(cfg, s.(clock := t.now), t.event)
  }

  ghost function RunFrom(cfg: Config, s: System, es: seq<Timed>): System
    requires Configured(cfg)
  {
    if es == [] then s else Step(cfg, RunFrom(cfg, s, es[..|es| - 1]), es[|es| - 1])
  }

  ghost function Run(cfg: Config, es: seq<Timed>): System
    requires Configured(cfg)
  {
    RunFrom(cfg, EMPTY, es)
  }

  predicate Claimed(s: System, id: string) {
    s.inFlight == Some(id) || id in s.queue
  }

  /** How often an entry may fail before it stops being retried, if nobody replays it. */
  function Budget(cfg: Config): nat {
    if cfg.maxRetries <= 2 then 1 else cfg.maxRetries - 1
  }

  function SumDelays(cfg: Config, n: nat): int
    requires Configured(cfg)
  {
    if n == 0 then 0 else SumDelays(cfg, n - 1) + RetryDelay(cfg, n)
  }

  predicate OneWorker(s: System) {
    Distinct(s.queue) && (s.inFlight.Some? ==> s.inFlight.value !in s.queue)
  }

  predicate Bounded(cfg: Config, s: System, id: string) {
    var f, r := Count(s.failures, id), Count(s.replays, id);
    if id in s.table then
      var e := s.table[id];
      && e.maxAttempts == cfg.maxRetries && e.attemptCount == 1 + f
      && f <= Budget(cfg) + r
      && (e.status == Pending || Claimed(s, id) ==> f < Budget(cfg) + r)
      && (e.status == Pending ==> e.nextRetryAt.Some?)
      && (e.status == Exhausted ==> f >= Budget(cfg))
      && (r == 0 && id !in s.abandoned && f == Budget(cfg) ==> e.status == Exhausted)
    else f == 0 && !Claimed(s, id)
  }

  predicate Spaced(cfg: Config, s: System, id: string)
    requires Configured(cfg)
  {
    Count(s.replays, id) == 0 && id in s.table && s.table[id].attemptCount >= 1 ==>
      var e := s.table[id];
      && s.clock >= e.lastAttemptedAt >= e.firstFailedAt + SumDelays(cfg, e.attemptCount - 1)
      && (e.status == Pending && e.nextRetryAt.Some? ==>
            e.nextRetryAt.value >= e.firstFailedAt + SumDelays(cfg, e.attemptCount))
      && (Claimed(s, id) ==> s.clock >= e.firstFailedAt + SumDelays(cfg, e.attemptCount))
  }

  predicate Inv(cfg: Config, s: System, id: string)
    requires Configured(cfg)
  {
    OneWorker(s) && Bounded(cfg, s, id) && Spaced(cfg, s, id)
  }

  lemma {:induction false} AddInv(cfg: Config, s: System, id: string, newId: string, d: Delivery)
    requires Configured(cfg) && Inv(cfg, s, id)
    ensures Inv(cfg, Act(cfg, s, Add(newId, d)), id)
  {
  }

  lemma {:induction false} PollInv(cfg: Config, s: System, id: string, limit: nat, ids: seq<string>)
    requires Configured(cfg) && Inv(cfg, s, id)
    ensures Inv(cfg, Act(cfg, s, Poll(limit, ids)), id)
  {
  }

  lemma {:induction false} StartInv(cfg: Config, s: System, id: string)
    requires Configured(cfg) && Inv(cfg, s, id)
    ensures Inv(cfg, Act(cfg, s, Start), id)
  {
  }

  lemma {:induction false} SuccessInv(cfg: Config, s: System, id: string)
    requires Configured(cfg) && Inv(cfg, s, id)
    ensures Inv(cfg, Act(cfg, s, Event.Success), id)
  {
  }

  lemma {:induction false} FailureInv(cfg: Config, s: System, id: string, reason: string, statusCode: int)
    requires Configured(cfg) && Inv(cfg, s, id)
    ensures Inv(cfg, Act(cfg, s, Event.Failure(reason, statusCode)), id)
  {
  }

  lemma {:induction false} CrashInv(cfg: Config, s: System, id: string)
    requires Configured(cfg) && Inv(cfg, s, id)
    ensures Inv(cfg, Act(cfg, s, Crash), id)
  {
  }

  lemma {:induction false} AbandonInv(cfg: Config, s: System, id: string, target: string)
    requires Configured(cfg) && Inv(cfg, s, id)
    ensures Inv(cfg, Act(cfg, s, Abandon(target)), id)
  {
  }

  lemma {:induction false} ReplayInv(cfg: Config, s: System, id: string, target: string)
    requires Configured(cfg) && Inv(cfg, s, id)
    ensures Inv(cfg, Act(cfg, s, Replay(target)), id)
  {
  }

  lemma {:induction false} CleanupInv(cfg: Config, s: System, id: string)
    requires Configured(cfg) && Inv(cfg, s, id)
    ensures Inv(cfg, Act(cfg, s, Cleanup), id)
  {
  }

  lemma {:induction false} ActInv(cfg: Config, s: System, e: Event, id: string)
    requires Configured(cfg) && Inv(cfg, s, id)
    ensures Inv(cfg, Act(cfg, s, e), id)
  {
    match e
    case Add(newId, d) => AddInv(cfg, s, id, newId, d);
    case Poll(limit, ids) => PollInv(cfg, s, id, limit, ids);
    case Start => StartInv(cfg, s, id);
    case Success => SuccessInv(cfg, s, id);
    case Failure(reason, statusCode) => FailureInv(cfg, s, id, reason, statusCode);
    case Crash => CrashInv(cfg, s, id);
    case Abandon(target) => AbandonInv(cfg, s, id, target);
    case Replay(target) => ReplayInv(cfg, s, id, target);
    case Cleanup => CleanupInv(cfg, s, id);
  }

  lemma {:induction false} ClockInv(cfg: Config, s: System, now: int, id: string)
    requires Configured(cfg) && Inv(cfg, s, id) && s.clock <= now
    ensures Inv(cfg, s.(clock := now), id)
  {
  }

  lemma {:induction false} RunInv(cfg: Config, es: seq<Timed>, id: string)
    requires Configured(cfg)
    ensures Inv(cfg, Run(cfg, es), id)
  {
    if es != [] {
      var s, t := Run(cfg, es[..|es| - 1]), es[|es| - 1];
      RunInv(cfg, es[..|es| - 1], id);
      if t.now >= s.clock {
        ClockInv(cfg, s, t.now, id);
        ActInv(cfg, s.(clock := t.now), t.event, id);
      }
    }
  }

  // --- Main results ------------------------------------------------------------------------------------

  /**
   In every run the attempt count is one more than the failures recorded, these never exceed the budget plus the number
   of replays, and an entry that waits for a retry has an instant for it.
   */
  lemma {:induction false} RetryBudget(cfg: Config, es: seq<Timed>, id: string)
    requires Configured(cfg) && id in Run(cfg, es).table
    ensures var s := Run(cfg, es); var e := s.table[id];
      && e.attemptCount == 1 + Count(s.failures, id)
      && Count(s.failures, id) <= Budget(cfg) + Count(s.replays, id)
      && (e.status == Pending ==> e.nextRetryAt.Some? && Count(s.failures, id) < Budget(cfg) + Count(s.replays, id))
  {
    RunInv(cfg, es, id);
  }

  /** An entry that nobody replays or abandons is exhausted exactly when it has failed as often as the budget allows. */
  lemma {:induction false} ExhaustedExactly(cfg: Config, es: seq<Timed>, id: string)
    requires Configured(cfg) && id in Run(cfg, es).table
    requires Count(Run(cfg, es).replays, id) == 0 && id !in Run(cfg, es).abandoned
    ensures var s := Run(cfg, es); s.table[id].status == Exhausted <==> Count(s.failures, id) == Budget(cfg)
  {
    RunInv(cfg, es, id);
  }

  /** The n-th retry of an entry that nobody replays comes no sooner than the first n delays after its first failure. */
  lemma {:induction false} BackoffIsKept(cfg: Config, es: seq<Timed>, id: string)
    requires Configured(cfg) && id in Run(cfg, es).table && Count(Run(cfg, es).replays, id) == 0
    ensures var e := Run(cfg, es).table[id];
      && e.attemptCount >= 1
      && e.lastAttemptedAt >= e.firstFailedAt + SumDelays(cfg, e.attemptCount - 1)
  {
    RunInv(cfg, es, id);
  }

  /** With the default configuration an entry gives up after four retries, at the earliest 156 minutes after it came. */
  lemma {:induction false} DefaultSchedule(es: seq<Timed>, id: string)
    requires var s := Run(WithDefaults(Config(0, [], 0)), es);
      id in s.table && Count(s.replays, id) == 0 && id !in s.abandoned && s.table[id].status == Exhausted
    ensures var e := Run(WithDefaults(Config(0, [], 0)), es).table[id];
      e.attemptCount == 5 && e.lastAttemptedAt >= e.firstFailedAt + 156 * 60_000_000_000
  {
    var cfg := WithDefaults(Config(0, [], 0));
    RetryBudget(cfg, es, id);
    ExhaustedExactly(cfg, es, id);
    BackoffIsKept(cfg, es, id);
    assert SumDelays(cfg, 2) == 6 * MINUTE;
    assert SumDelays(cfg, 4) == 156 * MINUTE;
  }

  /** Nobody is about to deliver the entry, and it does not wait for a retry. */
  predicate Settled(s: System, id: string) {
    id in s.table && s.table[id].status != Pending && !Claimed(s, id)
  }

  predicate Touches(e: Event, id: string) { e == Replay(id) || e == Abandon(id) }

  lemma {:induction false} SettledStep(cfg: Config, s: System, e: Event, id: string)
    requires Configured(cfg) && Settled(s, id) && !Touches(e, id)
    ensures Settled(Act(cfg, s, e), id) && Act(cfg, s, e).table[id] == s.table[id]
  {
  }

  predicate Untouched(es: seq<Timed>, id: string) {
    forall i | 0 <= i < |es| :: !Touches(es[i].event, id)
  }

  /**
   A settled entry keeps its row until it is replayed or abandoned: success, exhaustion, expiry and abandonment are
   final, and so is the state `retrying` of an entry whose worker crashed.
   */
  lemma {:induction false} SettledStays(cfg: Config, s: System, es: seq<Timed>, id: string)
    requires Configured(cfg) && Settled(s, id) && Untouched(es, id)
    ensures Settled(RunFrom(cfg, s, es), id) && RunFrom(cfg, s, es).table[id] == s.table[id]
    decreases |es|
  {
    if es != [] {
      var init, t := es[..|es| - 1], es[|es| - 1];
      assert forall i | 0 <= i < |init| :: init[i] == es[i];
      SettledStays(cfg, s, init, id);
      var before := RunFrom(cfg, s, init);
      if t.now >= before.clock { SettledStep(cfg, before.(clock := t.now), t.event, id); }
    }
  }

  predicate IsAbandoned(s: System, id: string) { id in s.table && s.table[id].status == Abandoned }

  ghost predicate StaysAbandoned(cfg: Config, s: System, id: string)
    requires Configured(cfg)
  {
    forall es: seq<Timed> :: Untouched(es, id) ==> IsAbandoned(RunFrom(cfg, s, es), id)
  }

  /** The worker reaches a claimed entry and overwrites its status. */
  lemma {:induction false} ClaimedIsOverwritten(cfg: Config, s: System, id: string) returns (es: seq<Timed>)
    requires Configured(cfg) && id in s.table && Claimed(s, id)
    ensures Untouched(es, id) && !IsAbandoned(RunFrom(cfg, s, es), id)
    decreases |s.queue|, s.inFlight.Some?
  {
    var e: Event;
    if s.inFlight.Some? { e := Event.Success; } else { e := Start; }
    var t := Timed(s.clock, e);
    var next := Step(cfg, s, t);
    es := [t];
    assert es[..0] == [] && RunFrom(cfg, s, []) == s && RunFrom(cfg, s, es) == next;
    if IsAbandoned(next, id) {
      if s.inFlight.None? {
        assert s.queue[0] != id;
        var k :| 0 <= k < |s.queue| && s.queue[k] == id;
        assert next.queue[k - 1] == id;
      }
      var rest := ClaimedIsOverwritten(cfg, next, id);
      RunJoin(cfg, s, t, rest);
      es := [t] + rest;
    }
  }

  lemma {:induction false} RunJoin(cfg: Config, s: System, t: Timed, es: seq<Timed>)
    requires Configured(cfg)
    ensures RunFrom(cfg, s, [t] + es) == RunFrom(cfg, Step(cfg, s, t), es)
    decreases |es|
  {
    if es == [] {
      assert [t] + es == [t] && [t][..0] == [];
    } else {
      RunJoin(cfg, s, t, es[..|es| - 1]);
      assert ([t] + es)[..|es|] == [t] + es[..|es| - 1];
    }
  }

  /**
   Abandoning an entry is final, in every continuation that does not replay or abandon it, exactly if at that moment the
   worker neither has it in its listing nor is delivering it.
   */
  lemma {:induction false} AbandonIsFinal(cfg: Config, s: System, id: string)
    requires Configured(cfg) && id in s.table
    ensures StaysAbandoned(cfg, Act(cfg, s, Abandon(id)), id) <==> !Claimed(s, id)
  {
    var a := Act(cfg, s, Abandon(id));
    if Claimed(s, id) {
      var es := ClaimedIsOverwritten(cfg, a, id);
      assert Untouched(es, id) && !IsAbandoned(RunFrom(cfg, a, es), id);
    } else {
      forall es: seq<Timed> | Untouched(es, id) ensures IsAbandoned(RunFrom(cfg, a, es), id) {
        SettledStays(cfg, a, es, id);
      }
    }
  }

  // --- What the rows hold ----------------------------------------------------------------------------

  /** The schedule by attempt: the first delay after the first, and the last one once the schedule is used up. */
  lemma {:induction false} DelayExact(cfg: Config, attempt: int)
    requires Configured(cfg)
    ensures attempt <= 1 ==> RetryDelay(cfg, attempt) == cfg.retryDelays[0]
    ensures 1 <= attempt <= |cfg.retryDelays| ==> RetryDelay(cfg, attempt) == cfg.retryDelays[attempt - 1]
    ensures |cfg.retryDelays| <= attempt ==> RetryDelay(cfg, attempt) == cfg.retryDelays[|cfg.retryDelays| - 1]
  {
  }

  /** By default the delays are 1, 5, 30, 120 and 360 minutes, and an entry lives for seven days. */
  lemma {:induction false} DefaultDelays(attempt: int)
    ensures var cfg := WithDefaults(Config(0, [], 0));
      && RetryDelay(cfg, attempt) == 60_000_000_000 *
           (if attempt <= 1 then 1 else if attempt == 2 then 5 else if attempt == 3 then 30 else if attempt == 4 then 120 else 360)
      && cfg.ttl == 7 * 24 * 60 * 60_000_000_000
  {
  }

  /** The instants and limits of an entry, unless somebody replayed it. */
  predicate Dated(cfg: Config, s: System, id: string)
    requires Configured(cfg)
  {
    id in s.table ==>
      var e := s.table[id];
      && e.maxAttempts == cfg.maxRetries && e.expiresAt == e.firstFailedAt + cfg.ttl
      && e.firstFailedAt <= e.lastAttemptedAt <= s.clock
      && (Count(s.replays, id) == 0 && e.status == Pending ==>
          e.nextRetryAt == Some(e.lastAttemptedAt + RetryDelay(cfg, e.attemptCount)))
  }

  lemma {:induction false} DatedStep(cfg: Config, s: System, e: Event, id: string)
    requires Configured(cfg) && Dated(cfg, s, id) && Inv(cfg, s, id)
    ensures Dated(cfg, Act(cfg, s, e), id)
  {
    match e
    case Add(newId, d) =>
    case Poll(limit, ids) =>
    case Start =>
    case Success =>
    case Failure(reason, statusCode) =>
    case Crash =>
    case Abandon(target) =>
    case Replay(target) =>
    case Cleanup =>
  }

  /**
   In every run an entry expires a time to live after its first failure, and while it waits, unless it was replayed, its
   next retry is due the scheduled delay after its last attempt.
   */
  lemma {:induction false} RetryTimes(cfg: Config, es: seq<Timed>, id: string)
    requires Configured(cfg)
    ensures Dated(cfg, Run(cfg, es), id)
  {
    if es != [] {
      var s, t := Run(cfg, es[..|es| - 1]), es[|es| - 1];
      RetryTimes(cfg, es[..|es| - 1], id);
      RunInv(cfg, es[..|es| - 1], id);
      if t.now >= s.clock {
        ClockInv(cfg, s, t.now, id);
        DatedStep(cfg, s.(clock := t.now), t.event, id);
      }
    }
  }

  /** A listing that is not cut short holds exactly the entries that are pending and due and have not expired. */
  lemma {:induction false} ListedExactly(t: Table, ids: seq<string>, limit: nat, now: int, id: string)
    requires Listing(t, ids, limit, now)
    ensures id in ids ==>
      && id in t && t[id].status == Pending
      && t[id].nextRetryAt.Some? && t[id].nextRetryAt.value <= now < t[id].expiresAt
    ensures |ids| < limit ==> (id in ids <==>
      && id in t && t[id].status == Pending
      && t[id].nextRetryAt.Some? && t[id].nextRetryAt.value <= now < t[id].expiresAt)
  {
    assert id in ids ==> ReadyIn(t, id, now);
  }

  /**
   A pending entry can still be listed at some instant exactly if the cleanup leaves it pending and its retry is due
   before it expires; one whose retry falls later waits in vain until it is cleaned up.
   */
  lemma {:induction false} StillListable(t: Table, now: int, id: string)
    requires id in t && t[id].status == Pending && t[id].nextRetryAt.Some?
    ensures id in Cleaned(t, now)
    ensures (exists later: int :: later >= now && Ready(t[id], later)) <==>
      Cleaned(t, now)[id].status == Pending && t[id].nextRetryAt.value < t[id].expiresAt
    ensures Cleaned(t, now)[id].status == if t[id].expiresAt <= now then Expired else Pending
  {
    var due := if t[id].nextRetryAt.value <= now then now else t[id].nextRetryAt.value;
    if now < t[id].expiresAt && due < t[id].expiresAt {
      assert Ready(t[id], due);
    }
  }

  /** What a delivery leaves behind: the other rows are as they were. */
  lemma {:induction false} DeliveryExact(cfg: Config, s: System, id: string, reason: string, statusCode: int)
    requires Configured(cfg) && s.inFlight == Some(id) && id in s.table
    ensures var before, r := s.table[id], Act(cfg, s, Event.Success);
      && r.table.Keys == s.table.Keys && r.inFlight == None
      && (forall k | k in s.table && k != id :: r.table[k] == s.table[k])
      && r.table[id].status == Status.Succeeded && r.table[id].nextRetryAt == None
      && r.table[id].lastAttemptedAt == s.clock && r.table[id].attemptCount == before.attemptCount
      && r.table[id].delivery == before.delivery
    ensures var before, r := s.table[id], Act(cfg, s, Event.Failure(reason, statusCode));
      && r.table.Keys == s.table.Keys && r.inFlight == None
      && (forall k | k in s.table && k != id :: r.table[k] == s.table[k])
      && r.table[id].attemptCount == before.attemptCount + 1 && r.table[id].lastAttemptedAt == s.clock
      && r.table[id].delivery == Delivery(before.delivery.webhookId, before.delivery.payload, reason, statusCode)
      && (r.table[id].status == Pending <==> before.attemptCount + 1 < before.maxAttempts)
      && (r.table[id].status == Exhausted <==> before.attemptCount + 1 >= before.maxAttempts)
      && (r.table[id].nextRetryAt.Some? <==> before.attemptCount + 1 < before.maxAttempts)
  {
  }

  /**
   What a replay, an abandonment and the start of a delivery leave behind: a replayed entry is ready at once unless it has
   expired, with its attempts as they were; the other rows are as they were.
   */
  lemma {:induction false} ManualExact(cfg: Config, s: System, id: string)
    requires Configured(cfg) && id in s.table
    ensures var before, r := s.table[id], Act(cfg, s, Replay(id));
      && r.table.Keys == s.table.Keys && (forall k | k in s.table && k != id :: r.table[k] == s.table[k])
      && r.table[id] == before.(status := r.table[id].status, nextRetryAt := r.table[id].nextRetryAt)
      && r.table[id].status == Pending && r.table[id].nextRetryAt == Some(s.clock)
      && (Ready(r.table[id], s.clock) <==> s.clock < before.expiresAt)
    ensures var before, r := s.table[id], Act(cfg, s, Abandon(id));
      && r.table.Keys == s.table.Keys && (forall k | k in s.table && k != id :: r.table[k] == s.table[k])
      && r.table[id] == before.(status := Abandoned)
    ensures s.inFlight == None && s.queue != [] && s.queue[0] == id ==>
      Act(cfg, s, Start).table == s.table[id := s.table[id].(status := Retrying)]
  {
  }

  predicate AddedBy(e: Event, id: string, row: Entry) {
    e.Add? && e.newId == id && e.delivery.webhookId == row.delivery.webhookId && e.delivery.payload == row.delivery.payload
  }

  predicate SamePayload(a: Entry, b: Entry) {
    a.delivery.webhookId == b.delivery.webhookId && a.delivery.payload == b.delivery.payload
  }

  lemma {:induction false} StepKeepsPayload(cfg: Config, s: System, t: Timed, id: string)
    requires Configured(cfg)
    ensures var r := Step(cfg, s, t);
      && (id in s.table ==> id in r.table && SamePayload(s.table[id], r.table[id]))
      && (id !in s.table && id in r.table ==> AddedBy(t.event, id, r.table[id]))
  {
  }

  /** In every run what is retried is what was handed over. */
  lemma {:induction false} EntryIsAsAdded(cfg: Config, es: seq<Timed>, id: string)
    requires Configured(cfg) && id in Run(cfg, es).table
    ensures exists t | t in es :: AddedBy(t.event, id, Run(cfg, es).table[id])
  {
    if es != [] {
      var init, last := es[..|es| - 1], es[|es| - 1];
      StepKeepsPayload(cfg, Run(cfg, init), last, id);
      if id in Run(cfg, init).table {
        EntryIsAsAdded(cfg, init, id);
        var t :| t in init && AddedBy(t.event, id, Run(cfg, init).table[id]);
        assert t in es && AddedBy(t.event, id, Run(cfg, es).table[id]);
      } else {
        assert last in es;
      }
    }
  }
}
