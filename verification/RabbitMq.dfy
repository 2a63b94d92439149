/**
 The RabbitMQ client's circuit breaker and its reconnection loop, pkg/messaging/rabbitmq.go.  Durations and instants are
 nanoseconds; durations are 64-bit integers.
 */
module RabbitMq {

  // --- The circuit breaker -------------------------------------------------------------------------

  datatype State = Closed | Open | HalfOpen

  /** The breaker's fields. */
  datatype Breaker = Breaker(state: State, failures: int, lastFailure: int, successCounter: int)

  const INITIAL := Breaker(Closed, 0, 0, 0)

  class CircuitBreaker {
    var state: State
    var failures: int
    const threshold: int
    const timeout: int
    var lastFailure: int
    var successCounter: int

    ghost function View(): Breaker reads this { Breaker(state, failures, lastFailure, successCounter) }

    constructor (threshold: int, timeout: int)
      ensures View() == INITIAL && this.threshold == threshold && this.timeout == timeout
    {
      state, failures, lastFailure, successCounter := Closed, 0, 0, 0;
      this.threshold, this.timeout := threshold, timeout;
    }

    method Allow(now: int) returns (ok: bool)
      ensures ok == Allows(timeout, View(), now)
    {
      match state {
        case Open => ok := now - lastFailure > timeout;
        case HalfOpen => ok := true;
        case Closed => ok := true;
      }
    }

    method RecordSuccess()
      modifies this
      ensures View() == Record(threshold, old(View()), Success)
    {
      match state {
        case HalfOpen =>
          successCounter := successCounter + 1;
          if successCounter >= 3 {
            state, failures, successCounter := Closed, 0, 0;
          }
        case Open =>
          state, failures := Closed, 0;
        case Closed =>
      }
    }

    method RecordFailure(now: int)
      modifies this
      ensures View() == Record(threshold, old(View()), Failure(now))
    {
      failures := failures + 1;
      lastFailure := now;
      if state == Closed && failures >= threshold {
        state := Open;
      } else if state == HalfOpen {
        state := Open;
      }
    }
  }

  datatype Outcome = Success | Failure(at: int)

  function Record(threshold: int, b: Breaker, o: Outcome): Breaker {
    match o
    case Success =>
      (match b.state
       case HalfOpen =>
         if b.successCounter + 1 >= 3 then b.(state := Closed, failures := 0, successCounter := 0)
         else b.(successCounter := b.successCounter + 1)
       case Open => b.(state := Closed, failures := 0)
       case Closed => b)
    case Failure(at) =>
      var trips := (b.state == Closed && b.failures + 1 >= threshold) || b.state == HalfOpen;
      b.(state := if trips then Open else b.state, failures := b.failures + 1, lastFailure := at)
  }

  predicate Allows(timeout: int, b: Breaker, now: int) {
    b.state != Open || now - b.lastFailure > timeout
  }

  function RunBreaker(threshold: int, es: seq<Outcome>): Breaker {
    if es == [] then INITIAL else Record(threshold, RunBreaker(threshold, es[..|es| - 1]), es[|es| - 1])
  }

  // The breaker as a function of its history.

  function Failures(es: seq<Outcome>): nat {
    if es == [] then 0 else Failures(es[..|es| - 1]) + if es[|es| - 1].Failure? then 1 else 0
  }

  function LastFailureAt(es: seq<Outcome>): int {
    if es == [] then 0
    else if es[|es| - 1].Failure? then es[|es| - 1].at
    else LastFailureAt(es[..|es| - 1])
  }

  /** A threshold below 1 trips like 1. */
  function Limit(threshold: int): nat { if threshold < 1 then 1 else threshold }

  /** A success comes while the failures since position `start` have reached the limit. */
  predicate ResetsAt(threshold: int, es: seq<Outcome>, start: nat, i: nat)
    requires start <= i < |es|
  {
    es[i].Success? && Failures(es[start..i]) >= Limit(threshold)
  }

  /** Where the current count of failures starts: after the last success that found the limit reached. */
  function CountFrom(threshold: int, es: seq<Outcome>): (k: nat)
    ensures k <= |es|
  {
    if es == [] then 0
    else
      var k := CountFrom(threshold, es[..|es| - 1]);
      if ResetsAt(threshold, es, k, |es| - 1) then |es| else k
  }

  /**
   After any history the breaker is open exactly when the failures since the last reset have reached the threshold;
   successes while it is closed do not reset them; and it is never half-open.
   */
  lemma {:induction false} BreakerIsHistory(threshold: int, es: seq<Outcome>)
    ensures var b := RunBreaker(threshold, es); var n := Failures(es[CountFrom(threshold, es)..]);
      && b.failures == n && b.lastFailure == LastFailureAt(es) && b.successCounter == 0
      && b.state == if n >= Limit(threshold) then Open else Closed
  {
    if es != [] {
      var init, k := es[..|es| - 1], CountFrom(threshold, es[..|es| - 1]);
      BreakerIsHistory(threshold, init);
      assert es[k..|es| - 1] == init[k..];
      assert es[k..][..|es| - 1 - k] == init[k..];
      assert es[|es|..] == [];
    }
  }

  /** The decision of Allow from the history alone: the limit is not reached, or the last failure is long enough ago. */
  lemma {:induction false} AllowIsHistory(threshold: int, timeout: int, es: seq<Outcome>, now: int)
    ensures Allows(timeout, RunBreaker(threshold, es), now) <==>
      || Failures(es[CountFrom(threshold, es)..]) < Limit(threshold)
      || now > LastFailureAt(es) + timeout
  {
    BreakerIsHistory(threshold, es);
  }

  predicate NeverOpen(threshold: int, es: seq<Outcome>) {
    forall i | 0 <= i <= |es| :: RunBreaker(threshold, es[..i]).state != Open
  }

  /** Failures add up however many successes lie between them: a breaker that never opened has seen fewer than the limit. */
  lemma {:induction false} FailuresAddUp(threshold: int, es: seq<Outcome>)
    ensures NeverOpen(threshold, es) <==> Failures(es) < Limit(threshold)
    ensures NeverOpen(threshold, es) ==> CountFrom(threshold, es) == 0
  {
    assert es[..|es|] == es;
    BreakerIsHistory(threshold, es);
    if es != [] {
      var init := es[..|es| - 1];
      FailuresAddUp(threshold, init);
      NeverOpenInit(threshold, es);
      assert es[0..] == es && init[0..] == init && es[0..|es| - 1] == init;
    }
  }

  lemma {:induction false} NeverOpenInit(threshold: int, es: seq<Outcome>)
    requires es != []
    ensures var init := es[..|es| - 1];
      NeverOpen(threshold, es) <==> NeverOpen(threshold, init) && RunBreaker(threshold, es).state != Open
  {
    var init := es[..|es| - 1];
    assert es[..|es|] == es;
    assert forall i | 0 <= i <= |init| :: init[..i] == es[..i];
  }

  function Successes(n: nat): (es: seq<Outcome>)
    ensures |es| == n && forall i | 0 <= i < n :: es[i] == Success
  {
    seq(n, i => Success)
  }

  function RecordAll(threshold: int, b: Breaker, es: seq<Outcome>): Breaker {
    if es == [] then b else Record(threshold, RecordAll(threshold, b, es[..|es| - 1]), es[|es| - 1])
  }

  /** Were it ever half-open, it would let requests through, close at the third success and open again at a failure. */
  lemma {:induction false} HalfOpenIfEver(threshold: int, timeout: int, b: Breaker, n: nat, at: int)
    requires b.state == HalfOpen && b.successCounter == 0 && n <= 3
    ensures Allows(timeout, b, at)
    ensures var r := RecordAll(threshold, b, Successes(n));
      if n < 3 then r == b.(successCounter := n) else r == b.(state := Closed, failures := 0)
    ensures var r := RecordAll(threshold, b, Successes(n) + [Failure(at)]);
      n < 3 ==> r.state == Open && r.failures == b.failures + 1 && r.lastFailure == at
  {
    if n > 0 {
      HalfOpenIfEver(threshold, timeout, b, n - 1, at);
      assert Successes(n)[..n - 1] == Successes(n - 1);
    }
    assert (Successes(n) + [Failure(at)])[..n] == Successes(n);
  }

  // --- Reconnection ----------------------------------------------------------------------------------

  const TWO_63 := 0x8000_0000_0000_0000
  const TWO_64 := 0x1_0000_0000_0000_0000
  const SECOND := 1_000_000_000

  function Wrap(x: int): int { (x + TWO_63) % TWO_64 - TWO_63 }

  datatype Config = Config(reconnectDelay: int, maxReconnectDelay: int, maxRetries: int)

  /** Zero values stand for the defaults. */
  function WithDefaults(cfg: Config): (r: Config)
    ensures cfg.reconnectDelay != 0 && cfg.maxReconnectDelay != 0 ==> r == cfg
  {
    cfg.(reconnectDelay := if cfg.reconnectDelay == 0 then SECOND else cfg.reconnectDelay,
         maxReconnectDelay := if cfg.maxReconnectDelay == 0 then 60 * SECOND else cfg.maxReconnectDelay)
  }

  /** What one round of the loop finds: the client closed, a failed connection, or a connection. */
  datatype Round = ClientClosed | ConnectFails | Connects

  datatype End = Stopped | GaveUp | Reconnected | StillTrying

  function NextBackoff(cfg: Config, backoff: int): int {
    var doubled := Wrap(backoff * 2);
    if doubled > cfg.maxReconnectDelay then cfg.maxReconnectDelay else doubled
  }

  /** The wait after k failed rounds before. */
  function Backoff(cfg: Config, k: nat): int {
    if k == 0 then cfg.reconnectDelay else NextBackoff(cfg, Backoff(cfg, k - 1))
  }

  predicate Spent(cfg: Config, retries: nat) { cfg.maxRetries != -1 && retries >= cfg.maxRetries }

  /** The loop over the rounds it sees: how long it waited after each failure, and how it ended. */
  method Reconnect(cfg: Config, rounds: seq<Round>) returns (waits: seq<int>, end: End)
    ensures |waits| <= |rounds|
    ensures forall k | 0 <= k < |waits| :: rounds[k] == ConnectFails && !Spent(cfg, k) && waits[k] == Backoff(cfg, k)
    ensures end ==
      if |waits| == |rounds| then StillTrying
      else if rounds[|waits|] == ClientClosed then Stopped
      else if Spent(cfg, |waits|) then GaveUp
      else Reconnected
    ensures end == Reconnected ==> rounds[|waits|] == Connects
  {
    var backoff, retries := cfg.reconnectDelay, 0;
    waits := [];
    while retries < |rounds|
      invariant 0 <= retries <= |rounds| && |waits| == retries
      invariant backoff == Backoff(cfg, retries)
      invariant forall k | 0 <= k < |waits| :: rounds[k] == ConnectFails && !Spent(cfg, k) && waits[k] == Backoff(cfg, k)
    {
      if rounds[retries] == ClientClosed { return waits, Stopped; }
      if cfg.maxRetries != -1 && retries >= cfg.maxRetries { return waits, GaveUp; }
      if rounds[retries] == Connects { return waits, Reconnected; }
      waits := waits + [backoff];
      backoff := Wrap(backoff * 2);
      if backoff > cfg.maxReconnectDelay { backoff := cfg.maxReconnectDelay; }
      retries := retries + 1;
    }
    return waits, StillTrying;
  }

  function Pow2(n: nat): nat { if n == 0 then 1 else 2 * Pow2(n - 1) }

  /** x doubled n times. */
  function Doubled(x: int, n: nat): int { if n == 0 then x else 2 * Doubled(x, n - 1) }

  lemma {:induction false} DoubledIsProduct(x: int, n: nat)
    ensures Doubled(x, n) == x * Pow2(n)
  {
    if n > 0 { DoubledIsProduct(x, n - 1); }
  }

  function Min(a: int, b: int): int { if a <= b then a else b }

  /** Delays whose double is still a duration. */
  predicate Sane(cfg: Config) {
    0 <= cfg.reconnectDelay < TWO_63 / 2 && 0 <= cfg.maxReconnectDelay < TWO_63 / 2
  }

  /** Doubling with a cap at every step is the closed form: doubled k times, then capped once. */
  lemma {:induction false} BackoffClosedForm(cfg: Config, k: nat)
    requires Sane(cfg)
    ensures k > 0 ==> Backoff(cfg, k) == Min(Doubled(cfg.reconnectDelay, k), cfg.maxReconnectDelay)
    ensures Backoff(cfg, 0) == Min(cfg.reconnectDelay, cfg.maxReconnectDelay) <==> cfg.reconnectDelay <= cfg.maxReconnectDelay
    ensures 0 <= Backoff(cfg, k) < TWO_63 / 2
  {
    if k > 0 {
      BackoffClosedForm(cfg, k - 1);
      assert Wrap(Backoff(cfg, k - 1) * 2) == Backoff(cfg, k - 1) * 2;
    }
  }

  lemma {:induction false} DoubledGrows(x: int, n: nat)
    requires x >= 0
    ensures n > 0 ==> Doubled(x, n - 1) <= Doubled(x, n)
    ensures 0 <= Doubled(x, n)
  {
    if n > 0 { DoubledGrows(x, n - 1); }
  }

  lemma {:induction false} DoubledOrder(x: int, j: nat, k: nat)
    requires x >= 0 && j <= k
    ensures Doubled(x, j) <= Doubled(x, k)
  {
    if j < k {
      DoubledOrder(x, j, k - 1);
      DoubledGrows(x, k);
    }
  }

  /** Waits never get shorter and never exceed the cap, except that the first is not capped. */
  lemma {:induction false} BackoffGrows(cfg: Config, j: nat, k: nat)
    requires Sane(cfg) && j <= k
    ensures Backoff(cfg, j) <= Backoff(cfg, k) <==> j > 0 || k == 0 || cfg.reconnectDelay <= cfg.maxReconnectDelay
    ensures Backoff(cfg, k) <= cfg.maxReconnectDelay <==> k > 0 || cfg.reconnectDelay <= cfg.maxReconnectDelay
  {
    BackoffClosedForm(cfg, j);
    BackoffClosedForm(cfg, k);
    DoubledOrder(cfg.reconnectDelay, j, k);
    DoubledOrder(cfg.reconnectDelay, 0, k);
  }

  function TotalWait(cfg: Config, n: nat): int {
    if n == 0 then 0 else TotalWait(cfg, n - 1) + Backoff(cfg, n - 1)
  }

  /** By how much the uncapped first wait exceeds the cap. */
  function Excess(cfg: Config): nat {
    if cfg.reconnectDelay > cfg.maxReconnectDelay then cfg.reconnectDelay - cfg.maxReconnectDelay else 0
  }

  /**
   The whole wait over n > 0 failures is never more than 2^n - 1 initial delays, and is that while the cap is not met; nor
   is it more than n caps and the excess of the first wait, and it is that when the initial delay reaches the cap.
   */
  lemma {:induction false} TotalWaitBound(cfg: Config, n: nat)
    requires Sane(cfg) && n > 0
    ensures TotalWait(cfg, n) <= n * cfg.maxReconnectDelay + Excess(cfg)
    ensures cfg.reconnectDelay >= cfg.maxReconnectDelay ==> TotalWait(cfg, n) == n * cfg.maxReconnectDelay + Excess(cfg)
    ensures TotalWait(cfg, n) <= cfg.reconnectDelay * Pow2(n) - cfg.reconnectDelay
    ensures n == 1 || cfg.reconnectDelay * Pow2(n - 1) <= cfg.maxReconnectDelay ==>
      TotalWait(cfg, n) == cfg.reconnectDelay * Pow2(n) - cfg.reconnectDelay
  {
    TotalWaitDoubled(cfg, n);
    DoubledIsProduct(cfg.reconnectDelay, n);
    DoubledIsProduct(cfg.reconnectDelay, n - 1);
  }

  lemma {:induction false} TotalWaitDoubled(cfg: Config, n: nat)
    requires Sane(cfg) && n > 0
    ensures TotalWait(cfg, n) <= n * cfg.maxReconnectDelay + Excess(cfg)
    ensures cfg.reconnectDelay >= cfg.maxReconnectDelay ==> TotalWait(cfg, n) == n * cfg.maxReconnectDelay + Excess(cfg)
    ensures TotalWait(cfg, n) <= Doubled(cfg.reconnectDelay, n) - cfg.reconnectDelay
    ensures n == 1 || Doubled(cfg.reconnectDelay, n - 1) <= cfg.maxReconnectDelay ==>
      TotalWait(cfg, n) == Doubled(cfg.reconnectDelay, n) - cfg.reconnectDelay
  {
    if n > 1 {
      TotalWaitDoubled(cfg, n - 1);
      BackoffClosedForm(cfg, n - 1);
      DoubledOrder(cfg.reconnectDelay, 0, n - 1);
      DoubledGrows(cfg.reconnectDelay, n - 1);
      OneMore(n, cfg.maxReconnectDelay);
    } else {
      assert TotalWait(cfg, 0) == 0 && TotalWait(cfg, 1) == cfg.reconnectDelay;
    }
  }

  lemma {:induction false} OneMore(n: nat, x: int)
    requires n > 0
    ensures n * x == (n - 1) * x + x
  {
  }

  /** With the default delays the client waits 1, 2, 4, 8, 16 and 32 seconds, and from then on a minute each time. */
  lemma {:induction false} DefaultBackoff(k: nat)
    ensures Backoff(WithDefaults(Config(0, 0, -1)), k) == if k < 6 then SECOND * Pow2(k) else 60 * SECOND
  {
    var cfg := WithDefaults(Config(0, 0, -1));
    BackoffClosedForm(cfg, k);
    DoubledIsProduct(SECOND, k);
    Pow2Grows(if k < 6 then k else 6, if k < 6 then 5 else k);
    assert Pow2(5) == 32 && Pow2(6) == 64;
  }

  lemma {:induction false} Pow2Grows(j: nat, k: nat)
    requires j <= k
    ensures Pow2(j) <= Pow2(k)
  {
    if j < k { Pow2Grows(j, k - 1); }
  }
}
