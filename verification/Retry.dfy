/**
 Retries with exponential backoff, pkg/retry/retry.go.  Delays are computed over the real numbers and truncated; the
 source computes them in float64.
 */
module Retry {
  import opened Prelude
  import RabbitMq

  const SECOND := 1_000_000_000

  datatype Config = Config(maxAttempts: int, initialDelay: int, maxDelay: int, multiplier: real)

  predicate Configured(cfg: Config) {
    cfg.maxAttempts >= 1 && cfg.initialDelay != 0 && cfg.maxDelay != 0 && cfg.multiplier != 0.0
  }

  /** NewRetrier: zero values stand for the defaults. */
  function NewRetrier(cfg: Config): (r: Config)
    ensures Configured(r)
    ensures Configured(cfg) ==> r == cfg
  {
    Config(if cfg.maxAttempts < 1 then 1 else cfg.maxAttempts,
           if cfg.initialDelay == 0 then SECOND else cfg.initialDelay,
           if cfg.maxDelay == 0 then 30 * SECOND else cfg.maxDelay,
           if cfg.multiplier == 0.0 then 2.0 else cfg.multiplier)
  }

  function Power(m: real, n: nat): real { if n == 0 then 1.0 else m * Power(m, n - 1) }

  /** Conversion to an integer drops the fraction. */
  function Truncate(x: real): int { if x >= 0.0 then x.Floor else -((-x).Floor) }

  function Uncapped(initial: int, multiplier: real, n: nat): real { initial as real * Power(multiplier, n) }

  function Capped(delay: real, maxDelay: int): int {
    Truncate(if delay > maxDelay as real then maxDelay as real else delay)
  }

  function CalculateDelay(cfg: Config, attempt: nat): int
    requires attempt >= 1
  {
    Capped(Uncapped(cfg.initialDelay, cfg.multiplier, attempt - 1), cfg.maxDelay)
  }

  datatype Answer<E> = Done | Error(error: E) | Canceled

  /**
   Execute over an operation whose calls answer `results` in turn (None is success); `canceled[i]` says that the context
   ends the wait after call i.
   */
  method Execute<E>(cfg: Config, results: seq<Option<E>>, canceled: seq<bool>)
    returns (answer: Answer<E>, calls: nat, waits: seq<int>)
    requires Configured(cfg) && |results| == |canceled| == cfg.maxAttempts
    ensures 1 <= calls <= cfg.maxAttempts
    ensures forall i | 0 <= i < calls - 1 :: results[i].Some? && !canceled[i]
    ensures match results[calls - 1]
      case None => answer == Done
      case Some(e) =>
        if calls == cfg.maxAttempts then answer == Error(e) else answer == Canceled && canceled[calls - 1]
    ensures |waits| == (if answer == Canceled then calls else calls - 1)
    ensures forall i | 0 <= i < |waits| :: waits[i] == CalculateDelay(cfg, i + 1)
  {
    var lastErr := None;
    waits := [];
    for attempt := 1 to cfg.maxAttempts + 1
      invariant |waits| == attempt - 1 || attempt == cfg.maxAttempts + 1
      invariant forall i | 0 <= i < attempt - 1 :: results[i].Some?
      invariant forall i | 0 <= i < attempt - 1 && i < cfg.maxAttempts - 1 :: !canceled[i]
      invariant attempt > 1 ==> lastErr == results[attempt - 2]
      invariant attempt == cfg.maxAttempts + 1 ==> |waits| == cfg.maxAttempts - 1
      invariant forall i | 0 <= i < |waits| :: waits[i] == CalculateDelay(cfg, i + 1)
    {
      lastErr := results[attempt - 1];
      if lastErr.None? { return Done, attempt, waits; }
      if attempt < cfg.maxAttempts {
        waits := waits + [CalculateDelay(cfg, attempt)];
        if canceled[attempt - 1] { return Canceled, attempt, waits; }
      }
    }
    return Error(lastErr.value), cfg.maxAttempts, waits;
  }

  // --- Delays --------------------------------------------------------------------------------------------

  lemma {:induction false} CappedInt(x: int, cap: int)
    ensures Capped(x as real, cap) == RabbitMq.Min(x, cap)
  {
  }

  lemma {:induction false} CappedOrder(x: real, y: real, cap: int)
    requires 0.0 <= x <= y && 0 <= cap
    ensures 0 <= Capped(x, cap) <= Capped(y, cap) <= cap
  {
  }

  lemma {:induction false} UncappedDoubles(x: int, n: nat)
    ensures Uncapped(x, 2.0, n) == RabbitMq.Doubled(x, n) as real
  {
    if n > 0 {
      UncappedDoubles(x, n - 1);
      Associate(x as real, 2.0, Power(2.0, n - 1));
    }
  }

  lemma {:induction false} Associate(x: real, m: real, p: real)
    ensures x * (m * p) == m * (x * p)
  {
  }

  /** The wait of the reconnection loop with these delays. */
  function Loop(cfg: Config): RabbitMq.Config { RabbitMq.Config(cfg.initialDelay, cfg.maxDelay, -1) }

  lemma {:induction false} DelayDoubles(cfg: Config, k: nat)
    requires cfg.multiplier == 2.0
    ensures CalculateDelay(cfg, k + 1) == RabbitMq.Min(RabbitMq.Doubled(cfg.initialDelay, k), cfg.maxDelay)
  {
    UncappedDoubles(cfg.initialDelay, k);
    CappedInt(RabbitMq.Doubled(cfg.initialDelay, k), cfg.maxDelay);
  }

  /**
   The two backoffs of the repository are one: with multiplier 2 the delay after attempt k + 1 is the reconnection
   loop's wait after k earlier failures, except on the first if the initial delay exceeds the cap.
   */
  lemma {:induction false} DelayIsBackoff(cfg: Config, k: nat)
    requires cfg.multiplier == 2.0 && RabbitMq.Sane(Loop(cfg))
    ensures CalculateDelay(cfg, k + 1) == RabbitMq.Backoff(Loop(cfg), k) <==> k > 0 || cfg.initialDelay <= cfg.maxDelay
  {
    DelayDoubles(cfg, k);
    RabbitMq.BackoffClosedForm(Loop(cfg), k);
  }

  lemma {:induction false} UncappedGrows(x: int, m: real, n: nat)
    requires x >= 0 && m >= 1.0
    ensures 0.0 <= Uncapped(x, m, n) <= Uncapped(x, m, n + 1)
  {
    Associate(x as real, m, Power(m, n));
    if n > 0 { UncappedGrows(x, m, n - 1); }
    Scale(m, Uncapped(x, m, n));
  }

  lemma {:induction false} Scale(m: real, x: real)
    requires m >= 1.0 && x >= 0.0
    ensures m * x >= x
  {
  }

  /** With a multiplier of at least 1 the delays never get shorter and stay between zero and the cap. */
  lemma {:induction false} DelaysGrow(cfg: Config, attempt: nat)
    requires attempt >= 1 && cfg.multiplier >= 1.0 && 0 <= cfg.initialDelay && 0 <= cfg.maxDelay
    ensures 0 <= CalculateDelay(cfg, attempt) <= CalculateDelay(cfg, attempt + 1) <= cfg.maxDelay
  {
    UncappedGrows(cfg.initialDelay, cfg.multiplier, attempt - 1);
    CappedOrder(Uncapped(cfg.initialDelay, cfg.multiplier, attempt - 1),
                Uncapped(cfg.initialDelay, cfg.multiplier, attempt), cfg.maxDelay);
  }

  /** The exact delays: the first is the initial one and each is the multiplier times the one before. */
  predicate Geometric(cfg: Config, xs: seq<real>) {
    && (xs != [] ==> xs[0] == cfg.initialDelay as real)
    && forall i | 0 < i < |xs| :: xs[i] == cfg.multiplier * xs[i - 1]
  }

  lemma {:induction false} GeometricIsUncapped(cfg: Config, xs: seq<real>, k: nat)
    requires Geometric(cfg, xs) && k < |xs|
    ensures xs[k] == Uncapped(cfg.initialDelay, cfg.multiplier, k)
  {
    if k > 0 {
      GeometricIsUncapped(cfg, xs, k - 1);
      Associate(cfg.initialDelay as real, cfg.multiplier, Power(cfg.multiplier, k - 1));
    }
  }

  /** For every multiplier the delay after attempt k + 1 is the exact one, capped and rounded towards zero. */
  lemma {:induction false} DelayExact(cfg: Config, xs: seq<real>, k: nat)
    requires Geometric(cfg, xs) && k < |xs|
    ensures var x := if xs[k] > cfg.maxDelay as real then cfg.maxDelay as real else xs[k];
      var delay := CalculateDelay(cfg, k + 1) as real;
      if x >= 0.0 then delay <= x < delay + 1.0 else delay - 1.0 < x <= delay
  {
    GeometricIsUncapped(cfg, xs, k);
  }

  /** By default the delays are 1, 2, 4, 8 and 16 seconds and then half a minute each. */
  lemma {:induction false} DefaultDelays(attempts: int, k: nat)
    ensures CalculateDelay(NewRetrier(Config(attempts, 0, 0, 0.0)), k + 1) ==
      if k < 5 then 1_000_000_000 * RabbitMq.Pow2(k) else 30_000_000_000
    ensures NewRetrier(Config(attempts, 0, 0, 0.0)).maxAttempts == if attempts < 1 then 1 else attempts
  {
    var cfg := NewRetrier(Config(attempts, 0, 0, 0.0));
    DelayDoubles(cfg, k);
    RabbitMq.DoubledIsProduct(cfg.initialDelay, k);
    RabbitMq.Pow2Grows(if k < 5 then k else 5, if k < 5 then 5 else k);
    assert RabbitMq.Pow2(5) == 32;
    if k < 5 { RabbitMq.Pow2Grows(k, 4); }
  }
}
