/**
 The generation-based circuit breaker of pkg/resilience/breaker.go.

 `beforeRequest` and `afterRequest` hold the mutex, so arbitrarily many concurrent requests are an arbitrary
 interleaving of these two atomic steps.  Every switch of phase starts a new generation with zero counts.
 */
module CircuitBreaker {
  import opened Prelude

  datatype State = Closed | Open | HalfOpen

  datatype Counts = Counts(
    requests: nat, totalSuccesses: nat, totalFailures: nat, consecutiveSuccesses: nat, consecutiveFailures: nat)

  const NO_COUNTS := Counts(0, 0, 0, 0, 0)

  datatype Settings = Settings(maxRequests: nat, interval: int, timeout: int, readyToTrip: Option<Counts -> bool>)

  datatype Config = Config(maxRequests: nat, interval: int, timeout: int, readyToTrip: Counts -> bool)

  /** Sixty seconds, in nanoseconds. */
  const DEFAULT_TIMEOUT := 60_000_000_000

  function DefaultTrip(c: Counts): bool { c.consecutiveFailures > 5 }

  /** NewCircuitBreaker: zero values stand for the defaults. */
  function WithDefaults(st: Settings): (cfg: Config)
    ensures cfg.maxRequests > 0 && cfg.timeout != 0
    ensures st.maxRequests > 0 && st.timeout != 0 && st.readyToTrip.Some? ==>
      cfg == Config(st.maxRequests, st.interval, st.timeout, st.readyToTrip.value)
  {
    Config(
      if st.maxRequests == 0 then 1 else st.maxRequests,
      st.interval,
      if st.timeout == 0 then DEFAULT_TIMEOUT else st.timeout,
      match st.readyToTrip case Some(f) => f case None => DefaultTrip)
  }

  /** The fields of the breaker; no expiry stands for Go's zero time. */
  datatype Core = Core(state: State, generation: nat, counts: Counts, expiry: Option<int>)

  function NewGeneration(cfg: Config, c: Core, now: int): Core {
    var expiry := match c.state
      case Closed => if cfg.interval == 0 then None else Some(now + cfg.interval)
      case Open => Some(now + cfg.timeout)
      case HalfOpen => None;
    Core(c.state, c.generation + 1, NO_COUNTS, expiry)
  }

  function SetState(cfg: Config, c: Core, state: State, now: int): Core {
    if c.state == state then c else NewGeneration(cfg, c.(state := state), now)
  }

  function Current(cfg: Config, c: Core, now: int): Core {
    match c.state
    case Closed => if c.expiry.Some? && c.expiry.value < now then NewGeneration(cfg, c, now) else c
    case Open => if c.expiry.None? || c.expiry.value < now then SetState(cfg, c, HalfOpen, now) else c
    case HalfOpen => c
  }

  datatype Admission = Admitted(generation: nat) | BreakerOpen | TooManyRequests

  /** beforeRequest once the phase is up to date. */
  function Admit(cfg: Config, c: Core): (Core, Admission) {
    if c.state == Open then (c, BreakerOpen)
    else if c.state == HalfOpen && c.counts.requests >= cfg.maxRequests then (c, TooManyRequests)
    else (c.(counts := c.counts.(requests := c.counts.requests + 1)), Admitted(c.generation))
  }

  function OnSuccess(cfg: Config, c: Core, now: int): Core {
    if c.state == Open then c
    else
      var k := c.counts.(totalSuccesses := c.counts.totalSuccesses + 1,
                         consecutiveSuccesses := c.counts.consecutiveSuccesses + 1,
                         consecutiveFailures := 0);
      if c.state == HalfOpen && k.consecutiveSuccesses >= cfg.maxRequests
      then SetState(cfg, c.(counts := k), Closed, now)
      else c.(counts := k)
  }

  function OnFailure(cfg: Config, c: Core, now: int): Core {
    match c.state
    case Closed =>
      var k := c.counts.(totalFailures := c.counts.totalFailures + 1,
                         consecutiveFailures := c.counts.consecutiveFailures + 1,
                         consecutiveSuccesses := 0);
      if cfg.readyToTrip(k) then SetState(cfg, c.(counts := k), Open, now) else c.(counts := k)
    case HalfOpen => SetState(cfg, c, Open, now)
    case Open => c
  }

  /** afterRequest once the phase is up to date. */
  function Complete(cfg: Config, c: Core, before: nat, success: bool, now: int): Core {
    if c.generation != before then c
    else if success then OnSuccess(cfg, c, now) else OnFailure(cfg, c, now)
  }

  function Before(cfg: Config, c: Core, now: int): (Core, Admission) {
    Admit(cfg, Current(cfg, c, now))
  }

  function After(cfg: Config, c: Core, before: nat, success: bool, now: int): Core {
    Complete(cfg, Current(cfg, c, now), before, success, now)
  }

  function Initial(cfg: Config, now: int): Core {
    NewGeneration(cfg, Core(Closed, 0, NO_COUNTS, None), now)
  }

  datatype Outcome = Returned | Failed | Panicked

  class Breaker {
    const cfg: Config
    var state: State
    var generation: nat
    var counts: Counts
    var expiry: Option<int>

    ghost function View(): Core reads this { Core(state, generation, counts, expiry) }

    constructor (st: Settings, now: int)
      ensures cfg == WithDefaults(st)
      ensures View() == Initial(WithDefaults(st), now)
    {
      cfg := WithDefaults(st);
      state, generation, counts, expiry := Closed, 0, NO_COUNTS, None;
      new;
      ToNewGeneration(now);
    }

    method ToNewGeneration(now: int)
      modifies this
      ensures View() == NewGeneration(cfg, old(View()), now)
    {
      generation := generation + 1;
      counts := NO_COUNTS;
      match state {
        case Closed =>
          if cfg.interval == 0 { expiry := None; } else { expiry := Some(now + cfg.interval); }
        case Open => expiry := Some(now + cfg.timeout);
        case HalfOpen => expiry := None;
      }
    }

    method ChangeState(next: State, now: int)
      modifies this
      ensures View() == SetState(cfg, old(View()), next, now)
    {
      if state == next { return; }
      state := next;
      ToNewGeneration(now);
    }

    method CurrentState(now: int)
      modifies this
      ensures View() == Current(cfg, old(View()), now)
    {
      match state {
        case Closed =>
          if expiry.Some? && expiry.value < now { ToNewGeneration(now); }
        case Open =>
          if expiry.None? || expiry.value < now { ChangeState(HalfOpen, now); }
        case HalfOpen =>
      }
    }

    method BeforeRequest(now: int) returns (r: Admission)
      modifies this
      ensures (View(), r) == Before(cfg, old(View()), now)
    {
      CurrentState(now);
      if state == Open { return BreakerOpen; }
      if state == HalfOpen && counts.requests >= cfg.maxRequests { return TooManyRequests; }
      counts := counts.(requests := counts.requests + 1);
      return Admitted(generation);
    }

    method AfterRequest(before: nat, success: bool, now: int)
      modifies this
      ensures View() == After(cfg, old(View()), before, success, now)
    {
      CurrentState(now);
      if generation != before { return; }
      if success { HandleSuccess(now); } else { HandleFailure(now); }
    }

    method HandleSuccess(now: int)
      modifies this
      ensures View() == OnSuccess(cfg, old(View()), now)
    {
      if state != Open {
        counts := counts.(totalSuccesses := counts.totalSuccesses + 1);
        counts := counts.(consecutiveSuccesses := counts.consecutiveSuccesses + 1);
        counts := counts.(consecutiveFailures := 0);
        if state == HalfOpen && counts.consecutiveSuccesses >= cfg.maxRequests {
          ChangeState(Closed, now);
        }
      }
    }

    method HandleFailure(now: int)
      modifies this
      ensures View() == OnFailure(cfg, old(View()), now)
    {
      match state {
        case Closed =>
          counts := counts.(totalFailures := counts.totalFailures + 1);
          counts := counts.(consecutiveFailures := counts.consecutiveFailures + 1);
          counts := counts.(consecutiveSuccesses := 0);
          if cfg.readyToTrip(counts) { ChangeState(Open, now); }
        case HalfOpen => ChangeState(Open, now);
        case Open =>
      }
    }

    /** Execute with nobody else in between: a panic counts as a failure. */
    method Execute(outcome: Outcome, started: int, finished: int) returns (ran: bool)
      modifies this
      ensures var (c, adm) := Before(cfg, old(View()), started);
        && (ran <==> adm.Admitted?)
        && View() == if ran then After(cfg, c, adm.generation, outcome == Returned, finished) else c
    {
      var adm := BeforeRequest(started);
      if !adm.Admitted? { return false; }
      AfterRequest(adm.generation, outcome == Returned, finished);
      return true;
    }
  }

  // --- Concurrent runs ------------------------------------------------------------------

  /** A request that was admitted; it is pending until its afterRequest. */
  datatype Request = Request(generation: nat, startedAt: int, pending: bool)

  /** What happened in one generation; `results` are in the order in which they came in, late ones included. */
  datatype Epoch = Epoch(state: State, since: int, admitted: nat, results: seq<bool>)

  /** Generation g is described by epochs[g - 1]. */
  datatype System = System(core: Core, clock: int, requests: seq<Request>, epochs: seq<Epoch>)

  datatype Event = Begin(wait: nat) | Finish(request: nat, success: bool, wait: nat)

  function Track(epochs: seq<Epoch>, core: Core, now: int): seq<Epoch> {
    if core.generation > |epochs| then epochs + [Epoch(core.state, now, 0, [])] else epochs
  }

  function Advance(cfg: Config, s: System, wait: nat): System {
    var now := s.clock + wait;
    var core := Current(cfg, s.core, now);
    s.(core := core, clock := now, epochs := Track(s.epochs, core, now))
  }

  function AdmitStep(cfg: Config, s: System): System {
    var (core, adm) := Admit(cfg, s.core);
    if !adm.Admitted? || adm.generation == 0 || adm.generation > |s.epochs| then s
    else
      var g := adm.generation - 1;
      System(core, s.clock,
             s.requests + [Request(adm.generation, s.clock, true)],
             s.epochs[g := s.epochs[g].(admitted := s.epochs[g].admitted + 1)])
  }

  function FinishStep(cfg: Config, s: System, i: nat, success: bool): System
    requires i < |s.requests| && 0 < s.requests[i].generation <= |s.epochs|
  {
    var g := s.requests[i].generation - 1;
    var core := Complete(cfg, s.core, s.requests[i].generation, success, s.clock);
    var epochs := s.epochs[g := s.epochs[g].(results := s.epochs[g].results + [success])];
    System(core, s.clock, s.requests[i := s.requests[i].(pending := false)], Track(epochs, core, s.clock))
  }

  function Step(cfg: Config, s: System, e: Event): System {
    match e
    case Begin(wait) => AdmitStep(cfg, Advance(cfg, s, wait))
    case Finish(i, success, wait) =>
      var s1 := Advance(cfg, s, wait);
      if i < |s1.requests| && s1.requests[i].pending && 0 < s1.requests[i].generation <= |s1.epochs|
      then FinishStep(cfg, s1, i, success)
      else s1
  }

  function Run(cfg: Config, start: int, es: seq<Event>): System {
    if es == [] then System(Initial(cfg, start), start, [], [Epoch(Closed, start, 0, [])])
    else Step(cfg, Run(cfg, start, es[..|es| - 1]), es[|es| - 1])
  }

  function InFlight(requests: seq<Request>, generation: nat): nat {
    if requests == [] then 0
    else
      var r := requests[|requests| - 1];
      InFlight(requests[..|requests| - 1], generation) + if r.pending && r.generation == generation then 1 else 0
  }

  /** The counts that a generation's history amounts to. */
  function Tally(admitted: nat, results: seq<bool>): Counts {
    if results == [] then NO_COUNTS.(requests := admitted)
    else
      var c := Tally(admitted, results[..|results| - 1]);
      if results[|results| - 1] then
        Counts(admitted, c.totalSuccesses + 1, c.totalFailures, c.consecutiveSuccesses + 1, 0)
      else
        Counts(admitted, c.totalSuccesses, c.totalFailures + 1, 0, c.consecutiveFailures + 1)
  }

  predicate AllTrue(results: seq<bool>) {
    forall i | 0 <= i < |results| :: results[i]
  }

  /** After the first n results of so many admitted requests, the last of them a failure, the breaker was ready to trip. */
  predicate TripsAt(cfg: Config, results: seq<bool>, n: nat, admitted: nat) {
    0 < n <= |results| && n <= admitted && !results[n - 1] && cfg.readyToTrip(Tally(admitted, results[..n]))
  }

  /** How a finished generation may be followed by the next one. */
  ghost predicate Succession(cfg: Config, e: Epoch, f: Epoch) {
    && e.since <= f.since
    && match e.state
       case Closed =>
         || (f.state == Closed && cfg.interval != 0 && e.since + cfg.interval < f.since)
         || (f.state == Open && exists n: nat, admitted: nat :: TripsAt(cfg, e.results, n, admitted) && admitted <= e.admitted)
       case Open => f.state == HalfOpen && e.since + cfg.timeout < f.since
       case HalfOpen =>
         || (f.state == Closed && e.admitted == |e.results| == cfg.maxRequests && AllTrue(e.results))
         || (f.state == Open && false in e.results)
  }

  ghost predicate EpochInv(cfg: Config, requests: seq<Request>, epochs: seq<Epoch>, g: nat)
    requires g < |epochs|
  {
    var e := epochs[g];
    && e.admitted == |e.results| + InFlight(requests, g + 1)
    && (e.state == Open ==> e.admitted == 0)
    && (e.state == HalfOpen ==> e.admitted <= cfg.maxRequests)
    && (g + 1 < |epochs| ==> Succession(cfg, e, epochs[g + 1]))
  }

  ghost predicate RequestInv(requests: seq<Request>, epochs: seq<Epoch>, clock: int, i: nat)
    requires i < |requests|
  {
    var r := requests[i];
    && 0 < r.generation <= |epochs|
    && epochs[r.generation - 1].admitted > 0
    && epochs[r.generation - 1].since <= r.startedAt <= clock
    && (r.generation < |epochs| ==> r.startedAt <= epochs[r.generation].since)
  }

  ghost predicate BooksInv(cfg: Config, requests: seq<Request>, epochs: seq<Epoch>, clock: int) {
    && (forall g: nat | g < |epochs| :: EpochInv(cfg, requests, epochs, g))
    && (forall i: nat | i < |requests| :: RequestInv(requests, epochs, clock, i))
  }

  /** The current generation agrees with the breaker's fields. */
  ghost predicate CoreInv(cfg: Config, core: Core, epochs: seq<Epoch>, clock: int) {
    && |epochs| == core.generation > 0
    && var e := epochs[|epochs| - 1];
    && e.state == core.state
    && e.since <= clock
    && core.counts == Tally(e.admitted, e.results)
    && core.expiry == (match e.state
        case Closed => if cfg.interval == 0 then None else Some(e.since + cfg.interval)
        case Open => Some(e.since + cfg.timeout)
        case HalfOpen => None)
    && (e.state == HalfOpen ==> AllTrue(e.results) && |e.results| < cfg.maxRequests)
  }

  ghost predicate Inv(cfg: Config, s: System) {
    CoreInv(cfg, s.core, s.epochs, s.clock) && BooksInv(cfg, s.requests, s.epochs, s.clock)
  }

  lemma {:induction false} InFlightFinish(requests: seq<Request>, i: nat, generation: nat)
    requires i < |requests| && requests[i].pending
    ensures InFlight(requests[i := requests[i].(pending := false)], generation)
         == InFlight(requests, generation) - if requests[i].generation == generation then 1 else 0
  {
    var after := requests[i := requests[i].(pending := false)];
    var n := |requests| - 1;
    if i == n {
      assert after[..n] == requests[..n];
    } else {
      InFlightFinish(requests[..n], i, generation);
      assert after[..n] == requests[..n][i := requests[i].(pending := false)];
    }
  }

  lemma {:induction false} NoneInFlight(requests: seq<Request>, generation: nat)
    requires forall i | 0 <= i < |requests| :: requests[i].generation != generation
    ensures InFlight(requests, generation) == 0
  {
    if requests != [] { NoneInFlight(requests[..|requests| - 1], generation); }
  }

  /** Opening a new generation on top of books whose last epoch may be followed by it. */
  lemma {:induction false} PushEpoch(cfg: Config, requests: seq<Request>, epochs: seq<Epoch>, e: Epoch)
    requires epochs != [] && BooksInv(cfg, requests, epochs, e.since)
    requires e.admitted == 0 && e.results == [] && Succession(cfg, epochs[|epochs| - 1], e)
    ensures BooksInv(cfg, requests, epochs + [e], e.since)
  {
    var pushed := epochs + [e];
    forall i: nat | i < |requests|
      ensures RequestInv(requests, pushed, e.since, i) && requests[i].generation != |pushed|
    {
      assert RequestInv(requests, epochs, e.since, i);
    }
    NoneInFlight(requests, |pushed|);
    forall g: nat | g < |pushed| ensures EpochInv(cfg, requests, pushed, g) {
      if g < |epochs| { assert EpochInv(cfg, requests, epochs, g); }
    }
  }

  lemma {:induction false} TimePasses(cfg: Config, requests: seq<Request>, epochs: seq<Epoch>, clock: int, later: int)
    requires BooksInv(cfg, requests, epochs, clock) && clock <= later
    ensures BooksInv(cfg, requests, epochs, later)
  {
    forall i: nat | i < |requests| ensures RequestInv(requests, epochs, later, i) {
      assert RequestInv(requests, epochs, clock, i);
    }
  }

  lemma {:induction false} AdvanceInv(cfg: Config, s: System, wait: nat)
    requires cfg.maxRequests > 0 && Inv(cfg, s)
    ensures Inv(cfg, Advance(cfg, s, wait))
  {
    var now := s.clock + wait;
    TimePasses(cfg, s.requests, s.epochs, s.clock, now);
    var core := Current(cfg, s.core, now);
    if core != s.core {
      PushEpoch(cfg, s.requests, s.epochs, Epoch(core.state, now, 0, []));
    }
  }

  lemma {:induction false} AdmitInv(cfg: Config, s: System)
    requires cfg.maxRequests > 0 && Inv(cfg, s)
    ensures Inv(cfg, AdmitStep(cfg, s))
  {
    var t := AdmitStep(cfg, s);
    if t != s {
      var g := s.core.generation - 1;
      assert t.requests[..|s.requests|] == s.requests;
      AdmittedTally(s.epochs[g].admitted, s.epochs[g].results);
      forall i: nat | i < |t.requests| ensures RequestInv(t.requests, t.epochs, t.clock, i) {
        if i < |s.requests| { assert RequestInv(s.requests, s.epochs, s.clock, i); }
      }
      forall h: nat | h < |t.epochs| ensures EpochInv(cfg, t.requests, t.epochs, h) {
        assert EpochInv(cfg, s.requests, s.epochs, h);
      }
    }
  }

  lemma {:induction false} AdmittedTally(admitted: nat, results: seq<bool>)
    ensures Tally(admitted + 1, results) == Tally(admitted, results).(requests := admitted + 1)
    ensures Tally(admitted, results).requests == admitted
  {
    if results != [] { AdmittedTally(admitted, results[..|results| - 1]); }
  }

  lemma {:induction false} TallyTotals(admitted: nat, results: seq<bool>)
    ensures var c := Tally(admitted, results);
      && c.totalSuccesses + c.totalFailures == |results|
      && (AllTrue(results) ==> c == Counts(admitted, |results|, 0, |results|, 0))
  {
    if results != [] {
      var init := results[..|results| - 1];
      TallyTotals(admitted, init);
      if AllTrue(results) { assert AllTrue(init); }
    }
  }

  lemma {:induction false} LateResult(cfg: Config, e: Epoch, success: bool, f: Epoch)
    requires Succession(cfg, e, f)
    requires |e.results| < e.admitted
    ensures Succession(cfg, e.(results := e.results + [success]), f)
  {
    var e' := e.(results := e.results + [success]);
    if e.state == Closed && f.state == Open {
      var n: nat, admitted: nat :| TripsAt(cfg, e.results, n, admitted) && admitted <= e.admitted;
      assert e'.results[..n] == e.results[..n];
      assert TripsAt(cfg, e'.results, n, admitted);
    }
  }

  /** Recording a result in the books of its generation, before the breaker reacts to it. */
  function RecordResult(epochs: seq<Epoch>, generation: nat, success: bool): seq<Epoch>
    requires 0 < generation <= |epochs|
  {
    var g := generation - 1;
    epochs[g := epochs[g].(results := epochs[g].results + [success])]
  }

  lemma {:induction false} RecordInv(
    cfg: Config, requests: seq<Request>, epochs: seq<Epoch>, clock: int, i: nat, success: bool)
    requires BooksInv(cfg, requests, epochs, clock)
    requires i < |requests| && requests[i].pending && 0 < requests[i].generation <= |epochs|
    ensures epochs[requests[i].generation - 1].state != Open
    ensures BooksInv(cfg, requests[i := requests[i].(pending := false)],
                     RecordResult(epochs, requests[i].generation, success), clock)
  {
    var rs := requests[i := requests[i].(pending := false)];
    var es := RecordResult(epochs, requests[i].generation, success);
    var g := requests[i].generation - 1;
    forall j: nat | j < |rs| ensures RequestInv(rs, es, clock, j) { assert RequestInv(requests, epochs, clock, j); }
    InFlightFinish(requests, i, g + 1);
    assert EpochInv(cfg, requests, epochs, g);
    forall h: nat | h < |es| ensures EpochInv(cfg, rs, es, h) {
      assert EpochInv(cfg, requests, epochs, h);
      InFlightFinish(requests, i, h + 1);
      if h == g && g + 1 < |epochs| {
        LateResult(cfg, epochs[g], success, epochs[g + 1]);
      }
    }
  }

  /** The books of the current generation after one more result, and what the breaker made of it. */
  ghost predicate Reacted(cfg: Config, core: Core, epochs: seq<Epoch>, clock: int, success: bool) {
    && 0 < core.generation <= |epochs|
    && var recorded := RecordResult(epochs, core.generation, success);
    var c := Complete(cfg, core, core.generation, success, clock);
    && CoreInv(cfg, c, Track(recorded, c, clock), clock)
    && (c.generation > core.generation ==> Succession(cfg, recorded[|epochs| - 1], Epoch(c.state, clock, 0, [])))
  }

  ghost predicate ResultDue(cfg: Config, core: Core, epochs: seq<Epoch>, clock: int) {
    && CoreInv(cfg, core, epochs, clock) && core.state != Open
    && var e := epochs[|epochs| - 1];
    && |e.results| < e.admitted
    && (core.state == HalfOpen ==> e.admitted <= cfg.maxRequests)
  }

  lemma {:induction false} SuccessInv(cfg: Config, core: Core, epochs: seq<Epoch>, clock: int)
    requires cfg.maxRequests > 0 && ResultDue(cfg, core, epochs, clock)
    ensures Reacted(cfg, core, epochs, clock, true)
  {
    var e := epochs[|epochs| - 1];
    var results := e.results + [true];
    assert results[..|e.results|] == e.results;
    TallyTotals(e.admitted, e.results);
    var k := Tally(e.admitted, results);
    assert core.state == HalfOpen ==> AllTrue(results) && k.consecutiveSuccesses == |results|;
    assert RecordResult(epochs, core.generation, true)[|epochs| - 1].results == results;
  }

  lemma {:induction false} FailureInv(cfg: Config, core: Core, epochs: seq<Epoch>, clock: int)
    requires cfg.maxRequests > 0 && ResultDue(cfg, core, epochs, clock)
    ensures Reacted(cfg, core, epochs, clock, false)
  {
    var e := epochs[|epochs| - 1];
    var results := e.results + [false];
    assert results[..|e.results|] == e.results && results[..|results|] == results;
    assert results[|e.results|] == false;
    var c := Complete(cfg, core, core.generation, false, clock);
    if c.generation > core.generation && e.state == Closed {
      assert TripsAt(cfg, results, |results|, e.admitted);
    }
  }

  lemma {:induction false} FinishInv(cfg: Config, s: System, i: nat, success: bool)
    requires cfg.maxRequests > 0 && Inv(cfg, s)
    requires i < |s.requests| && s.requests[i].pending && 0 < s.requests[i].generation <= |s.epochs|
    ensures Inv(cfg, FinishStep(cfg, s, i, success))
  {
    var g := s.requests[i].generation;
    var rs := s.requests[i := s.requests[i].(pending := false)];
    var recorded := RecordResult(s.epochs, g, success);
    RecordInv(cfg, s.requests, s.epochs, s.clock, i, success);
    var c := Complete(cfg, s.core, g, success, s.clock);
    if g == s.core.generation {
      assert EpochInv(cfg, s.requests, s.epochs, g - 1);
      assert |s.epochs[g - 1].results| < s.epochs[g - 1].admitted by { InFlightFinish(s.requests, i, g); }
      if success { SuccessInv(cfg, s.core, s.epochs, s.clock); } else { FailureInv(cfg, s.core, s.epochs, s.clock); }
      if c.generation > s.core.generation {
        PushEpoch(cfg, rs, recorded, Epoch(c.state, s.clock, 0, []));
      }
    }
  }

  lemma {:induction false} StepInv(cfg: Config, s: System, e: Event)
    requires cfg.maxRequests > 0 && Inv(cfg, s)
    ensures Inv(cfg, Step(cfg, s, e))
  {
    AdvanceInv(cfg, s, e.wait);
    var s1 := Advance(cfg, s, e.wait);
    match e
    case Begin(_) => AdmitInv(cfg, s1);
    case Finish(i, success, _) =>
      if i < |s1.requests| && s1.requests[i].pending && 0 < s1.requests[i].generation <= |s1.epochs| {
        FinishInv(cfg, s1, i, success);
      }
  }

  lemma {:induction false} RunInv(cfg: Config, start: int, es: seq<Event>)
    requires cfg.maxRequests > 0
    ensures Inv(cfg, Run(cfg, start, es))
  {
    if es != [] {
      RunInv(cfg, start, es[..|es| - 1]);
      StepInv(cfg, Run(cfg, start, es[..|es| - 1]), es[|es| - 1]);
    }
  }

  /** A state that some interleaving of some number of requests leads to. */
  ghost predicate Reachable(cfg: Config, s: System) {
    cfg.maxRequests > 0 && exists start: int, es: seq<Event> :: s == Run(cfg, start, es)
  }

  lemma {:induction false} ReachableInv(cfg: Config, s: System)
    requires Reachable(cfg, s)
    ensures Inv(cfg, s)
  {
    var start: int, es: seq<Event> :| s == Run(cfg, start, es);
    RunInv(cfg, start, es);
  }

  // --- Main results -----------------------------------------------------------------------

  /** The counts of the current generation account for every request of that generation. */
  lemma {:induction false} Accounting(cfg: Config, s: System)
    requires Reachable(cfg, s)
    ensures var c := s.core.counts;
      c.requests == c.totalSuccesses + c.totalFailures + InFlight(s.requests, s.core.generation)
  {
    ReachableInv(cfg, s);
    var g := s.core.generation - 1;
    assert EpochInv(cfg, s.requests, s.epochs, g);
    TallyTotals(s.epochs[g].admitted, s.epochs[g].results);
    AdmittedTally(s.epochs[g].admitted, s.epochs[g].results);
  }

  /** A half-open breaker admits exactly while successes and requests in flight leave room; with nothing in flight it always does. */
  lemma {:induction false} HalfOpenNeverWedges(cfg: Config, s: System, now: int)
    requires Reachable(cfg, s) && s.core.state == HalfOpen
    ensures Before(cfg, s.core, now).1.Admitted? <==>
            s.core.counts.totalSuccesses + InFlight(s.requests, s.core.generation) < cfg.maxRequests
    ensures InFlight(s.requests, s.core.generation) == 0 ==> Before(cfg, s.core, now).1.Admitted?
  {
    ReachableInv(cfg, s);
    Accounting(cfg, s);
    var g := s.core.generation - 1;
    TallyTotals(s.epochs[g].admitted, s.epochs[g].results);
  }

  /**
   The answer to a request, read off the books of the current generation: a closed breaker admits, a half-open one while
   its results, all successes, and the requests in flight leave room, an open one only strictly after its timeout.
   */
  predicate AnswersByBooks(cfg: Config, core: Core, requests: seq<Request>, epochs: seq<Epoch>, now: int)
    requires epochs != []
  {
    var e, n := epochs[|epochs| - 1], |epochs|;
    var answer := Before(cfg, core, now).1;
    var renewed := e.state == Open || (e.state == Closed && cfg.interval != 0 && e.since + cfg.interval < now);
    && (answer.Admitted? <==>
        (|| e.state == Closed
         || (e.state == HalfOpen && |e.results| + InFlight(requests, n) < cfg.maxRequests)
         || (e.state == Open && e.since + cfg.timeout < now)))
    && (answer.BreakerOpen? <==> e.state == Open && now <= e.since + cfg.timeout)
    && (answer.TooManyRequests? <==> e.state == HalfOpen && |e.results| + InFlight(requests, n) >= cfg.maxRequests)
    && (e.state == HalfOpen ==> AllTrue(e.results))
    && (answer.Admitted? ==> answer.generation == if renewed then n + 1 else n)
  }

  lemma {:induction false} CoreAnswers(
    cfg: Config, core: Core, requests: seq<Request>, epochs: seq<Epoch>, clock: int, now: int)
    requires cfg.maxRequests > 0 && CoreInv(cfg, core, epochs, clock)
    requires EpochInv(cfg, requests, epochs, |epochs| - 1)
    ensures AnswersByBooks(cfg, core, requests, epochs, now)
  {
    var e := epochs[|epochs| - 1];
    AdmittedTally(e.admitted, e.results);
  }

  /** In every reachable state and at every instant the answer is the one that the books give. */
  lemma {:induction false} AdmissionExact(cfg: Config, s: System, now: int)
    requires Reachable(cfg, s)
    ensures s.epochs != [] && AnswersByBooks(cfg, s.core, s.requests, s.epochs, now)
  {
    ReachableInv(cfg, s);
    CoreAnswers(cfg, s.core, s.requests, s.epochs, s.clock, now);
  }

  /** What one more result of the current generation makes of the breaker, unless its interval has passed. */
  function NextState(cfg: Config, e: Epoch, success: bool): State {
    match e.state
    case Closed => if !success && cfg.readyToTrip(Tally(e.admitted, e.results + [success])) then Open else Closed
    case HalfOpen => if !success then Open else if |e.results| + 1 == cfg.maxRequests then Closed else HalfOpen
    case Open => Open
  }

  predicate Expired(cfg: Config, e: Epoch, now: int) {
    e.state == Closed && cfg.interval != 0 && e.since + cfg.interval < now
  }

  /** Only a result of the current generation has an effect, and only while that generation lasts. */
  predicate ResultIs(cfg: Config, core: Core, epochs: seq<Epoch>, g: nat, success: bool, now: int)
    requires epochs != []
  {
    var e, n := epochs[|epochs| - 1], |epochs|;
    var c := After(cfg, core, g, success, now);
    if e.state == Open || g < n || Expired(cfg, e, now) then c == Current(cfg, core, now)
    else c.state == NextState(cfg, e, success) && c.generation == if c.state == e.state then n else n + 1
  }

  lemma {:induction false} OldResult(
    cfg: Config, core: Core, epochs: seq<Epoch>, clock: int, g: nat, success: bool, now: int)
    requires CoreInv(cfg, core, epochs, clock) && g < core.generation
    ensures ResultIs(cfg, core, epochs, g, success, now)
  {
  }

  lemma {:induction false} NewResult(cfg: Config, core: Core, epochs: seq<Epoch>, clock: int, success: bool, now: int)
    requires CoreInv(cfg, core, epochs, clock)
    ensures ResultIs(cfg, core, epochs, |epochs|, success, now)
  {
    var e := epochs[|epochs| - 1];
    if e.state != Open && !Expired(cfg, e, now) {
      assert Current(cfg, core, now) == core;
      if success { NewSuccess(cfg, core, e, now); } else { NewFailure(cfg, core, e, now); }
    } else if core.state == Open && Current(cfg, core, now) == core {
      assert Complete(cfg, core, |epochs|, success, now) == core;
    } else {
      assert Current(cfg, core, now).generation != |epochs|;
    }
  }

  /** The phase after a result, in every reachable state. */
  lemma {:induction false} ResultExact(cfg: Config, s: System, i: nat, success: bool, now: int)
    requires Reachable(cfg, s) && i < |s.requests| && s.requests[i].pending
    ensures s.epochs != []
    ensures ResultIs(cfg, s.core, s.epochs, s.requests[i].generation, success, now)
  {
    ReachableInv(cfg, s);
    assert RequestInv(s.requests, s.epochs, s.clock, i);
    var g := s.requests[i].generation;
    if g < |s.epochs| {
      OldResult(cfg, s.core, s.epochs, s.clock, g, success, now);
    } else {
      NewResult(cfg, s.core, s.epochs, s.clock, success, now);
    }
  }

  lemma {:induction false} NewSuccess(cfg: Config, core: Core, e: Epoch, now: int)
    requires core.state == e.state != Open && core.counts == Tally(e.admitted, e.results)
    requires e.state == HalfOpen ==> AllTrue(e.results) && |e.results| < cfg.maxRequests
    ensures var c := OnSuccess(cfg, core, now);
      c.state == NextState(cfg, e, true) && c.generation == if c.state == e.state then core.generation else core.generation + 1
  {
    TallyTotals(e.admitted, e.results);
  }

  lemma {:induction false} NewFailure(cfg: Config, core: Core, e: Epoch, now: int)
    requires core.state == e.state != Open && core.counts == Tally(e.admitted, e.results)
    ensures var c := OnFailure(cfg, core, now);
      c.state == NextState(cfg, e, false) && c.generation == if c.state == e.state then core.generation else core.generation + 1
  {
    ResultTally(e.admitted, e.results, false);
    AdmittedTally(e.admitted, e.results);
  }

  lemma {:induction false} ResultTally(admitted: nat, results: seq<bool>, success: bool)
    ensures var c := Tally(admitted, results);
      Tally(admitted, results + [success]) ==
        if success then Counts(admitted, c.totalSuccesses + 1, c.totalFailures, c.consecutiveSuccesses + 1, 0)
        else Counts(admitted, c.totalSuccesses, c.totalFailures + 1, 0, c.consecutiveFailures + 1)
  {
    assert (results + [success])[..|results|] == results;
    AdmittedTally(admitted, results);
  }

  lemma {:induction false} AdmitStepIsAdmit(cfg: Config, s: System)
    requires 0 < s.core.generation <= |s.epochs|
    ensures var (core, answer) := Admit(cfg, s.core);
      && AdmitStep(cfg, s).core == core
      && AdmitStep(cfg, s).requests ==
           if answer.Admitted? then s.requests + [Request(answer.generation, s.clock, true)] else s.requests
  {
  }

  /** The steps of the interleaved runs are the two locked calls. */
  predicate BeginCalls(cfg: Config, s: System, wait: nat) {
    var (core, answer) := Before(cfg, s.core, s.clock + wait);
    var t := Step(cfg, s, Begin(wait));
    && t.core == core
    && t.requests == if answer.Admitted? then s.requests + [Request(answer.generation, s.clock + wait, true)] else s.requests
  }

  predicate FinishCalls(cfg: Config, s: System, i: nat, success: bool, wait: nat)
    requires i < |s.requests|
  {
    var t := Step(cfg, s, Finish(i, success, wait));
    && t.core == After(cfg, s.core, s.requests[i].generation, success, s.clock + wait)
    && t.requests == s.requests[i := s.requests[i].(pending := false)]
  }

  lemma {:induction false} BeginFromCore(cfg: Config, s: System, wait: nat)
    requires 0 < s.core.generation == |s.epochs|
    ensures BeginCalls(cfg, s, wait)
  {
    AdmitStepIsAdmit(cfg, Advance(cfg, s, wait));
  }

  lemma {:induction false} FinishFromCore(cfg: Config, s: System, i: nat, success: bool, wait: nat)
    requires i < |s.requests| && s.requests[i].pending && 0 < s.requests[i].generation <= |s.epochs|
    ensures FinishCalls(cfg, s, i, success, wait)
  {
  }

  lemma {:induction false} StepsAreCalls(cfg: Config, s: System, i: nat, success: bool, wait: nat)
    requires Reachable(cfg, s)
    ensures BeginCalls(cfg, s, wait)
    ensures i < |s.requests| && s.requests[i].pending ==> FinishCalls(cfg, s, i, success, wait)
  {
    ReachableInv(cfg, s);
    BeginFromCore(cfg, s, wait);
    if i < |s.requests| && s.requests[i].pending {
      assert RequestInv(s.requests, s.epochs, s.clock, i);
      FinishFromCore(cfg, s, i, success, wait);
    }
  }

  /**
   Phase safety of every run, generation by generation: an open generation admits nothing; a half-open one admits at
   most maxRequests, is followed by a closed one only if exactly maxRequests requests were admitted and all succeeded,
   and by an open one only if a request failed.
   */
  lemma {:induction false} PhaseSafety(cfg: Config, s: System, g: nat)
    requires Reachable(cfg, s) && g < |s.epochs|
    ensures s.epochs[g].state == Open ==> s.epochs[g].admitted == 0
    ensures s.epochs[g].state == HalfOpen ==> s.epochs[g].admitted <= cfg.maxRequests
    ensures g + 1 < |s.epochs| ==> Succession(cfg, s.epochs[g], s.epochs[g + 1])
  {
    ReachableInv(cfg, s);
    assert EpochInv(cfg, s.requests, s.epochs, g);
  }

  lemma {:induction false} EpochsInOrder(cfg: Config, s: System, g: nat, h: nat)
    requires Inv(cfg, s) && g <= h < |s.epochs|
    ensures s.epochs[g].since <= s.epochs[h].since
    decreases h - g
  {
    if g < h {
      EpochsInOrder(cfg, s, g + 1, h);
      assert EpochInv(cfg, s.requests, s.epochs, g);
    }
  }

  lemma {:induction false} StartedBeforeOpening(cfg: Config, s: System, g: nat, i: nat)
    requires Inv(cfg, s) && g < |s.epochs| && i < |s.requests|
    requires s.requests[i].generation - 1 < g
    ensures s.requests[i].startedAt <= s.epochs[g].since
  {
    assert RequestInv(s.requests, s.epochs, s.clock, i);
    EpochsInOrder(cfg, s, s.requests[i].generation, g);
  }

  lemma {:induction false} StartedAfterExpiry(cfg: Config, s: System, g: nat, i: nat)
    requires Inv(cfg, s) && g < |s.epochs| && i < |s.requests| && s.epochs[g].state == Open
    requires g < s.requests[i].generation - 1
    ensures s.epochs[g].since + cfg.timeout < s.requests[i].startedAt
  {
    assert RequestInv(s.requests, s.epochs, s.clock, i);
    assert EpochInv(cfg, s.requests, s.epochs, g);
    EpochsInOrder(cfg, s, g + 1, s.requests[i].generation - 1);
  }

  /** No request at all starts after an opening of the breaker and up to and including its expiry. */
  lemma {:induction false} OpenAdmitsNothing(cfg: Config, s: System, g: nat, i: nat)
    requires Reachable(cfg, s) && g < |s.epochs| && i < |s.requests|
    requires s.epochs[g].state == Open
    ensures s.requests[i].startedAt <= s.epochs[g].since || s.epochs[g].since + cfg.timeout < s.requests[i].startedAt
  {
    ReachableInv(cfg, s);
    assert RequestInv(s.requests, s.epochs, s.clock, i);
    assert EpochInv(cfg, s.requests, s.epochs, g);
    var h := s.requests[i].generation - 1;
    if h < g { StartedBeforeOpening(cfg, s, g, i); }
    if g < h { StartedAfterExpiry(cfg, s, g, i); }
  }

  /** A result from an older generation changes nothing in the breaker. */
  lemma {:induction false} StaleResultIgnored(cfg: Config, s: System, i: nat, success: bool, wait: nat)
    requires i < |s.requests| && s.requests[i].generation < s.core.generation
    ensures Step(cfg, s, Finish(i, success, wait)).core == Current(cfg, s.core, s.clock + wait)
  {
    var core := Current(cfg, s.core, s.clock + wait);
    assert Complete(cfg, core, s.requests[i].generation, success, s.clock + wait) == core;
  }

  /** With the default rule a closed generation opens only after six failures in a row. */
  lemma {:induction false} DefaultTripMeansSixFailures(cfg: Config, s: System, g: nat)
    requires Reachable(cfg, s) && g + 1 < |s.epochs|
    requires forall c: Counts :: cfg.readyToTrip(c) ==> DefaultTrip(c)
    requires s.epochs[g].state == Closed && s.epochs[g + 1].state == Open
    ensures exists n: nat :: SixFailuresBefore(s.epochs[g].results, n)
  {
    PhaseSafety(cfg, s, g);
    var results := s.epochs[g].results;
    var n: nat, admitted: nat :| TripsAt(cfg, results, n, admitted);
    TripNeedsSix(cfg, results, n, admitted);
  }

  lemma {:induction false} TripNeedsSix(cfg: Config, results: seq<bool>, n: nat, admitted: nat)
    requires TripsAt(cfg, results, n, admitted)
    requires forall c: Counts :: cfg.readyToTrip(c) ==> DefaultTrip(c)
    ensures SixFailuresBefore(results, n)
  {
    var prefix := results[..n];
    TrailingFailures(admitted, prefix);
    forall j | n - 6 <= j < n ensures !results[j] {
      assert prefix[j] == results[j];
    }
  }

  /** ... and six failures in a row do open it: a closed breaker never shows more than five. */
  lemma {:induction false} ClosedShowsAtMostFiveFailures(cfg: Config, s: System)
    requires Reachable(cfg, s) && s.core.state == Closed
    requires forall c: Counts :: DefaultTrip(c) ==> cfg.readyToTrip(c)
    ensures s.core.counts.consecutiveFailures <= 5
  {
    var start: int, es: seq<Event> :| s == Run(cfg, start, es);
    RunKeepsFive(cfg, start, es);
  }

  predicate AtMostFive(c: Core) {
    c.state == Closed ==> c.counts.consecutiveFailures <= 5
  }

  lemma {:induction false} CompleteKeepsFive(cfg: Config, c: Core, before: nat, success: bool, now: int)
    requires forall c: Counts :: DefaultTrip(c) ==> cfg.readyToTrip(c)
    requires AtMostFive(c)
    ensures AtMostFive(Complete(cfg, c, before, success, now))
  {
    if c.state == Closed && !success {
      var k := c.counts.(totalFailures := c.counts.totalFailures + 1,
                         consecutiveFailures := c.counts.consecutiveFailures + 1,
                         consecutiveSuccesses := 0);
      assert DefaultTrip(k) ==> cfg.readyToTrip(k);
    }
  }

  lemma {:induction false} StepKeepsFive(cfg: Config, s: System, e: Event)
    requires forall c: Counts :: DefaultTrip(c) ==> cfg.readyToTrip(c)
    requires AtMostFive(s.core)
    ensures AtMostFive(Step(cfg, s, e).core)
  {
    var s1 := Advance(cfg, s, e.wait);
    assert AtMostFive(s1.core);
    if e.Finish? && e.request < |s1.requests| {
      CompleteKeepsFive(cfg, s1.core, s1.requests[e.request].generation, e.success, s1.clock);
    }
  }

  lemma {:induction false} RunKeepsFive(cfg: Config, start: int, es: seq<Event>)
    requires forall c: Counts :: DefaultTrip(c) ==> cfg.readyToTrip(c)
    ensures AtMostFive(Run(cfg, start, es).core)
  {
    if es != [] {
      RunKeepsFive(cfg, start, es[..|es| - 1]);
      StepKeepsFive(cfg, Run(cfg, start, es[..|es| - 1]), es[|es| - 1]);
    }
  }

  predicate SixFailuresBefore(results: seq<bool>, n: nat) {
    6 <= n <= |results| && forall j | n - 6 <= j < n :: !results[j]
  }

  lemma {:induction false} TrailingFailures(admitted: nat, results: seq<bool>)
    ensures var k := Tally(admitted, results).consecutiveFailures;
      k <= |results| && forall j | |results| - k <= j < |results| :: !results[j]
  {
    if results != [] {
      var init := results[..|results| - 1];
      TrailingFailures(admitted, init);
    }
  }

  /** When a probe starts and when it succeeds. */
  datatype Span = Span(from: int, until: int)

  /** One request after another, each successful if it is admitted, at their own instants. */
  function Probe(cfg: Config, c: Core, spans: seq<Span>): Core
    decreases |spans|
  {
    if spans == [] then c
    else
      var (c1, adm) := Before(cfg, c, spans[0].from);
      Probe(cfg, if adm.Admitted? then After(cfg, c1, adm.generation, true, spans[0].until) else c1, spans[1..])
  }

  /**
   Recovery: once an open breaker has expired, successful probes, however long they and the pauses between them take,
   close it again with the maxRequests-th of them and not before.
   */
  lemma {:induction false} ProbesClose(cfg: Config, s: System, spans: seq<Span>)
    requires Reachable(cfg, s) && s.core.state == Open && s.core.expiry.Some?
    requires 0 < |spans| <= cfg.maxRequests && s.core.expiry.value < spans[0].from
    ensures Probe(cfg, s.core, spans).state == if |spans| == cfg.maxRequests then Closed else HalfOpen
  {
    var h := Current(cfg, s.core, spans[0].from);
    assert Before(cfg, s.core, spans[0].from) == Before(cfg, h, spans[0].from);
    assert Probe(cfg, s.core, spans) == Probe(cfg, h, spans);
    HalfOpenProbes(cfg, h, spans);
  }

  lemma {:induction false} HalfOpenProbes(cfg: Config, c: Core, spans: seq<Span>)
    requires c.state == HalfOpen && c.counts.requests == c.counts.consecutiveSuccesses < cfg.maxRequests
    requires |spans| <= cfg.maxRequests - c.counts.requests
    ensures Probe(cfg, c, spans).state == if |spans| == cfg.maxRequests - c.counts.requests then Closed else HalfOpen
    decreases |spans|
  {
    if spans != [] {
      var (c1, adm) := Before(cfg, c, spans[0].from);
      var c2 := After(cfg, c1, adm.generation, true, spans[0].until);
      assert Probe(cfg, c, spans) == Probe(cfg, c2, spans[1..]);
      if |spans| < cfg.maxRequests - c.counts.requests || spans[1..] != [] {
        HalfOpenProbes(cfg, c2, spans[1..]);
      }
    }
  }

  /** One failing call after another. */
  function Failures(cfg: Config, c: Core, spans: seq<Span>): Core {
    if spans == [] then c
    else
      var span := spans[|spans| - 1];
      var (c1, adm) := Before(cfg, Failures(cfg, c, spans[..|spans| - 1]), span.from);
      if adm.Admitted? then After(cfg, c1, adm.generation, false, span.until) else c1
  }

  /**
   A breaker with no settings at all: it stays closed through five failures, opens at the sixth for a minute, and then
   one success closes it.
   */
  lemma {:induction false} DefaultBreaker(start: int, spans: seq<Span>, now: int, probe: Span)
    requires |spans| <= 6
    ensures var cfg := WithDefaults(Settings(0, 0, 0, None)); var c := Failures(cfg, Initial(cfg, start), spans);
      if |spans| < 6 then c.state == Closed && Before(cfg, c, now).1.Admitted?
      else
        && c.state == Open
        && (Before(cfg, c, now).1.Admitted? <==> spans[5].until + 60_000_000_000 < now)
        && (Probe(cfg, c, [probe]).state == Closed <==> spans[5].until + 60_000_000_000 < probe.from)
  {
    var cfg := WithDefaults(Settings(0, 0, 0, None));
    DefaultFailures(start, spans);
    var c := Failures(cfg, Initial(cfg, start), spans);
    assert [probe][1..] == [];
  }

  lemma {:induction false} DefaultFailures(start: int, spans: seq<Span>)
    requires |spans| <= 6
    ensures var cfg := WithDefaults(Settings(0, 0, 0, None)); var c := Failures(cfg, Initial(cfg, start), spans);
      if |spans| < 6 then c.state == Closed && c.expiry.None? && c.counts.consecutiveFailures == |spans|
      else c.state == Open && c.counts == NO_COUNTS && c.expiry == Some(spans[5].until + 60_000_000_000)
  {
    if spans != [] { DefaultFailures(start, spans[..|spans| - 1]); }
  }
}
