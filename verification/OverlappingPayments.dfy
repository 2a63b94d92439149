/**
 Requests of cmd/payments/handlers.go that overlap: looking up the key, reading the intent, finishing (the charge and
 the status update) and saving the key are separate steps, and any of them may come in between those of another request.
 */
module OverlappingPayments {
  import opened Prelude
  import opened Payments

  /** Past the key lookup; holding an intent that was read; with an answer; and through with it. */
  datatype Stage = Entered | Holding(intent: Intent) | Ready(response: Response) | Through(response: Response)

  /** `charged` is history: the bank has accepted this request's charge. */
  datatype Thread = Thread(call: Call, stage: Stage, charged: bool)

  datatype System = System(db: Db, threads: seq<Thread>)

  datatype Event = Arrive(call: Call) | ReadStep(thread: nat) | FinishStep(thread: nat) | SaveStep(thread: nat)

  function Index(c: Call): (string, string)
    requires c.caller.User?
  {
    (c.caller.id, c.key)
  }

  /** The intent that a confirmation or a refund is about. */
  function Target(r: Request): Option<string> {
    match r
    case Confirm(id, _) => Some(id)
    case Refund(id) => Some(id)
    case _ => None
  }

  /** The middleware before the handler: an answer, or None to go on. */
  function Lookup(db: Db, c: Call): Option<Response> {
    if c.key == "" then None
    else if !c.caller.User? then Some(Unauthorized(c.caller, "Authentication required for idempotent requests"))
    else if !c.outcome.lookup then Some(Error("Internal Server Error"))
    else if Index(c) in db.keys then Some(db.keys[Index(c)])
    else None
  }

  function Held(r: Result<Intent, Response>): Stage {
    match r
    case Failure(resp) => Ready(resp)
    case Success(intent) => Holding(intent)
  }

  /** The handler up to the intent it reads; requests without one are handled in this step. */
  function Read(db: Db, c: Call): (Db, Stage) {
    match c.request
    case Confirm(_, _) => (db, Held(ReadForConfirm(db, c.request, c.outcome)))
    case Refund(_) => (db, Held(ReadForRefund(db, c.request, c.outcome)))
    case _ => var (db', resp) := Handle(db, c.caller, c.request, c.outcome); (db', Ready(resp))
  }

  function Finish(db: Db, c: Call, intent: Intent): (Db, Response)
    requires Target(c.request).Some?
  {
    match c.request
    case Confirm(id, _) => FinishConfirm(db, id, intent, c.outcome)
    case Refund(id) => FinishRefund(db, id, intent, c.outcome)
  }

  /** The key's row is inserted unless it exists. */
  function Save(db: Db, c: Call, resp: Response): Db {
    if c.key != "" && c.caller.User? && resp.status < 500 && c.outcome.save && Index(c) !in db.keys
    then db.(keys := db.keys[Index(c) := resp])
    else db
  }

  predicate IsAt(s: System, i: nat, entered: bool) {
    i < |s.threads| && if entered then s.threads[i].stage.Entered? else s.threads[i].stage.Ready?
  }

  /** The thread holds an intent and is about to finish. */
  predicate Holds(s: System, i: nat) {
    i < |s.threads| && s.threads[i].stage.Holding? && Target(s.threads[i].call.request).Some?
  }

  function Step(s: System, e: Event): System {
    match e
    case Arrive(c) =>
      var stage := match Lookup(s.db, c) case Some(resp) => Through(resp) case None => Entered;
      s.(threads := s.threads + [Thread(c, stage, false)])
    case ReadStep(i) =>
      if !IsAt(s, i, true) then s
      else
        var (db, stage) := Read(s.db, s.threads[i].call);
        System(db, s.threads[i := s.threads[i].(stage := stage)])
    case FinishStep(i) =>
      if !Holds(s, i) then s
      else
        var t := s.threads[i];
        var (db, resp) := Finish(s.db, t.call, t.stage.intent);
        System(db, s.threads[i := Thread(t.call, Ready(resp), t.call.request.Confirm? && t.call.outcome.charge)])
    case SaveStep(i) =>
      if !IsAt(s, i, false) then s
      else
        var t := s.threads[i];
        System(Save(s.db, t.call, t.stage.response), s.threads[i := t.(stage := Through(t.stage.response))])
  }

  /** Events and the states they lead to, the first state being the empty one. */
  datatype Run = Run(events: seq<Event>, states: seq<System>)

  predicate StepsTo(r: Run, j: nat)
    requires j < |r.events| && |r.states| == |r.events| + 1
  {
    r.states[j + 1] == Step(r.states[j], r.events[j])
  }

  predicate IsRun(r: Run) {
    && |r.states| == |r.events| + 1
    && r.states[0] == System(EMPTY, [])
    && forall j: nat | j < |r.events| :: StepsTo(r, j)
  }

  /** Every sequence of events makes a run. */
  function RunOf(events: seq<Event>): (r: Run)
    ensures IsRun(r) && r.events == events
  {
    if events == [] then Run([], [System(EMPTY, [])])
    else
      var n := |events| - 1;
      var p := RunOf(events[..n]);
      var r := Run(events, p.states + [Step(p.states[n], events[n])]);
      assert forall j: nat | j < n :: StepsTo(p, j) && p.events[j] == events[j] ==> StepsTo(r, j);
      assert StepsTo(r, n);
      r
  }

  // --- What holds of every thread -----------------------------------------------------------------------

  /**
   A held confirmation has read another status than succeeded, a held refund has read succeeded; no answer is a server
   error; and only a request that has finished has charged.
   */
  predicate Sound(db: Db, t: Thread) {
    match t.stage
    case Entered => !t.charged
    case Holding(intent) =>
      && Target(t.call.request).Some? && Target(t.call.request).value in db.intents
      && (intent.status == Succeeded <==> t.call.request.Refund?)
      && !t.charged
    case Ready(resp) => resp.status < 500
    case Through(_) => true
  }

  predicate Inv(s: System) {
    forall i | 0 <= i < |s.threads| :: Sound(s.db, s.threads[i])
  }

  lemma {:induction false} ReadIsSound(db: Db, c: Call)
    ensures var (db', stage) := Read(db, c);
      && Sound(db', Thread(c, stage, false)) && db'.keys == db.keys && forall id | id in db.intents :: id in db'.intents
  {
    if Target(c.request).None? { NoServerErrors(db, c.caller, c.request, c.outcome); }
  }

  lemma {:induction false} FinishConfirmKeeps(db: Db, id: string, intent: Intent, o: Outcome)
    ensures var (db', resp) := FinishConfirm(db, id, intent, o);
      db'.intents.Keys == db.intents.Keys && db'.keys == db.keys && resp.status < 500
  {
  }

  lemma {:induction false} FinishIsSound(db: Db, c: Call, intent: Intent)
    requires Target(c.request).Some?
    ensures var (db', resp) := Finish(db, c, intent);
      db'.intents.Keys == db.intents.Keys && db'.keys == db.keys && resp.status < 500
  {
    if c.request.Confirm? { FinishConfirmKeeps(db, c.request.id, intent, c.outcome); }
  }

  lemma {:induction false} StepInv(s: System, e: Event)
    requires Inv(s)
    ensures Inv(Step(s, e))
  {
    match e
    case Arrive(_) =>
    case ReadStep(i) => if IsAt(s, i, true) { ReadIsSound(s.db, s.threads[i].call); }
    case FinishStep(i) => if Holds(s, i) { FinishIsSound(s.db, s.threads[i].call, s.threads[i].stage.intent); }
    case SaveStep(i) =>
  }

  lemma {:induction false} InvNext(r: Run, n: nat)
    requires IsRun(r) && n < |r.events| && Inv(r.states[n])
    ensures Inv(r.states[n + 1])
  {
    assert StepsTo(r, n);
    StepInv(r.states[n], r.events[n]);
  }

  lemma {:induction false} RunInv(r: Run, n: nat)
    requires IsRun(r) && n <= |r.events|
    ensures Inv(r.states[n])
  {
    if n > 0 {
      RunInv(r, n - 1);
      InvNext(r, n - 1);
    }
  }

  // --- The status is the last one written ---------------------------------------------------------------

  predicate FinishesOn(s: System, e: Event, id: string) {
    e.FinishStep? && Holds(s, e.thread) && Target(s.threads[e.thread].call.request) == Some(id)
  }

  /** The status that a request writes. */
  function Writes(c: Call): Status {
    if c.request.Refund? then Refunded else if c.outcome.charge then Succeeded else Failed
  }

  /** The status that a finish on the intent writes, if it writes one. */
  function WrittenBy(s: System, e: Event, id: string): Option<Status> {
    if FinishesOn(s, e, id) && s.threads[e.thread].call.outcome.write then Some(Writes(s.threads[e.thread].call)) else None
  }

  function Either<T>(a: Option<T>, b: Option<T>): Option<T> {
    if a.Some? then a else b
  }

  /** What event j writes on the intent. */
  function WrittenAt(r: Run, j: nat, id: string): Option<Status>
    requires IsRun(r) && j < |r.events|
  {
    WrittenBy(r.states[j], r.events[j], id)
  }

  function Writings(r: Run, id: string): seq<Option<Status>>
    requires IsRun(r)
  {
    seq(|r.events|, j requires 0 <= j < |r.events| => WrittenAt(r, j, id))
  }

  /** The last status among the first n. */
  function LastOf(ws: seq<Option<Status>>, n: nat): Option<Status>
    requires n <= |ws|
  {
    if n == 0 then None else Either(ws[n - 1], LastOf(ws, n - 1))
  }

  /** What the last finish among the first n events that wrote a status on the intent wrote. */
  function LastWritten(r: Run, n: nat, id: string): Option<Status>
    requires IsRun(r) && n <= |r.events|
  {
    LastOf(Writings(r, id), n)
  }

  function StatusOf(db: Db, id: string): Option<Status> {
    if id in db.intents then Some(db.intents[id].status) else None
  }

  lemma {:induction false} ReadStatus(db: Db, c: Call, id: string)
    ensures StatusOf(Read(db, c).0, id) ==
      if id in db.intents then StatusOf(db, id)
      else if id in Read(db, c).0.intents then Some(RequiresPaymentMethod) else None
  {
  }

  lemma {:induction false} FinishStatus(s: System, i: nat, id: string)
    requires Inv(s) && Holds(s, i)
    ensures StatusOf(Step(s, FinishStep(i)).db, id) == Either(WrittenBy(s, FinishStep(i), id), StatusOf(s.db, id))
  {
    assert Sound(s.db, s.threads[i]);
  }

  /** The intent has the status written last, or the one it was created with; nothing is written before it exists. */
  predicate Stands(db: Db, id: string, last: Option<Status>) {
    if id in db.intents
    then db.intents[id].status == match last case Some(status) => status case None => RequiresPaymentMethod
    else last.None?
  }

  lemma {:induction false} StepStands(s: System, e: Event, id: string, last: Option<Status>)
    requires Inv(s) && Stands(s.db, id, last)
    ensures Stands(Step(s, e).db, id, Either(WrittenBy(s, e, id), last))
  {
    match e
    case Arrive(_) =>
    case ReadStep(i) => if IsAt(s, i, true) { ReadStatus(s.db, s.threads[i].call, id); }
    case FinishStep(i) =>
      if Holds(s, i) {
        FinishStatus(s, i, id);
        assert Sound(s.db, s.threads[i]);
      }
    case SaveStep(i) =>
  }

  lemma {:induction false} StandsNext(r: Run, n: nat, id: string, last: Option<Status>)
    requires IsRun(r) && n < |r.events| && Inv(r.states[n]) && Stands(r.states[n].db, id, last)
    ensures Stands(r.states[n + 1].db, id, Either(WrittenAt(r, n, id), last))
  {
    assert StepsTo(r, n);
    StepStands(r.states[n], r.events[n], id, last);
  }

  /** Every intent has the status that was written last, or the one it was created with. */
  lemma {:induction false} StatusIsLastWritten(r: Run, n: nat, id: string)
    requires IsRun(r) && n <= |r.events|
    ensures Stands(r.states[n].db, id, LastWritten(r, n, id))
  {
    if n > 0 {
      StatusIsLastWritten(r, n - 1, id);
      RunInv(r, n - 1);
      StandsNext(r, n - 1, id, LastWritten(r, n - 1, id));
    }
  }

  // --- Who charges -----------------------------------------------------------------------------------------

  predicate Charges(t: Thread, id: string) {
    t.charged && Target(t.call.request) == Some(id)
  }

  /** How many of the threads have charged the intent. */
  function Charging(threads: seq<Thread>, id: string): nat {
    if threads == [] then 0
    else Charging(threads[..|threads| - 1], id) + if Charges(threads[|threads| - 1], id) then 1 else 0
  }

  lemma {:induction false} ChargingUpdate(threads: seq<Thread>, i: nat, t: Thread, id: string)
    requires i < |threads|
    ensures Charging(threads[i := t], id) == Charging(threads, id)
      + (if Charges(t, id) then 1 else 0) - (if Charges(threads[i], id) then 1 else 0)
  {
    var n := |threads| - 1;
    if i < n {
      assert threads[i := t][..n] == threads[..n][i := t];
      ChargingUpdate(threads[..n], i, t, id);
    } else {
      assert threads[i := t][..n] == threads[..n];
    }
  }

  lemma {:induction false} ReadKeepsCharges(db: Db, c: Call)
    ensures Read(db, c).0.charges == db.charges
  {
  }

  lemma {:induction false} FinishCharges(db: Db, c: Call, intent: Intent, id: string)
    requires Target(c.request).Some?
    ensures Finish(db, c, intent).0.charges[id] == db.charges[id]
      + if c.request.Confirm? && c.outcome.charge && Target(c.request) == Some(id) then 1 else 0
  {
  }

  lemma {:induction false} StepCharging(s: System, e: Event, id: string)
    requires Inv(s) && s.db.charges[id] == Charging(s.threads, id)
    ensures Step(s, e).db.charges[id] == Charging(Step(s, e).threads, id)
  {
    match e
    case Arrive(c) => assert Step(s, e).threads[..|s.threads|] == s.threads;
    case ReadStep(i) =>
      if IsAt(s, i, true) {
        ReadKeepsCharges(s.db, s.threads[i].call);
        ChargingUpdate(s.threads, i, Step(s, e).threads[i], id);
      }
    case FinishStep(i) =>
      if Holds(s, i) {
        assert Sound(s.db, s.threads[i]);
        FinishCharges(s.db, s.threads[i].call, s.threads[i].stage.intent, id);
        ChargingUpdate(s.threads, i, Step(s, e).threads[i], id);
      }
    case SaveStep(i) =>
      if IsAt(s, i, false) { ChargingUpdate(s.threads, i, Step(s, e).threads[i], id); }
  }

  lemma {:induction false} ChargingNext(r: Run, n: nat, id: string)
    requires IsRun(r) && n < |r.events| && Inv(r.states[n])
    requires r.states[n].db.charges[id] == Charging(r.states[n].threads, id)
    ensures r.states[n + 1].db.charges[id] == Charging(r.states[n + 1].threads, id)
  {
    assert StepsTo(r, n);
    StepCharging(r.states[n], r.events[n], id);
  }

  /** The charges of an intent are the requests that have charged it: none charges twice. */
  lemma {:induction false} EachChargesOnce(r: Run, n: nat, id: string)
    requires IsRun(r) && n <= |r.events|
    ensures r.states[n].db.charges[id] == Charging(r.states[n].threads, id)
  {
    if n > 0 {
      EachChargesOnce(r, n - 1, id);
      RunInv(r, n - 1);
      ChargingNext(r, n - 1, id);
    }
  }

  /** The thread is a confirmation with a payment method, whose read of an existing intent succeeds. */
  predicate Reads(s: System, i: nat, id: string) {
    && IsAt(s, i, true) && id in s.db.intents
    && var c := s.threads[i].call;
    && c.request.Confirm? && c.request.id == id && c.request.paymentMethod != "" && c.outcome.read
  }

  predicate ReadsAt(r: Run, j: nat, i: nat, id: string)
    requires IsRun(r)
  {
    j < |r.events| && r.events[j] == ReadStep(i) && Reads(r.states[j], i, id)
  }

  /** A confirmation that has read: it stays on the way to the bank until it finishes, or never gets there. */
  predicate Tracked(s: System, i: nat, c: Call, toBank: bool) {
    && i < |s.threads| && s.threads[i].call == c && !s.threads[i].stage.Entered?
    && if toBank && !s.threads[i].stage.Holding? then s.threads[i].charged == c.outcome.charge
       else !s.threads[i].charged && s.threads[i].stage.Holding? == toBank
  }

  lemma {:induction false} StepTracked(s: System, e: Event, i: nat, c: Call, toBank: bool)
    requires Tracked(s, i, c, toBank) && c.request.Confirm?
    ensures Tracked(Step(s, e), i, c, toBank)
  {
    match e
    case Arrive(_) =>
    case ReadStep(_) =>
    case FinishStep(_) =>
    case SaveStep(_) =>
  }

  lemma {:induction false} TrackedNext(r: Run, n: nat, i: nat, c: Call, toBank: bool)
    requires IsRun(r) && n < |r.events| && Tracked(r.states[n], i, c, toBank) && c.request.Confirm?
    ensures Tracked(r.states[n + 1], i, c, toBank)
  {
    assert StepsTo(r, n);
    StepTracked(r.states[n], r.events[n], i, c, toBank);
  }

  lemma {:induction false} StaysTracked(r: Run, k: nat, n: nat, i: nat, c: Call, toBank: bool)
    requires IsRun(r) && k <= n <= |r.events| && Tracked(r.states[k], i, c, toBank) && c.request.Confirm?
    ensures Tracked(r.states[n], i, c, toBank)
    decreases n
  {
    if k < n {
      StaysTracked(r, k, n - 1, i, c, toBank);
      TrackedNext(r, n - 1, i, c, toBank);
    }
  }

  /** The thread has its answer. */
  predicate Finished(s: System, i: nat) {
    i < |s.threads| && (s.threads[i].stage.Ready? || s.threads[i].stage.Through?)
  }

  lemma {:induction false} StartsTracked(s: System, i: nat, id: string, last: Option<Status>)
    requires Reads(s, i, id) && Inv(s) && Stands(s.db, id, last)
    ensures Tracked(Step(s, ReadStep(i)), i, s.threads[i].call, last != Some(Succeeded))
  {
    assert Sound(s.db, s.threads[i]);
  }

  lemma {:induction false} TrackedCharges(t: System, i: nat, id: string, c: Call, toBank: bool)
    requires Tracked(t, i, c, toBank) && Finished(t, i) && c.request.Confirm? && c.request.id == id
    ensures t.threads[i].call == c && (Charges(t.threads[i], id) <==> c.outcome.charge && toBank)
  {
  }

  /**
   In every interleaving a confirmation that reads at event j and has finished by event n has charged exactly if the bank
   accepted it and the last status written on the intent before it read was not a success.
   */
  lemma {:induction false} ChargedUnlessPaid(r: Run, j: nat, n: nat, i: nat, id: string)
    requires IsRun(r) && j < n <= |r.events| && ReadsAt(r, j, i, id) && Finished(r.states[n], i)
    ensures r.states[n].threads[i].call == r.states[j].threads[i].call
    ensures Charges(r.states[n].threads[i], id) <==>
      r.states[n].threads[i].call.outcome.charge && LastWritten(r, j, id) != Some(Succeeded)
  {
    StatusIsLastWritten(r, j, id);
    RunInv(r, j);
    assert StepsTo(r, j);
    StartsTracked(r.states[j], i, id, LastWritten(r, j, id));
    var c, toBank := r.states[j].threads[i].call, LastWritten(r, j, id) != Some(Succeeded);
    StaysTracked(r, j + 1, n, i, c, toBank);
    TrackedCharges(r.states[n], i, id, c, toBank);
  }

  // --- Two confirmations -------------------------------------------------------------------------------------

  /** Thread a has recorded a success on the intent in the first n events. */
  ghost predicate RecordedSuccess(r: Run, n: nat, a: nat, id: string)
    requires IsRun(r) && n <= |r.events|
  {
    exists f: nat | f < n :: WrittenAt(r, f, id) == Some(Succeeded) && r.events[f] == FinishStep(a)
  }

  /** Only thread a has written a status on the intent in the first n events. */
  ghost predicate OnlyWriter(r: Run, n: nat, a: nat, id: string)
    requires IsRun(r) && n <= |r.events|
  {
    forall f: nat | f < n :: WrittenAt(r, f, id).Some? ==> r.events[f] == FinishStep(a)
  }

  predicate HasCall(s: System, i: nat, c: Call) {
    i < |s.threads| && s.threads[i].call == c
  }

  lemma {:induction false} StepKeepsCall(s: System, e: Event, i: nat, c: Call)
    requires HasCall(s, i, c)
    ensures HasCall(Step(s, e), i, c)
  {
    match e
    case Arrive(_) =>
    case ReadStep(_) =>
    case FinishStep(_) =>
    case SaveStep(_) =>
  }

  lemma {:induction false} CallNext(r: Run, n: nat, i: nat, c: Call)
    requires IsRun(r) && n < |r.events| && HasCall(r.states[n], i, c)
    ensures HasCall(r.states[n + 1], i, c)
  {
    assert StepsTo(r, n);
    StepKeepsCall(r.states[n], r.events[n], i, c);
  }

  lemma {:induction false} CallStays(r: Run, k: nat, n: nat, i: nat, c: Call)
    requires IsRun(r) && k <= n <= |r.events| && HasCall(r.states[k], i, c)
    ensures HasCall(r.states[n], i, c)
    decreases n
  {
    if k < n {
      CallStays(r, k, n - 1, i, c);
      CallNext(r, n - 1, i, c);
    }
  }

  lemma {:induction false} LastIsSome(ws: seq<Option<Status>>, n: nat) returns (f: nat)
    requires n <= |ws| && LastOf(ws, n).Some?
    ensures f < n && ws[f] == LastOf(ws, n)
  {
    f := n - 1;
    if ws[n - 1].None? { f := LastIsSome(ws, n - 1); }
  }

  lemma {:induction false} SomeIsLast(ws: seq<Option<Status>>, n: nat, k: nat)
    requires k < n <= |ws| && ws[k].Some?
    ensures LastOf(ws, n).Some?
  {
    if k < n - 1 { SomeIsLast(ws, n - 1, k); }
  }

  /** A thread writes the same status whenever it writes. */
  lemma {:induction false} SameWriter(r: Run, f: nat, k: nat, a: nat, id: string)
    requires IsRun(r) && f < |r.events| && k < |r.events| && r.events[f] == r.events[k] == FinishStep(a)
    requires WrittenAt(r, f, id).Some? && WrittenAt(r, k, id).Some?
    ensures WrittenAt(r, f, id) == WrittenAt(r, k, id)
  {
    var c, d := r.states[f].threads[a].call, r.states[k].threads[a].call;
    if f <= k { CallStays(r, f, k, a, c); } else { CallStays(r, k, f, a, d); }
  }

  lemma {:induction false} LastOfOne(r: Run, n: nat, a: nat, id: string)
    requires IsRun(r) && n <= |r.events| && OnlyWriter(r, n, a, id)
    ensures LastWritten(r, n, id) == Some(Succeeded) <==> RecordedSuccess(r, n, a, id)
  {
    if k: nat :| k < n && WrittenAt(r, k, id) == Some(Succeeded) && r.events[k] == FinishStep(a) {
      SomeIsLast(Writings(r, id), n, k);
      var f := LastIsSome(Writings(r, id), n);
      SameWriter(r, f, k, a, id);
    } else if LastWritten(r, n, id).Some? {
      var f := LastIsSome(Writings(r, id), n);
    }
  }

  /**
   Two confirmations accepted by the bank: while nobody but the first writes the intent, the second charges as well
   exactly if it reads before the first has recorded its success.
   */
  lemma {:induction false} SecondConfirmation(r: Run, j: nat, n: nat, a: nat, b: nat, id: string)
    requires IsRun(r) && j < n <= |r.events| && ReadsAt(r, j, b, id)
    requires Finished(r.states[n], b) && r.states[n].threads[b].call.outcome.charge
    requires OnlyWriter(r, j, a, id)
    ensures Charges(r.states[n].threads[b], id) <==> !RecordedSuccess(r, j, a, id)
  {
    ChargedUnlessPaid(r, j, n, b, id);
    LastOfOne(r, j, a, id);
  }

  // --- When the books balance ----------------------------------------------------------------------------------

  /** Charges less refunds are 1 if the intent is succeeded and 0 otherwise. */
  predicate Balanced(db: Db, id: string) {
    db.charges[id] == db.refunds[id] + Paid(db, id)
  }

  /**
   A finishing request keeps the books of its intent: no accepted charge goes unrecorded, and if it writes, the intent
   is succeeded exactly if it was when the request read it.
   */
  predicate Keeps(db: Db, c: Call, intent: Intent, id: string) {
    && (c.request.Confirm? && c.outcome.charge ==> c.outcome.write)
    && (c.outcome.write ==> (StatusOf(db, id) == Some(Succeeded) <==> intent.status == Succeeded))
  }

  predicate KeepsBooks(s: System, e: Event, id: string) {
    FinishesOn(s, e, id) ==> Keeps(s.db, s.threads[e.thread].call, s.threads[e.thread].stage.intent, id)
  }

  lemma {:induction false} FinishConfirmBalance(db: Db, id: string, intent: Intent, o: Outcome, other: string)
    requires id in db.intents
    ensures var db' := FinishConfirm(db, id, intent, o).0;
      Imbalance(db', other) == Imbalance(db, other) + if other != id then 0
        else if o.charge then (if o.write then Paid(db, id) else 1) else if o.write then Paid(db, id) else 0
  {
  }

  lemma {:induction false} FinishRefundBalance(db: Db, id: string, intent: Intent, o: Outcome, other: string)
    requires id in db.intents
    ensures Imbalance(FinishRefund(db, id, intent, o).0, other)
         == Imbalance(db, other) + if other == id && o.write then Paid(db, id) - 1 else 0
  {
  }

  lemma {:induction false} ReadKeepsBalance(db: Db, c: Call, id: string)
    ensures Imbalance(Read(db, c).0, id) == Imbalance(db, id)
  {
    if Target(c.request).None? { OtherImbalance(db, c.caller, c.request, c.outcome, id); }
  }

  lemma {:induction false} StepBalance(s: System, e: Event, id: string)
    requires Inv(s)
    ensures Imbalance(Step(s, e).db, id) == Imbalance(s.db, id) <==> KeepsBooks(s, e, id)
  {
    match e
    case Arrive(_) =>
    case ReadStep(i) => if IsAt(s, i, true) { ReadKeepsBalance(s.db, s.threads[i].call, id); }
    case FinishStep(i) =>
      if Holds(s, i) {
        var t := s.threads[i];
        assert Sound(s.db, t);
        if t.call.request.Confirm? {
          FinishConfirmBalance(s.db, t.call.request.id, t.stage.intent, t.call.outcome, id);
        } else {
          FinishRefundBalance(s.db, t.call.request.id, t.stage.intent, t.call.outcome, id);
        }
      }
    case SaveStep(i) =>
  }

  predicate BalancedAt(r: Run, n: nat, id: string)
    requires IsRun(r) && n <= |r.events|
  {
    Balanced(r.states[n].db, id)
  }

  predicate KeptAt(r: Run, j: nat, id: string)
    requires IsRun(r) && j < |r.events|
  {
    KeepsBooks(r.states[j], r.events[j], id)
  }

  lemma {:induction false} NextBalance(r: Run, j: nat, id: string)
    requires IsRun(r) && j < |r.events| && BalancedAt(r, j, id)
    ensures BalancedAt(r, j + 1, id) <==> KeptAt(r, j, id)
  {
    RunInv(r, j);
    StepBalance(r.states[j], r.events[j], id);
    assert StepsTo(r, j);
  }

  lemma {:induction false} KeptBalances(r: Run, j: nat, id: string)
    requires IsRun(r) && j <= |r.events| && forall k: nat | k < |r.events| :: KeptAt(r, k, id)
    ensures BalancedAt(r, j, id)
  {
    if j == 0 {
      assert EMPTY.charges[id] == 0 && EMPTY.refunds[id] == 0;
    } else {
      KeptBalances(r, j - 1, id);
      NextBalance(r, j - 1, id);
    }
  }

  /**
   In every interleaving the books of an intent balance all along exactly if every request that finishes on it keeps
   them.
   */
  lemma {:induction false} BooksBalance(r: Run, id: string)
    requires IsRun(r)
    ensures (forall j: nat | j <= |r.events| :: BalancedAt(r, j, id)) <==> (forall j: nat | j < |r.events| :: KeptAt(r, j, id))
  {
    if forall j: nat | j <= |r.events| :: BalancedAt(r, j, id) {
      forall j: nat | j < |r.events| ensures KeptAt(r, j, id) {
        assert BalancedAt(r, j, id) && BalancedAt(r, j + 1, id);
        NextBalance(r, j, id);
      }
    } else if forall j: nat | j < |r.events| :: KeptAt(r, j, id) {
      forall j: nat | j <= |r.events| ensures BalancedAt(r, j, id) {
        KeptBalances(r, j, id);
      }
    }
  }

  // --- Keys -----------------------------------------------------------------------------------------------------

  /** A request of that user with that key gets to save its answer. */
  predicate SavesFor(s: System, e: Event, index: (string, string)) {
    && e.SaveStep? && IsAt(s, e.thread, false)
    && var c := s.threads[e.thread].call;
       c.key != "" && c.caller.User? && Index(c) == index && c.outcome.save
  }

  predicate SavesAt(r: Run, j: nat, index: (string, string))
    requires IsRun(r) && j < |r.events|
  {
    SavesFor(r.states[j], r.events[j], index)
  }

  /** The answer that event j gets to save under the key, if it does. */
  function SavedAnswer(r: Run, j: nat, index: (string, string)): Option<Response>
    requires IsRun(r) && j < |r.events|
  {
    if SavesAt(r, j, index) then Some(r.states[j].threads[r.events[j].thread].stage.response) else None
  }

  function Savings(r: Run, index: (string, string)): seq<Option<Response>>
    requires IsRun(r)
  {
    seq(|r.events|, j requires 0 <= j < |r.events| => SavedAnswer(r, j, index))
  }

  /** The first answer among the first n. */
  function FirstOf(answers: seq<Option<Response>>, n: nat): Option<Response>
    requires n <= |answers|
  {
    if n == 0 then None else Either(FirstOf(answers, n - 1), answers[n - 1])
  }

  lemma {:induction false} FirstIsSome(answers: seq<Option<Response>>, n: nat)
    requires n <= |answers|
    ensures FirstOf(answers, n).Some? <==> exists j: nat | j < n :: answers[j].Some?
  {
    if n > 0 {
      FirstIsSome(answers, n - 1);
    }
  }

  lemma {:induction false} FirstStays(answers: seq<Option<Response>>, i: nat, n: nat)
    requires i <= n <= |answers| && FirstOf(answers, i).Some?
    ensures FirstOf(answers, n) == FirstOf(answers, i)
    decreases n
  {
    if i < n {
      FirstStays(answers, i, n - 1);
    }
  }

  /** The answer saved first under the key by the first n events. */
  function FirstAnswer(r: Run, n: nat, index: (string, string)): Option<Response>
    requires IsRun(r) && n <= |r.events|
  {
    FirstOf(Savings(r, index), n)
  }

  predicate HasRecord(db: Db, index: (string, string), record: Option<Response>) {
    if index in db.keys then record == Some(db.keys[index]) else record.None?
  }

  lemma {:induction false} StepRecord(s: System, e: Event, index: (string, string), record: Option<Response>)
    requires Inv(s) && HasRecord(s.db, index, record)
    ensures HasRecord(Step(s, e).db, index,
      Either(record, if SavesFor(s, e, index) then Some(s.threads[e.thread].stage.response) else None))
  {
    match e
    case Arrive(_) =>
    case ReadStep(i) => if IsAt(s, i, true) { ReadIsSound(s.db, s.threads[i].call); }
    case FinishStep(i) => if Holds(s, i) { FinishIsSound(s.db, s.threads[i].call, s.threads[i].stage.intent); }
    case SaveStep(i) => if IsAt(s, i, false) { assert Sound(s.db, s.threads[i]); }
  }

  lemma {:induction false} RecordNext(r: Run, n: nat, index: (string, string), record: Option<Response>)
    requires IsRun(r) && n < |r.events| && Inv(r.states[n]) && HasRecord(r.states[n].db, index, record)
    ensures HasRecord(r.states[n + 1].db, index, Either(record, SavedAnswer(r, n, index)))
  {
    assert StepsTo(r, n);
    StepRecord(r.states[n], r.events[n], index, record);
  }

  /** The record of a key is the answer saved first. */
  lemma {:induction false} RecordIsFirstAnswer(r: Run, n: nat, index: (string, string))
    requires IsRun(r) && n <= |r.events|
    ensures HasRecord(r.states[n].db, index, FirstAnswer(r, n, index))
  {
    if n > 0 {
      RecordIsFirstAnswer(r, n - 1, index);
      RunInv(r, n - 1);
      RecordNext(r, n - 1, index, FirstAnswer(r, n - 1, index));
    }
  }

  lemma {:induction false} Arrival(s: System, c: Call, record: Option<Response>)
    requires c.key != "" && c.caller.User? && c.outcome.lookup && HasRecord(s.db, Index(c), record)
    ensures Step(s, Arrive(c)).threads ==
      s.threads + [Thread(c, match record case Some(resp) => Through(resp) case None => Entered, false)]
  {
  }

  /** What becomes of a request on arrival. */
  predicate Arrives(s: System, s': System, stage: Stage) {
    |s'.threads| == |s.threads| + 1 && s'.threads[|s.threads|].stage == stage
  }

  /**
   In every interleaving, a keyed request whose lookup works is answered from a record exactly if some earlier request of
   that user and key got to save its answer, and then with the answer saved first; any other goes on to the handler.
   */
  lemma {:induction false} AnsweredFromRecord(r: Run, n: nat, c: Call)
    requires IsRun(r) && n < |r.events| && r.events[n] == Arrive(c)
    requires c.key != "" && c.caller.User? && c.outcome.lookup
    ensures Arrives(r.states[n], r.states[n + 1],
      match FirstAnswer(r, n, Index(c)) case Some(resp) => Through(resp) case None => Entered)
    ensures FirstAnswer(r, n, Index(c)).Some? <==> exists j: nat | j < n :: SavesAt(r, j, Index(c))
  {
    RecordIsFirstAnswer(r, n, Index(c));
    assert StepsTo(r, n);
    Arrival(r.states[n], c, FirstAnswer(r, n, Index(c)));
    FirstIsSome(Savings(r, Index(c)), n);
    assert forall j: nat | j < n :: Savings(r, Index(c))[j].Some? <==> SavesAt(r, j, Index(c));
  }

  /** A saved key stays as it is, in every interleaving, and answers every later request of that user with it. */
  lemma {:induction false} SavedKeyAnswers(r: Run, i: nat, n: nat, c: Call)
    requires IsRun(r) && i <= n <= |r.events|
    requires c.key != "" && c.caller.User? && c.outcome.lookup && Index(c) in r.states[i].db.keys
    ensures Lookup(r.states[n].db, c) == Some(r.states[i].db.keys[Index(c)])
  {
    RecordIsFirstAnswer(r, i, Index(c));
    RecordIsFirstAnswer(r, n, Index(c));
    FirstStays(Savings(r, Index(c)), i, n);
  }

  // --- Undisturbed requests ---------------------------------------------------------------------------------

  /** Arriving, reading, finishing and saving with nobody in between. */
  function Undisturbed(s: System, c: Call): System {
    var i := |s.threads|;
    Step(Step(Step(Step(s, Arrive(c)), ReadStep(i)), FinishStep(i)), SaveStep(i))
  }

  lemma {:induction false} ReadThenFinish(db: Db, c: Call)
    ensures var (db1, stage) := Read(db, c); var (db2, resp) := Handle(db, c.caller, c.request, c.outcome);
      if stage.Holding? then Target(c.request).Some? && Finish(db1, c, stage.intent) == (db2, resp)
      else db1 == db2 && stage == Ready(resp)
  {
  }

  /** A request that nobody disturbs is served as if the requests came one after another. */
  lemma {:induction false} UndisturbedIsServed(s: System, c: Call)
    ensures var t := Undisturbed(s, c); var i := |s.threads|;
      && t.db == Serve(s.db, c).0
      && |t.threads| == i + 1 && t.threads[i].stage == Through(Serve(s.db, c).1) && t.threads[..i] == s.threads
  {
    var i := |s.threads|;
    var s1 := Step(s, Arrive(c));
    var s2 := Step(s1, ReadStep(i));
    var s3 := Step(s2, FinishStep(i));
    if Lookup(s.db, c).None? {
      ReadThenFinish(s.db, c);
      NoServerErrors(s.db, c.caller, c.request, c.outcome);
      AnsweredThread(s, s1, s2, s3, c);
    }
  }

  lemma {:induction false} AnsweredThread(s: System, s1: System, s2: System, s3: System, c: Call)
    requires Lookup(s.db, c).None?
    requires s1 == Step(s, Arrive(c)) && s2 == Step(s1, ReadStep(|s.threads|)) && s3 == Step(s2, FinishStep(|s.threads|))
    ensures var (db, resp) := Handle(s.db, c.caller, c.request, c.outcome); var i := |s.threads|;
      && s3.db == db && |s3.threads| == i + 1 && s3.threads[..i] == s.threads
      && s3.threads[i].call == c && s3.threads[i].stage == Ready(resp)
  {
    ReadThenFinish(s.db, c);
  }
}
