/**
 Payment intents and the idempotency middleware of cmd/payments/handlers.go, for requests served one after another.
 Store writes and bank charges may fail; their outcomes come with the request.
 */
module Payments {
  import opened Prelude

  datatype Status = RequiresPaymentMethod | Succeeded | Failed | Refunded

  datatype Intent = Intent(
    userId: string, amount: int, currency: string, status: Status, applicationFee: int, onBehalfOf: string)

  datatype Body = IntentBody(id: string, intent: Intent) | DeclinedBody | ErrorBody(message: string)

  datatype Response = Response(status: nat, body: Body)

  function Error(message: string): Response { Response(400, ErrorBody(message)) }

  datatype Request =
    | Malformed(create: bool)
    | Create(newId: string, amount: int, currency: string, applicationFee: int, onBehalfOf: string)
    | Confirm(id: string, paymentMethod: string)
    | Refund(id: string)

  /** Who calls: a token that does not validate, nobody, or a user with a non-empty id. */
  datatype Caller = BadToken | Anonymous | User(id: string)

  /**
   Which of the outside steps of this request succeed: key lookup, intent read, charge, intent write, saving the key;
   whether its event is published, and which of its ledger calls are lost.  Neither of these last two is answered for.
   */
  datatype Outcome = Outcome(
    lookup: bool, read: bool, charge: bool, write: bool, save: bool, published: bool, lost: set<nat>)

  const ALL_WELL := Outcome(true, true, true, true, true, true, {})

  function Unauthorized(caller: Caller, message: string): Response {
    Response(401, ErrorBody(if caller.BadToken? then "Invalid token" else message))
  }

  /** The event published to the topic `payments`, with the fields of its `data` object. */
  datatype KafkaEvent =
    | PaymentSucceeded(paymentId: string, userId: string, amount: int)
    | RefundCompleted(paymentId: string, userId: string, amount: int)

  /** One RecordTransaction call to the ledger service. */
  datatype Posting = Posting(account: string, amount: int, reference: string)

  /**
   The intents and idempotency records; what was published and posted; and, as history, the charges by
   intent, and its refunds: the times it was marked refunded, for the bank is not called.
   */
  datatype Db = Db(
    intents: map<string, Intent>,
    keys: map<(string, string), Response>,
    events: seq<KafkaEvent>,
    postings: seq<Posting>,
    charges: multiset<string>,
    refunds: multiset<string>)

  const EMPTY := Db(map[], map[], [], [], multiset{}, multiset{})

  /** The ledger calls of a confirmed payment; a split payment makes three, all under the intent's id. */
  function PostingsOf(id: string, intent: Intent): seq<Posting> {
    if intent.applicationFee > 0 && intent.onBehalfOf != "" then
      [Posting("acc_" + intent.onBehalfOf, intent.amount - intent.applicationFee, id),
       Posting("platform_main", intent.applicationFee, id),
       Posting("user_" + intent.userId, -intent.amount, id)]
    else
      [Posting("user_" + intent.userId, intent.amount, id)]
  }

  // --- Handlers ------------------------------------------------------------------------------

  function HandleCreate(db: Db, caller: Caller, r: Request, o: Outcome): (Db, Response)
    requires r.Create?
  {
    if !caller.User? then (db, Unauthorized(caller, "Authentication required"))
    else if r.amount <= 0 || r.currency == "" then (db, Error("Amount and Currency are required"))
    else if !o.write || r.newId in db.intents then (db, Error("Failed to create payment intent"))
    else
      var intent := Intent(caller.id, r.amount, r.currency, RequiresPaymentMethod, r.applicationFee, r.onBehalfOf);
      (db.(intents := db.intents[r.newId := intent]), Response(201, IntentBody(r.newId, intent)))
  }

  /** UPDATE ... WHERE id. */
  function SetStatus(db: Db, id: string, status: Status, write: bool): Db {
    if write && id in db.intents then db.(intents := db.intents[id := db.intents[id].(status := status)]) else db
  }

  /** The postings that get through. */
  function Delivered(postings: seq<Posting>, lost: set<nat>): seq<Posting> {
    if postings == [] then []
    else
      var n := |postings| - 1;
      Delivered(postings[..n], lost) + if n in lost then [] else [postings[n]]
  }

  function Published(e: KafkaEvent, o: Outcome): seq<KafkaEvent> { if o.published then [e] else [] }

  /** What ConfirmPaymentIntent checks on the intent it reads. */
  function ReadForConfirm(db: Db, r: Request, o: Outcome): Result<Intent, Response>
    requires r.Confirm?
  {
    if r.paymentMethod == "" then Failure(Error("payment_method_id is required"))
    else if !o.read || r.id !in db.intents then Failure(Error("Payment intent not found"))
    else if db.intents[r.id].status == Succeeded then Failure(Error("Payment already succeeded"))
    else Success(db.intents[r.id])
  }

  /** The charge and what follows it, on an intent read earlier. */
  function FinishConfirm(db: Db, id: string, intent: Intent, o: Outcome): (Db, Response) {
    if !o.charge then (SetStatus(db, id, Failed, o.write), Response(200, DeclinedBody))
    else
      var charged := db.(charges := db.charges + multiset{id});
      if !o.write then (charged, Error("Failed to update payment status"))
      else
        (SetStatus(charged, id, Succeeded, true).(
           events := db.events + Published(PaymentSucceeded(id, intent.userId, intent.amount), o),
           postings := db.postings + Delivered(PostingsOf(id, intent), o.lost)),
         Response(200, IntentBody(id, intent.(status := Succeeded))))
  }

  function HandleConfirm(db: Db, r: Request, o: Outcome): (Db, Response)
    requires r.Confirm?
  {
    match ReadForConfirm(db, r, o)
    case Failure(resp) => (db, resp)
    case Success(intent) => FinishConfirm(db, r.id, intent, o)
  }

  function ReadForRefund(db: Db, r: Request, o: Outcome): Result<Intent, Response>
    requires r.Refund?
  {
    if !o.read || r.id !in db.intents then Failure(Error("Payment intent not found"))
    else if db.intents[r.id].status != Succeeded then Failure(Error("Only succeeded payments can be refunded"))
    else Success(db.intents[r.id])
  }

  function FinishRefund(db: Db, id: string, intent: Intent, o: Outcome): (Db, Response) {
    if !o.write then (db, Error("Failed to update refund status"))
    else
      (SetStatus(db, id, Refunded, true).(
         refunds := db.refunds + multiset{id},
         events := db.events + Published(RefundCompleted(id, intent.userId, intent.amount), o)),
       Response(200, IntentBody(id, intent.(status := Refunded))))
  }

  function HandleRefund(db: Db, r: Request, o: Outcome): (Db, Response)
    requires r.Refund?
  {
    match ReadForRefund(db, r, o)
    case Failure(resp) => (db, resp)
    case Success(intent) => FinishRefund(db, r.id, intent, o)
  }

  function Handle(db: Db, caller: Caller, r: Request, o: Outcome): (Db, Response) {
    match r
    case Malformed(create) =>
      (db, if create && !caller.User? then Unauthorized(caller, "Authentication required") else Error("Invalid request body"))
    case Create(_, _, _, _, _) => HandleCreate(db, caller, r, o)
    case Confirm(_, _) => HandleConfirm(db, r, o)
    case Refund(_) => HandleRefund(db, r, o)
  }

  datatype Call = Call(caller: Caller, key: string, request: Request, outcome: Outcome)

  /** A request through the idempotency middleware. */
  function Serve(db: Db, c: Call): (Db, Response) {
    if c.key == "" then Handle(db, c.caller, c.request, c.outcome)
    else if !c.caller.User? then (db, Unauthorized(c.caller, "Authentication required for idempotent requests"))
    else if !c.outcome.lookup then (db, Error("Internal Server Error"))
    else if (c.caller.id, c.key) in db.keys then (db, db.keys[(c.caller.id, c.key)])
    else
      var (db', r) := Handle(db, c.caller, c.request, c.outcome);
      if r.status < 500 && c.outcome.save
      then (db'.(keys := db'.keys[(c.caller.id, c.key) := r]), r)
      else (db', r)
  }

  /** The calls of a payment that get through, one by one. */
  lemma {:induction false} DeliveredOf(id: string, intent: Intent, lost: set<nat>)
    ensures var p := PostingsOf(id, intent);
      Delivered(p, lost) ==
        (if 0 in lost then [] else [p[0]])
        + (if |p| == 1 || 1 in lost then [] else [p[1]]) + (if |p| == 1 || 2 in lost then [] else [p[2]])
  {
    var p := PostingsOf(id, intent);
    assert p[..1] == [p[0]] && [p[0]][..0] == [];
    assert Delivered([p[0]], lost) == if 0 in lost then [] else [p[0]];
    if |p| == 3 {
      assert p[..2] == [p[0], p[1]] && p[..2][..1] == [p[0]];
      assert Delivered(p[..2], lost) == Delivered([p[0]], lost) + if 1 in lost then [] else [p[1]];
    }
  }

  class PaymentHandler {
    var intents: map<string, Intent>
    var keys: map<(string, string), Response>
    var events: seq<KafkaEvent>
    var postings: seq<Posting>
    ghost var charges: multiset<string>
    ghost var refunds: multiset<string>

    ghost function View(): Db reads this { Db(intents, keys, events, postings, charges, refunds) }

    constructor ()
      ensures View() == EMPTY
    {
      intents, keys, events, postings := map[], map[], [], [];
      charges, refunds := multiset{}, multiset{};
    }

    method UpdateStatus(id: string, status: Status, write: bool) returns (ok: bool)
      modifies this
      ensures View() == SetStatus(old(View()), id, status, write) && ok == write
    {
      if write && id in intents { intents := intents[id := intents[id].(status := status)]; }
      return write;
    }

    method CreatePaymentIntent(caller: Caller, r: Request, o: Outcome) returns (resp: Response)
      requires r.Create?
      modifies this
      ensures (View(), resp) == HandleCreate(old(View()), caller, r, o)
    {
      if !caller.User? { return Unauthorized(caller, "Authentication required"); }
      if r.amount <= 0 || r.currency == "" { return Error("Amount and Currency are required"); }
      var intent := Intent(caller.id, r.amount, r.currency, RequiresPaymentMethod, r.applicationFee, r.onBehalfOf);
      if !o.write || r.newId in intents { return Error("Failed to create payment intent"); }
      intents := intents[r.newId := intent];
      return Response(201, IntentBody(r.newId, intent));
    }

    /** A failure to publish is logged and ignored. */
    method Publish(e: KafkaEvent, o: Outcome)
      modifies this`events
      ensures events == old(events) + Published(e, o)
    {
      if o.published { events := events + [e]; }
    }

    /** The ledger calls of a confirmed payment; failures are logged and ignored. */
    method RecordPostings(id: string, intent: Intent, lost: set<nat>)
      modifies this`postings
      ensures postings == old(postings) + Delivered(PostingsOf(id, intent), lost)
    {
      if intent.applicationFee > 0 && intent.onBehalfOf != "" {
        var netAmount := intent.amount - intent.applicationFee;
        if 0 !in lost { postings := postings + [Posting("acc_" + intent.onBehalfOf, netAmount, id)]; }
        if 1 !in lost { postings := postings + [Posting("platform_main", intent.applicationFee, id)]; }
        if 2 !in lost { postings := postings + [Posting("user_" + intent.userId, -intent.amount, id)]; }
      } else {
        if 0 !in lost { postings := postings + [Posting("user_" + intent.userId, intent.amount, id)]; }
      }
      DeliveredOf(id, intent, lost);
      assert postings == old(postings) + Delivered(PostingsOf(id, intent), lost);
    }

    method ConfirmPaymentIntent(r: Request, o: Outcome) returns (resp: Response)
      requires r.Confirm?
      modifies this
      ensures (View(), resp) == HandleConfirm(old(View()), r, o)
    {
      if r.paymentMethod == "" { return Error("payment_method_id is required"); }
      if !o.read || r.id !in intents { return Error("Payment intent not found"); }
      var intent := intents[r.id];
      if intent.status == Succeeded { return Error("Payment already succeeded"); }
      if !o.charge {
        var _ := UpdateStatus(r.id, Failed, o.write);
        return Response(200, DeclinedBody);
      }
      charges := charges + multiset{r.id};
      var updated := UpdateStatus(r.id, Succeeded, o.write);
      if !updated { return Error("Failed to update payment status"); }
      Publish(PaymentSucceeded(r.id, intent.userId, intent.amount), o);
      RecordPostings(r.id, intent, o.lost);
      return Response(200, IntentBody(r.id, intent.(status := Succeeded)));
    }

    method RefundPaymentIntent(r: Request, o: Outcome) returns (resp: Response)
      requires r.Refund?
      modifies this
      ensures (View(), resp) == HandleRefund(old(View()), r, o)
    {
      if !o.read || r.id !in intents { return Error("Payment intent not found"); }
      var intent := intents[r.id];
      if intent.status != Succeeded { return Error("Only succeeded payments can be refunded"); }
      var updated := UpdateStatus(r.id, Refunded, o.write);
      if !updated { return Error("Failed to update refund status"); }
      refunds := refunds + multiset{r.id};
      Publish(RefundCompleted(r.id, intent.userId, intent.amount), o);
      return Response(200, IntentBody(r.id, intent.(status := Refunded)));
    }

    method Dispatch(caller: Caller, r: Request, o: Outcome) returns (resp: Response)
      modifies this
      ensures (View(), resp) == Handle(old(View()), caller, r, o)
    {
      match r {
        case Malformed(create) =>
          if create && !caller.User? {
            resp := Unauthorized(caller, "Authentication required");
          } else {
            resp := Error("Invalid request body");
          }
        case Create(_, _, _, _, _) => resp := CreatePaymentIntent(caller, r, o);
        case Confirm(_, _) => resp := ConfirmPaymentIntent(r, o);
        case Refund(_) => resp := RefundPaymentIntent(r, o);
      }
    }

    method IdempotencyMiddleware(c: Call) returns (resp: Response)
      modifies this
      ensures (View(), resp) == Serve(old(View()), c)
    {
      if c.key == "" {
        resp := Dispatch(c.caller, c.request, c.outcome);
        return;
      }
      if !c.caller.User? { return Unauthorized(c.caller, "Authentication required for idempotent requests"); }
      if !c.outcome.lookup { return Error("Internal Server Error"); }
      var index := (c.caller.id, c.key);
      if index in keys { return keys[index]; }
      resp := Dispatch(c.caller, c.request, c.outcome);
      if resp.status < 500 && c.outcome.save {
        keys := keys[index := resp];
      }
    }
  }

  // --- Runs ------------------------------------------------------------------------------------

  function Run(calls: seq<Call>): Db {
    if calls == [] then EMPTY else Serve(Run(calls[..|calls| - 1]), calls[|calls| - 1]).0
  }

  /** The answer to call i of a run. */
  function Answer(calls: seq<Call>, i: nat): Response
    requires i < |calls|
  {
    Serve(Run(calls[..i]), calls[i]).1
  }

  function Paid(db: Db, id: string): nat {
    if id in db.intents && db.intents[id].status == Succeeded then 1 else 0
  }

  /** The call gets past the middleware to its handler. */
  predicate Handled(db: Db, c: Call) {
    c.key == "" || (c.caller.User? && c.outcome.lookup && (c.caller.id, c.key) !in db.keys)
  }

  /** The call charges the intent, and the status update that should follow fails. */
  predicate LosesUpdate(db: Db, c: Call, id: string) {
    && Handled(db, c)
    && c.request.Confirm? && c.request.id == id && c.request.paymentMethod != ""
    && c.outcome.read && id in db.intents && db.intents[id].status != Succeeded
    && c.outcome.charge && !c.outcome.write
  }

  function LostUpdates(calls: seq<Call>, id: string): nat {
    if calls == [] then 0
    else
      var init := calls[..|calls| - 1];
      LostUpdates(init, id) + if LosesUpdate(Run(init), calls[|calls| - 1], id) then 1 else 0
  }

  function Imbalance(db: Db, id: string): int {
    (db.charges[id] as int) - (db.refunds[id] as int) - Paid(db, id)
  }

  lemma {:induction false} ConfirmImbalance(db: Db, r: Request, o: Outcome, id: string)
    requires r.Confirm?
    ensures Imbalance(HandleConfirm(db, r, o).0, id) == Imbalance(db, id)
      + if LosesUpdate(db, Call(Anonymous, "", r, o), id) then 1 else 0
  {
  }

  lemma {:induction false} OtherImbalance(db: Db, caller: Caller, r: Request, o: Outcome, id: string)
    requires !r.Confirm?
    ensures Imbalance(Handle(db, caller, r, o).0, id) == Imbalance(db, id)
  {
  }

  lemma {:induction false} ServeImbalance(db: Db, c: Call, id: string)
    ensures Imbalance(Serve(db, c).0, id) == Imbalance(db, id) + if LosesUpdate(db, c, id) then 1 else 0
  {
    if c.request.Confirm? {
      ConfirmImbalance(db, c.request, c.outcome, id);
    } else {
      OtherImbalance(db, c.caller, c.request, c.outcome, id);
    }
  }

  // --- Main results -----------------------------------------------------------------------------

  /**
   In every run, whatever fails, the successful charges of an intent are its refunds, plus 1 if its status is
   succeeded, plus the charges whose status update was lost.
   */
  lemma {:induction false} ChargeAccounting(calls: seq<Call>, id: string)
    ensures Run(calls).charges[id] == Run(calls).refunds[id] + Paid(Run(calls), id) + LostUpdates(calls, id)
  {
    if calls != [] {
      var init := calls[..|calls| - 1];
      ChargeAccounting(init, id);
      ServeImbalance(Run(init), calls[|calls| - 1], id);
      assert Imbalance(Run(calls), id) == LostUpdates(calls, id);
    } else {
      assert Imbalance(EMPTY, id) == 0;
    }
  }

  /** So charges minus refunds are 1 for a succeeded intent and 0 for any other exactly when no update was lost. */
  lemma {:induction false} ChargeConservation(calls: seq<Call>, id: string)
    ensures Run(calls).charges[id] == Run(calls).refunds[id] + Paid(Run(calls), id) <==> LostUpdates(calls, id) == 0
  {
    ChargeAccounting(calls, id);
  }

  /** An intent may be charged more than once: a refunded intent can be confirmed again. */
  lemma {:induction false} RefundedIntentChargedAgain(db: Db, id: string)
    requires id in db.intents && db.intents[id].status == RequiresPaymentMethod
    ensures var ok := ALL_WELL;
      var c1 := HandleConfirm(db, Confirm(id, "pm"), ok).0;
      var c2 := HandleRefund(c1, Refund(id), ok).0;
      var c3 := HandleConfirm(c2, Confirm(id, "pm"), ok).0;
      c3.charges[id] == db.charges[id] + 2 && c3.refunds[id] == db.refunds[id] + 1
  {
  }

  lemma {:induction false} ConfirmAnswers(db: Db, r: Request, o: Outcome)
    requires r.Confirm?
    ensures HandleConfirm(db, r, o).1.status < 500 && HandleConfirm(db, r, o).0.keys == db.keys
  {
  }

  lemma {:induction false} RefundAnswers(db: Db, r: Request, o: Outcome)
    requires r.Refund?
    ensures HandleRefund(db, r, o).1.status < 500 && HandleRefund(db, r, o).0.keys == db.keys
  {
  }

  lemma {:induction false} CreateAnswers(db: Db, caller: Caller, r: Request, o: Outcome)
    requires r.Create?
    ensures HandleCreate(db, caller, r, o).1.status < 500 && HandleCreate(db, caller, r, o).0.keys == db.keys
  {
  }

  /** No handler answers with a server error, so the first keyed request of a user is recorded whenever the record can be saved. */
  lemma {:induction false} NoServerErrors(db: Db, caller: Caller, r: Request, o: Outcome)
    ensures Handle(db, caller, r, o).1.status < 500
    ensures Handle(db, caller, r, o).0.keys == db.keys
  {
    match r
    case Malformed(_) =>
    case Create(_, _, _, _, _) => CreateAnswers(db, caller, r, o);
    case Confirm(_, _) => ConfirmAnswers(db, r, o);
    case Refund(_) => RefundAnswers(db, r, o);
  }

  lemma {:induction false} ServeKeepsRecords(db: Db, c: Call, index: (string, string))
    requires index in db.keys
    ensures index in Serve(db, c).0.keys && Serve(db, c).0.keys[index] == db.keys[index]
  {
    NoServerErrors(db, c.caller, c.request, c.outcome);
  }

  lemma {:induction false} RecordStays(calls: seq<Call>, i: nat, index: (string, string))
    requires i <= |calls| && index in Run(calls[..i]).keys
    ensures index in Run(calls).keys && Run(calls).keys[index] == Run(calls[..i]).keys[index]
    decreases |calls|
  {
    if i == |calls| {
      assert calls[..i] == calls;
    } else {
      var init := calls[..|calls| - 1];
      assert init[..i] == calls[..i];
      RecordStays(init, i, index);
      ServeKeepsRecords(Run(init), calls[|calls| - 1], index);
    }
  }

  lemma {:induction false} FirstIsRecorded(db: Db, c: Call)
    requires c.caller.User? && c.key != "" && c.outcome.lookup && c.outcome.save
    ensures var (db', r) := Serve(db, c); (c.caller.id, c.key) in db'.keys && db'.keys[(c.caller.id, c.key)] == r
  {
    NoServerErrors(db, c.caller, c.request, c.outcome);
  }

  lemma {:induction false} RunNext(calls: seq<Call>, i: nat)
    requires i < |calls|
    ensures Run(calls[..i + 1]) == Serve(Run(calls[..i]), calls[i]).0
  {
    assert calls[..i + 1][..i] == calls[..i];
  }

  /**
   Idempotent retries: once a keyed request of a user has been served and its record saved, every later request of
   that user with that key, whatever it asks, changes nothing and gets the same answer, or an error if the record
   cannot be looked up.
   */
  lemma {:induction false} RetriesAreIdempotent(calls: seq<Call>, i: nat, j: nat)
    requires i < j < |calls|
    requires calls[i].caller.User? && calls[i].caller == calls[j].caller && calls[i].key == calls[j].key != ""
    requires calls[i].outcome.lookup && calls[i].outcome.save
    ensures Answer(calls, j) == if calls[j].outcome.lookup then Answer(calls, i) else Error("Internal Server Error")
    ensures Run(calls[..j + 1]) == Run(calls[..j])
  {
    var index := (calls[i].caller.id, calls[i].key);
    FirstIsRecorded(Run(calls[..i]), calls[i]);
    RunNext(calls, i);
    assert calls[..j][..i + 1] == calls[..i + 1];
    RecordStays(calls[..j], i + 1, index);
    RunNext(calls, j);
  }

  // --- What a payment leaves behind -----------------------------------------------------------------

  /** The call gets to confirm the intent: the bank accepts it and the success is recorded. */
  predicate ConfirmsNow(db: Db, c: Call, id: string) {
    && Handled(db, c)
    && c.request.Confirm? && c.request.id == id && c.request.paymentMethod != ""
    && c.outcome.read && id in db.intents && db.intents[id].status != Succeeded
    && c.outcome.charge && c.outcome.write
  }

  predicate RefundsNow(db: Db, c: Call, id: string) {
    && Handled(db, c) && c.request.Refund? && c.request.id == id
    && c.outcome.read && id in db.intents && db.intents[id].status == Succeeded && c.outcome.write
  }

  /**
   What confirming the intent posts to an account.  A split payment credits the connected account with the amount less the
   fee and the platform with the fee, and debits the user; any other credits the user.  The ledger calls are numbered in
   this order, and those in `lost` do not get through.
   */
  function Share(intent: Intent, lost: set<nat>, account: string): int {
    if intent.applicationFee > 0 && intent.onBehalfOf != "" then
      (if account == "acc_" + intent.onBehalfOf && 0 !in lost then intent.amount - intent.applicationFee else 0)
        + (if account == "platform_main" && 1 !in lost then intent.applicationFee else 0)
        - (if account == "user_" + intent.userId && 2 !in lost then intent.amount else 0)
    else if account == "user_" + intent.userId && 0 !in lost then intent.amount
    else 0
  }

  /** The sum of what is posted to an account under a reference. */
  function Posted(postings: seq<Posting>, account: string, reference: string): int {
    if postings == [] then 0
    else
      var p := postings[|postings| - 1];
      Posted(postings[..|postings| - 1], account, reference)
        + if p.account == account && p.reference == reference then p.amount else 0
  }

  /** The shares of all confirmations of the intent in the run. */
  function Shares(calls: seq<Call>, account: string, id: string): int {
    if calls == [] then 0
    else
      var init, c := calls[..|calls| - 1], calls[|calls| - 1];
      Shares(init, account, id)
        + if ConfirmsNow(Run(init), c, id) then Share(Run(init).intents[id], c.outcome.lost, account) else 0
  }

  lemma {:induction false} PostedAppend(a: seq<Posting>, b: seq<Posting>, account: string, reference: string)
    ensures Posted(a + b, account, reference) == Posted(a, account, reference) + Posted(b, account, reference)
  {
    if b == [] {
      assert a + b == a;
    } else {
      PostedAppend(a, b[..|b| - 1], account, reference);
      assert (a + b)[..|a + b| - 1] == a + b[..|b| - 1];
    }
  }

  lemma {:induction false} PostedOne(p: Posting, account: string, reference: string)
    ensures Posted([p], account, reference) == if p.account == account && p.reference == reference then p.amount else 0
  {
    assert [p][..0] == [];
  }

  lemma {:induction false} PostedIf(p: Posting, lost: bool, account: string, reference: string)
    ensures Posted(if lost then [] else [p], account, reference)
         == if !lost && p.account == account && p.reference == reference then p.amount else 0
  {
    PostedOne(p, account, reference);
  }

  lemma {:induction false} DeliveredShare(id: string, intent: Intent, lost: set<nat>, account: string, reference: string)
    ensures Posted(Delivered(PostingsOf(id, intent), lost), account, reference)
         == if reference == id then Share(intent, lost, account) else 0
  {
    var p := PostingsOf(id, intent);
    DeliveredOf(id, intent, lost);
    var a := if 0 in lost then [] else [p[0]];
    PostedIf(p[0], 0 in lost, account, reference);
    if |p| == 3 {
      var b, c := if 1 in lost then [] else [p[1]], if 2 in lost then [] else [p[2]];
      assert Delivered(p, lost) == a + b + c;
      PostedAppend(a + b, c, account, reference);
      PostedAppend(a, b, account, reference);
      PostedIf(p[1], 1 in lost, account, reference);
      PostedIf(p[2], 2 in lost, account, reference);
    } else {
      assert Delivered(p, lost) == a;
    }
  }

  lemma {:induction false} ConfirmPosts(db: Db, r: Request, o: Outcome, account: string, reference: string)
    requires r.Confirm?
    ensures Posted(HandleConfirm(db, r, o).0.postings, account, reference) == Posted(db.postings, account, reference)
      + if ConfirmsNow(db, Call(Anonymous, "", r, o), reference) then Share(db.intents[reference], o.lost, account) else 0
  {
    if ConfirmsNow(db, Call(Anonymous, "", r, o), r.id) {
      var intent := db.intents[r.id];
      assert HandleConfirm(db, r, o).0.postings == db.postings + Delivered(PostingsOf(r.id, intent), o.lost);
      PostedAppend(db.postings, Delivered(PostingsOf(r.id, intent), o.lost), account, reference);
      DeliveredShare(r.id, intent, o.lost, account, reference);
    } else {
      assert HandleConfirm(db, r, o).0.postings == db.postings;
    }
  }

  lemma {:induction false} ServePosts(db: Db, c: Call, account: string, reference: string)
    ensures Posted(Serve(db, c).0.postings, account, reference) == Posted(db.postings, account, reference)
      + if ConfirmsNow(db, c, reference) then Share(db.intents[reference], c.outcome.lost, account) else 0
  {
    ServeIsHandle(db, c);
    if c.request.Confirm? {
      ConfirmPosts(db, c.request, c.outcome, account, reference);
    } else {
      OtherRequestsPostNothing(db, c.caller, c.request, c.outcome);
    }
  }

  /** Whatever the middleware does, the rest of the database is what the handler makes of it, if it is called. */
  lemma {:induction false} ServeIsHandle(db: Db, c: Call)
    ensures var db' := Serve(db, c).0;
      db'.(keys := db.keys) == if Handled(db, c) then Handle(db, c.caller, c.request, c.outcome).0.(keys := db.keys) else db
  {
  }

  lemma {:induction false} OtherRequestsPostNothing(db: Db, caller: Caller, r: Request, o: Outcome)
    requires !r.Confirm?
    ensures Handle(db, caller, r, o).0.postings == db.postings
  {
  }

  /** In every run, what is posted to an account under a payment's id is the account's share of its confirmations. */
  lemma {:induction false} PostingsExact(calls: seq<Call>, account: string, id: string)
    ensures Posted(Run(calls).postings, account, id) == Shares(calls, account, id)
  {
    if calls != [] {
      PostingsExact(calls[..|calls| - 1], account, id);
      ServePosts(Run(calls[..|calls| - 1]), calls[|calls| - 1], account, id);
    }
  }

  /** The event of a call, if it publishes one. */
  function EventOf(db: Db, c: Call): seq<KafkaEvent> {
    if !c.outcome.published || !(c.request.Confirm? || c.request.Refund?) then []
    else if ConfirmsNow(db, c, c.request.id) then
      [PaymentSucceeded(c.request.id, db.intents[c.request.id].userId, db.intents[c.request.id].amount)]
    else if RefundsNow(db, c, c.request.id) then
      [RefundCompleted(c.request.id, db.intents[c.request.id].userId, db.intents[c.request.id].amount)]
    else []
  }

  function EventsOf(calls: seq<Call>): seq<KafkaEvent> {
    if calls == [] then [] else EventsOf(calls[..|calls| - 1]) + EventOf(Run(calls[..|calls| - 1]), calls[|calls| - 1])
  }

  lemma {:induction false} HandlePublishes(db: Db, c: Call)
    requires Handled(db, c)
    ensures Handle(db, c.caller, c.request, c.outcome).0.events == db.events + EventOf(db, c)
  {
    match c.request
    case Malformed(_) =>
    case Create(_, _, _, _, _) =>
    case Confirm(_, _) => ConfirmPublishes(db, c);
    case Refund(_) => RefundPublishes(db, c);
  }

  lemma {:induction false} ConfirmPublishes(db: Db, c: Call)
    requires Handled(db, c) && c.request.Confirm?
    ensures HandleConfirm(db, c.request, c.outcome).0.events == db.events + EventOf(db, c)
  {
  }

  lemma {:induction false} RefundPublishes(db: Db, c: Call)
    requires Handled(db, c) && c.request.Refund?
    ensures HandleRefund(db, c.request, c.outcome).0.events == db.events + EventOf(db, c)
  {
  }

  /** In every run one event is published per recorded success and per refund, in order, with the intent's user and amount. */
  lemma {:induction false} EventsExact(calls: seq<Call>)
    ensures Run(calls).events == EventsOf(calls)
  {
    if calls != [] {
      var db, c := Run(calls[..|calls| - 1]), calls[|calls| - 1];
      EventsExact(calls[..|calls| - 1]);
      ServeIsHandle(db, c);
      if Handled(db, c) { HandlePublishes(db, c); }
    }
  }

  predicate CreatedBy(c: Call, id: string, intent: Intent) {
    && c.request.Create? && c.request.newId == id && c.caller == User(intent.userId)
    && intent.amount == c.request.amount > 0 && intent.currency == c.request.currency != ""
    && intent.applicationFee == c.request.applicationFee && intent.onBehalfOf == c.request.onBehalfOf
  }

  /** Only the status of an intent ever changes. */
  predicate SameTerms(a: Intent, b: Intent) {
    a.(status := b.status) == b
  }

  lemma {:induction false} HandleKeepsTerms(db: Db, c: Call)
    ensures var db' := Handle(db, c.caller, c.request, c.outcome).0;
      forall id | id in db'.intents ::
        if id in db.intents then SameTerms(db.intents[id], db'.intents[id])
        else CreatedBy(c, id, db'.intents[id]) && db'.intents[id].status == RequiresPaymentMethod
  {
  }

  /** In every run an intent has the user, amount, currency, fee and account of a request that created it. */
  lemma {:induction false} IntentIsAsCreated(calls: seq<Call>, id: string)
    requires id in Run(calls).intents
    ensures exists c | c in calls :: CreatedBy(c, id, Run(calls).intents[id])
  {
    var init, last := calls[..|calls| - 1], calls[|calls| - 1];
    ServeIsHandle(Run(init), last);
    HandleKeepsTerms(Run(init), last);
    if id in Run(init).intents {
      IntentIsAsCreated(init, id);
      var c :| c in init && CreatedBy(c, id, Run(init).intents[id]);
      assert CreatedBy(c, id, Run(calls).intents[id]);
    } else {
      assert last in calls;
    }
  }

  /**
   What a handler answers.  An answer that shows an intent shows it as it is stored, and there is one exactly if a valid
   creation is stored, a charge is accepted and recorded, or a refund is recorded; only an unauthenticated creation is
   answered 401, and an error means that no intent has changed.
   */
  lemma {:induction false} AnswersExact(db: Db, c: Call)
    requires Handled(db, c)
    ensures var (db', resp) := Handle(db, c.caller, c.request, c.outcome); var r, o := c.request, c.outcome;
      && (resp.body.IntentBody? ==>
          && resp.body.id in db'.intents && db'.intents[resp.body.id] == resp.body.intent
          && resp.status == if r.Create? then 201 else 200)
      && (resp.body.IntentBody? <==>
          match r
          case Malformed(_) => false
          case Create(id, amount, currency, _, _) =>
            c.caller.User? && amount > 0 && currency != "" && o.write && id !in db.intents
          case Confirm(id, _) => ConfirmsNow(db, c, id)
          case Refund(id) => RefundsNow(db, c, id))
      && (resp.body.DeclinedBody? <==>
          && r.Confirm? && r.paymentMethod != "" && o.read && r.id in db.intents && db.intents[r.id].status != Succeeded
          && !o.charge)
      && (resp.body.ErrorBody? ==> db'.intents == db.intents && resp.status in {400, 401})
      && (resp.status == 401 <==> !c.caller.User? && (r.Create? || (r.Malformed? && r.create)))
  {
    match c.request
    case Malformed(_) =>
    case Create(_, _, _, _, _) =>
    case Confirm(_, _) => ConfirmAnswer(db, c);
    case Refund(_) => RefundAnswer(db, c);
  }

  lemma {:induction false} ConfirmAnswer(db: Db, c: Call)
    requires Handled(db, c) && c.request.Confirm?
    ensures var (db', resp) := HandleConfirm(db, c.request, c.outcome); var r, o := c.request, c.outcome;
      && (resp.body.IntentBody? <==> ConfirmsNow(db, c, r.id))
      && (resp.body.IntentBody? ==>
          resp.body.id in db'.intents && db'.intents[resp.body.id] == resp.body.intent && resp.status == 200)
      && (resp.body.DeclinedBody? <==>
          && r.paymentMethod != "" && o.read && r.id in db.intents && db.intents[r.id].status != Succeeded && !o.charge)
      && (resp.body.ErrorBody? ==> db'.intents == db.intents && resp.status == 400)
      && (!resp.body.ErrorBody? ==> resp.status == 200)
  {
  }

  lemma {:induction false} RefundAnswer(db: Db, c: Call)
    requires Handled(db, c) && c.request.Refund?
    ensures var (db', resp) := HandleRefund(db, c.request, c.outcome);
      && (resp.body.IntentBody? <==> RefundsNow(db, c, c.request.id))
      && (resp.body.IntentBody? ==>
          resp.body.id in db'.intents && db'.intents[resp.body.id] == resp.body.intent && resp.status == 200)
      && !resp.body.DeclinedBody?
      && (resp.body.ErrorBody? ==> db'.intents == db.intents && resp.status == 400)
  {
  }
}
