/**
 Subscriptions and their renewal worker: internal/billing/domain/service.go and internal/billing/service/worker.go over
 the tables of internal/billing/infrastructure/sql_repository.go.
 */
module Billing {
  import opened Prelude
  import opened Calendar

  /** Nanoseconds of a day. */
  const DAY := 86_400_000_000_000

  /** An instant in UTC: a date and the nanoseconds since its midnight. */
  datatype Instant = Instant(date: Date, clock: int)

  function Nanos(t: Instant): int { DAY * DayNumber(t.date) + t.clock }

  /** Between 28 and 366 days later, at the same time of day. */
  function CalculateNextPeriod(start: Instant, interval: string): (end: Instant)
    ensures Nanos(start) + 28 * DAY <= Nanos(end) <= Nanos(start) + 366 * DAY
    ensures end.clock == start.clock
  {
    NextGrows(start.date, interval);
    Instant(Next(start.date, interval), start.clock)
  }

  /** The period is the month that it starts in, or, if the plan says "year", the year ahead with its leap day if it has one. */
  lemma {:induction false} PeriodExact(start: Instant, interval: string)
    requires Calendar.Valid(start.date)
    ensures var t := start.date;
      var days := if interval != "year" then DaysIn(t.year, t.month)
        else if Leap(if t.month <= 2 then t.year else t.year + 1) then 366 else 365;
      Nanos(CalculateNextPeriod(start, interval)) == Nanos(start) + DAY * days
  {
    MonthlyStep(start.date);
    YearlyStep(start.date);
  }

  datatype Status = Active | Canceled | PastDue

  datatype Subscription = Subscription(
    userId: string, orgId: string, planId: string, status: Status,
    periodStart: Instant, periodEnd: Instant, canceledAt: Option<Instant>)

  /** What the worker's calls for one subscription meet. */
  datatype Outcome = PlanUnread | Declined(written: bool) | Paid(written: bool)

  /** A successful payment, the period it renews for, and whether the renewal was written back. */
  datatype Bill = Bill(from: Instant, to: Instant, written: bool)

  /**
   The plans with their intervals and the subscriptions; as history, the bills of each subscription and the end of its
   first period.
   */
  datatype Db = Db(
    plans: map<string, string>,
    subs: map<string, Subscription>,
    bills: map<string, seq<Bill>>,
    firstEnds: map<string, Instant>)

  datatype BillingError = PlanNotFound | SubscriptionNotFound | Storage

  function BillsOf(db: Db, id: string): seq<Bill> {
    if id in db.bills then db.bills[id] else []
  }

  /** The foreign key of the subscriptions table. */
  predicate PlansExist(plans: map<string, string>, subs: map<string, Subscription>) {
    forall id | id in subs :: subs[id].planId in plans
  }

  // --- Operations ------------------------------------------------------------------------------

  /** Two clock readings: one starts the period, the other ends it.  Nothing is charged. */
  function Create(db: Db, id: string, userId: string, orgId: string, planId: string, now: Instant, later: Instant, ok: bool)
    : (Db, Result<Subscription, BillingError>)
  {
    if planId !in db.plans then (db, Failure(PlanNotFound))
    else if !ok || id in db.subs then (db, Failure(Storage))
    else
      var end := CalculateNextPeriod(later, db.plans[planId]);
      var sub := Subscription(userId, orgId, planId, Active, now, end, None);
      (db.(subs := db.subs[id := sub], bills := db.bills[id := []], firstEnds := db.firstEnds[id := end]), Success(sub))
  }

  /** UPDATE ... WHERE id: writes status, period and cancellation of the row, if it can. */
  function Update(db: Db, id: string, sub: Subscription, written: bool): Db {
    if !written || id !in db.subs then db
    else
      var row := db.subs[id].(status := sub.status, periodStart := sub.periodStart, periodEnd := sub.periodEnd,
                              canceledAt := sub.canceledAt);
      db.(subs := db.subs[id := row])
  }

  function Cancel(db: Db, id: string, now: Instant, read: bool, written: bool): (Db, Result<Subscription, BillingError>) {
    if !read then (db, Failure(Storage))
    else if id !in db.subs then (db, Failure(SubscriptionNotFound))
    else
      var sub := db.subs[id].(status := Canceled, canceledAt := Some(now));
      (Update(db, id, sub, written), if written then Success(sub) else Failure(Storage))
  }

  /** A row as ListDueSubscriptions returns it: without the cancellation. */
  function Listed(sub: Subscription): Subscription { sub.(canceledAt := None) }

  predicate Due(db: Db, id: string, now: Instant) {
    id in db.subs && db.subs[id].status == Active && Nanos(db.subs[id].periodEnd) <= Nanos(now)
  }

  function Renewed(sub: Subscription, interval: string): Subscription {
    sub.(periodStart := sub.periodEnd, periodEnd := CalculateNextPeriod(sub.periodEnd, interval), status := Active)
  }

  /** processSubscription on a row that was listed earlier. */
  function Process(db: Db, id: string, sub: Subscription, o: Outcome): Db {
    if o.PlanUnread? || sub.planId !in db.plans then db
    else if o.Declined? then Update(db, id, sub.(status := PastDue), o.written)
    else
      var r := Renewed(sub, db.plans[sub.planId]);
      var billed := db.(bills := db.bills[id := BillsOf(db, id) + [Bill(sub.periodEnd, r.periodEnd, o.written)]]);
      Update(billed, id, r, o.written)
  }

  predicate Distinct(ids: seq<string>) {
    forall i, j | 0 <= i < j < |ids| :: ids[i] != ids[j]
  }

  predicate AllDue(db: Db, ids: seq<string>, now: Instant) {
    forall i | 0 <= i < |ids| :: Due(db, ids[i], now)
  }

  /** The ids a listing returns: all that are due, each once, in any order. */
  predicate Lists(db: Db, ids: seq<string>, now: Instant) {
    AllDue(db, ids, now) && Distinct(ids) && forall id | id in db.subs && Due(db, id, now) :: id in ids
  }

  function OutcomeOf(outcome: map<string, Outcome>, id: string): Outcome {
    if id in outcome then outcome[id] else PlanUnread
  }

  /** The worker's loop over listed rows: one after another, each as it was when listed. */
  function Work(db: Db, rows: map<string, Subscription>, ids: seq<string>, outcome: map<string, Outcome>): Db {
    if ids == [] then db
    else
      var last := ids[|ids| - 1];
      var prev := Work(db, rows, ids[..|ids| - 1], outcome);
      if last in rows then Process(prev, last, Listed(rows[last]), OutcomeOf(outcome, last)) else prev
  }

  /** One undisturbed tick. */
  function Tick(db: Db, ids: seq<string>, outcome: map<string, Outcome>): Db {
    Work(db, db.subs, ids, outcome)
  }

  /** Part of the table has been listed; the rest is still to be looked at. */
  ghost predicate Scanned(db: Db, ids: seq<string>, rest: set<string>, now: Instant) {
    && AllDue(db, ids, now) && Distinct(ids)
    && (forall i | 0 <= i < |ids| :: ids[i] !in rest)
    && (forall id | id in db.subs && Due(db, id, now) :: id in rest || id in ids)
  }

  lemma {:induction false} ScanStep(db: Db, ids: seq<string>, rest: set<string>, now: Instant, id: string)
    requires Scanned(db, ids, rest, now) && id in rest && id in db.subs
    ensures Scanned(db, if Due(db, id, now) then ids + [id] else ids, rest - {id}, now)
  {
  }

  ghost predicate RowsOf(subs: map<string, Subscription>, ids: seq<string>, rows: seq<Subscription>) {
    |rows| == |ids| && forall i | 0 <= i < |ids| :: ids[i] in subs && rows[i] == Listed(subs[ids[i]])
  }

  // --- The classes ---------------------------------------------------------------------------------

  class Repository {
    var plans: map<string, string>
    var subs: map<string, Subscription>
    ghost var bills: map<string, seq<Bill>>
    ghost var firstEnds: map<string, Instant>

    ghost function View(): Db reads this { Db(plans, subs, bills, firstEnds) }

    constructor (plans: map<string, string>)
      ensures View() == Db(plans, map[], map[], map[])
    {
      this.plans, subs, bills, firstEnds := plans, map[], map[], map[];
    }

    method UpdateSubscription(id: string, sub: Subscription, written: bool) returns (ok: bool)
      modifies this
      ensures View() == Update(old(View()), id, sub, written) && ok == written
    {
      if written && id in subs {
        subs := subs[id := subs[id].(status := sub.status, periodStart := sub.periodStart, periodEnd := sub.periodEnd,
                                     canceledAt := sub.canceledAt)];
      }
      return written;
    }

    method ListDueSubscriptions(now: Instant) returns (ids: seq<string>, rows: seq<Subscription>)
      ensures Lists(View(), ids, now)
      ensures RowsOf(subs, ids, rows)
    {
      ids, rows := [], [];
      var rest := subs.Keys;
      while rest != {}
        invariant rest <= subs.Keys
        invariant Scanned(View(), ids, rest, now)
        invariant RowsOf(subs, ids, rows)
        decreases |rest|
      {
        var id :| id in rest;
        ScanStep(View(), ids, rest, now, id);
        rest := rest - {id};
        if subs[id].status == Active && Nanos(subs[id].periodEnd) <= Nanos(now) {
          ids := ids + [id];
          rows := rows + [Listed(subs[id])];
        }
      }
    }
  }

  class BillingService {
    const repo: Repository

    constructor (repo: Repository)
      ensures this.repo == repo
    {
      this.repo := repo;
    }

    method CreateSubscription(id: string, userId: string, orgId: string, planId: string, now: Instant, later: Instant, ok: bool)
      returns (r: Result<Subscription, BillingError>)
      modifies repo
      ensures (repo.View(), r) == Create(old(repo.View()), id, userId, orgId, planId, now, later, ok)
    {
      if planId !in repo.plans { return Failure(PlanNotFound); }
      var end := CalculateNextPeriod(later, repo.plans[planId]);
      var sub := Subscription(userId, orgId, planId, Active, now, end, None);
      if !ok || id in repo.subs { return Failure(Storage); }
      repo.subs := repo.subs[id := sub];
      repo.bills := repo.bills[id := []];
      repo.firstEnds := repo.firstEnds[id := end];
      return Success(sub);
    }

    method CancelSubscription(id: string, now: Instant, read: bool, written: bool) returns (r: Result<Subscription, BillingError>)
      modifies repo
      ensures (repo.View(), r) == Cancel(old(repo.View()), id, now, read, written)
    {
      if !read { return Failure(Storage); }
      if id !in repo.subs { return Failure(SubscriptionNotFound); }
      var sub := repo.subs[id].(status := Canceled, canceledAt := Some(now));
      var ok := repo.UpdateSubscription(id, sub, written);
      if !ok { return Failure(Storage); }
      return Success(sub);
    }
  }

  class SubscriptionWorker {
    const repo: Repository

    constructor (repo: Repository)
      ensures this.repo == repo
    {
      this.repo := repo;
    }

    method ProcessSubscription(id: string, row: Subscription, o: Outcome)
      requires row.planId in repo.plans
      modifies repo
      ensures repo.View() == Process(old(repo.View()), id, row, o)
    {
      if o.PlanUnread? { return; }
      var interval := repo.plans[row.planId];
      var sub := row;
      if o.Declined? {
        sub := sub.(status := PastDue);
        var _ := repo.UpdateSubscription(id, sub, o.written);
        return;
      }
      sub := sub.(periodStart := sub.periodEnd);
      sub := sub.(periodEnd := CalculateNextPeriod(sub.periodStart, interval));
      sub := sub.(status := Active);
      repo.bills := repo.bills[id := BillsOf(repo.View(), id) + [Bill(row.periodEnd, sub.periodEnd, o.written)]];
      var _ := repo.UpdateSubscription(id, sub, o.written);
    }

    /** `outcome` tells how the calls for each subscription will go. */
    method RunProcess(now: Instant, listed: bool, outcome: map<string, Outcome>) returns (ghost ids: seq<string>)
      requires PlansExist(repo.plans, repo.subs)
      modifies repo
      ensures if listed then Lists(old(repo.View()), ids, now) else ids == []
      ensures repo.View() == Tick(old(repo.View()), ids, outcome)
    {
      ids := [];
      if !listed { return; }
      var due, rows := repo.ListDueSubscriptions(now);
      ids := due;
      for i := 0 to |due|
        invariant repo.View() == Tick(old(repo.View()), due[..i], outcome)
        invariant repo.plans == old(repo.plans)
      {
        assert due[..i + 1][..i] == due[..i];
        ProcessSubscription(due[i], rows[i], if due[i] in outcome then outcome[due[i]] else PlanUnread);
      }
      assert due[..|due|] == due;
    }
  }

  // --- Serial runs -----------------------------------------------------------------------------------

  /** An operation with its clock readings and the fate of its reads and writes; a listing that fails is empty. */
  datatype Event =
    | CreateEvent(id: string, userId: string, orgId: string, planId: string, now: Instant, later: Instant, ok: bool)
    | CancelEvent(id: string, now: Instant, read: bool, written: bool)
    | TickEvent(now: Instant, ids: seq<string>, outcome: map<string, Outcome>)

  function Step(db: Db, e: Event): Db {
    match e
    case CreateEvent(id, userId, orgId, planId, now, later, ok) => Create(db, id, userId, orgId, planId, now, later, ok).0
    case CancelEvent(id, now, read, written) => Cancel(db, id, now, read, written).0
    case TickEvent(_, ids, outcome) => Tick(db, ids, outcome)
  }

  function Run(db: Db, es: seq<Event>): Db {
    if es == [] then db else Step(Run(db, es[..|es| - 1]), es[|es| - 1])
  }

  predicate Possible(db: Db, e: Event) {
    e.TickEvent? ==> e.ids == [] || Lists(db, e.ids, e.now)
  }

  /** Every tick works through what the table lists at that point. */
  predicate Serial(db: Db, es: seq<Event>) {
    forall i | 0 <= i < |es| :: Possible(Run(db, es[..i]), es[i])
  }

  function Empty(plans: map<string, string>): Db { Db(plans, map[], map[], map[]) }

  // --- One subscription --------------------------------------------------------------------------------

  datatype Account = Account(sub: Subscription, bills: seq<Bill>)

  function AccountOf(db: Db, id: string): Account
    requires id in db.subs
  {
    Account(db.subs[id], BillsOf(db, id))
  }

  /** What processing a listed row does to a subscription. */
  function ProcessRow(plans: map<string, string>, a: Account, row: Subscription, o: Outcome): Account {
    if o.PlanUnread? || row.planId !in plans then a
    else
      var r := if o.Declined? then row.(status := PastDue) else Renewed(row, plans[row.planId]);
      var sub := a.sub.(status := r.status, periodStart := r.periodStart, periodEnd := r.periodEnd, canceledAt := r.canceledAt);
      Account(if o.written then sub else a.sub,
              if o.Paid? then a.bills + [Bill(row.periodEnd, r.periodEnd, o.written)] else a.bills)
  }

  /** What processing does to a subscription that is processed as listed. */
  function ProcessAccount(plans: map<string, string>, a: Account, o: Outcome): Account {
    ProcessRow(plans, a, Listed(a.sub), o)
  }

  lemma {:induction false} ProcessFrame(db: Db, id: string, row: Subscription, o: Outcome, other: string)
    requires id in db.subs && other in db.subs
    ensures var r := Process(db, id, row, o);
      && other in r.subs && r.plans == db.plans && r.firstEnds == db.firstEnds && r.subs.Keys == db.subs.Keys
      && AccountOf(r, other)
           == if other == id then ProcessRow(db.plans, AccountOf(db, id), row, o) else AccountOf(db, other)
  {
  }

  /** The loop does to each subscription what processing its listed row alone does, or nothing if it is not listed. */
  lemma {:induction false} WorkOn(
    db: Db, rows: map<string, Subscription>, ids: seq<string>, outcome: map<string, Outcome>, id: string)
    requires Distinct(ids) && id in db.subs && rows.Keys == db.subs.Keys
    ensures var r := Work(db, rows, ids, outcome);
      && r.plans == db.plans && r.firstEnds == db.firstEnds && r.subs.Keys == db.subs.Keys
      && AccountOf(r, id) ==
           if id in ids then ProcessRow(db.plans, AccountOf(db, id), Listed(rows[id]), OutcomeOf(outcome, id))
           else AccountOf(db, id)
    decreases |ids|
  {
    if ids != [] {
      var init, last := ids[..|ids| - 1], ids[|ids| - 1];
      assert ids == init + [last];
      WorkOn(db, rows, init, outcome, id);
      if last in rows {
        WorkOn(db, rows, init, outcome, last);
        ProcessFrame(Work(db, rows, init, outcome), last, Listed(rows[last]), OutcomeOf(outcome, last), id);
      }
    }
  }

  /** A tick does to each subscription what processing it alone does, or nothing if it is not listed. */
  lemma {:induction false} TickOn(db: Db, ids: seq<string>, outcome: map<string, Outcome>, id: string)
    requires Distinct(ids) && id in db.subs
    ensures var r := Tick(db, ids, outcome);
      && r.plans == db.plans && r.firstEnds == db.firstEnds && r.subs.Keys == db.subs.Keys
      && AccountOf(r, id)
           == if id in ids then ProcessAccount(db.plans, AccountOf(db, id), OutcomeOf(outcome, id)) else AccountOf(db, id)
  {
    WorkOn(db, db.subs, ids, outcome, id);
  }

  /** What an operation does to one subscription. */
  function StepAccount(plans: map<string, string>, a: Account, e: Event, id: string): Account {
    match e
    case CreateEvent(_, _, _, _, _, _, _) => a
    case CancelEvent(target, now, read, written) =>
      if target == id && read && written then a.(sub := a.sub.(status := Canceled, canceledAt := Some(now))) else a
    case TickEvent(_, ids, outcome) => if id in ids then ProcessAccount(plans, a, OutcomeOf(outcome, id)) else a
  }

  lemma {:induction false} StepOn(db: Db, e: Event, id: string)
    requires Possible(db, e) && id in db.subs && id in db.firstEnds
    ensures var r := Step(db, e);
      && r.plans == db.plans && id in r.subs && id in r.firstEnds && r.firstEnds[id] == db.firstEnds[id]
      && AccountOf(r, id) == StepAccount(db.plans, AccountOf(db, id), e, id)
  {
    if e.TickEvent? {
      TickOn(db, e.ids, e.outcome, id);
    }
  }

  /** Only a successful creation brings a new subscription: active, never billed. */
  lemma {:induction false} NewOnly(db: Db, e: Event, id: string)
    requires Possible(db, e) && id !in db.subs && id !in db.bills
    ensures var r := Step(db, e);
      && r.plans == db.plans
      && (if e.CreateEvent? && e.id == id && e.ok && e.planId in db.plans
          then id in r.subs && id in r.firstEnds && r.subs[id].status == Active && r.subs[id].planId == e.planId
            && r.subs[id].periodEnd == r.firstEnds[id] && BillsOf(r, id) == []
          else id !in r.subs && id !in r.bills)
  {
    if e.TickEvent? {
      WorkKeeps(db, db.subs, e.ids, e.outcome, id);
    }
  }

  lemma {:induction false} WorkKeeps(
    db: Db, rows: map<string, Subscription>, ids: seq<string>, outcome: map<string, Outcome>, id: string)
    requires id !in rows && id !in db.subs && id !in db.bills
    ensures var r := Work(db, rows, ids, outcome); id !in r.subs && id !in r.bills && r.plans == db.plans
    decreases |ids|
  {
    if ids != [] {
      WorkKeeps(db, rows, ids[..|ids| - 1], outcome, id);
    }
  }

  // --- Billing is a count --------------------------------------------------------------------------------

  /** The end of the period n renewals after a first period that ends at `end`. */
  function Advance(end: Instant, interval: string, n: nat): Instant {
    if n == 0 then end else CalculateNextPeriod(Advance(end, interval, n - 1), interval)
  }

  /** The bills whose renewal was written back. */
  function Written(bills: seq<Bill>): nat {
    if bills == [] then 0
    else Written(bills[..|bills| - 1]) + if bills[|bills| - 1].written then 1 else 0
  }

  /** Bill i is for the period that follows the renewals written before it. */
  predicate BillFits(bills: seq<Bill>, i: nat, end: Instant, interval: string)
    requires i < |bills|
  {
    var n := Written(bills[..i]);
    bills[i].from == Advance(end, interval, n) && bills[i].to == Advance(end, interval, n + 1)
  }

  ghost predicate AllFit(bills: seq<Bill>, end: Instant, interval: string) {
    forall i | 0 <= i < |bills| :: BillFits(bills, i, end, interval)
  }

  ghost predicate Booked(a: Account, end: Instant, interval: string) {
    && a.sub.periodEnd == Advance(end, interval, Written(a.bills))
    && (Written(a.bills) > 0 ==> a.sub.periodStart == Advance(end, interval, Written(a.bills) - 1))
    && AllFit(a.bills, end, interval)
  }

  lemma {:induction false} AllFitNext(bills: seq<Bill>, bill: Bill, end: Instant, interval: string)
    requires AllFit(bills, end, interval)
    requires bill.from == Advance(end, interval, Written(bills)) && bill.to == Advance(end, interval, Written(bills) + 1)
    ensures AllFit(bills + [bill], end, interval)
    ensures Written(bills + [bill]) == Written(bills) + if bill.written then 1 else 0
  {
    var all := bills + [bill];
    assert all[..|bills|] == bills;
    forall i | 0 <= i < |all| ensures BillFits(all, i, end, interval) {
      if i < |bills| {
        assert all[..i] == bills[..i];
        assert BillFits(bills, i, end, interval);
      }
    }
  }

  lemma {:induction false} BookedNext(plans: map<string, string>, a: Account, o: Outcome, end: Instant)
    requires a.sub.planId in plans && Booked(a, end, plans[a.sub.planId])
    ensures ProcessAccount(plans, a, o).sub.planId == a.sub.planId
    ensures Booked(ProcessAccount(plans, a, o), end, plans[a.sub.planId])
  {
    var interval := plans[a.sub.planId];
    var r := ProcessAccount(plans, a, o);
    if o.Paid? {
      AllFitNext(a.bills, r.bills[|a.bills|], end, interval);
    }
  }

  ghost predicate Inv(db: Db, id: string) {
    if id in db.subs then
      id in db.firstEnds && db.subs[id].planId in db.plans &&
      Booked(AccountOf(db, id), db.firstEnds[id], db.plans[db.subs[id].planId])
    else id !in db.bills
  }

  lemma {:induction false} StepInv(db: Db, e: Event, id: string)
    requires Possible(db, e) && Inv(db, id)
    ensures Inv(Step(db, e), id)
  {
    if id in db.subs {
      StepOn(db, e, id);
      var a := AccountOf(db, id);
      if e.TickEvent? {
        BookedNext(db.plans, a, OutcomeOf(e.outcome, id), db.firstEnds[id]);
      } else {
        assert StepAccount(db.plans, a, e, id).bills == a.bills;
      }
    } else {
      NewOnly(db, e, id);
    }
  }

  lemma {:induction false} SerialInit(db: Db, es: seq<Event>)
    requires Serial(db, es) && es != []
    ensures Serial(db, es[..|es| - 1]) && Possible(Run(db, es[..|es| - 1]), es[|es| - 1])
  {
    var init := es[..|es| - 1];
    forall i | 0 <= i < |init| ensures Possible(Run(db, init[..i]), init[i]) {
      assert init[..i] == es[..i];
    }
  }

  lemma {:induction false} RunInv(plans: map<string, string>, es: seq<Event>, id: string)
    requires Serial(Empty(plans), es)
    ensures Inv(Run(Empty(plans), es), id) && Run(Empty(plans), es).plans == plans
    decreases |es|
  {
    if es != [] {
      var init := es[..|es| - 1];
      SerialInit(Empty(plans), es);
      RunInv(plans, init, id);
      var db := Run(Empty(plans), init);
      StepInv(db, es[|es| - 1], id);
      if id in db.subs { StepOn(db, es[|es| - 1], id); } else { NewOnly(db, es[|es| - 1], id); }
    }
  }

  /** One period after the other: no gap, and no repetition except after a bill that was not written back. */
  predicate Contiguous(bills: seq<Bill>, end: Instant, interval: string) {
    && (bills != [] ==> bills[0].from == end)
    && (forall i | 0 <= i < |bills| :: bills[i].to == CalculateNextPeriod(bills[i].from, interval))
    && (forall i | 0 < i < |bills| :: bills[i].from == if bills[i - 1].written then bills[i - 1].to else bills[i - 1].from)
  }

  lemma {:induction false} BillsChain(bills: seq<Bill>, end: Instant, interval: string)
    requires AllFit(bills, end, interval)
    ensures Contiguous(bills, end, interval)
  {
    forall i | 0 <= i < |bills| ensures bills[i].to == CalculateNextPeriod(bills[i].from, interval) {
      assert BillFits(bills, i, end, interval);
    }
    forall i | 0 < i < |bills|
      ensures bills[i].from == if bills[i - 1].written then bills[i - 1].to else bills[i - 1].from
    {
      assert BillFits(bills, i - 1, end, interval) && BillFits(bills, i, end, interval);
      assert bills[..i][..i - 1] == bills[..i - 1];
    }
    if bills != [] {
      assert BillFits(bills, 0, end, interval) && bills[..0] == [];
    }
  }

  // --- Main results ------------------------------------------------------------------------------------------

  /**
   In every serial run, whatever fails, each bill of a subscription starts where the bill before it ended, or where it
   started if its renewal was not written back; the subscription stands as many periods past its first as bills were
   written back; and the period on record is the one last written.
   */
  lemma {:induction false} BilledPeriods(plans: map<string, string>, es: seq<Event>, id: string)
    requires Serial(Empty(plans), es) && id in Run(Empty(plans), es).subs
    ensures var db := Run(Empty(plans), es); var bills := BillsOf(db, id);
      && id in db.firstEnds && db.subs[id].planId in plans
      && db.subs[id].periodEnd == Advance(db.firstEnds[id], plans[db.subs[id].planId], Written(bills))
      && Contiguous(bills, db.firstEnds[id], plans[db.subs[id].planId])
  {
    RunInv(plans, es, id);
    var db := Run(Empty(plans), es);
    BillsChain(BillsOf(db, id), db.firstEnds[id], plans[db.subs[id].planId]);
  }

  lemma {:induction false} AdvanceGrows(end: Instant, interval: string, m: nat, n: nat)
    requires m <= n
    ensures Nanos(Advance(end, interval, m)) + 28 * DAY * (n - m) <= Nanos(Advance(end, interval, n))
    decreases n - m
  {
    if m < n {
      AdvanceGrows(end, interval, m, n - 1);
    }
  }

  lemma {:induction false} WrittenGrows(bills: seq<Bill>, i: nat, j: nat)
    requires i < j <= |bills|
    ensures Written(bills[..i]) + (if bills[i].written then 1 else 0) <= Written(bills[..j])
    ensures (forall k | i <= k < j :: !bills[k].written) ==> Written(bills[..i]) == Written(bills[..j])
    decreases j
  {
    assert bills[..j][..j - 1] == bills[..j - 1];
    if i < j - 1 {
      WrittenGrows(bills, i, j - 1);
    }
  }

  predicate Twice(bills: seq<Bill>) {
    exists i, j | 0 <= i < j < |bills| :: bills[i].from == bills[j].from
  }

  predicate AllWrittenButLast(bills: seq<Bill>) {
    forall i | 0 <= i < |bills| - 1 :: bills[i].written
  }

  /** No period is billed twice, exactly when every bill but perhaps the last was written back. */
  lemma {:induction false} PeriodsBilledOnce(plans: map<string, string>, es: seq<Event>, id: string)
    requires Serial(Empty(plans), es) && id in Run(Empty(plans), es).subs
    ensures var bills := BillsOf(Run(Empty(plans), es), id); !Twice(bills) <==> AllWrittenButLast(bills)
  {
    RunInv(plans, es, id);
    var db := Run(Empty(plans), es);
    OnceIff(BillsOf(db, id), db.firstEnds[id], plans[db.subs[id].planId]);
  }

  lemma {:induction false} OnceIff(bills: seq<Bill>, end: Instant, interval: string)
    requires AllFit(bills, end, interval)
    ensures !Twice(bills) <==> AllWrittenButLast(bills)
  {
    if AllWrittenButLast(bills) {
      forall i, j | 0 <= i < j < |bills| ensures bills[i].from != bills[j].from {
        assert BillFits(bills, i, end, interval) && BillFits(bills, j, end, interval);
        WrittenGrows(bills, i, j);
        AdvanceGrows(end, interval, Written(bills[..i]), Written(bills[..j]));
      }
    } else {
      BillsChain(bills, end, interval);
      var i :| 0 <= i < |bills| - 1 && !bills[i].written;
      assert bills[i].from == bills[i + 1].from;
    }
  }

  predicate Stopped(sub: Subscription) { sub.status != Active }

  lemma {:induction false} StoppedStep(db: Db, e: Event, id: string)
    requires Possible(db, e) && id in db.subs && id in db.firstEnds && Stopped(db.subs[id])
    ensures var r := Step(db, e);
      && id in r.subs && id in r.firstEnds && Stopped(r.subs[id])
      && BillsOf(r, id) == BillsOf(db, id) && r.subs[id].periodEnd == db.subs[id].periodEnd
      && (db.subs[id].status == Canceled ==> r.subs[id].status == Canceled)
  {
    StepOn(db, e, id);
    assert AccountOf(Step(db, e), id).bills == BillsOf(db, id);
  }

  /** A subscription that is canceled or past due is never billed again, and a canceled one stays canceled. */
  lemma {:induction false} StoppedIsNeverBilled(plans: map<string, string>, es: seq<Event>, i: nat, id: string)
    requires Serial(Empty(plans), es) && i <= |es|
    requires id in Run(Empty(plans), es[..i]).subs && Stopped(Run(Empty(plans), es[..i]).subs[id])
    ensures var earlier, db := Run(Empty(plans), es[..i]), Run(Empty(plans), es);
      && id in db.subs && id in db.firstEnds && Stopped(db.subs[id])
      && BillsOf(db, id) == BillsOf(earlier, id) && db.subs[id].periodEnd == earlier.subs[id].periodEnd
      && (earlier.subs[id].status == Canceled ==> db.subs[id].status == Canceled)
    decreases |es|
  {
    if i == |es| {
      assert es[..i] == es;
      RunInv(plans, es, id);
    } else {
      var init := es[..|es| - 1];
      assert init[..i] == es[..i];
      SerialInit(Empty(plans), es);
      StoppedIsNeverBilled(plans, init, i, id);
      StoppedStep(Run(Empty(plans), init), es[|es| - 1], id);
    }
  }

  /** A tick whose payment for `id` succeeds and is written back. */
  predicate GoodTick(e: Event, id: string) {
    e.TickEvent? && OutcomeOf(e.outcome, id) == Paid(true)
  }

  predicate Between(from: Instant, t: Instant, to: Instant) { Nanos(from) <= Nanos(t) <= Nanos(to) }

  /** Every event is a good tick between two instants, and no listing fails. */
  predicate GoodTicks(db: Db, ticks: seq<Event>, id: string, from: Instant, to: Instant) {
    forall i | 0 <= i < |ticks| ::
      GoodTick(ticks[i], id) && Between(from, ticks[i].now, to) && Lists(Run(db, ticks[..i]), ticks[i].ids, ticks[i].now)
  }

  predicate Renewable(db: Db, id: string) {
    id in db.subs && id in db.firstEnds && db.subs[id].status == Active && db.subs[id].planId in db.plans
  }

  lemma {:induction false} GoodTickRenews(db: Db, e: Event, id: string)
    requires Renewable(db, id) && GoodTick(e, id) && Lists(db, e.ids, e.now)
    ensures var r := Step(db, e);
      && Renewable(r, id) && r.plans == db.plans && r.subs[id].planId == db.subs[id].planId
      && if Due(db, id, e.now)
         then r.subs[id].periodEnd == CalculateNextPeriod(db.subs[id].periodEnd, db.plans[db.subs[id].planId])
           && |BillsOf(r, id)| == |BillsOf(db, id)| + 1
         else r.subs[id].periodEnd == db.subs[id].periodEnd && BillsOf(r, id) == BillsOf(db, id)
  {
    StepOn(db, e, id);
    assert AccountOf(Step(db, e), id) == StepAccount(db.plans, AccountOf(db, id), e, id);
    assert id in e.ids <==> Due(db, id, e.now);
  }

  /** Where a subscription that ended at `end` stands after n good ticks and m renewals. */
  predicate CaughtUp(db: Db, id: string, end: Instant, interval: string, n: nat, m: nat, from: Instant, to: Instant) {
    && Renewable(db, id) && db.plans[db.subs[id].planId] == interval
    && m <= n && db.subs[id].periodEnd == Advance(end, interval, m)
    && (m > 0 ==> Nanos(Advance(end, interval, m - 1)) <= Nanos(to))
    && (m < n ==> Nanos(Advance(end, interval, m)) > Nanos(from))
  }

  lemma {:induction false} CatchUpStep(
    db: Db, e: Event, id: string, end: Instant, interval: string, n: nat, m: nat, from: Instant, to: Instant)
    returns (m': nat)
    requires CaughtUp(db, id, end, interval, n, m, from, to)
    requires GoodTick(e, id) && Between(from, e.now, to) && Lists(db, e.ids, e.now)
    ensures CaughtUp(Step(db, e), id, end, interval, n + 1, m', from, to)
    ensures |BillsOf(Step(db, e), id)| == |BillsOf(db, id)| + m' - m
  {
    m' := if Due(db, id, e.now) then m + 1 else m;
    GoodTickRenews(db, e, id);
    AdvanceGrows(end, interval, m, m + 1);
  }

  lemma {:induction false} GoodTicksInit(db: Db, ticks: seq<Event>, id: string, from: Instant, to: Instant)
    requires ticks != [] && GoodTicks(db, ticks, id, from, to)
    ensures GoodTicks(db, ticks[..|ticks| - 1], id, from, to)
  {
    var init := ticks[..|ticks| - 1];
    assert forall i | 0 <= i < |init| :: init[i] == ticks[i] && init[..i] == ticks[..i];
  }

  lemma {:induction false} CatchUp(db: Db, ticks: seq<Event>, id: string, from: Instant, to: Instant) returns (m: nat)
    requires Renewable(db, id) && GoodTicks(db, ticks, id, from, to)
    ensures |BillsOf(Run(db, ticks), id)| == |BillsOf(db, id)| + m
    ensures CaughtUp(Run(db, ticks), id, db.subs[id].periodEnd, db.plans[db.subs[id].planId], |ticks|, m, from, to)
    decreases |ticks|
  {
    m := 0;
    if ticks != [] {
      var n := |ticks| - 1;
      GoodTicksInit(db, ticks, id, from, to);
      m := CatchUp(db, ticks[..n], id, from, to);
      m := CatchUpStep(Run(db, ticks[..n]), ticks[n], id, db.subs[id].periodEnd, db.plans[db.subs[id].planId], n, m, from, to);
    }
  }

  /**
   An overdue subscription whose payments succeed catches up, whenever between two instants the ticks come: after n of
   them it is still due at the first instant exactly if n renewals do not reach past it, so never once n times 28 days
   exceed what it was behind.  Each payment moved it on by one period, and none was made before the period had ended.
   */
  lemma {:induction false} OverdueCatchesUp(db: Db, ticks: seq<Event>, id: string, from: Instant, to: Instant)
    requires Renewable(db, id) && GoodTicks(db, ticks, id, from, to)
    ensures var end := db.subs[id].periodEnd; var interval := db.plans[db.subs[id].planId];
      var r := Run(db, ticks); var m := |BillsOf(r, id)| - |BillsOf(db, id)|;
      && (Due(r, id, from) <==> Nanos(Advance(end, interval, |ticks|)) <= Nanos(from))
      && (Due(r, id, from) ==> 28 * DAY * |ticks| <= Nanos(from) - Nanos(end))
      && 0 <= m <= |ticks| && id in r.subs && r.subs[id].periodEnd == Advance(end, interval, m)
      && (m > 0 ==> Nanos(Advance(end, interval, m - 1)) <= Nanos(to) && 28 * DAY * (m - 1) <= Nanos(to) - Nanos(end))
  {
    var m := CatchUp(db, ticks, id, from, to);
    WhereItStands(Run(db, ticks), id, db.subs[id].periodEnd, db.plans[db.subs[id].planId], |ticks|, m, from, to);
  }

  lemma {:induction false} WhereItStands(
    db: Db, id: string, end: Instant, interval: string, n: nat, m: nat, from: Instant, to: Instant)
    requires CaughtUp(db, id, end, interval, n, m, from, to)
    ensures Due(db, id, from) <==> Nanos(Advance(end, interval, n)) <= Nanos(from)
    ensures Due(db, id, from) ==> 28 * DAY * n <= Nanos(from) - Nanos(end)
    ensures m > 0 ==> 28 * DAY * (m - 1) <= Nanos(to) - Nanos(end)
  {
    AdvanceGrows(end, interval, 0, n);
    AdvanceGrows(end, interval, m, n);
    if m > 0 { AdvanceGrows(end, interval, 0, m - 1); }
  }

  // --- What the operations write --------------------------------------------------------------------------------

  /** Nothing but status, period and cancellation of a subscription ever changes. */
  predicate SameOwner(a: Subscription, b: Subscription) {
    a.userId == b.userId && a.orgId == b.orgId && a.planId == b.planId
  }

  /**
   What a tick does to a listed subscription: nothing if its plan cannot be read; a decline, if it is written, makes it
   past due for the same period; a payment is billed for the period after the current one and, if it is written, moves
   the subscription on to that period.  Whatever is written clears the cancellation.
   */
  lemma {:induction false} TickExact(db: Db, ids: seq<string>, outcome: map<string, Outcome>, id: string)
    requires Distinct(ids) && id in db.subs && id in ids && db.subs[id].planId in db.plans
    ensures id in Tick(db, ids, outcome).subs
    ensures var r := Tick(db, ids, outcome); var before, after, o := db.subs[id], r.subs[id], OutcomeOf(outcome, id);
      var end := CalculateNextPeriod(before.periodEnd, db.plans[before.planId]);
      && SameOwner(before, after)
      && BillsOf(r, id) == BillsOf(db, id) + (if o.Paid? then [Bill(before.periodEnd, end, o.written)] else [])
      && (o.PlanUnread? || !o.written ==> after == before)
      && (!o.PlanUnread? && o.written ==>
          && after.canceledAt == None
          && after.status == (if o.Paid? then Active else PastDue)
          && after.periodStart == (if o.Paid? then before.periodEnd else before.periodStart)
          && after.periodEnd == (if o.Paid? then end else before.periodEnd))
  {
    TickOn(db, ids, outcome, id);
    var r := Tick(db, ids, outcome);
    assert AccountOf(r, id) == ProcessAccount(db.plans, AccountOf(db, id), OutcomeOf(outcome, id));
  }

  /** What a subscription starts as, and why it is refused. */
  lemma {:induction false} CreateExact(
    db: Db, id: string, userId: string, orgId: string, planId: string, now: Instant, later: Instant, ok: bool)
    ensures var (db', r) := Create(db, id, userId, orgId, planId, now, later, ok);
      if planId !in db.plans then db' == db && r == Failure(PlanNotFound)
      else if !ok || id in db.subs then db' == db && r == Failure(Storage)
      else
        && id in db'.subs && r == Success(db'.subs[id]) && db'.subs - {id} == db.subs && BillsOf(db', id) == []
        && var sub := db'.subs[id];
        && sub.userId == userId && sub.orgId == orgId && sub.planId == planId && sub.status == Active && sub.canceledAt == None
        && sub.periodStart == now && sub.periodEnd == CalculateNextPeriod(later, db.plans[planId])
  {
    var db' := Create(db, id, userId, orgId, planId, now, later, ok).0;
    if db' != db { assert db'.subs - {id} == db.subs; }
  }

  /** A cancellation is recorded with its instant and keeps the period; it fails without a row or if it is not written. */
  lemma {:induction false} CancelExact(db: Db, id: string, now: Instant, read: bool, written: bool)
    ensures var (db', r) := Cancel(db, id, now, read, written);
      && (r.Success? <==> read && written && id in db.subs)
      && (r == Failure(SubscriptionNotFound) <==> read && id !in db.subs)
      && (r.Failure? ==> db' == db)
      && (r.Success? ==>
          && id in db'.subs && db' == db.(subs := db'.subs) && db'.subs == db.subs[id := db'.subs[id]] && r.value == db'.subs[id]
          && var before, after := db.subs[id], db'.subs[id];
          && SameOwner(before, after) && after.status == Canceled && after.canceledAt == Some(now)
          && after.periodStart == before.periodStart && after.periodEnd == before.periodEnd)
  {
  }

  predicate CreatedBy(plans: map<string, string>, e: Event, db: Db, id: string) {
    && e.CreateEvent? && e.id == id && e.ok && id in db.subs && id in db.firstEnds && e.planId in plans
    && db.subs[id].userId == e.userId && db.subs[id].orgId == e.orgId && db.subs[id].planId == e.planId
    && db.firstEnds[id] == CalculateNextPeriod(e.later, plans[e.planId])
  }

  lemma {:induction false} StepKeepsCreator(plans: map<string, string>, db: Db, e: Event, id: string, c: Event)
    requires db.plans == plans && Possible(db, e) && CreatedBy(plans, c, db, id)
    ensures CreatedBy(plans, c, Step(db, e), id)
  {
    StepOn(db, e, id);
    assert AccountOf(Step(db, e), id).sub == Step(db, e).subs[id];
  }

  /** In every serial run a subscription has the user, organization, plan and first period of the request that created it. */
  lemma {:induction false} SubscriptionIsAsCreated(plans: map<string, string>, es: seq<Event>, id: string)
    requires Serial(Empty(plans), es) && id in Run(Empty(plans), es).subs
    ensures exists c | c in es :: CreatedBy(plans, c, Run(Empty(plans), es), id)
  {
    if es != [] {
      var init, last := es[..|es| - 1], es[|es| - 1];
      SerialInit(Empty(plans), es);
      RunInv(plans, init, id);
      var db := Run(Empty(plans), init);
      if id in db.subs {
        SubscriptionIsAsCreated(plans, init, id);
        var c :| c in init && CreatedBy(plans, c, db, id);
        StepKeepsCreator(plans, db, last, id, c);
      } else {
        NewOnly(db, last, id);
        assert last in es && CreatedBy(plans, last, Run(Empty(plans), es), id);
      }
    }
  }

  // --- A cancellation during a tick ------------------------------------------------------------------------------

  /** The loop can be looked at in two parts. */
  lemma {:induction false} WorkSplits(
    db: Db, rows: map<string, Subscription>, ids: seq<string>, outcome: map<string, Outcome>, j: nat)
    requires j <= |ids|
    ensures Work(db, rows, ids, outcome) == Work(Work(db, rows, ids[..j], outcome), rows, ids[j..], outcome)
    decreases |ids|
  {
    if j == |ids| {
      assert ids[..j] == ids && ids[j..] == [];
    } else {
      var n := |ids| - 1;
      WorkSplits(db, rows, ids[..n], outcome, j);
      assert ids[..n][..j] == ids[..j] && ids[..n][j..] == ids[j..][..n - j];
      assert ids[j..][n - j] == ids[n];
    }
  }

  /** The subscription's row is still to be processed, and doing so will write it. */
  predicate Overwrites(rest: seq<string>, id: string, o: Outcome) {
    id in rest && !o.PlanUnread? && o.written
  }

  /** It will charge for it. */
  predicate Charges(rest: seq<string>, id: string, o: Outcome) {
    id in rest && o.Paid?
  }

  /**
   A cancellation made after the worker has processed the first j of its listed rows survives the tick exactly unless
   the subscription is among the rest and its outcome is written; and it is charged no more exactly unless it is among
   the rest and its payment succeeds.
   */
  lemma {:induction false} CancellationSurvives(
    db: Db, ids: seq<string>, outcome: map<string, Outcome>, j: nat, id: string, at: Instant)
    requires Distinct(ids) && j <= |ids| && id in db.subs && db.subs[id].planId in db.plans
    ensures var canceled := Cancel(Work(db, db.subs, ids[..j], outcome), id, at, true, true).0;
      var r := Work(canceled, db.subs, ids[j..], outcome);
      && id in canceled.subs && canceled.subs[id].status == Canceled && id in r.subs
      && (r.subs[id].status == Canceled <==> !Overwrites(ids[j..], id, OutcomeOf(outcome, id)))
      && (BillsOf(r, id) == BillsOf(canceled, id) <==> !Charges(ids[j..], id, OutcomeOf(outcome, id)))
  {
    assert Distinct(ids[..j]) && Distinct(ids[j..]);
    WorkOn(db, db.subs, ids[..j], outcome, id);
    var canceled := Cancel(Work(db, db.subs, ids[..j], outcome), id, at, true, true).0;
    WorkOn(canceled, db.subs, ids[j..], outcome, id);
    CanceledRow(db.plans, AccountOf(canceled, id), db.subs[id], OutcomeOf(outcome, id));
    var r := Work(canceled, db.subs, ids[j..], outcome);
    assert AccountOf(r, id).bills == BillsOf(r, id) && AccountOf(canceled, id).bills == BillsOf(canceled, id);
  }

  lemma {:induction false} CanceledRow(plans: map<string, string>, a: Account, listed: Subscription, o: Outcome)
    requires listed.planId in plans && a.sub.status == Canceled
    ensures var r := ProcessRow(plans, a, Listed(listed), o);
      && (r.sub.status == Canceled <==> o.PlanUnread? || !o.written)
      && (r.bills == a.bills <==> !o.Paid?)
  {
    var r := ProcessRow(plans, a, Listed(listed), o);
    assert o.Paid? ==> |r.bills| == |a.bills| + 1;
  }
}
