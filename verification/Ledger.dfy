/**
 Double-entry postings: the front ends of cmd/ledger/grpc.go and cmd/ledger/events.go, and the service behind them in
 internal/ledger/domain/service.go with the table constraints of internal/ledger/schema.sql.

 Amounts are 64-bit integers: negation and the service's running sum wrap around.  Balances are sums of stored
 entries in the database and do not.
 */
module Ledger {
  import opened Prelude
  import Payments

  const TWO_63 := 0x8000_0000_0000_0000
  const TWO_64 := 0x1_0000_0000_0000_0000
  const SYSTEM := "system_balancing"

  predicate Int64(x: int) { -TWO_63 <= x < TWO_63 }

  function Wrap(x: int): int { (x + TWO_63) % TWO_64 - TWO_63 }

  datatype Direction = Debit | Credit

  datatype Entry = Entry(account: string, amount: int, direction: Direction)

  /** One transaction: its reference and its entries. */
  datatype Transaction = Transaction(reference: string, entries: seq<Entry>)

  /** Accounts with their currency, and the transactions recorded so far. */
  datatype Ledger = Ledger(accounts: map<string, string>, book: seq<Transaction>)

  datatype LedgerError = Unbalanced | AccountNotFound | MixedCurrencies | ZeroAmount

  // --- Balances ----------------------------------------------------------------------------

  function Sum(entries: seq<Entry>): int {
    if entries == [] then 0 else Sum(entries[..|entries| - 1]) + entries[|entries| - 1].amount
  }

  function SumFor(entries: seq<Entry>, account: string): int {
    if entries == [] then 0
    else
      var e := entries[|entries| - 1];
      SumFor(entries[..|entries| - 1], account) + if e.account == account then e.amount else 0
  }

  function Balance(book: seq<Transaction>, account: string): int {
    if book == [] then 0
    else Balance(book[..|book| - 1], account) + SumFor(book[|book| - 1].entries, account)
  }

  /** The sum of the balances of the named accounts. */
  function TotalOver(book: seq<Transaction>, accounts: seq<string>): int {
    if accounts == [] then 0
    else TotalOver(book, accounts[..|accounts| - 1]) + Balance(book, accounts[|accounts| - 1])
  }

  // --- The service ---------------------------------------------------------------------------

  /** The currency check: the first non-empty currency is the common one. */
  function CheckCurrency(accounts: map<string, string>, entries: seq<Entry>, common: string): Option<LedgerError> {
    if entries == [] then None
    else if entries[0].account !in accounts then Some(AccountNotFound)
    else
      var currency := accounts[entries[0].account];
      if common == "" then CheckCurrency(accounts, entries[1..], currency)
      else if currency != common then Some(MixedCurrencies)
      else CheckCurrency(accounts, entries[1..], common)
  }

  predicate HasReference(book: seq<Transaction>, reference: string) {
    exists i | 0 <= i < |book| :: book[i].reference == reference
  }

  /** The row constraint `amount != 0` of the entries table. */
  predicate NonZero(entries: seq<Entry>) {
    forall i | 0 <= i < |entries| :: entries[i].amount != 0
  }

  /** Why a transaction with a new reference is refused, if it is. */
  function Refusal(accounts: map<string, string>, entries: seq<Entry>): Option<LedgerError> {
    if Wrap(Sum(entries)) != 0 then Some(Unbalanced)
    else match CheckCurrency(accounts, entries, "")
      case Some(e) => Some(e)
      case None => if NonZero(entries) then None else Some(ZeroAmount)
  }

  /** RecordTransaction; a reference that is already in the book is answered with success and ignored. */
  function Record(l: Ledger, t: Transaction): (Ledger, Option<LedgerError>) {
    if Wrap(Sum(t.entries)) != 0 then (l, Some(Unbalanced))
    else match CheckCurrency(l.accounts, t.entries, "")
      case Some(e) => (l, Some(e))
      case None =>
        if HasReference(l.book, t.reference) then (l, None)
        else if !NonZero(t.entries) then (l, Some(ZeroAmount))
        else (l.(book := l.book + [t]), None)
  }

  function RecordAll(l: Ledger, ts: seq<Transaction>): Ledger {
    if ts == [] then l else Record(RecordAll(l, ts[..|ts| - 1]), ts[|ts| - 1]).0
  }

  // --- The front ends ---------------------------------------------------------------------------

  function Negate(amount: int): int { Wrap(-amount) }

  /** The two legs of a gRPC posting. */
  function Legs(account: string, amount: int): seq<Entry> {
    [Entry(account, amount, Credit), Entry(SYSTEM, Negate(amount), Debit)]
  }

  function FromPosting(p: Payments.Posting): Transaction {
    Transaction(p.reference, Legs(p.account, p.amount))
  }

  /** An event as the consumer decodes it: absent fields are empty. */
  datatype PaymentEvent = PaymentEvent(eventType: string, id: string, userId: string, amount: int)

  /** What the consumer posts for an event, if it does. */
  function FromEvent(e: PaymentEvent): Option<Transaction> {
    if e.eventType == "payment.succeeded" then
      Some(Transaction(e.id, [Entry("user_" + e.userId, e.amount, Credit), Entry(SYSTEM, Negate(e.amount), Debit)]))
    else if e.eventType == "payment.refunded" then
      Some(Transaction("refund_" + e.id, [Entry("user_" + e.userId, Negate(e.amount), Debit), Entry(SYSTEM, e.amount, Credit)]))
    else None
  }

  /** The payments service publishes `payment_id`, not `id`, and calls refunds `refund.completed`. */
  function Decode(k: Payments.KafkaEvent): PaymentEvent {
    match k
    case PaymentSucceeded(_, userId, amount) => PaymentEvent("payment.succeeded", "", userId, amount)
    case RefundCompleted(_, userId, amount) => PaymentEvent("refund.completed", "", userId, amount)
  }

  function Consume(l: Ledger, e: PaymentEvent): Ledger {
    match FromEvent(e)
    case Some(t) => Record(l, t).0
    case None => l
  }

  /** The answers to a batch: each request is judged in the ledger that those before it leave. */
  ghost predicate ErrorsOf(l: Ledger, ts: seq<Transaction>, errs: seq<Option<LedgerError>>) {
    |errs| == |ts| && forall i | 0 <= i < |ts| :: errs[i] == Record(RecordAll(l, ts[..i]), ts[i]).1
  }

  lemma {:induction false} ErrorsAppend(l: Ledger, ts: seq<Transaction>, errs: seq<Option<LedgerError>>, t: Transaction)
    requires ErrorsOf(l, ts, errs)
    ensures ErrorsOf(l, ts + [t], errs + [Record(RecordAll(l, ts), t).1])
  {
    var ts', errs' := ts + [t], errs + [Record(RecordAll(l, ts), t).1];
    forall i | 0 <= i < |ts'| ensures errs'[i] == Record(RecordAll(l, ts'[..i]), ts'[i]).1 {
      assert ts'[..i] == ts[..i];
      assert ts[..|ts|] == ts;
    }
  }

  class LedgerService {
    var accounts: map<string, string>
    var book: seq<Transaction>

    ghost function View(): Ledger reads this { Ledger(accounts, book) }

    constructor (accounts: map<string, string>)
      ensures View() == Ledger(accounts, [])
    {
      this.accounts, book := accounts, [];
    }

    /** The repository's lookup by reference. */
    method CheckIdempotency(reference: string) returns (known: bool)
      ensures known <==> HasReference(book, reference)
    {
      var i := 0;
      while i < |book|
        invariant 0 <= i <= |book|
        invariant forall j | 0 <= j < i :: book[j].reference != reference
      {
        if book[i].reference == reference { return true; }
        i := i + 1;
      }
      return false;
    }

    /** Inserting the entries fails on the first zero amount. */
    method CreateEntries(entries: seq<Entry>) returns (ok: bool)
      ensures ok <==> NonZero(entries)
    {
      var i := 0;
      while i < |entries|
        invariant 0 <= i <= |entries|
        invariant forall j | 0 <= j < i :: entries[j].amount != 0
      {
        if entries[i].amount == 0 { return false; }
        i := i + 1;
      }
      return true;
    }

    method RecordTransaction(t: Transaction) returns (err: Option<LedgerError>)
      modifies this
      ensures View() == Record(old(View()), t).0 && err == Record(old(View()), t).1
    {
      var sum := 0;
      var i := 0;
      while i < |t.entries|
        invariant 0 <= i <= |t.entries|
        invariant View() == old(View())
        invariant sum == Wrap(Sum(t.entries[..i]))
      {
        assert t.entries[..i + 1][..i] == t.entries[..i];
        WrapAdd(Sum(t.entries[..i]), t.entries[i].amount);
        sum := Wrap(sum + t.entries[i].amount);
        i := i + 1;
      }
      assert t.entries[..i] == t.entries;
      if sum != 0 { return Some(Unbalanced); }
      var common := "";
      i := 0;
      while i < |t.entries|
        invariant 0 <= i <= |t.entries|
        invariant View() == old(View())
        invariant CheckCurrency(accounts, t.entries, "") == CheckCurrency(accounts, t.entries[i..], common)
      {
        if t.entries[i].account !in accounts { return Some(AccountNotFound); }
        if common == "" {
          common := accounts[t.entries[i].account];
        } else if common != accounts[t.entries[i].account] {
          return Some(MixedCurrencies);
        }
        assert t.entries[i..][1..] == t.entries[i + 1..];
        i := i + 1;
      }
      var known := CheckIdempotency(t.reference);
      if known { return None; }
      var inserted := CreateEntries(t.entries);
      if !inserted { return Some(ZeroAmount); }
      book := book + [t];
      return None;
    }

    method BulkRecordTransactions(postings: seq<Payments.Posting>) returns (errs: seq<Option<LedgerError>>)
      modifies this
      ensures View() == RecordAll(old(View()), Mapped(postings))
      ensures ErrorsOf(old(View()), Mapped(postings), errs)
    {
      var requests: seq<Transaction> := [];
      for i := 0 to |postings|
        invariant requests == Mapped(postings)[..i]
      {
        requests := requests + [FromPosting(postings[i])];
      }
      errs := [];
      for i := 0 to |requests|
        invariant requests == Mapped(postings)
        invariant View() == RecordAll(old(View()), requests[..i])
        invariant ErrorsOf(old(View()), requests[..i], errs)
      {
        assert requests[..i + 1][..i] == requests[..i];
        var e := RecordTransaction(requests[i]);
        ErrorsAppend(old(View()), requests[..i], errs, requests[i]);
        assert requests[..i] + [requests[i]] == requests[..i + 1];
        errs := errs + [e];
      }
      assert requests[..|requests|] == requests;
    }
  }

  lemma {:induction false} WrapAdd(a: int, b: int)
    ensures Wrap(Wrap(a) + b) == Wrap(a + b)
  {
  }

  // --- What is accepted ---------------------------------------------------------------------------

  /** Every account exists, and no currency follows another one; accounts without a currency may come first. */
  predicate OneCurrency(accounts: map<string, string>, entries: seq<Entry>, n: nat) {
    && n <= |entries|
    && (forall i | 0 <= i < n :: entries[i].account in accounts)
    && (forall i, j | 0 <= i < j < n && accounts[entries[i].account] != "" ::
          accounts[entries[i].account] == accounts[entries[j].account])
  }

  /** The same, after entries whose common currency is given. */
  predicate RestCurrency(accounts: map<string, string>, entries: seq<Entry>, common: string, n: nat) {
    OneCurrency(accounts, entries, n) && (common != "" ==> forall i | 0 <= i < n :: accounts[entries[i].account] == common)
  }

  lemma {:induction false} RestNext(accounts: map<string, string>, entries: seq<Entry>, common: string, n: nat)
    requires entries != [] && n < |entries| && entries[0].account in accounts
    requires common == "" || accounts[entries[0].account] == common
    ensures RestCurrency(accounts, entries, common, n + 1) <==>
      RestCurrency(accounts, entries[1..], if common == "" then accounts[entries[0].account] else common, n)
  {
    var rest, first := entries[1..], accounts[entries[0].account];
    if RestCurrency(accounts, entries, common, n + 1) {
      assert forall i | 0 <= i < n :: rest[i] == entries[i + 1];
    }
    if RestCurrency(accounts, rest, if common == "" then first else common, n) {
      assert forall i | 0 < i < n + 1 :: entries[i] == rest[i - 1];
    }
  }

  /** The first entry at which the currencies stop being one, or the number of entries. */
  lemma {:induction false} CurrencyChecked(
    accounts: map<string, string>, entries: seq<Entry>, common: string) returns (k: nat)
    ensures k <= |entries| && RestCurrency(accounts, entries, common, k)
    ensures k < |entries| ==> !RestCurrency(accounts, entries, common, k + 1)
    ensures CheckCurrency(accounts, entries, common) ==
      if k == |entries| then None else if entries[k].account in accounts then Some(MixedCurrencies) else Some(AccountNotFound)
  {
    k := 0;
    if entries != [] && entries[0].account in accounts {
      var first := accounts[entries[0].account];
      if common == "" || first == common {
        var rest := CurrencyChecked(accounts, entries[1..], if common == "" then first else common);
        RestNext(accounts, entries, common, rest);
        if rest + 1 < |entries| { RestNext(accounts, entries, common, rest + 1); }
        k := rest + 1;
      }
    }
  }

  /**
   What becomes of a transaction: it is refused as unbalanced exactly if its sum is not a multiple of 2 to the 64th, then
   for the first entry that has no account or another currency, then, unless its reference is known, for a zero amount;
   and it is recorded exactly if nothing speaks against it and its reference is new.
   */
  lemma {:induction false} RecordExact(l: Ledger, t: Transaction) returns (k: nat)
    ensures k <= |t.entries| && OneCurrency(l.accounts, t.entries, k)
    ensures k < |t.entries| ==> !OneCurrency(l.accounts, t.entries, k + 1)
    ensures var (l', error) := Record(l, t);
      var known := exists i | 0 <= i < |l.book| :: l.book[i].reference == t.reference;
      var zero := exists i | 0 <= i < |t.entries| :: t.entries[i].amount == 0;
      if Sum(t.entries) % 0x1_0000_0000_0000_0000 != 0 then l' == l && error == Some(Unbalanced)
      else if k < |t.entries| then
        l' == l && error == Some(if t.entries[k].account in l.accounts then MixedCurrencies else AccountNotFound)
      else if known then l' == l && error == None
      else if zero then l' == l && error == Some(ZeroAmount)
      else error == None && l'.accounts == l.accounts && l'.book == l.book + [t]
  {
    k := CurrencyChecked(l.accounts, t.entries, "");
    assert forall n: nat :: RestCurrency(l.accounts, t.entries, "", n) <==> OneCurrency(l.accounts, t.entries, n);
    WrapIsZero(Sum(t.entries));
  }

  lemma {:induction false} WrapIsZero(x: int)
    ensures Wrap(x) == 0 <==> x % 0x1_0000_0000_0000_0000 == 0
  {
  }

  /** What a direct posting moves, if it is accepted under a new reference: the account and, inversely, the balancing one. */
  lemma {:induction false} PostingMoves(l: Ledger, p: Payments.Posting, account: string)
    requires Int64(p.amount) && p.amount != -TWO_63
    requires Refusal(l.accounts, FromPosting(p).entries).None? && !HasReference(l.book, p.reference)
    ensures Balance(Record(l, FromPosting(p)).0.book, account) == Balance(l.book, account)
      + (if account == p.account then p.amount else 0) - (if account == "system_balancing" then p.amount else 0)
  {
    var t := FromPosting(p);
    assert (l.book + [t])[..|l.book|] == l.book;
    SumTwo(t.entries[0], t.entries[1], account);
    assert t.entries == [t.entries[0], t.entries[1]];
  }

  predicate OnSide(t: Transaction, account: string, amount: int, direction: Direction) {
    exists e | e in t.entries :: e.account == account && e.amount == amount && e.direction == direction
  }

  /** A direct posting and a succeeded payment credit the account and debit the balancing one; a refund is the reverse. */
  lemma {:induction false} Directions(p: Payments.Posting, id: string, userId: string, amount: int)
    requires -TWO_63 < amount < TWO_63 && -TWO_63 < p.amount < TWO_63
    ensures OnSide(FromPosting(p), p.account, p.amount, Credit)
    ensures OnSide(FromPosting(p), "system_balancing", -p.amount, Debit)
    ensures FromEvent(Succeeded(id, userId, amount)).Some? && FromEvent(Refunded(id, userId, amount)).Some?
    ensures var paid, refunded := FromEvent(Succeeded(id, userId, amount)).value, FromEvent(Refunded(id, userId, amount)).value;
      && OnSide(paid, "user_" + userId, amount, Credit) && OnSide(paid, "system_balancing", -amount, Debit)
      && OnSide(refunded, "user_" + userId, -amount, Debit) && OnSide(refunded, "system_balancing", amount, Credit)
      && paid.reference == id && refunded.reference == "refund_" + id
  {
    var t := FromPosting(p);
    var paid, refunded := FromEvent(Succeeded(id, userId, amount)).value, FromEvent(Refunded(id, userId, amount)).value;
    assert t.entries[0] in t.entries && t.entries[1] in t.entries;
    assert paid.entries[0] in paid.entries && paid.entries[1] in paid.entries;
    assert refunded.entries[0] in refunded.entries && refunded.entries[1] in refunded.entries;
  }

  // --- Conservation ----------------------------------------------------------------------------

  /** The legs of a posting cancel, except for the one amount whose negation does not exist in 64 bits. */
  lemma {:induction false} LegsCancel(account: string, amount: int)
    requires Int64(amount)
    ensures Sum(Legs(account, amount)) == 0 <==> amount != -TWO_63
    ensures Wrap(Sum(Legs(account, amount))) == 0
  {
    SumTwo(Entry(account, amount, Credit), Entry(SYSTEM, Negate(amount), Debit), SYSTEM);
    assert amount != -TWO_63 ==> Negate(amount) == -amount;
  }

  lemma {:induction false} SumTwo(d: Entry, e: Entry, account: string)
    ensures Sum([d, e]) == d.amount + e.amount
    ensures SumFor([d, e], account) == (if d.account == account then d.amount else 0) + (if e.account == account then e.amount else 0)
  {
    assert [d, e][..1] == [d] && [d][..0] == [];
    assert SumFor([], account) == 0 && Sum([]) == 0;
    assert SumFor([d], account) == if d.account == account then d.amount else 0;
    assert Sum([d]) == d.amount;
  }

  predicate Covers(accounts: seq<string>, entries: seq<Entry>) {
    forall i | 0 <= i < |entries| :: entries[i].account in accounts
  }

  predicate Distinct(accounts: seq<string>) {
    forall i, j | 0 <= i < j < |accounts| :: accounts[i] != accounts[j]
  }

  /** Over distinct accounts that cover its entries, a transaction moves exactly the sum of its entries. */
  function MovedOver(entries: seq<Entry>, accounts: seq<string>): int {
    if accounts == [] then 0
    else MovedOver(entries, accounts[..|accounts| - 1]) + SumFor(entries, accounts[|accounts| - 1])
  }

  function Contribution(e: Entry, accounts: seq<string>): int {
    if e.account in accounts then e.amount else 0
  }

  lemma {:induction false} MovedLast(init: seq<Entry>, e: Entry, accounts: seq<string>)
    requires Distinct(accounts)
    ensures MovedOver(init + [e], accounts) == MovedOver(init, accounts) + Contribution(e, accounts)
  {
    if accounts != [] {
      var rest := accounts[..|accounts| - 1];
      MovedLast(init, e, rest);
      assert (init + [e])[..|init|] == init;
      assert accounts == rest + [accounts[|accounts| - 1]];
      if e.account == accounts[|accounts| - 1] {
        assert e.account !in rest;
      }
    }
  }

  lemma {:induction false} MovedIsSum(entries: seq<Entry>, accounts: seq<string>)
    requires Distinct(accounts) && Covers(accounts, entries)
    ensures MovedOver(entries, accounts) == Sum(entries)
  {
    if entries == [] {
      NothingMoved(accounts);
    } else {
      var init := entries[..|entries| - 1];
      MovedIsSum(init, accounts);
      MovedLast(init, entries[|entries| - 1], accounts);
      assert entries == init + [entries[|entries| - 1]];
    }
  }

  lemma {:induction false} NothingMoved(accounts: seq<string>)
    ensures MovedOver([], accounts) == 0
  {
    if accounts != [] { NothingMoved(accounts[..|accounts| - 1]); }
  }

  lemma {:induction false} TotalAppend(book: seq<Transaction>, t: Transaction, accounts: seq<string>)
    ensures TotalOver(book + [t], accounts) == TotalOver(book, accounts) + MovedOver(t.entries, accounts)
  {
    if accounts != [] {
      TotalAppend(book, t, accounts[..|accounts| - 1]);
      assert (book + [t])[..|book|] == book;
    }
  }

  lemma {:induction false} EmptyTotal(accounts: seq<string>)
    ensures TotalOver([], accounts) == 0
  {
    if accounts != [] { EmptyTotal(accounts[..|accounts| - 1]); }
  }

  predicate AccountsKnown(accounts: seq<string>, l: Ledger) {
    forall a | a in l.accounts :: a in accounts
  }

  lemma {:induction false} CheckedAccountsExist(accounts: map<string, string>, entries: seq<Entry>, common: string, i: nat)
    requires CheckCurrency(accounts, entries, common).None? && i < |entries|
    ensures entries[i].account in accounts
  {
    if i > 0 {
      CheckedAccountsExist(accounts, entries[1..], if common == "" then accounts[entries[0].account] else common, i - 1);
    }
  }

  /** Whatever transactions are submitted, the total over all accounts stays a multiple of 2 to the 64th. */
  lemma {:induction false} TotalWrapsToZero(accounts: map<string, string>, ts: seq<Transaction>, names: seq<string>)
    requires Distinct(names) && AccountsKnown(names, Ledger(accounts, []))
    ensures Wrap(TotalOver(RecordAll(Ledger(accounts, []), ts).book, names)) == 0
    ensures RecordAll(Ledger(accounts, []), ts).accounts == accounts
  {
    if ts == [] {
      EmptyTotal(names);
    } else {
      var init, t := ts[..|ts| - 1], ts[|ts| - 1];
      TotalWrapsToZero(accounts, init, names);
      var l := RecordAll(Ledger(accounts, []), init);
      if Record(l, t).0 != l {
        RecordedMoves(l, t, names);
        WrapAdd(TotalOver(l.book, names), Sum(t.entries));
      }
    }
  }

  lemma {:induction false} RecordedMoves(l: Ledger, t: Transaction, names: seq<string>)
    requires Distinct(names) && AccountsKnown(names, l) && Record(l, t).0 != l
    ensures TotalOver(Record(l, t).0.book, names) == TotalOver(l.book, names) + Sum(t.entries)
    ensures Wrap(Sum(t.entries)) == 0
  {
    forall i | 0 <= i < |t.entries| ensures t.entries[i].account in names {
      CheckedAccountsExist(l.accounts, t.entries, "", i);
    }
    MovedIsSum(t.entries, names);
    TotalAppend(l.book, t, names);
  }

  /** A transaction that a front end builds. */
  ghost predicate FromFrontEnd(t: Transaction) {
    || (exists p: Payments.Posting :: Int64(p.amount) && t == FromPosting(p))
    || (exists e: PaymentEvent :: Int64(e.amount) && FromEvent(e) == Some(t))
  }

  /** The amount of the first leg, which decides about the one amount without a negation. */
  predicate Ordinary(t: Transaction) {
    |t.entries| == 2 && t.entries[0].amount != -TWO_63 && t.entries[1].amount != -TWO_63
  }

  lemma {:induction false} FrontEndLegs(t: Transaction)
    requires FromFrontEnd(t)
    ensures |t.entries| == 2
    ensures Sum(t.entries) == (if Ordinary(t) then 0 else -TWO_64)
  {
    if p: Payments.Posting :| Int64(p.amount) && t == FromPosting(p) {
      OppositeLegs(t.entries, p.amount);
    } else {
      var e: PaymentEvent :| Int64(e.amount) && FromEvent(e) == Some(t);
      OppositeLegs(t.entries, e.amount);
    }
  }

  lemma {:induction false} OppositeLegs(entries: seq<Entry>, amount: int)
    requires Int64(amount) && |entries| == 2
    requires (entries[0].amount == amount && entries[1].amount == Negate(amount))
          || (entries[0].amount == Negate(amount) && entries[1].amount == amount)
    ensures Sum(entries) == if entries[0].amount != -TWO_63 && entries[1].amount != -TWO_63 then 0 else -TWO_64
  {
    SumTwo(entries[0], entries[1], SYSTEM);
    assert entries == [entries[0], entries[1]];
  }

  /** How many recorded transactions carry the amount that has no negation. */
  function Extraordinary(book: seq<Transaction>): nat {
    if book == [] then 0
    else Extraordinary(book[..|book| - 1]) + if Ordinary(book[|book| - 1]) then 0 else 1
  }

  /**
   Conservation for everything the front ends post: the total over all accounts is zero in every run, exactly unless an
   amount of minus 2 to the 63rd was recorded.
   */
  lemma {:induction false} Conservation(accounts: map<string, string>, ts: seq<Transaction>, names: seq<string>)
    requires Distinct(names) && AccountsKnown(names, Ledger(accounts, []))
    requires forall i | 0 <= i < |ts| :: FromFrontEnd(ts[i])
    ensures var book := RecordAll(Ledger(accounts, []), ts).book;
      && TotalOver(book, names) == -TWO_64 * Extraordinary(book)
      && (TotalOver(book, names) == 0 <==> forall i | 0 <= i < |book| :: Ordinary(book[i]))
    ensures RecordAll(Ledger(accounts, []), ts).accounts == accounts
  {
    if ts == [] {
      EmptyTotal(names);
    } else {
      var init, t := ts[..|ts| - 1], ts[|ts| - 1];
      Conservation(accounts, init, names);
      var l := RecordAll(Ledger(accounts, []), init);
      if Record(l, t).0 != l {
        RecordedMoves(l, t, names);
        FrontEndLegs(t);
        assert (l.book + [t])[..|l.book|] == l.book;
      }
    }
    AllOrdinary(RecordAll(Ledger(accounts, []), ts).book);
  }

  lemma {:induction false} AllOrdinary(book: seq<Transaction>)
    ensures Extraordinary(book) == 0 <==> forall i | 0 <= i < |book| :: Ordinary(book[i])
  {
    if book != [] {
      var init := book[..|book| - 1];
      AllOrdinary(init);
      assert forall i | 0 <= i < |init| :: init[i] == book[i];
      if forall i | 0 <= i < |book| :: Ordinary(book[i]) {
        assert forall i | 0 <= i < |init| :: Ordinary(init[i]);
      }
    }
  }

  // --- One reference, one transaction --------------------------------------------------------------

  function FirstAccepted(accounts: map<string, string>, ts: seq<Transaction>): (i: nat)
    ensures i <= |ts|
    ensures i < |ts| ==> Refusal(accounts, ts[i].entries).None?
    ensures forall j | 0 <= j < i :: Refusal(accounts, ts[j].entries).Some?
  {
    if ts == [] || Refusal(accounts, ts[0].entries).None? then 0 else 1 + FirstAccepted(accounts, ts[1..])
  }

  /** Of transactions that share a new reference only the first acceptable one is recorded. */
  lemma {:induction false} OneReferenceOnce(l: Ledger, ts: seq<Transaction>, reference: string)
    requires !HasReference(l.book, reference)
    requires forall i | 0 <= i < |ts| :: ts[i].reference == reference
    ensures var k := FirstAccepted(l.accounts, ts);
      RecordAll(l, ts) == if k < |ts| then l.(book := l.book + [ts[k]]) else l
  {
    if ts != [] {
      var init := ts[..|ts| - 1];
      OneReferenceOnce(l, init, reference);
      FirstOfPrefix(l.accounts, ts);
      var k := FirstAccepted(l.accounts, init);
      if k < |init| {
        assert (l.book + [init[k]])[|l.book|].reference == reference;
        assert HasReference(l.book + [init[k]], reference);
      }
    }
  }

  lemma {:induction false} FirstOfPrefix(accounts: map<string, string>, ts: seq<Transaction>)
    requires ts != []
    ensures var init := ts[..|ts| - 1]; var k := FirstAccepted(accounts, init);
      FirstAccepted(accounts, ts) ==
        if k < |init| then k
        else if Refusal(accounts, ts[|ts| - 1].entries).None? then |init| else |ts|
  {
  }

  function Mapped(postings: seq<Payments.Posting>): (ts: seq<Transaction>)
    ensures |ts| == |postings|
    ensures forall i | 0 <= i < |ts| :: ts[i] == FromPosting(postings[i])
  {
    seq(|postings|, i requires 0 <= i < |postings| => FromPosting(postings[i]))
  }

  function PostedSum(postings: seq<Payments.Posting>): int {
    if postings == [] then 0 else PostedSum(postings[..|postings| - 1]) + postings[|postings| - 1].amount
  }

  /** The three postings of a split payment are meant to cancel, whatever the fee. */
  lemma {:induction false} SplitIsBalanced(id: string, intent: Payments.Intent)
    requires intent.applicationFee > 0 && intent.onBehalfOf != ""
    ensures PostedSum(Payments.PostingsOf(id, intent)) == 0
  {
    var p := Payments.PostingsOf(id, intent);
    assert p[..2][..1] == [p[0]] && p[..1][..0] == [] && p[..2] == [p[0], p[1]];
    assert PostedSum([]) == 0;
    assert PostedSum([p[0]]) == p[0].amount;
    assert PostedSum([p[0], p[1]]) == p[0].amount + p[1].amount;
  }

  /**
   But they share one reference, so the ledger records at most one of them.  The balancing account is left at zero
   exactly when it records none; otherwise it moves by minus the recorded posting's amount.
   */
  lemma {:induction false} SplitPaymentRecordsOneLeg(l: Ledger, id: string, intent: Payments.Intent)
    requires !HasReference(l.book, id)
    requires 0 < intent.applicationFee && intent.onBehalfOf != "" && 0 < intent.amount
    requires Int64(intent.amount) && Int64(intent.applicationFee)
    ensures var ps := Payments.PostingsOf(id, intent); var k := FirstAccepted(l.accounts, Mapped(ps));
      var l' := RecordAll(l, Mapped(ps));
      && l'.book == (if k < |ps| then l.book + [FromPosting(ps[k])] else l.book)
      && Balance(l'.book, SYSTEM) == Balance(l.book, SYSTEM) - (if k < |ps| then ps[k].amount else 0)
      && (Balance(l'.book, SYSTEM) == Balance(l.book, SYSTEM) <==> k == |ps|)
  {
    var ps := Payments.PostingsOf(id, intent);
    var k := FirstAccepted(l.accounts, Mapped(ps));
    OneReferenceOnce(l, Mapped(ps), id);
    if k < |ps| {
      SplitPosting(id, intent, k);
      PostingMovesSystem(l.book, ps[k]);
      assert Mapped(ps)[k].entries[0].amount != 0;
    }
  }

  lemma {:induction false} SplitPosting(id: string, intent: Payments.Intent, k: nat)
    requires 0 < intent.applicationFee && intent.onBehalfOf != "" && 0 < intent.amount && k < 3
    requires Int64(intent.amount) && Int64(intent.applicationFee)
    ensures var p := Payments.PostingsOf(id, intent)[k]; Int64(-p.amount) && p.account != SYSTEM && p.reference == id
  {
    var p := Payments.PostingsOf(id, intent)[k];
    assert p.account[0] in {'a', 'p', 'u'} && SYSTEM[0] == 's';
  }

  lemma {:induction false} PostingMovesSystem(book: seq<Transaction>, p: Payments.Posting)
    requires Int64(-p.amount) && p.account != SYSTEM
    ensures Balance(book + [FromPosting(p)], SYSTEM) == Balance(book, SYSTEM) - p.amount
  {
    assert (book + [FromPosting(p)])[..|book|] == book;
    var legs := Legs(p.account, p.amount);
    SumTwo(legs[0], legs[1], SYSTEM);
    assert legs == [legs[0], legs[1]];
  }

  // --- Events ------------------------------------------------------------------------------------------

  /** What is left on an account when some of the two opposite postings are skipped. */
  function Remainder(user: string, amount: int, skipPaid: bool, skipRefund: bool, account: string): int {
    (if skipPaid then 0 else LegsOn(user, amount, Negate(amount), account))
      + (if skipRefund then 0 else LegsOn(user, Negate(amount), amount, account))
  }

  lemma {:induction false} NothingMovesIff(user: string, amount: int, skipPaid: bool, skipRefund: bool)
    requires Int64(amount) && amount != 0 && user != SYSTEM
    ensures (forall account: string :: Remainder(user, amount, skipPaid, skipRefund, account) == 0) <==>
      (skipPaid && skipRefund) || (!skipPaid && !skipRefund && amount != -TWO_63)
  {
    assert amount != -TWO_63 ==> Negate(amount) == -amount;
    assert Remainder(user, amount, skipPaid, skipRefund, user)
      == (if skipPaid then 0 else amount) + (if skipRefund then 0 else Negate(amount));
  }

  /** What two legs on a user's account and the balancing account move on an account. */
  function LegsOn(user: string, toUser: int, toSystem: int, account: string): int {
    (if account == user then toUser else 0) + (if account == SYSTEM then toSystem else 0)
  }

  function Succeeded(id: string, userId: string, amount: int): PaymentEvent {
    PaymentEvent("payment.succeeded", id, userId, amount)
  }

  function Refunded(id: string, userId: string, amount: int): PaymentEvent {
    PaymentEvent("payment.refunded", id, userId, amount)
  }

  ghost predicate SameBalances(a: seq<Transaction>, b: seq<Transaction>) {
    forall account: string :: Balance(a, account) == Balance(b, account)
  }

  predicate Known(l: Ledger, reference: string) { HasReference(l.book, reference) }

  /**
   A refunded event exactly undoes the succeeded event of the same payment on every account, if and only if the ledger
   refuses both, or knew both references before, or knew neither and the amount has a negation.
   */
  lemma {:induction false} RefundUndoesSuccess(l: Ledger, id: string, userId: string, amount: int)
    requires Int64(amount)
    ensures var after := Consume(Consume(l, Succeeded(id, userId, amount)), Refunded(id, userId, amount));
      SameBalances(after.book, l.book) <==>
      (|| Refusal(l.accounts, Legs("user_" + userId, amount)).Some?
       || (Known(l, id) && Known(l, "refund_" + id))
       || (!Known(l, id) && !Known(l, "refund_" + id) && amount != -TWO_63))
  {
    var user := "user_" + userId;
    RefundAccepted(l.accounts, user, amount);
    if Refusal(l.accounts, Legs(user, amount)).None? {
      RefundBalances(l, id, userId, amount);
      UserLegs(userId);
      NothingMovesIff(user, amount, Known(l, id), Known(l, "refund_" + id));
      var after := Consume(Consume(l, Succeeded(id, userId, amount)), Refunded(id, userId, amount));
      forall account: string
        ensures Balance(after.book, account) == Balance(l.book, account) <==>
          Remainder(user, amount, Known(l, id), Known(l, "refund_" + id), account) == 0
      {
        assert Balance(after.book, account) == Balance(l.book, account)
          + Remainder(user, amount, Known(l, id), Known(l, "refund_" + id), account);
      }
    } else {
      assert FromEvent(Succeeded(id, userId, amount)).value.entries == Legs(user, amount);
      assert Consume(l, Succeeded(id, userId, amount)) == l;
      assert Consume(l, Refunded(id, userId, amount)) == l;
    }
  }

  lemma {:induction false} RefundBalances(l: Ledger, id: string, userId: string, amount: int)
    requires Int64(amount)
    requires Refusal(l.accounts, Legs("user_" + userId, amount)).None?
    ensures var after := Consume(Consume(l, Succeeded(id, userId, amount)), Refunded(id, userId, amount));
      forall account: string :: Balance(after.book, account) == Balance(l.book, account)
        + Remainder("user_" + userId, amount, Known(l, id), Known(l, "refund_" + id), account)
  {
    var paid := Consume(l, Succeeded(id, userId, amount));
    var after := Consume(paid, Refunded(id, userId, amount));
    forall account: string
      ensures Balance(after.book, account) == Balance(l.book, account)
        + Remainder("user_" + userId, amount, Known(l, id), Known(l, "refund_" + id), account)
    {
      SuccessMoves(l, id, userId, amount, account);
      RefundMoves(paid, id, userId, amount, account);
    }
  }

  lemma {:induction false} UserLegs(userId: string)
    ensures "user_" + userId != SYSTEM
  {
    assert ("user_" + userId)[0] == 'u' && SYSTEM[0] == 's';
  }

  lemma {:induction false} SuccessMoves(l: Ledger, id: string, userId: string, amount: int, account: string)
    requires Refusal(l.accounts, Legs("user_" + userId, amount)).None?
    ensures var l' := Consume(l, Succeeded(id, userId, amount));
      && l'.accounts == l.accounts
      && Balance(l'.book, account) == Balance(l.book, account)
           + (if Known(l, id) then 0 else LegsOn("user_" + userId, amount, Negate(amount), account))
      && (Known(l', "refund_" + id) <==> Known(l, "refund_" + id))
  {
    var t := FromEvent(Succeeded(id, userId, amount)).value;
    assert |id| != |"refund_" + id|;
    SumTwo(t.entries[0], t.entries[1], account);
    assert t.entries == Legs("user_" + userId, amount) == [t.entries[0], t.entries[1]];
    ReferenceAppended(l.book, t, "refund_" + id);
    assert (l.book + [t])[..|l.book|] == l.book;
  }

  lemma {:induction false} RefundMoves(l: Ledger, id: string, userId: string, amount: int, account: string)
    requires Int64(amount)
    requires Refusal(l.accounts, Legs("user_" + userId, amount)).None?
    ensures var l' := Consume(l, Refunded(id, userId, amount));
      Balance(l'.book, account) == Balance(l.book, account)
           + (if Known(l, "refund_" + id) then 0 else LegsOn("user_" + userId, Negate(amount), amount, account))
  {
    var t := FromEvent(Refunded(id, userId, amount)).value;
    RefundAccepted(l.accounts, "user_" + userId, amount);
    SumTwo(t.entries[0], t.entries[1], account);
    assert t.entries == [t.entries[0], t.entries[1]];
    assert (l.book + [t])[..|l.book|] == l.book;
  }

  lemma {:induction false} ReferenceAppended(book: seq<Transaction>, t: Transaction, reference: string)
    ensures HasReference(book + [t], reference) <==> HasReference(book, reference) || t.reference == reference
  {
    if i :| 0 <= i < |book| && book[i].reference == reference {
      assert (book + [t])[i].reference == reference;
    }
    if t.reference == reference {
      assert (book + [t])[|book|].reference == reference;
    }
  }

  lemma {:induction false} RefundAccepted(accounts: map<string, string>, user: string, amount: int)
    requires Int64(amount)
    ensures Refusal(accounts, Legs(user, amount)).None? <==>
      Refusal(accounts, [Entry(user, Negate(amount), Debit), Entry(SYSTEM, amount, Credit)]).None?
    ensures Refusal(accounts, Legs(user, amount)).None? ==> amount != 0
  {
    var a := Legs(user, amount);
    var b := [Entry(user, Negate(amount), Debit), Entry(SYSTEM, amount, Credit)];
    LegsCancel(user, amount);
    OppositeLegs(b, amount);
    SameAccountsSameCheck(accounts, a, b, "");
    assert a[0].amount == amount;
    assert NonZero(a) <==> amount != 0;
    assert NonZero(b) <==> amount != 0;
  }

  lemma {:induction false} SameAccountsSameCheck(
    accounts: map<string, string>, a: seq<Entry>, b: seq<Entry>, common: string)
    requires |a| == |b| && forall i | 0 <= i < |a| :: a[i].account == b[i].account
    ensures CheckCurrency(accounts, a, common) == CheckCurrency(accounts, b, common)
  {
    if a != [] && a[0].account in accounts {
      SameAccountsSameCheck(accounts, a[1..], b[1..], if common == "" then accounts[a[0].account] else common);
    }
  }

  // --- The whole way from the payments service ---------------------------------------------------------------

  function ConsumeAll(l: Ledger, ks: seq<Payments.KafkaEvent>): Ledger {
    if ks == [] then l else Consume(ConsumeAll(l, ks[..|ks| - 1]), Decode(ks[|ks| - 1]))
  }

  /** What the consumer posts for the events that the payments service publishes: its successes, all without an id. */
  function Credits(ks: seq<Payments.KafkaEvent>): (ts: seq<Transaction>)
    ensures forall i | 0 <= i < |ts| :: ts[i].reference == ""
  {
    if ks == [] then []
    else
      var rest := Credits(ks[..|ks| - 1]);
      match ks[|ks| - 1]
      case PaymentSucceeded(_, userId, amount) => rest + [Transaction("", Legs("user_" + userId, amount))]
      case RefundCompleted(_, _, _) => rest
  }

  lemma {:induction false} ConsumeIsRecord(l: Ledger, ks: seq<Payments.KafkaEvent>)
    ensures ConsumeAll(l, ks) == RecordAll(l, Credits(ks))
  {
    if ks != [] {
      var init := ks[..|ks| - 1];
      ConsumeIsRecord(l, init);
      if ks[|ks| - 1].PaymentSucceeded? {
        var ts := Credits(ks);
        assert ts[..|ts| - 1] == Credits(init);
      }
    }
  }

  lemma {:induction false} KnownIsIgnored(l: Ledger, ts: seq<Transaction>, reference: string)
    requires HasReference(l.book, reference) && forall i | 0 <= i < |ts| :: ts[i].reference == reference
    ensures RecordAll(l, ts) == l
  {
    if ts != [] {
      KnownIsIgnored(l, ts[..|ts| - 1], reference);
    }
  }

  /**
   All events of the payments service arrive without an id.  Unless the ledger already has a transaction without one, it
   records exactly the first acceptable payment of the stream; otherwise none; and never a refund.
   */
  lemma {:induction false} EventStreamRecordsOnce(l: Ledger, ks: seq<Payments.KafkaEvent>)
    ensures var k := FirstAccepted(l.accounts, Credits(ks));
      ConsumeAll(l, ks) ==
        if !HasReference(l.book, "") && k < |Credits(ks)| then l.(book := l.book + [Credits(ks)[k]]) else l
  {
    ConsumeIsRecord(l, ks);
    if HasReference(l.book, "") {
      KnownIsIgnored(l, Credits(ks), "");
    } else {
      OneReferenceOnce(l, Credits(ks), "");
    }
  }

  /** The transaction is acceptable and no acceptable one before it has its reference. */
  predicate Taken(l: Ledger, ts: seq<Transaction>, i: nat) {
    && i < |ts| && Refusal(l.accounts, ts[i].entries).None? && !HasReference(l.book, ts[i].reference)
    && forall j | 0 <= j < i :: ts[j].reference == ts[i].reference ==> Refusal(l.accounts, ts[j].entries).Some?
  }

  /** What the first acceptable transactions of their references, among the first n, move on an account. */
  function MovedByFirsts(l: Ledger, ts: seq<Transaction>, n: nat, account: string): int
    requires n <= |ts|
  {
    if n == 0 then 0
    else
      MovedByFirsts(l, ts, n - 1, account) + if Taken(l, ts, n - 1) then SumFor(ts[n - 1].entries, account) else 0
  }

  /** An acceptable transaction among the first n has the reference. */
  predicate Offered(l: Ledger, ts: seq<Transaction>, n: nat, reference: string)
    requires n <= |ts|
  {
    exists i | 0 <= i < n :: ts[i].reference == reference && Refusal(l.accounts, ts[i].entries).None?
  }

  lemma {:induction false} RecordEffect(l: Ledger, t: Transaction, account: string)
    ensures var l' := Record(l, t).0; var taken := Refusal(l.accounts, t.entries).None? && !HasReference(l.book, t.reference);
      && l'.accounts == l.accounts
      && Balance(l'.book, account) == Balance(l.book, account) + (if taken then SumFor(t.entries, account) else 0)
      && forall r: string :: HasReference(l'.book, r) <==> HasReference(l.book, r) || (taken && r == t.reference)
  {
    if Record(l, t).0 != l {
      assert (l.book + [t])[..|l.book|] == l.book;
      forall r: string ensures HasReference(l.book + [t], r) <==> HasReference(l.book, r) || t.reference == r {
        ReferenceAppended(l.book, t, r);
      }
    }
  }

  /** A transaction is the first acceptable one of its reference exactly if it is acceptable and none was offered before. */
  lemma {:induction false} TakenNext(l: Ledger, ts: seq<Transaction>, n: nat)
    requires n < |ts|
    ensures var t := ts[n]; Taken(l, ts, n) <==>
      Refusal(l.accounts, t.entries).None? && !HasReference(l.book, t.reference) && !Offered(l, ts, n, t.reference)
    ensures forall r: string :: Offered(l, ts, n + 1, r) <==>
      Offered(l, ts, n, r) || (r == ts[n].reference && Refusal(l.accounts, ts[n].entries).None?)
  {
  }

  /** Every account holds what the first acceptable transaction of each new reference moves on it, and nothing else. */
  lemma {:induction false} BalanceOfFirsts(l: Ledger, ts: seq<Transaction>, n: nat, account: string)
    requires n <= |ts|
    ensures var l' := RecordAll(l, ts[..n]);
      && l'.accounts == l.accounts
      && Balance(l'.book, account) == Balance(l.book, account) + MovedByFirsts(l, ts, n, account)
      && forall r: string :: HasReference(l'.book, r) <==> HasReference(l.book, r) || Offered(l, ts, n, r)
  {
    if n > 0 {
      BalanceOfFirsts(l, ts, n - 1, account);
      assert ts[..n][..n - 1] == ts[..n - 1];
      TakenNext(l, ts, n - 1);
      RecordEffect(RecordAll(l, ts[..n - 1]), ts[n - 1], account);
    }
  }

  /** What reaches the ledger: calls of the payments service, and its events. */
  datatype Arrival = ByCall(posting: Payments.Posting) | ByEvent(event: Payments.KafkaEvent)

  function Receive(l: Ledger, arrivals: seq<Arrival>): Ledger {
    if arrivals == [] then l
    else
      var before := Receive(l, arrivals[..|arrivals| - 1]);
      match arrivals[|arrivals| - 1]
      case ByCall(p) => Record(before, FromPosting(p)).0
      case ByEvent(k) => Consume(before, Decode(k))
  }

  function CallsIn(arrivals: seq<Arrival>): seq<Payments.Posting> {
    if arrivals == [] then []
    else
      CallsIn(arrivals[..|arrivals| - 1])
        + match arrivals[|arrivals| - 1] case ByCall(p) => [p] case ByEvent(_) => []
  }

  function EventsIn(arrivals: seq<Arrival>): seq<Payments.KafkaEvent> {
    if arrivals == [] then []
    else
      EventsIn(arrivals[..|arrivals| - 1])
        + match arrivals[|arrivals| - 1] case ByCall(_) => [] case ByEvent(k) => [k]
  }

  /** A ledger that has taken from two others, which have nothing in common beyond the opening one. */
  ghost predicate Joins(l: Ledger, calls: Ledger, events: Ledger, both: Ledger, account: string) {
    && both.accounts == calls.accounts == events.accounts == l.accounts
    && Balance(both.book, account) + Balance(l.book, account) == Balance(calls.book, account) + Balance(events.book, account)
    && (HasReference(both.book, "") <==> HasReference(events.book, ""))
    && forall r: string | r != "" :: HasReference(both.book, r) <==> HasReference(calls.book, r)
  }

  lemma {:induction false} JoinsCall(
    l: Ledger, calls: Ledger, events: Ledger, both: Ledger, t: Transaction, account: string)
    requires Joins(l, calls, events, both, account) && t.reference != ""
    ensures Joins(l, Record(calls, t).0, events, Record(both, t).0, account)
  {
    RecordEffect(both, t, account);
    RecordEffect(calls, t, account);
  }

  lemma {:induction false} JoinsEvent(
    l: Ledger, calls: Ledger, events: Ledger, both: Ledger, t: Transaction, account: string)
    requires Joins(l, calls, events, both, account) && t.reference == ""
    ensures Joins(l, calls, Record(events, t).0, Record(both, t).0, account)
  {
    RecordEffect(both, t, account);
    RecordEffect(events, t, account);
  }

  lemma {:induction false} MappedLast(ps: seq<Payments.Posting>, p: Payments.Posting)
    ensures Mapped(ps + [p]) == Mapped(ps) + [FromPosting(p)]
  {
  }

  lemma {:induction false} CallArrives(l: Ledger, arrivals: seq<Arrival>, p: Payments.Posting)
    ensures var more := arrivals + [ByCall(p)];
      && p in CallsIn(more)
      && Receive(l, more) == Record(Receive(l, arrivals), FromPosting(p)).0
      && ConsumeAll(l, EventsIn(more)) == ConsumeAll(l, EventsIn(arrivals))
      && RecordAll(l, Mapped(CallsIn(more))) == Record(RecordAll(l, Mapped(CallsIn(arrivals))), FromPosting(p)).0
  {
    var more, ps := arrivals + [ByCall(p)], CallsIn(arrivals);
    assert more[..|arrivals|] == arrivals;
    assert CallsIn(more) == ps + [p] && EventsIn(more) == EventsIn(arrivals);
    MappedLast(ps, p);
    assert Mapped(ps + [p])[..|ps|] == Mapped(ps);
  }

  lemma {:induction false} EventArrives(l: Ledger, arrivals: seq<Arrival>, k: Payments.KafkaEvent)
    ensures var more := arrivals + [ByEvent(k)];
      && CallsIn(more) == CallsIn(arrivals)
      && Receive(l, more) == Consume(Receive(l, arrivals), Decode(k))
      && ConsumeAll(l, EventsIn(more)) == Consume(ConsumeAll(l, EventsIn(arrivals)), Decode(k))
  {
    var more, ks := arrivals + [ByEvent(k)], EventsIn(arrivals);
    assert more[..|arrivals|] == arrivals;
    assert EventsIn(more) == ks + [k] && CallsIn(more) == CallsIn(arrivals);
    assert (ks + [k])[..|ks|] == ks;
  }

  lemma {:induction false} StreamsAreApart(l: Ledger, arrivals: seq<Arrival>, account: string)
    requires forall p | p in CallsIn(arrivals) :: p.reference != ""
    ensures Joins(l, RecordAll(l, Mapped(CallsIn(arrivals))), ConsumeAll(l, EventsIn(arrivals)), Receive(l, arrivals), account)
  {
    if arrivals != [] {
      var init, last := arrivals[..|arrivals| - 1], arrivals[|arrivals| - 1];
      StreamsAreApart(l, init, account);
      assert arrivals == init + [last];
      var calls, events, both := RecordAll(l, Mapped(CallsIn(init))), ConsumeAll(l, EventsIn(init)), Receive(l, init);
      match last
      case ByCall(p) =>
        CallArrives(l, init, p);
        JoinsCall(l, calls, events, both, FromPosting(p), account);
      case ByEvent(k) =>
        EventArrives(l, init, k);
        if k.PaymentSucceeded? { JoinsEvent(l, calls, events, both, FromEvent(Decode(k)).value, account); }
    }
  }

  predicate Named(db: Payments.Db) {
    "" !in db.intents && forall i | 0 <= i < |db.postings| :: db.postings[i].reference != ""
  }

  lemma {:induction false} ConfirmNames(db: Payments.Db, r: Payments.Request, o: Payments.Outcome)
    requires Named(db) && r.Confirm?
    ensures Named(Payments.HandleConfirm(db, r, o).0)
  {
    if r.id in db.intents {
      Payments.DeliveredOf(r.id, db.intents[r.id], o.lost);
    }
  }

  lemma {:induction false} HandleNames(db: Payments.Db, c: Payments.Call)
    requires Named(db) && (c.request.Create? ==> c.request.newId != "")
    ensures Named(Payments.Handle(db, c.caller, c.request, c.outcome).0)
  {
    match c.request
    case Malformed(_) =>
    case Create(_, _, _, _, _) =>
    case Confirm(_, _) => ConfirmNames(db, c.request, c.outcome);
    case Refund(_) =>
  }

  lemma {:induction false} PaymentsAreNamed(calls: seq<Payments.Call>)
    requires forall c | c in calls && c.request.Create? :: c.request.newId != ""
    ensures Named(Payments.Run(calls))
  {
    if calls != [] {
      PaymentsAreNamed(calls[..|calls| - 1]);
      HandleNames(Payments.Run(calls[..|calls| - 1]), calls[|calls| - 1]);
    }
  }

  /** The payments service can get there, with ids that are not empty. */
  ghost predicate Served(db: Payments.Db) {
    exists calls: seq<Payments.Call> ::
      (forall c | c in calls && c.request.Create? :: c.request.newId != "") && Payments.Run(calls) == db
  }

  lemma {:induction false} ServedIsNamed(db: Payments.Db)
    requires Served(db)
    ensures Named(db)
  {
    var calls: seq<Payments.Call> :|
      (forall c | c in calls && c.request.Create? :: c.request.newId != "") && Payments.Run(calls) == db;
    PaymentsAreNamed(calls);
  }

  /**
   End to end: whatever the payments service has done, and however its ledger calls and events mix on arrival, an
   account holds what the first acceptable posting of each payment moves on it, plus the first acceptable success event
   of all; no refund moves anything.
   */
  lemma {:induction false} EndToEnd(l: Ledger, db: Payments.Db, arrivals: seq<Arrival>, account: string)
    requires Served(db) && CallsIn(arrivals) == db.postings && EventsIn(arrivals) == db.events
    ensures var posted, credits := Mapped(db.postings), Credits(db.events);
      var k := FirstAccepted(l.accounts, credits);
      Balance(Receive(l, arrivals).book, account) == Balance(l.book, account)
        + MovedByFirsts(l, posted, |posted|, account)
        + if !HasReference(l.book, "") && k < |credits| then SumFor(credits[k].entries, account) else 0
  {
    ServedIsNamed(db);
    StreamsAreApart(l, arrivals, account);
    var posted, credits := Mapped(db.postings), Credits(db.events);
    BalanceOfFirsts(l, posted, |posted|, account);
    assert posted[..|posted|] == posted;
    EventStreamRecordsOnce(l, db.events);
    var k := FirstAccepted(l.accounts, credits);
    if k < |credits| {
      assert (l.book + [credits[k]])[..|l.book|] == l.book;
    }
  }

  /** One payment of the given amount, confirmed and refunded without any failure. */
  function PaidAndRefunded(id: string, userId: string, amount: int, currency: string): seq<Payments.Call> {
    var payer := Payments.User(userId);
    [Payments.Call(payer, "", Payments.Create(id, amount, currency, 0, ""), Payments.ALL_WELL),
     Payments.Call(payer, "", Payments.Confirm(id, "pm"), Payments.ALL_WELL),
     Payments.Call(payer, "", Payments.Refund(id), Payments.ALL_WELL)]
  }

  lemma {:induction false} RunPaidAndRefunded(id: string, userId: string, amount: int, currency: string)
    requires amount > 0 && currency != ""
    ensures var db := Payments.Run(PaidAndRefunded(id, userId, amount, currency));
      && db.postings == [Payments.Posting("user_" + userId, amount, id)]
      && db.events == [Payments.PaymentSucceeded(id, userId, amount), Payments.RefundCompleted(id, userId, amount)]
      && db.charges[id] == db.refunds[id] == 1
  {
    var calls := PaidAndRefunded(id, userId, amount, currency);
    var c1, c2 := calls[..1], calls[..2];
    assert calls[..2] == c2 && c2[..1] == c1 && c1[..0] == [];
    var intent := Payments.Intent(userId, amount, currency, Payments.RequiresPaymentMethod, 0, "");
    assert Payments.Run([]) == Payments.EMPTY;
    var db1 := Payments.Run(c1);
    assert db1 == Payments.EMPTY.(intents := map[id := intent]);
    var db2 := Payments.Run(c2);
    Payments.DeliveredOf(id, intent, {});
    assert db2 == Payments.HandleConfirm(db1, Payments.Confirm(id, "pm"), Payments.ALL_WELL).0;
    assert db2.intents[id].status == Payments.Succeeded;
  }

  /** So the first payment is credited to its user twice, and its refund takes nothing back. */
  lemma {:induction false} RefundedPaymentCreditedTwice(
    l: Ledger, id: string, userId: string, amount: int, currency: string, arrivals: seq<Arrival>)
    requires amount > 0 && currency != "" && id != ""
    requires Refusal(l.accounts, Legs("user_" + userId, amount)).None?
    requires !HasReference(l.book, id) && !HasReference(l.book, "")
    requires var db := Payments.Run(PaidAndRefunded(id, userId, amount, currency));
      CallsIn(arrivals) == db.postings && EventsIn(arrivals) == db.events
    ensures Balance(Receive(l, arrivals).book, "user_" + userId) == Balance(l.book, "user_" + userId) + 2 * amount
  {
    var user := "user_" + userId;
    var db := Payments.Run(PaidAndRefunded(id, userId, amount, currency));
    RunPaidAndRefunded(id, userId, amount, currency);
    assert Served(db);
    EndToEnd(l, db, arrivals, user);
    var posted, credits := Mapped(db.postings), Credits(db.events);
    var t := Transaction("", Legs(user, amount));
    var paid := db.events[..1];
    assert paid[..0] == [] && Credits([]) == [];
    assert Credits(paid) == [t] == credits;
    UserLegs(userId);
    var legs := Legs(user, amount);
    assert legs == [legs[0], legs[1]];
    SumTwo(legs[0], legs[1], user);
    assert Taken(l, posted, 0);
    assert MovedByFirsts(l, posted, 0, user) == 0;
    assert MovedByFirsts(l, posted, 1, user) == amount;
  }
}
