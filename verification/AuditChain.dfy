/**
 The hash-chained audit log of pkg/audit/secure.go.

 `SecureLogger.Log` signs every entry together with the signature of the entry
 before it, over all zones.  `VerifyChain` reads the newest rows of one zone and
 checks signatures and links from the oldest row of that window to the newest.
 */
module AuditChain {
  import opened Prelude

  const GENESIS := "genesis"

  /** A metadata map, or a value that the JSON encoder refuses. */
  datatype Metadata = Json(text: string) | Unencodable

  datatype Entry = Entry(
    id: string,
    zone: string,
    timestamp: int,
    actor: string,
    action: string,
    resourceType: string,
    resourceId: string,
    metadata: Metadata,
    ipAddress: string,
    userAgent: string,
    previousHash: string,
    signature: string)

  /** The fields that go into the signature. */
  datatype Canonical = Canonical(
    t: int, a: string, z: string, act: string, rt: string, rid: string, m: string, ph: string)

  /** The keyed MAC, hex encoded. */
  type Mac = Canonical -> string

  /** The cryptographic idealisation: no collisions, and neither the empty string nor the genesis marker is a MAC. */
  ghost predicate GoodMac(mac: Mac) {
    && (forall c :: mac(c) != "" && mac(c) != GENESIS)
    && (forall c, d :: mac(c) == mac(d) ==> c == d)
  }

  function Canon(e: Entry): Canonical
    requires e.metadata.Json?
  {
    Canonical(e.timestamp, e.actor, e.zone, e.action, e.resourceType, e.resourceId, e.metadata.text, e.previousHash)
  }

  function Sign(mac: Mac, e: Entry): Option<string> {
    if e.metadata.Json? then Some(mac(Canon(e))) else None
  }

  predicate Valid(mac: Mac, e: Entry) {
    Sign(mac, e) == Some(e.signature)
  }

  /** The columns that are protected: all but the id, the address, the agent and the signature itself. */
  predicate SameSigned(e: Entry, f: Entry) {
    && e.metadata.Json? && f.metadata.Json?
    && e.timestamp == f.timestamp && e.actor == f.actor && e.zone == f.zone && e.action == f.action
    && e.resourceType == f.resourceType && e.resourceId == f.resourceId
    && e.metadata == f.metadata && e.previousHash == f.previousHash
  }

  /**
   A valid row stays valid under exactly those edits that keep its signed columns; and two valid rows carry one signature
   exactly if they agree on them.
   */
  lemma {:induction false} SignatureCovers(mac: Mac, e: Entry, f: Entry)
    requires GoodMac(mac) && Valid(mac, e)
    ensures var same :=
        && e.timestamp == f.timestamp && e.actor == f.actor && e.zone == f.zone && e.action == f.action
        && e.resourceType == f.resourceType && e.resourceId == f.resourceId
        && e.metadata == f.metadata && e.previousHash == f.previousHash;
      && (f.signature == e.signature ==> (Valid(mac, f) <==> same))
      && (Valid(mac, f) ==> (f.signature == e.signature <==> same))
  {
    if f.metadata.Json? && mac(Canon(f)) == mac(Canon(e)) {
      assert Canon(f) == Canon(e);
    }
  }

  // --- What the database answers -------------------------------------------------

  function ZoneRows(table: seq<Entry>, zone: string): seq<Entry> {
    if table == [] then []
    else
      var before := ZoneRows(table[..|table| - 1], zone);
      if table[|table| - 1].zone == zone then before + [table[|table| - 1]] else before
  }

  function InsertDescending(e: Entry, rows: seq<Entry>): seq<Entry> {
    if rows == [] || rows[0].timestamp <= e.timestamp then [e] + rows
    else [rows[0]] + InsertDescending(e, rows[1..])
  }

  /** ORDER BY timestamp DESC. */
  function NewestFirst(rows: seq<Entry>): seq<Entry> {
    if rows == [] then []
    else InsertDescending(rows[|rows| - 1], NewestFirst(rows[..|rows| - 1]))
  }

  function Limit<T>(rows: seq<T>, limit: nat): seq<T> {
    if |rows| <= limit then rows else rows[..limit]
  }

  function RecentLogs(table: seq<Entry>, zone: string, limit: nat): seq<Entry> {
    Limit(NewestFirst(ZoneRows(table, zone)), limit)
  }

  predicate Descending(rows: seq<Entry>) {
    forall i, j | 0 <= i < j < |rows| :: rows[j].timestamp <= rows[i].timestamp
  }

  lemma {:induction false} InsertKeepsRows(e: Entry, rows: seq<Entry>)
    ensures multiset(InsertDescending(e, rows)) == multiset(rows) + multiset{e}
    ensures InsertDescending(e, rows)[0] == e || (rows != [] && InsertDescending(e, rows)[0] == rows[0])
  {
    if rows != [] && rows[0].timestamp > e.timestamp {
      InsertKeepsRows(e, rows[1..]);
      assert rows == [rows[0]] + rows[1..];
    }
  }

  lemma {:induction false} InsertKeepsOrder(e: Entry, rows: seq<Entry>)
    requires Descending(rows)
    ensures Descending(InsertDescending(e, rows))
  {
    if rows != [] && rows[0].timestamp > e.timestamp {
      var rest := rows[1..];
      InsertKeepsOrder(e, rest);
      InsertKeepsRows(e, rest);
      var s := InsertDescending(e, rest);
      assert s[0].timestamp <= rows[0].timestamp;
    }
  }

  /** The query answers exactly the rows of the table, newest first. */
  lemma {:induction false} NewestFirstSorts(rows: seq<Entry>)
    ensures multiset(NewestFirst(rows)) == multiset(rows)
    ensures Descending(NewestFirst(rows))
  {
    if rows != [] {
      var init := rows[..|rows| - 1];
      NewestFirstSorts(init);
      InsertKeepsRows(rows[|rows| - 1], NewestFirst(init));
      InsertKeepsOrder(rows[|rows| - 1], NewestFirst(init));
      assert rows == init + [rows[|rows| - 1]];
    }
  }

  /** The query reads as many rows as the limit allows; those it leaves out are no newer than any it reads. */
  lemma {:induction false} QueryReadsNewest(table: seq<Entry>, zone: string, limit: nat) returns (rest: seq<Entry>)
    ensures var logs := RecentLogs(table, zone, limit);
      && multiset(logs) + multiset(rest) == multiset(ZoneRows(table, zone))
      && |logs| <= limit && (rest != [] ==> |logs| == limit)
      && Descending(logs)
      && forall i, j | 0 <= i < |logs| && 0 <= j < |rest| :: rest[j].timestamp <= logs[i].timestamp
  {
    var q := NewestFirst(ZoneRows(table, zone));
    NewestFirstSorts(ZoneRows(table, zone));
    rest := if |q| <= limit then [] else q[limit..];
    assert q == RecentLogs(table, zone, limit) + rest;
    assert forall j | 0 <= j < |rest| :: rest[j] == q[limit + j];
  }

  // --- The scan of VerifyChain ----------------------------------------------------

  datatype Finding = VerificationError(id: string) | InvalidSignature(id: string) | ChainBroken(id: string)

  datatype Scan = Scan(findings: seq<Finding>, previousHash: string)

  function Inspect(mac: Mac, before: Scan, e: Entry): Scan {
    if Sign(mac, e).None? then
      before.(findings := before.findings + [VerificationError(e.id)])
    else
      var f1 := if Valid(mac, e) then [] else [InvalidSignature(e.id)];
      var f2 := if before.previousHash != "" && e.previousHash != before.previousHash then [ChainBroken(e.id)] else [];
      Scan(before.findings + f1 + f2, e.signature)
  }

  /** The scan of rows given newest first: the tail of the sequence is inspected first. */
  function ScanChain(mac: Mac, logs: seq<Entry>): Scan {
    if logs == [] then Scan([], "")
    else Inspect(mac, ScanChain(mac, logs[1..]), logs[0])
  }

  /** The scan of the rows from position i on. */
  function ScanFrom(mac: Mac, logs: seq<Entry>, i: nat): Scan
    requires i <= |logs|
    decreases |logs| - i
  {
    if i == |logs| then Scan([], "") else Inspect(mac, ScanFrom(mac, logs, i + 1), logs[i])
  }

  lemma {:induction false} ScanFromIsScan(mac: Mac, logs: seq<Entry>, i: nat)
    requires i <= |logs|
    ensures ScanFrom(mac, logs, i) == ScanChain(mac, logs[i..])
    decreases |logs| - i
  {
    if i < |logs| {
      ScanFromIsScan(mac, logs, i + 1);
      assert logs[i..][1..] == logs[i + 1..];
    }
  }

  predicate Accepts(mac: Mac, logs: seq<Entry>) {
    ScanChain(mac, logs).findings == []
  }

  /** Every signature is valid and every row names the signature of the next older row. */
  predicate Linked(mac: Mac, logs: seq<Entry>) {
    && (forall i | 0 <= i < |logs| :: Valid(mac, logs[i]))
    && (forall i | 0 <= i < |logs| - 1 :: logs[i].previousHash == logs[i + 1].signature)
  }

  lemma {:induction false} LinkedCons(mac: Mac, e: Entry, rest: seq<Entry>)
    ensures Linked(mac, [e] + rest) <==>
            (Linked(mac, rest) && Valid(mac, e) && (rest != [] ==> e.previousHash == rest[0].signature))
  {
    var logs := [e] + rest;
    if Linked(mac, logs) {
      forall i | 0 <= i < |rest| ensures Valid(mac, rest[i]) {
        assert Valid(mac, logs[i + 1]);
      }
      forall i | 0 <= i < |rest| - 1 ensures rest[i].previousHash == rest[i + 1].signature {
        assert logs[i + 1].previousHash == logs[i + 2].signature;
      }
      assert Valid(mac, logs[0]) && (rest != [] ==> logs[0].previousHash == logs[1].signature);
    }
    if Linked(mac, rest) && Valid(mac, e) && (rest != [] ==> e.previousHash == rest[0].signature) {
      forall i | 0 <= i < |logs| ensures Valid(mac, logs[i]) {
        if i > 0 { assert Valid(mac, rest[i - 1]); }
      }
      forall i | 0 <= i < |logs| - 1 ensures logs[i].previousHash == logs[i + 1].signature {
        if i > 0 { assert rest[i - 1].previousHash == rest[i].signature; }
      }
    }
  }

  lemma {:induction false} AcceptsMeans(mac: Mac, logs: seq<Entry>)
    requires GoodMac(mac)
    ensures Accepts(mac, logs) <==> Linked(mac, logs)
    ensures Accepts(mac, logs) && logs != [] ==> ScanChain(mac, logs).previousHash == logs[0].signature
  {
    if logs != [] {
      var rest := logs[1..];
      AcceptsMeans(mac, rest);
      LinkedCons(mac, logs[0], rest);
      assert logs == [logs[0]] + rest;
      if rest != [] && Accepts(mac, rest) {
        assert Valid(mac, rest[0]) && rest[0].signature != "";
      }
    }
  }

  /** The rows can be encoded, as all that come from the JSON column can, and carry some signature. */
  predicate Readable(logs: seq<Entry>) {
    forall i | 0 <= i < |logs| :: logs[i].metadata.Json? && logs[i].signature != ""
  }

  predicate BadSignature(mac: Mac, logs: seq<Entry>, i: nat, id: string) {
    i < |logs| && logs[i].id == id && !Valid(mac, logs[i])
  }

  predicate BadLink(logs: seq<Entry>, i: nat, id: string) {
    i + 1 < |logs| && logs[i].id == id && logs[i].previousHash != logs[i + 1].signature
  }

  lemma {:induction false} ScanHead(mac: Mac, logs: seq<Entry>, id: string)
    requires Readable(logs) && logs != []
    ensures var rest := ScanChain(mac, logs[1..]); var findings := ScanChain(mac, logs).findings;
      && (InvalidSignature(id) in findings <==> InvalidSignature(id) in rest.findings || (logs[0].id == id && !Valid(mac, logs[0])))
      && (ChainBroken(id) in findings <==>
          (ChainBroken(id) in rest.findings
           || (logs[0].id == id && rest.previousHash != "" && logs[0].previousHash != rest.previousHash)))
      && (VerificationError(id) in findings <==> VerificationError(id) in rest.findings)
      && ScanChain(mac, logs).previousHash == logs[0].signature
  {
  }

  lemma {:induction false} SignatureFindings(mac: Mac, logs: seq<Entry>, id: string)
    requires Readable(logs)
    ensures InvalidSignature(id) in ScanChain(mac, logs).findings <==> exists i: nat :: BadSignature(mac, logs, i, id)
    ensures VerificationError(id) !in ScanChain(mac, logs).findings
  {
    if logs != [] {
      var rest := logs[1..];
      SignatureFindings(mac, rest, id);
      ScanHead(mac, logs, id);
      if i: nat :| BadSignature(mac, rest, i, id) { assert BadSignature(mac, logs, i + 1, id); }
      if i: nat :| BadSignature(mac, logs, i, id) && i > 0 { assert BadSignature(mac, rest, i - 1, id); }
      assert BadSignature(mac, logs, 0, id) <==> (logs[0].id == id && !Valid(mac, logs[0]));
    }
  }

  lemma {:induction false} LinkFindings(mac: Mac, logs: seq<Entry>, id: string)
    requires Readable(logs)
    ensures ChainBroken(id) in ScanChain(mac, logs).findings <==> exists i: nat :: BadLink(logs, i, id)
    ensures ScanChain(mac, logs).previousHash == if logs == [] then "" else logs[0].signature
  {
    if logs != [] {
      var rest := logs[1..];
      LinkFindings(mac, rest, id);
      ScanHead(mac, logs, id);
      if i: nat :| BadLink(rest, i, id) { assert BadLink(logs, i + 1, id); }
      if i: nat :| BadLink(logs, i, id) && i > 0 { assert BadLink(rest, i - 1, id); }
      assert BadLink(logs, 0, id) <==> (rest != [] && logs[0].id == id && logs[0].previousHash != rest[0].signature);
    }
  }

  /** Each finding names a row: its signature is wrong, or it does not name the next older row; and every such row is found. */
  lemma {:induction false} FindingsExact(mac: Mac, logs: seq<Entry>, id: string)
    requires Readable(logs)
    ensures var findings := ScanChain(mac, logs).findings;
      && (InvalidSignature(id) in findings <==> exists i: nat :: BadSignature(mac, logs, i, id))
      && (ChainBroken(id) in findings <==> exists i: nat :: BadLink(logs, i, id))
      && VerificationError(id) !in findings
  {
    SignatureFindings(mac, logs, id);
    LinkFindings(mac, logs, id);
  }

  /** In rows that were accepted, a changed row that keeps its signature is reported exactly if a signed column differs. */
  lemma {:induction false} EditIsReported(mac: Mac, logs: seq<Entry>, k: nat, row: Entry)
    requires GoodMac(mac) && Readable(logs) && Accepts(mac, logs)
    requires k < |logs| && row.metadata.Json? && row.signature == logs[k].signature
    ensures InvalidSignature(row.id) in ScanChain(mac, logs[k := row]).findings <==>
      !(&& row.timestamp == logs[k].timestamp && row.actor == logs[k].actor && row.zone == logs[k].zone
        && row.action == logs[k].action && row.resourceType == logs[k].resourceType && row.resourceId == logs[k].resourceId
        && row.metadata == logs[k].metadata && row.previousHash == logs[k].previousHash)
  {
    var edited := logs[k := row];
    AcceptsMeans(mac, logs);
    assert Valid(mac, logs[k]);
    SignatureCovers(mac, logs[k], row);
    assert Readable(edited);
    FindingsExact(mac, edited, row.id);
    assert BadSignature(mac, edited, k, row.id) <==> !Valid(mac, row);
    assert forall i: nat :: BadSignature(mac, edited, i, row.id) && i != k ==> BadSignature(mac, logs, i, row.id);
  }

  // --- The logger -------------------------------------------------------------------

  /** `issued` is what Log signed; `table` is what the database gives back for it. */
  datatype State = State(issued: seq<Entry>, table: seq<Entry>, lastHash: string)

  function Signed(mac: Mac, entry: Entry, now: int, lastHash: string): Entry
    requires entry.metadata.Json?
  {
    var e := entry.(timestamp := now, previousHash := lastHash);
    e.(signature := mac(Canon(e)))
  }

  function LogStep(mac: Mac, persist: Entry -> Entry, s: State, entry: Entry, now: int, stored: bool): State {
    if entry.metadata.Unencodable? || !stored then s
    else
      var e := Signed(mac, entry, now, s.lastHash);
      State(s.issued + [e], s.table + [persist(e)], e.signature)
  }

  /** The hash a new process starts from; a failed read counts as an empty table. */
  function LoadLastHash(table: seq<Entry>, readable: bool): string {
    var rows := NewestFirst(table);
    if readable && rows != [] then rows[0].signature else GENESIS
  }

  class SecureLogger {
    const mac: Mac
    const persist: Entry -> Entry
    var table: seq<Entry>
    var lastHash: string
    ghost var issued: seq<Entry>

    ghost function View(): State reads this { State(issued, table, lastHash) }

    constructor (mac: Mac, persist: Entry -> Entry, table: seq<Entry>, ghost issued: seq<Entry>, readable: bool)
      ensures this.mac == mac && this.persist == persist
      ensures View() == State(issued, table, LoadLastHash(table, readable))
    {
      this.mac := mac;
      this.persist := persist;
      this.table := table;
      this.issued := issued;
      var rows := NewestFirst(table);
      if readable && |rows| > 0 {
        this.lastHash := rows[0].signature;
      } else {
        this.lastHash := GENESIS;
      }
    }

    method Log(entry: Entry, now: int, stored: bool) returns (ok: bool)
      modifies this
      ensures View() == LogStep(mac, persist, old(View()), entry, now, stored)
      ensures ok <==> |issued| == |old(issued)| + 1
    {
      var e := entry.(timestamp := now, previousHash := lastHash);
      var sig := Sign(mac, e);
      if sig.None? {
        return false;
      }
      e := e.(signature := sig.value);
      if !stored {
        return false;
      }
      table := table + [persist(e)];
      issued := issued + [e];
      lastHash := sig.value;
      return true;
    }

    method VerifyChain(zone: string, limit: int) returns (r: Result<(bool, seq<Finding>), string>)
      ensures r.Failure? <==> limit < 0
      ensures r.Success? ==>
        && r.value.1 == ScanChain(mac, RecentLogs(table, zone, limit)).findings
        && (r.value.0 <==> Accepts(mac, RecentLogs(table, zone, limit)))
    {
      if limit < 0 {
        return Failure("query failed");
      }
      var logs := RecentLogs(table, zone, limit);
      var errors: seq<Finding> := [];
      var previousHash := "";
      var i := |logs| - 1;
      while i >= 0
        invariant -1 <= i < |logs|
        invariant Scan(errors, previousHash) == ScanFrom(mac, logs, i + 1)
      {
        var log := logs[i];
        var sig := Sign(mac, log);
        if sig.None? {
          errors := errors + [VerificationError(log.id)];
        } else {
          if sig.value != log.signature {
            errors := errors + [InvalidSignature(log.id)];
          }
          if previousHash != "" && log.previousHash != previousHash {
            errors := errors + [ChainBroken(log.id)];
          }
          previousHash := log.signature;
        }
        i := i - 1;
      }
      ScanFromIsScan(mac, logs, 0);
      assert logs[0..] == logs;
      return Success((|errors| == 0, errors));
    }
  }

  // --- Runs -------------------------------------------------------------------------

  datatype Event = Append(entry: Entry, now: int, stored: bool) | Restart(readable: bool)

  function Run(mac: Mac, persist: Entry -> Entry, es: seq<Event>): State {
    if es == [] then State([], [], GENESIS)
    else
      var s := Run(mac, persist, es[..|es| - 1]);
      match es[|es| - 1]
      case Append(entry, now, stored) => LogStep(mac, persist, s, entry, now, stored)
      case Restart(readable) => s.(lastHash := LoadLastHash(s.table, readable))
  }

  predicate Increasing(rows: seq<Entry>) {
    forall i, j | 0 <= i < j < |rows| :: rows[i].timestamp < rows[j].timestamp
  }

  /** The text columns survive storage; numbers and JSON may not. */
  ghost predicate KeepsText(persist: Entry -> Entry) {
    forall e :: persist(e).zone == e.zone && persist(e).previousHash == e.previousHash && persist(e).signature == e.signature
  }

  /** The entry is signed and names its predecessor, unless its process could not read the table when it started. */
  predicate Link(mac: Mac, issued: seq<Entry>, i: nat)
    requires i < |issued|
  {
    && Valid(mac, issued[i])
    && (issued[i].previousHash == GENESIS || (i > 0 && issued[i].previousHash == issued[i - 1].signature))
  }

  predicate Chained(mac: Mac, issued: seq<Entry>) {
    forall i | 0 <= i < |issued| :: Link(mac, issued, i)
  }

  /** Storage that gives back what it was given. */
  function Keep(e: Entry): Entry { e }

  lemma {:induction false} IncreasingNewestFirst(rows: seq<Entry>)
    requires Increasing(rows) && rows != []
    ensures NewestFirst(rows) == [rows[|rows| - 1]] + NewestFirst(rows[..|rows| - 1])
  {
    var init := rows[..|rows| - 1];
    NewestFirstSorts(init);
    if init != [] {
      assert NewestFirst(init)[0] in multiset(NewestFirst(init));
      assert NewestFirst(init)[0] in init;
    }
  }

  /** What holds of the log in every state of a run. */
  ghost predicate LogInv(mac: Mac, persist: Entry -> Entry, s: State) {
    && Chained(mac, s.issued)
    && |s.table| == |s.issued|
    && (forall i | 0 <= i < |s.table| :: s.table[i] == persist(s.issued[i]))
    && (s.lastHash == GENESIS || (s.issued != [] && s.lastHash == s.issued[|s.issued| - 1].signature))
  }

  lemma {:induction false} LogStepChains(mac: Mac, persist: Entry -> Entry, s: State, entry: Entry, now: int, stored: bool)
    requires LogInv(mac, persist, s)
    ensures LogInv(mac, persist, LogStep(mac, persist, s, entry, now, stored))
  {
    var r := LogStep(mac, persist, s, entry, now, stored);
    if r != s {
      var n := |s.issued|;
      assert Canon(r.issued[n]) == Canon(entry.(timestamp := now, previousHash := s.lastHash));
      forall i | 0 <= i < |r.issued| ensures Link(mac, r.issued, i) {
        if i < n {
          assert Link(mac, s.issued, i);
        }
      }
    }
  }

  lemma {:induction false} RunChains(mac: Mac, persist: Entry -> Entry, es: seq<Event>)
    requires KeepsText(persist)
    requires Increasing(Run(mac, persist, es).table)
    ensures LogInv(mac, persist, Run(mac, persist, es))
  {
    if es != [] {
      var p := Run(mac, persist, es[..|es| - 1]);
      TableGrows(mac, persist, es);
      RunChains(mac, persist, es[..|es| - 1]);
      match es[|es| - 1]
      case Append(entry, now, stored) => LogStepChains(mac, persist, p, entry, now, stored);
      case Restart(_) => if p.table != [] { IncreasingNewestFirst(p.table); }
    }
  }

  lemma {:induction false} TableGrows(mac: Mac, persist: Entry -> Entry, es: seq<Event>)
    requires es != []
    ensures var p := Run(mac, persist, es[..|es| - 1]); var s := Run(mac, persist, es);
      && (Increasing(s.table) ==> Increasing(p.table))
      && (Increasing(s.issued) ==> Increasing(p.issued))
  {
    var p, s := Run(mac, persist, es[..|es| - 1]), Run(mac, persist, es);
    match es[|es| - 1]
    case Append(entry, now, stored) =>
      if s != p {
        PrefixIncreasing(p.table, s.table[|p.table|]);
        PrefixIncreasing(p.issued, s.issued[|p.issued|]);
      }
    case Restart(_) =>
  }

  lemma {:induction false} PrefixIncreasing(rows: seq<Entry>, e: Entry)
    ensures Increasing(rows + [e]) ==> Increasing(rows)
  {
    if Increasing(rows + [e]) {
      forall i, j | 0 <= i < j < |rows| ensures rows[i].timestamp < rows[j].timestamp {
        assert (rows + [e])[i] == rows[i] && (rows + [e])[j] == rows[j];
      }
    }
  }

  /** Positions of a zone's rows, newest first. */
  function Positions(table: seq<Entry>, zone: string): (r: seq<nat>)
    ensures forall k | 0 <= k < |r| :: r[k] < |table|
    ensures forall k, l | 0 <= k < l < |r| :: r[l] < r[k]
  {
    if table == [] then []
    else
      var before := Positions(table[..|table| - 1], zone);
      if table[|table| - 1].zone == zone then [|table| - 1] + before else before
  }

  lemma {:induction false} PositionsExact(table: seq<Entry>, zone: string, i: nat)
    ensures i in Positions(table, zone) <==> i < |table| && table[i].zone == zone
  {
    if table != [] {
      var init := table[..|table| - 1];
      PositionsExact(init, zone, i);
      assert i < |init| ==> init[i] == table[i];
    }
  }

  function Window(table: seq<Entry>, zone: string, limit: nat): seq<nat> {
    Limit(Positions(table, zone), limit)
  }

  lemma {:induction false} ZoneRowsIncreasing(table: seq<Entry>, zone: string)
    requires Increasing(table)
    ensures Increasing(ZoneRows(table, zone))
  {
    if table != [] {
      var init := table[..|table| - 1];
      ZoneRowsIncreasing(init, zone);
      RowsComeFromTable(init, zone);
      var before, rows := ZoneRows(init, zone), ZoneRows(table, zone);
      forall i, j | 0 <= i < j < |rows| ensures rows[i].timestamp < rows[j].timestamp {
        assert rows[i] == before[i] && before[i] in init;
      }
    }
  }

  lemma {:induction false} RowsComeFromTable(table: seq<Entry>, zone: string)
    ensures forall e | e in ZoneRows(table, zone) :: e in table && e.zone == zone
  {
    if table != [] {
      RowsComeFromTable(table[..|table| - 1], zone);
    }
  }

  lemma {:induction false} NewestRowFirst(table: seq<Entry>, zone: string)
    requires Increasing(table) && table != [] && table[|table| - 1].zone == zone
    ensures var init := table[..|table| - 1];
      NewestFirst(ZoneRows(table, zone)) == [table[|table| - 1]] + NewestFirst(ZoneRows(init, zone))
  {
    ZoneRowsIncreasing(table, zone);
    var rows := ZoneRows(table, zone);
    IncreasingNewestFirst(rows);
    assert rows[..|rows| - 1] == ZoneRows(table[..|table| - 1], zone);
  }

  lemma {:induction false} QueryReadsPositions(table: seq<Entry>, zone: string)
    requires Increasing(table)
    ensures var q := NewestFirst(ZoneRows(table, zone)); var p := Positions(table, zone);
      && |q| == |p|
      && (forall k | 0 <= k < |q| :: q[k] == table[p[k]])
  {
    if table != [] {
      var init := table[..|table| - 1];
      QueryReadsPositions(init, zone);
      if table[|table| - 1].zone == zone {
        NewestRowFirst(table, zone);
      }
    }
  }

  // --- What is logged ----------------------------------------------------------------

  /** The entries that callers asked to log, with the clock of each call, as far as they could be encoded and stored. */
  function Asked(es: seq<Event>): seq<(Entry, int)> {
    if es == [] then []
    else
      var before := Asked(es[..|es| - 1]);
      match es[|es| - 1]
      case Append(entry, now, stored) => if entry.metadata.Json? && stored then before + [(entry, now)] else before
      case Restart(_) => before
  }

  /** The row is what the caller passed, stamped with the clock. */
  predicate Stamped(row: Entry, entry: Entry, now: int) {
    && row.id == entry.id && row.zone == entry.zone && row.timestamp == now && row.actor == entry.actor
    && row.action == entry.action && row.resourceType == entry.resourceType && row.resourceId == entry.resourceId
    && row.metadata == entry.metadata && row.ipAddress == entry.ipAddress && row.userAgent == entry.userAgent
  }

  /** The log holds what was asked, in order, column by column. */
  lemma {:induction false} LogIsWhatWasAsked(mac: Mac, persist: Entry -> Entry, es: seq<Event>)
    ensures var s := Run(mac, persist, es);
      && |s.issued| == |s.table| == |Asked(es)|
      && (forall i | 0 <= i < |s.issued| :: Stamped(s.issued[i], Asked(es)[i].0, Asked(es)[i].1))
      && (forall i | 0 <= i < |s.table| :: s.table[i] == persist(s.issued[i]))
  {
    if es != [] {
      LogIsWhatWasAsked(mac, persist, es[..|es| - 1]);
    }
  }

  // --- Main results -------------------------------------------------------------------

  /** Two rows of the window are linked. */
  predicate Adjacent(issued: seq<Entry>, newer: nat, older: nat)
    requires newer < |issued|
  {
    newer == older + 1 && issued[newer].previousHash != GENESIS
  }

  /** The window w, newest first, is one unbroken stretch of the log and reads back as it was signed. */
  predicate Contiguous(table: seq<Entry>, issued: seq<Entry>, w: seq<nat>)
    requires |table| == |issued| && forall k | 0 <= k < |w| :: w[k] < |issued|
  {
    && (forall k | 0 <= k < |w| :: SameSigned(table[w[k]], issued[w[k]]))
    && (forall k | 0 <= k < |w| - 1 :: Adjacent(issued, w[k], w[k + 1]))
  }

  lemma {:induction false} SignaturesDistinct(mac: Mac, issued: seq<Entry>, i: nat, j: nat)
    requires GoodMac(mac) && Chained(mac, issued) && Increasing(issued)
    requires i < |issued| && j < |issued| && issued[i].signature == issued[j].signature
    ensures i == j
  {
    assert Link(mac, issued, i) && Link(mac, issued, j);
    assert Canon(issued[i]) == Canon(issued[j]);
    assert issued[i].timestamp == issued[j].timestamp;
  }

  /**
   For every run over any mix of zones, VerifyChain accepts exactly when the window holds entries that are
   adjacent in the global log, none of them written blind after a failed start, and storage kept the signed fields.
   */
  lemma {:induction false} AcceptanceIsContiguity(
    mac: Mac, persist: Entry -> Entry, es: seq<Event>, zone: string, limit: nat)
    requires GoodMac(mac) && KeepsText(persist)
    requires Increasing(Run(mac, persist, es).issued) && Increasing(Run(mac, persist, es).table)
    ensures var s := Run(mac, persist, es); var w := Window(s.table, zone, limit);
      && |s.table| == |s.issued|
      && (Accepts(mac, RecentLogs(s.table, zone, limit)) <==> Contiguous(s.table, s.issued, w))
  {
    RunChains(mac, persist, es);
    ReadIsContiguous(mac, persist, Run(mac, persist, es), zone, limit);
  }

  lemma {:induction false} ReadIsContiguous(mac: Mac, persist: Entry -> Entry, s: State, zone: string, limit: nat)
    requires GoodMac(mac) && KeepsText(persist) && LogInv(mac, persist, s)
    requires Increasing(s.issued) && Increasing(s.table)
    ensures Accepts(mac, RecentLogs(s.table, zone, limit)) <==>
            Contiguous(s.table, s.issued, Window(s.table, zone, limit))
  {
    WindowReads(s.table, zone, limit);
    var w, logs := Window(s.table, zone, limit), RecentLogs(s.table, zone, limit);
    forall k | 0 <= k < |w|
      ensures w[k] < |s.issued|
      ensures logs[k].previousHash == s.issued[w[k]].previousHash && logs[k].signature == s.issued[w[k]].signature
    {
      assert logs[k] == persist(s.issued[w[k]]);
    }
    WindowIsContiguous(mac, s.issued, logs, w);
    assert forall k | 0 <= k < |w| :: SameSigned(s.table[w[k]], s.issued[w[k]]) <==> SameSigned(logs[k], s.issued[w[k]]);
  }

  lemma {:induction false} WindowReads(table: seq<Entry>, zone: string, limit: nat)
    requires Increasing(table)
    ensures var w, logs := Window(table, zone, limit), RecentLogs(table, zone, limit);
      && |logs| == |w|
      && (forall k | 0 <= k < |w| :: w[k] < |table| && logs[k] == table[w[k]])
      && (forall k, l | 0 <= k < l < |w| :: w[l] < w[k])
  {
    QueryReadsPositions(table, zone);
  }

  lemma {:induction false} WindowIsContiguous(mac: Mac, issued: seq<Entry>, logs: seq<Entry>, w: seq<nat>)
    requires GoodMac(mac) && Chained(mac, issued) && Increasing(issued)
    requires |logs| == |w|
    requires forall k | 0 <= k < |w| :: w[k] < |issued|
    requires forall k, l | 0 <= k < l < |w| :: w[l] < w[k]
    requires forall k | 0 <= k < |w| ::
      logs[k].previousHash == issued[w[k]].previousHash && logs[k].signature == issued[w[k]].signature
    ensures Accepts(mac, logs) <==>
      && (forall k | 0 <= k < |w| :: SameSigned(logs[k], issued[w[k]]))
      && (forall k | 0 <= k < |w| - 1 :: Adjacent(issued, w[k], w[k + 1]))
  {
    AcceptsMeans(mac, logs);
    forall k | 0 <= k < |w|
      ensures Valid(mac, logs[k]) <==> SameSigned(logs[k], issued[w[k]])
    {
      assert Link(mac, issued, w[k]);
    }
    forall k | 0 <= k < |w| - 1
      ensures logs[k].previousHash == logs[k + 1].signature <==> Adjacent(issued, w[k], w[k + 1])
    {
      LinkIsAdjacency(mac, issued, w[k], w[k + 1]);
    }
  }

  lemma {:induction false} LinkIsAdjacency(mac: Mac, issued: seq<Entry>, newer: nat, older: nat)
    requires GoodMac(mac) && Chained(mac, issued) && Increasing(issued)
    requires older < newer < |issued|
    ensures issued[newer].previousHash == issued[older].signature <==> Adjacent(issued, newer, older)
  {
    assert Link(mac, issued, older) && issued[older].signature != GENESIS;
    assert Link(mac, issued, newer);
    if issued[newer].previousHash == issued[older].signature {
      SignaturesDistinct(mac, issued, newer - 1, older);
    }
  }

  /** With one zone, readable restarts and faithful storage the log is accepted for every limit. */
  lemma {:induction false} SingleZoneAccepted(mac: Mac, es: seq<Event>, zone: string, limit: nat)
    requires GoodMac(mac)
    requires forall e | e in es :: (e.Append? ==> e.entry.zone == zone) && (e.Restart? ==> e.readable)
    requires Increasing(Run(mac, Keep, es).issued)
    ensures Accepts(mac, RecentLogs(Run(mac, Keep, es).table, zone, limit))
  {
    ReadableRunsLink(mac, es, zone);
    var s := Run(mac, Keep, es);
    RunChains(mac, Keep, es);
    ReadIsContiguous(mac, Keep, s, zone, limit);
    ConsecutiveWindow(mac, s.issued, zone, limit);
  }

  lemma {:induction false} ConsecutiveWindow(mac: Mac, issued: seq<Entry>, zone: string, limit: nat)
    requires GoodMac(mac) && Chained(mac, issued)
    requires forall i | 0 <= i < |issued| :: issued[i].zone == zone && (i > 0 ==> issued[i].previousHash != GENESIS)
    ensures Contiguous(issued, issued, Window(issued, zone, limit))
  {
    AllPositions(issued, zone);
    var w := Window(issued, zone, limit);
    forall k | 0 <= k < |w| ensures SameSigned(issued[w[k]], issued[w[k]]) {
      assert Link(mac, issued, w[k]);
    }
    forall k | 0 <= k < |w| - 1 ensures Adjacent(issued, w[k], w[k + 1]) {
      assert w[k] == |issued| - 1 - k && w[k + 1] == |issued| - 1 - (k + 1);
    }
  }

  lemma {:induction false} ReadableRunsLink(mac: Mac, es: seq<Event>, zone: string)
    requires GoodMac(mac)
    requires forall e | e in es :: (e.Append? ==> e.entry.zone == zone) && (e.Restart? ==> e.readable)
    requires Increasing(Run(mac, Keep, es).issued)
    ensures var s := Run(mac, Keep, es);
      && s.table == s.issued
      && (forall i | 0 <= i < |s.issued| :: s.issued[i].zone == zone && (i > 0 ==> s.issued[i].previousHash != GENESIS))
      && (s.issued != [] ==> s.lastHash == s.issued[|s.issued| - 1].signature && s.lastHash != GENESIS)
  {
    if es != [] {
      var p := Run(mac, Keep, es[..|es| - 1]);
      TableGrows(mac, Keep, es);
      ReadableRunsLink(mac, es[..|es| - 1], zone);
      assert es[|es| - 1] in es;
      if es[|es| - 1].Restart? && p.table != [] {
        IncreasingNewestFirst(p.table);
      }
    }
  }

  lemma {:induction false} AllPositions(table: seq<Entry>, zone: string)
    requires forall i | 0 <= i < |table| :: table[i].zone == zone
    ensures |Positions(table, zone)| == |table|
    ensures forall k | 0 <= k < |table| :: Positions(table, zone)[k] == |table| - 1 - k
  {
    if table != [] {
      AllPositions(table[..|table| - 1], zone);
    }
  }

  /** An honest log of two zones is rejected: the entry between belongs to the other zone. */
  lemma {:induction false} HonestTwoZoneLogRejected(mac: Mac, a: Entry, b: Entry, c: Entry)
    requires GoodMac(mac)
    requires a.metadata.Json? && b.metadata.Json? && c.metadata.Json?
    requires a.zone == c.zone != b.zone
    ensures var s := Run(mac, Keep, [Append(a, 1, true), Append(b, 2, true), Append(c, 3, true)]);
      !Accepts(mac, RecentLogs(s.table, a.zone, 2))
  {
    var s := Run(mac, Keep, [Append(a, 1, true), Append(b, 2, true), Append(c, 3, true)]);
    RunOfThree(mac, a, b, c);
    SplitWindow(s.table, a.zone);
    RunChains(mac, Keep, [Append(a, 1, true), Append(b, 2, true), Append(c, 3, true)]);
    ReadIsContiguous(mac, Keep, s, a.zone, 2);
    var w := Window(s.table, a.zone, 2);
    assert !Adjacent(s.issued, w[0], w[1]);
  }

  lemma {:induction false} RunOfThree(mac: Mac, a: Entry, b: Entry, c: Entry)
    requires a.metadata.Json? && b.metadata.Json? && c.metadata.Json?
    ensures var s := Run(mac, Keep, [Append(a, 1, true), Append(b, 2, true), Append(c, 3, true)]);
      && s.table == s.issued && |s.table| == 3 && Increasing(s.table)
      && s.table[0].zone == a.zone && s.table[1].zone == b.zone && s.table[2].zone == c.zone
  {
    var e1, e2, e3 := Append(a, 1, true), Append(b, 2, true), Append(c, 3, true);
    assert [e1][..0] == [] && [e1, e2][..1] == [e1] && [e1, e2, e3][..2] == [e1, e2];
    assert Run(mac, Keep, []) == State([], [], GENESIS);
    var s1 := Run(mac, Keep, [e1]);
    var s2 := Run(mac, Keep, [e1, e2]);
    assert s1 == LogStep(mac, Keep, State([], [], GENESIS), a, 1, true);
    assert s2 == LogStep(mac, Keep, s1, b, 2, true);
    assert Run(mac, Keep, [e1, e2, e3]) == LogStep(mac, Keep, s2, c, 3, true);
  }

  lemma {:induction false} SplitWindow(table: seq<Entry>, zone: string)
    requires |table| == 3 && table[0].zone == table[2].zone == zone != table[1].zone
    ensures Window(table, zone, 2) == [2, 0]
  {
    assert table[..2][..1][..0] == [];
    assert Positions(table[..2][..1], zone) == [0];
    assert Positions(table[..2], zone) == [0];
  }

  /** Rows, newest first, that repeat the signed content of the issued entries p, p - 1, ... */
  predicate InfixEndingAt(issued: seq<Entry>, logs: seq<Entry>, p: nat) {
    && |logs| <= p + 1 <= |issued|
    && (forall k | 0 <= k < |logs| :: SameSigned(logs[k], issued[p - k]) && logs[k].signature == issued[p - k].signature)
    && (forall k | 0 <= k < |logs| - 1 :: logs[k].previousHash != GENESIS)
  }

  ghost predicate IsInfix(issued: seq<Entry>, logs: seq<Entry>) {
    exists p: nat :: InfixEndingAt(issued, logs, p)
  }

  /**
   Tamper evidence.  The rows may come from an arbitrarily altered table; only the newest of them must carry a
   signature that Log issued.  They are accepted exactly when they repeat, in order and without a gap, the signed
   content of a stretch of the log that ends at that entry.
   */
  lemma {:induction false} AcceptedRowsAreAnInfix(mac: Mac, issued: seq<Entry>, logs: seq<Entry>)
    requires GoodMac(mac) && Chained(mac, issued)
    requires logs != []
    requires Valid(mac, logs[0]) ==> exists i | 0 <= i < |issued| :: issued[i].signature == logs[0].signature
    ensures Accepts(mac, logs) <==> IsInfix(issued, logs)
  {
    AcceptsMeans(mac, logs);
    if Accepts(mac, logs) {
      var p: nat :| p < |issued| && issued[p].signature == logs[0].signature;
      assert Link(mac, issued, p);
      FollowLinks(mac, issued, logs, p, |logs| - 1);
      assert InfixEndingAt(issued, logs, p);
    }
    if p: nat :| InfixEndingAt(issued, logs, p) {
      forall k | 0 <= k < |logs| ensures Valid(mac, logs[k]) {
        assert Link(mac, issued, p - k);
        assert SameSigned(logs[k], issued[p - k]);
      }
      forall k | 0 <= k < |logs| - 1 ensures logs[k].previousHash == logs[k + 1].signature {
        assert SameSigned(logs[k], issued[p - k]);
        assert Link(mac, issued, p - k);
        assert issued[p - k].previousHash == issued[p - k - 1].signature;
      }
    }
  }

  lemma {:induction false} FollowLinks(mac: Mac, issued: seq<Entry>, logs: seq<Entry>, p: nat, n: nat)
    requires GoodMac(mac) && Chained(mac, issued)
    requires n < |logs| && p < |issued|
    requires forall i | 0 <= i < |logs| :: Valid(mac, logs[i])
    requires forall i | 0 <= i < |logs| - 1 :: logs[i].previousHash == logs[i + 1].signature
    requires issued[p].signature == logs[0].signature
    ensures n <= p
    ensures forall k | 0 <= k <= n :: SameSigned(logs[k], issued[p - k]) && logs[k].signature == issued[p - k].signature
    ensures forall k | 0 <= k < n :: logs[k].previousHash != GENESIS
  {
    if n == 0 {
      assert Link(mac, issued, p) && Valid(mac, logs[0]);
    } else {
      FollowLinks(mac, issued, logs, p, n - 1);
      var q := p - (n - 1);
      assert SameSigned(logs[n - 1], issued[q]);
      assert Valid(mac, logs[n]);
      assert issued[q].previousHash == logs[n - 1].previousHash == logs[n].signature != GENESIS;
      assert Link(mac, issued, q);
      assert q > 0 && issued[q - 1].signature == logs[n].signature;
      assert Link(mac, issued, q - 1);
    }
  }

  /** Whoever altered the table cannot sign: the rows that are valid carry signatures that were issued. */
  ghost predicate OnlyIssued(mac: Mac, issued: seq<Entry>, altered: seq<Entry>) {
    forall e | e in altered && Valid(mac, e) :: exists i | 0 <= i < |issued| :: issued[i].signature == e.signature
  }

  lemma {:induction false} NewestIsAltered(altered: seq<Entry>, zone: string, limit: nat)
    requires RecentLogs(altered, zone, limit) != []
    ensures RecentLogs(altered, zone, limit)[0] in altered
  {
    var rows := ZoneRows(altered, zone);
    NewestFirstSorts(rows);
    assert RecentLogs(altered, zone, limit)[0] in multiset(NewestFirst(rows));
    assert RecentLogs(altered, zone, limit)[0] in rows;
    RowsComeFromTable(altered, zone);
  }

  /** The same for the table as a whole: what an accepted window of any altered table can hold. */
  lemma {:induction false} TamperEvidence(
    mac: Mac, persist: Entry -> Entry, es: seq<Event>, altered: seq<Entry>, zone: string, limit: nat)
    requires GoodMac(mac) && KeepsText(persist) && Increasing(Run(mac, persist, es).table)
    requires OnlyIssued(mac, Run(mac, persist, es).issued, altered)
    ensures var logs := RecentLogs(altered, zone, limit);
      Accepts(mac, logs) <==> logs == [] || IsInfix(Run(mac, persist, es).issued, logs)
  {
    RunChains(mac, persist, es);
    var issued := Run(mac, persist, es).issued;
    AlteredRows(mac, issued, altered, zone, limit);
  }

  /** Row k, newest first, is what was asked at position p - k, column by column. */
  predicate RowAsked(row: Entry, asked: (Entry, int)) {
    var (entry, now) := asked;
    && row.timestamp == now && row.actor == entry.actor && row.zone == entry.zone && row.action == entry.action
    && row.resourceType == entry.resourceType && row.resourceId == entry.resourceId && row.metadata == entry.metadata
  }

  predicate RowsAsked(logs: seq<Entry>, asked: seq<(Entry, int)>, p: nat) {
    && |logs| <= p + 1 <= |asked|
    && forall k | 0 <= k < |logs| :: RowAsked(logs[k], asked[p - k])
  }

  /**
   Column by column: the rows that an accepted window of an altered table holds are a stretch of what the callers asked
   to log, one after the other without a gap.
   */
  lemma {:induction false} AcceptedColumns(
    mac: Mac, persist: Entry -> Entry, es: seq<Event>, altered: seq<Entry>, zone: string, limit: nat)
    requires GoodMac(mac) && KeepsText(persist) && Increasing(Run(mac, persist, es).table)
    requires OnlyIssued(mac, Run(mac, persist, es).issued, altered)
    requires Accepts(mac, RecentLogs(altered, zone, limit)) && RecentLogs(altered, zone, limit) != []
    ensures exists p: nat :: RowsAsked(RecentLogs(altered, zone, limit), Asked(es), p)
  {
    var logs, issued := RecentLogs(altered, zone, limit), Run(mac, persist, es).issued;
    RunChains(mac, persist, es);
    AlteredRows(mac, issued, altered, zone, limit);
    LogIsWhatWasAsked(mac, persist, es);
    var p: nat :| InfixEndingAt(issued, logs, p);
    StretchColumns(issued, logs, p, Asked(es));
  }

  lemma {:induction false} StretchColumns(issued: seq<Entry>, logs: seq<Entry>, p: nat, asked: seq<(Entry, int)>)
    requires InfixEndingAt(issued, logs, p) && |asked| == |issued|
    requires forall i | 0 <= i < |issued| :: Stamped(issued[i], asked[i].0, asked[i].1)
    ensures RowsAsked(logs, asked, p)
  {
    forall k | 0 <= k < |logs| ensures RowAsked(logs[k], asked[p - k]) {
      assert SameSigned(logs[k], issued[p - k]) && Stamped(issued[p - k], asked[p - k].0, asked[p - k].1);
    }
  }

  lemma {:induction false} AlteredRows(mac: Mac, issued: seq<Entry>, altered: seq<Entry>, zone: string, limit: nat)
    requires GoodMac(mac) && Chained(mac, issued)
    requires OnlyIssued(mac, issued, altered)
    ensures var logs := RecentLogs(altered, zone, limit);
      Accepts(mac, logs) <==> logs == [] || IsInfix(issued, logs)
  {
    var logs := RecentLogs(altered, zone, limit);
    if logs != [] {
      NewestIsAltered(altered, zone, limit);
      AcceptedRowsAreAnInfix(mac, issued, logs);
    }
  }

  /** Of accepted rows, the newest can be left out and the unsigned columns edited: the others are still accepted. */
  lemma {:induction false} LostSuffixUnnoticed(mac: Mac, logs: seq<Entry>, altered: seq<Entry>, m: nat)
    requires GoodMac(mac) && Accepts(mac, logs) && m <= |logs|
    requires |altered| == |logs| - m
    requires forall k | 0 <= k < |altered| ::
      altered[k] == logs[m + k].(id := altered[k].id, ipAddress := altered[k].ipAddress, userAgent := altered[k].userAgent)
    ensures Accepts(mac, altered)
  {
    AcceptsMeans(mac, logs);
    AcceptsMeans(mac, altered);
    forall k | 0 <= k < |altered| ensures Valid(mac, altered[k]) {
      assert Valid(mac, logs[m + k]);
    }
    forall k | 0 <= k < |altered| - 1 ensures altered[k].previousHash == altered[k + 1].signature {
      assert logs[m + k].previousHash == logs[m + k + 1].signature;
    }
  }

  /** How many rows of the zone are among those after the first m. */
  function Dropped(table: seq<Entry>, m: nat, zone: string): nat
    requires m <= |table|
  {
    if m == |table| then 0
    else
      var n := |table| - 1;
      Dropped(table[..n], m, zone) + if table[n].zone == zone then 1 else 0
  }

  lemma {:induction false} TruncatedPositions(table: seq<Entry>, m: nat, zone: string) returns (newer: seq<nat>)
    requires m <= |table|
    ensures |newer| == Dropped(table, m, zone)
    ensures Positions(table, zone) == newer + Positions(table[..m], zone)
  {
    newer := [];
    if m == |table| {
      assert table[..m] == table;
    } else {
      var n := |table| - 1;
      newer := TruncatedPositions(table[..n], m, zone);
      assert table[..n][..m] == table[..m];
      if table[n].zone == zone { newer := [n as nat] + newer; }
    }
  }

  lemma {:induction false} TruncatedWindow(table: seq<Entry>, m: nat, zone: string, limit: nat)
    requires m <= |table|
    ensures var d := Dropped(table, m, zone); var w, v := Window(table, zone, limit + d), Window(table[..m], zone, limit);
      |w| == |v| + d && forall k | 0 <= k < |v| :: v[k] == w[d + k]
  {
    var newer := TruncatedPositions(table, m, zone);
  }

  /** After the newest rows are deleted, the query refills the window with older ones. */
  lemma {:induction false} TruncatedReads(table: seq<Entry>, m: nat, zone: string, limit: nat)
    requires Increasing(table) && m <= |table|
    ensures var d := Dropped(table, m, zone);
      var logs, left := RecentLogs(table, zone, limit + d), RecentLogs(table[..m], zone, limit);
      |logs| == |left| + d && forall k | 0 <= k < |left| :: left[k] == logs[d + k]
  {
    var d := Dropped(table, m, zone);
    TruncatedWindow(table, m, zone, limit);
    WindowReads(table, zone, limit + d);
    WindowReads(table[..m], zone, limit);
  }

  lemma {:induction false} TruncatedInv(mac: Mac, persist: Entry -> Entry, s: State, m: nat)
    requires LogInv(mac, persist, s) && m <= |s.table|
    ensures LogInv(mac, persist, State(s.issued[..m], s.table[..m], GENESIS))
  {
    forall i | 0 <= i < m ensures Link(mac, s.issued[..m], i) {
      assert Link(mac, s.issued, i);
    }
  }

  lemma {:induction false} RefillIsContiguous(mac: Mac, persist: Entry -> Entry, s: State, m: nat, zone: string, limit: nat)
    requires GoodMac(mac) && KeepsText(persist) && LogInv(mac, persist, s)
    requires Increasing(s.issued) && Increasing(s.table) && m <= |s.table|
    ensures Accepts(mac, RecentLogs(s.table[..m], zone, limit)) <==>
            Contiguous(s.table[..m], s.issued[..m], Window(s.table[..m], zone, limit))
  {
    TruncatedInv(mac, persist, s, m);
    ReadIsContiguous(mac, persist, State(s.issued[..m], s.table[..m], GENESIS), zone, limit);
  }

  /**
   Deleting the newest rows of the table, for every run and any mix of zones: the check accepts what is left exactly
   when the refilled window is contiguous.
   */
  lemma {:induction false} LostTail(mac: Mac, persist: Entry -> Entry, es: seq<Event>, m: nat, zone: string, limit: nat)
    requires GoodMac(mac) && KeepsText(persist)
    requires Increasing(Run(mac, persist, es).issued) && Increasing(Run(mac, persist, es).table)
    requires m <= |Run(mac, persist, es).table|
    ensures var s := Run(mac, persist, es); var t := s.table[..m];
      && |s.issued| == |s.table|
      && (Accepts(mac, RecentLogs(t, zone, limit)) <==> Contiguous(t, s.issued[..m], Window(t, zone, limit)))
  {
    RunChains(mac, persist, es);
    RefillIsContiguous(mac, persist, Run(mac, persist, es), m, zone, limit);
  }

  /** If a window that takes in as many more rows as the zone has lost was accepted before, the loss goes unnoticed. */
  lemma {:induction false} LostTailUnnoticed(mac: Mac, table: seq<Entry>, m: nat, zone: string, limit: nat)
    requires GoodMac(mac) && Increasing(table) && m <= |table|
    requires Accepts(mac, RecentLogs(table, zone, limit + Dropped(table, m, zone)))
    ensures Accepts(mac, RecentLogs(table[..m], zone, limit))
  {
    TruncatedReads(table, m, zone, limit);
    var d := Dropped(table, m, zone);
    LostSuffixUnnoticed(mac, RecentLogs(table, zone, limit + d), RecentLogs(table[..m], zone, limit), d);
  }

  /** So in a log of one zone whose restarts could read the table, no deletion of the newest rows is ever noticed. */
  lemma {:induction false} SingleZoneLossUnnoticed(mac: Mac, es: seq<Event>, m: nat, zone: string, limit: nat)
    requires GoodMac(mac)
    requires forall e | e in es :: (e.Append? ==> e.entry.zone == zone) && (e.Restart? ==> e.readable)
    requires Increasing(Run(mac, Keep, es).issued) && m <= |Run(mac, Keep, es).table|
    ensures Accepts(mac, RecentLogs(Run(mac, Keep, es).table[..m], zone, limit))
  {
    var table := Run(mac, Keep, es).table;
    ReadableRunsLink(mac, es, zone);
    SingleZoneAccepted(mac, es, zone, limit + Dropped(table, m, zone));
    LostTailUnnoticed(mac, table, m, zone, limit);
  }

  lemma {:induction false} BlindRowInside(mac: Mac, s: State, zone: string)
    requires GoodMac(mac) && LogInv(mac, Keep, s) && |s.table| == 3 && s.table == s.issued && Increasing(s.table)
    requires s.table[0].zone == s.table[1].zone == s.table[2].zone == zone
    requires s.table[1].previousHash == GENESIS && s.table[2].previousHash != GENESIS
    ensures Accepts(mac, RecentLogs(s.table, zone, 2)) && !Accepts(mac, RecentLogs(s.table[..2], zone, 2))
  {
    var t := s.table;
    AllPositions(t, zone);
    AllPositions(t[..2], zone);
    assert Window(t, zone, 2) == [2, 1] && Window(t[..2], zone, 2) == [1, 0];
    ReadIsContiguous(mac, Keep, s, zone, 2);
    assert Link(mac, t, 1) && Link(mac, t, 2);
    assert SameSigned(t[1], t[1]) && SameSigned(t[2], t[2]);
    assert Adjacent(t, 2, 1);
    RefillIsContiguous(mac, Keep, s, 2, zone, 2);
    assert !Adjacent(s.issued[..2], [1, 0][0], [1, 0][1]);
  }

  /** A deleted row is noticed when the window reaches back, in its place, to before an entry that was written blind. */
  lemma {:induction false} LostRowNoticed(mac: Mac, a: Entry, b: Entry, c: Entry)
    requires GoodMac(mac)
    requires a.metadata.Json? && b.metadata.Json? && c.metadata.Json? && a.zone == b.zone == c.zone
    ensures var t := Run(mac, Keep, [Append(a, 1, true), Restart(false), Append(b, 2, true), Append(c, 3, true)]).table;
      |t| == 3 && Accepts(mac, RecentLogs(t, a.zone, 2)) && !Accepts(mac, RecentLogs(t[..2], a.zone, 2))
  {
    var es := [Append(a, 1, true), Restart(false), Append(b, 2, true), Append(c, 3, true)];
    RunWithBlindRow(mac, a, b, c);
    RunChains(mac, Keep, es);
    BlindRowInside(mac, Run(mac, Keep, es), a.zone);
  }

  lemma {:induction false} RunWithBlindRow(mac: Mac, a: Entry, b: Entry, c: Entry)
    requires GoodMac(mac)
    requires a.metadata.Json? && b.metadata.Json? && c.metadata.Json?
    ensures var s := Run(mac, Keep, [Append(a, 1, true), Restart(false), Append(b, 2, true), Append(c, 3, true)]);
      && s.table == s.issued && |s.table| == 3 && Increasing(s.table)
      && s.table[0].zone == a.zone && s.table[1].zone == b.zone && s.table[2].zone == c.zone
      && s.table[1].previousHash == GENESIS && s.table[2].previousHash != GENESIS
  {
    var e1, e2, e3, e4 := Append(a, 1, true), Restart(false), Append(b, 2, true), Append(c, 3, true);
    assert [e1][..0] == [] && [e1, e2][..1] == [e1] && [e1, e2, e3][..2] == [e1, e2];
    assert [e1, e2, e3, e4][..3] == [e1, e2, e3];
    assert Run(mac, Keep, []) == State([], [], GENESIS);
    var s1 := Run(mac, Keep, [e1]);
    var s2 := Run(mac, Keep, [e1, e2]);
    var s3 := Run(mac, Keep, [e1, e2, e3]);
    assert s1 == LogStep(mac, Keep, State([], [], GENESIS), a, 1, true);
    assert s2 == s1.(lastHash := GENESIS);
    assert s3 == LogStep(mac, Keep, s2, b, 2, true);
    assert Run(mac, Keep, [e1, e2, e3, e4]) == LogStep(mac, Keep, s3, c, 3, true);
  }

  // --- Several loggers ------------------------------------------------------------------------------

  /** An entry that a call of Log has signed and not stored yet; `parent` is the entry whose signature it chained to. */
  datatype Draft = Draft(process: nat, entry: Entry, parent: Option<nat>)

  /**
   Log has no lock, and several processes may write the table: each has its own chain head, and calls of one process may
   overlap between reading the head and moving it.
   */
  datatype Fork = Fork(issued: seq<Entry>, parents: seq<Option<nat>>, heads: map<nat, Option<nat>>, drafts: seq<Draft>)

  datatype ForkEvent =
    | SignEvent(process: nat, entry: Entry, now: int)
    | Store(draft: nat, stored: bool)
    | Reload(process: nat, head: Option<nat>)

  function HashOf(issued: seq<Entry>, parent: Option<nat>): string {
    match parent case None => GENESIS case Some(p) => if p < |issued| then issued[p].signature else GENESIS
  }

  function HeadOf(heads: map<nat, Option<nat>>, process: nat): Option<nat> {
    if process in heads then heads[process] else None
  }

  /** A process that starts anew takes up any stored entry, or none. */
  function ForkStep(mac: Mac, s: Fork, e: ForkEvent): Fork {
    match e
    case SignEvent(process, entry, now) =>
      if entry.metadata.Unencodable? then s
      else
        var parent := HeadOf(s.heads, process);
        s.(drafts := s.drafts + [Draft(process, Signed(mac, entry, now, HashOf(s.issued, parent)), parent)])
    case Store(i, stored) =>
      if i >= |s.drafts| then s
      else
        var d := s.drafts[i];
        var rest := s.drafts[..i] + s.drafts[i + 1..];
        if !stored then s.(drafts := rest)
        else Fork(s.issued + [d.entry], s.parents + [d.parent], s.heads[d.process := Some(|s.issued|)], rest)
    case Reload(process, head) =>
      if head.Some? && head.value >= |s.issued| then s else s.(heads := s.heads[process := head])
  }

  function ForkRun(mac: Mac, es: seq<ForkEvent>): Fork {
    if es == [] then Fork([], [], map[], []) else ForkStep(mac, ForkRun(mac, es[..|es| - 1]), es[|es| - 1])
  }

  predicate Known(issued: seq<Entry>, parent: Option<nat>) { parent.Some? ==> parent.value < |issued| }

  /** The entry is signed and names its parent. */
  predicate Chains(mac: Mac, issued: seq<Entry>, e: Entry, parent: Option<nat>) {
    Valid(mac, e) && Known(issued, parent) && e.previousHash == HashOf(issued, parent)
  }

  predicate Branched(mac: Mac, issued: seq<Entry>, parents: seq<Option<nat>>) {
    |parents| == |issued| && forall i | 0 <= i < |issued| :: Chains(mac, issued, issued[i], parents[i])
  }

  predicate ForkInv(mac: Mac, s: Fork) {
    && Branched(mac, s.issued, s.parents)
    && (forall i | 0 <= i < |s.drafts| :: Chains(mac, s.issued, s.drafts[i].entry, s.drafts[i].parent))
    && (forall process | process in s.heads :: Known(s.issued, s.heads[process]))
  }

  lemma {:induction false} ChainsStays(mac: Mac, issued: seq<Entry>, more: Entry, e: Entry, parent: Option<nat>)
    requires Chains(mac, issued, e, parent)
    ensures Chains(mac, issued + [more], e, parent)
  {
  }

  lemma {:induction false} StoreInv(mac: Mac, s: Fork, i: nat)
    requires ForkInv(mac, s) && i < |s.drafts|
    ensures ForkInv(mac, ForkStep(mac, s, Store(i, true)))
  {
    var d := s.drafts[i];
    var r := ForkStep(mac, s, Store(i, true));
    forall j | 0 <= j < |r.issued| ensures Chains(mac, r.issued, r.issued[j], r.parents[j]) {
      if j < |s.issued| { ChainsStays(mac, s.issued, d.entry, s.issued[j], s.parents[j]); }
      else { ChainsStays(mac, s.issued, d.entry, d.entry, d.parent); }
    }
    forall j | 0 <= j < |r.drafts| ensures Chains(mac, r.issued, r.drafts[j].entry, r.drafts[j].parent) {
      var k := if j < i then j else j + 1;
      assert r.drafts[j] == s.drafts[k];
      ChainsStays(mac, s.issued, d.entry, s.drafts[k].entry, s.drafts[k].parent);
    }
  }

  lemma {:induction false} SignInv(mac: Mac, s: Fork, process: nat, entry: Entry, now: int)
    requires ForkInv(mac, s)
    ensures ForkInv(mac, ForkStep(mac, s, SignEvent(process, entry, now)))
  {
    if entry.metadata.Json? {
      var hash := HashOf(s.issued, HeadOf(s.heads, process));
      assert Canon(Signed(mac, entry, now, hash)) == Canon(entry.(timestamp := now, previousHash := hash));
    }
  }

  lemma {:induction false} ForkRunInv(mac: Mac, es: seq<ForkEvent>)
    ensures ForkInv(mac, ForkRun(mac, es))
  {
    if es != [] {
      ForkRunInv(mac, es[..|es| - 1]);
      var s := ForkRun(mac, es[..|es| - 1]);
      match es[|es| - 1]
      case SignEvent(process, entry, now) => SignInv(mac, s, process, entry, now);
      case Store(i, stored) => if stored && i < |s.drafts| { StoreInv(mac, s, i); }
      case Reload(_, _) =>
    }
  }

  /** Rows, newest first, that repeat the signed content of issued entries each of which is the parent of the one before. */
  predicate Follows(issued: seq<Entry>, parents: seq<Option<nat>>, logs: seq<Entry>, path: seq<nat>) {
    && |path| == |logs| && |parents| == |issued|
    && (forall k | 0 <= k < |path| ::
          path[k] < |issued| && SameSigned(logs[k], issued[path[k]]) && logs[k].signature == issued[path[k]].signature)
    && (forall k | 0 < k < |path| :: parents[path[k - 1]] == Some(path[k]))
  }

  ghost predicate IsPath(issued: seq<Entry>, parents: seq<Option<nat>>, logs: seq<Entry>) {
    exists path: seq<nat> :: Follows(issued, parents, logs, path)
  }

  lemma {:induction false} FollowsCons(
    issued: seq<Entry>, parents: seq<Option<nat>>, e: Entry, logs: seq<Entry>, p: nat, path: seq<nat>)
    requires Follows(issued, parents, logs, path) && path != [] && p < |issued|
    requires SameSigned(e, issued[p]) && e.signature == issued[p].signature && parents[p] == Some(path[0])
    ensures Follows(issued, parents, [e] + logs, [p] + path)
  {
    forall k | 0 < k < |path| + 1 ensures parents[([p] + path)[k - 1]] == Some(([p] + path)[k]) {
      if k > 1 {
        assert parents[path[k - 1 - 1]] == Some(path[k - 1]);
      }
    }
  }

  lemma {:induction false} FollowParents(mac: Mac, issued: seq<Entry>, parents: seq<Option<nat>>, logs: seq<Entry>, p: nat)
    returns (path: seq<nat>)
    requires GoodMac(mac) && Branched(mac, issued, parents) && Linked(mac, logs)
    requires logs != [] && p < |issued| && issued[p].signature == logs[0].signature
    ensures path != [] && path[0] == p && Follows(issued, parents, logs, path)
    decreases |logs|
  {
    assert Chains(mac, issued, issued[p], parents[p]) && Valid(mac, logs[0]);
    assert SameSigned(logs[0], issued[p]);
    path := [p];
    if |logs| > 1 {
      assert Valid(mac, logs[1]) && logs[0].previousHash == logs[1].signature != GENESIS;
      var q := parents[p].value;
      LinkedCons(mac, logs[0], logs[1..]);
      assert logs == [logs[0]] + logs[1..];
      var rest := FollowParents(mac, issued, parents, logs[1..], q);
      FollowsCons(issued, parents, logs[0], logs[1..], p, rest);
      path := [p] + rest;
    }
  }

  lemma {:induction false} PathIsLinked(
    mac: Mac, issued: seq<Entry>, parents: seq<Option<nat>>, logs: seq<Entry>, path: seq<nat>)
    requires Branched(mac, issued, parents) && Follows(issued, parents, logs, path)
    ensures Linked(mac, logs)
  {
    forall k | 0 <= k < |logs| ensures Valid(mac, logs[k]) {
      assert Chains(mac, issued, issued[path[k]], parents[path[k]]);
    }
    forall k | 0 <= k < |logs| - 1 ensures logs[k].previousHash == logs[k + 1].signature {
      assert Chains(mac, issued, issued[path[k]], parents[path[k]]);
      assert parents[path[k + 1 - 1]] == Some(path[k + 1]);
    }
  }

  /**
   Tamper evidence with any number of processes and overlapping calls: what VerifyChain reads from an arbitrarily altered
   table, in which only issued signatures verify, is accepted exactly if it repeats, in order and without a gap, the
   signed content of entries each of which was chained to the next.
   */
  lemma {:induction false} ForkedTamperEvidence(mac: Mac, es: seq<ForkEvent>, altered: seq<Entry>, zone: string, limit: nat)
    requires GoodMac(mac)
    requires OnlyIssued(mac, ForkRun(mac, es).issued, altered)
    ensures var s := ForkRun(mac, es); var logs := RecentLogs(altered, zone, limit);
      Accepts(mac, logs) <==> IsPath(s.issued, s.parents, logs)
  {
    ForkRunInv(mac, es);
    ForkedRows(mac, ForkRun(mac, es).issued, ForkRun(mac, es).parents, altered, zone, limit);
  }

  lemma {:induction false} ForkedRows(
    mac: Mac, issued: seq<Entry>, parents: seq<Option<nat>>, altered: seq<Entry>, zone: string, limit: nat)
    requires GoodMac(mac) && Branched(mac, issued, parents)
    requires OnlyIssued(mac, issued, altered)
    ensures var logs := RecentLogs(altered, zone, limit); Accepts(mac, logs) <==> IsPath(issued, parents, logs)
  {
    var logs := RecentLogs(altered, zone, limit);
    AcceptsMeans(mac, logs);
    if logs == [] {
      assert Follows(issued, parents, logs, []);
    } else {
      NewestIsAltered(altered, zone, limit);
      if Linked(mac, logs) {
        assert Valid(mac, logs[0]);
        var p: nat :| p < |issued| && issued[p].signature == logs[0].signature;
        var path := FollowParents(mac, issued, parents, logs, p);
      }
      if path: seq<nat> :| Follows(issued, parents, logs, path) {
        PathIsLinked(mac, issued, parents, logs, path);
      }
    }
  }
}
