/**
 The OAuth endpoints of cmd/auth/handlers.go over the tables of internal/auth/infrastructure/sql_repository.go.

 Redeeming an authorization code takes three separate database steps: read and check the row, mark it used by a
 compare-and-set, insert the token.  Any number of requests may be between these steps at the same time.
 */
module OAuth {
  import opened Prelude

  /** SHA-256 in hexadecimal, and in unpadded base64url; both are uninterpreted. */
  datatype Crypto = Crypto(hash: string -> string, s256: string -> string)

  ghost predicate HashesNonEmpty(crypto: Crypto) {
    forall s :: crypto.hash(s) != ""
  }

  datatype Client = Client(secretHash: string, userId: string, isPublic: bool)

  datatype Code = Code(
    clientId: string, userId: string, redirectUri: string, scope: string,
    challenge: string, challengeMethod: string, expiresAt: int, used: bool)

  /** Where a token came from: kept as history, not stored by the program. */
  datatype Source =
    | FromCode(code: string, verifier: string, checkedAt: int)
    | FromSecret(secret: string)

  datatype Grant = Grant(clientId: string, userId: string, scope: string, source: Source)

  /** The tables: clients by id, redirect allowlist, authorization codes by value, tokens by access token. */
  datatype Db = Db(
    clients: map<string, Client>,
    redirects: set<(string, string)>,
    codes: map<string, Code>,
    tokens: map<string, Grant>)

  datatype OAuthError =
    | InvalidRequest | InvalidGrant | InvalidClient | UnsupportedResponseType | AccessDenied | ServerError

  /** Ten minutes, in seconds. */
  const CODE_LIFETIME := 600

  function VerifyCodeChallenge(crypto: Crypto, verifier: string, challenge: string, challengeMethod: string): bool {
    if challengeMethod == "S256" then crypto.s256(verifier) == challenge else verifier == challenge
  }

  // --- Registration and authorization --------------------------------------------------------

  datatype Registration = Registration(name: string, redirectUris: seq<string>, isPublic: bool)

  /** The redirect URIs that get stored; a failing insert is logged and ignored. */
  function Stored(clientId: string, uris: seq<string>, lost: set<nat>): set<(string, string)> {
    if uris == [] then {}
    else
      var n := |uris| - 1;
      Stored(clientId, uris[..n], lost) + if n in lost then {} else {(clientId, uris[n])}
  }

  /** The program still reports all the URIs of the request as registered, whichever are lost. */
  function Register(
    crypto: Crypto, db: Db, userId: string, req: Registration, clientId: string, secret: string, lost: set<nat>): (Db, bool)
  {
    if userId == "" || req.name == "" || req.redirectUris == [] || clientId in db.clients then (db, false)
    else
      var client := Client(if req.isPublic then "" else crypto.hash(secret), userId, req.isPublic);
      (db.(clients := db.clients[clientId := client],
           redirects := db.redirects + Stored(clientId, req.redirectUris, lost)), true)
  }

  lemma {:induction false} StoredExactly(clientId: string, uris: seq<string>, lost: set<nat>, client: string, uri: string)
    ensures (client, uri) in Stored(clientId, uris, lost) <==>
      client == clientId && exists i: nat | i < |uris| :: i !in lost && uris[i] == uri
  {
    if uris != [] {
      var n := |uris| - 1;
      StoredExactly(clientId, uris[..n], lost, client, uri);
      if i: nat :| i < n && i !in lost && uris[i] == uri { assert uris[..n][i] == uri; }
    }
  }

  datatype AuthorizeRequest = AuthorizeRequest(
    responseType: string, clientId: string, redirectUri: string, scope: string,
    challenge: string, challengeMethod: string)

  function Authorize(db: Db, req: AuthorizeRequest, userId: string, code: string, now: int): Result<Db, OAuthError> {
    if req.responseType != "code" then Failure(UnsupportedResponseType)
    else if req.clientId !in db.clients then Failure(InvalidRequest)
    else if req.redirectUri == "" then Failure(InvalidRequest)
    else if (req.clientId, req.redirectUri) !in db.redirects then Failure(InvalidRequest)
    else if db.clients[req.clientId].isPublic && req.challenge == "" then Failure(InvalidRequest)
    else if userId == "" then Failure(AccessDenied)
    else if code in db.codes then Failure(ServerError)
    else
      var challengeMethod := if req.challenge != "" && req.challengeMethod == "" then "S256" else req.challengeMethod;
      Success(db.(codes := db.codes[code := Code(req.clientId, userId, req.redirectUri, req.scope,
                                                 req.challenge, challengeMethod, now + CODE_LIFETIME, false)]))
  }

  /** A new client can be authorized with exactly those of its redirect URIs that were not lost. */
  lemma {:induction false} RegisteredUriIsAccepted(
    crypto: Crypto, db: Db, owner: string, reg: Registration, clientId: string, secret: string, lost: set<nat>,
    req: AuthorizeRequest, userId: string, code: string, now: int)
    requires forall u: string :: (clientId, u) !in db.redirects
    requires req.responseType == "code" && req.clientId == clientId && req.redirectUri != "" && req.challenge != ""
    requires userId != "" && code !in db.codes
    ensures Register(crypto, db, owner, reg, clientId, secret, lost).1 <==>
      owner != "" && reg.name != "" && reg.redirectUris != [] && clientId !in db.clients
    ensures var (db', ok) := Register(crypto, db, owner, reg, clientId, secret, lost);
      ok ==> (Authorize(db', req, userId, code, now).Success? <==>
              exists i: nat | i < |reg.redirectUris| :: i !in lost && reg.redirectUris[i] == req.redirectUri)
  {
    StoredExactly(clientId, reg.redirectUris, lost, clientId, req.redirectUri);
  }

  // --- Redeeming a code ------------------------------------------------------------------------

  datatype Exchange = Exchange(code: string, redirectUri: string, verifier: string, clientId: string)

  /** Everything handleAuthorizationCode checks on the row it has read. */
  function CheckRow(crypto: Crypto, row: Code, req: Exchange, now: int): Option<OAuthError> {
    if row.used then Some(InvalidGrant)
    else if row.expiresAt < now then Some(InvalidGrant)
    else if req.clientId != "" && req.clientId != row.clientId then Some(InvalidGrant)
    else if req.redirectUri != "" && req.redirectUri != row.redirectUri then Some(InvalidGrant)
    else if row.challenge != "" && req.verifier == "" then Some(InvalidRequest)
    else if row.challenge != "" && !VerifyCodeChallenge(crypto, req.verifier, row.challenge, row.challengeMethod) then
      Some(InvalidGrant)
    else None
  }

  function ReadAndCheck(crypto: Crypto, db: Db, req: Exchange, now: int): Result<Code, OAuthError> {
    if req.code == "" then Failure(InvalidRequest)
    else if req.code !in db.codes then Failure(InvalidGrant)
    else match CheckRow(crypto, db.codes[req.code], req, now)
      case Some(e) => Failure(e)
      case None => Success(db.codes[req.code])
  }

  /** UPDATE ... SET used = TRUE WHERE code = $1 AND used = FALSE, and whether a row was affected. */
  function MarkUsed(db: Db, code: string): (Db, bool) {
    if code in db.codes && !db.codes[code].used
    then (db.(codes := db.codes[code := db.codes[code].(used := true)]), true)
    else (db, false)
  }

  /** INSERT INTO oauth_tokens: a second row with the same access token is refused. */
  function Issue(db: Db, grant: Grant, accessToken: string): (Db, bool) {
    if accessToken in db.tokens then (db, false)
    else (db.(tokens := db.tokens[accessToken := grant]), true)
  }

  function CodeGrant(row: Code, req: Exchange, now: int): Grant {
    Grant(row.clientId, row.userId, row.scope, FromCode(req.code, req.verifier, now))
  }

  function CheckSecret(crypto: Crypto, db: Db, clientId: string, secret: string, scope: string): Result<Grant, OAuthError> {
    if clientId == "" || secret == "" then Failure(InvalidClient)
    else if clientId !in db.clients then Failure(InvalidClient)
    else if crypto.hash(secret) != db.clients[clientId].secretHash then Failure(InvalidClient)
    else Success(Grant(clientId, db.clients[clientId].userId, if scope == "" then "default" else scope, FromSecret(secret)))
  }

  class AuthHandler {
    const crypto: Crypto
    var clients: map<string, Client>
    var redirects: set<(string, string)>
    var codes: map<string, Code>
    var tokens: map<string, Grant>

    ghost function View(): Db reads this { Db(clients, redirects, codes, tokens) }

    constructor (crypto: Crypto)
      ensures this.crypto == crypto && View() == Db(map[], {}, map[], map[])
    {
      this.crypto := crypto;
      clients, redirects, codes, tokens := map[], {}, map[], map[];
    }

    method RegisterClient(userId: string, req: Registration, clientId: string, secret: string, lost: set<nat>) returns (ok: bool)
      modifies this
      ensures (View(), ok) == Register(crypto, old(View()), userId, req, clientId, secret, lost)
    {
      if userId == "" || req.name == "" || |req.redirectUris| == 0 || clientId in clients { return false; }
      var secretHash := "";
      if !req.isPublic { secretHash := crypto.hash(secret); }
      clients := clients[clientId := Client(secretHash, userId, req.isPublic)];
      var i := 0;
      while i < |req.redirectUris|
        invariant 0 <= i <= |req.redirectUris|
        invariant clients == old(clients)[clientId := Client(secretHash, userId, req.isPublic)]
        invariant codes == old(codes) && tokens == old(tokens)
        invariant redirects == old(redirects) + Stored(clientId, req.redirectUris[..i], lost)
      {
        assert req.redirectUris[..i + 1][..i] == req.redirectUris[..i];
        if i !in lost { redirects := redirects + {(clientId, req.redirectUris[i])}; }
        i := i + 1;
      }
      assert req.redirectUris[..i] == req.redirectUris;
      return true;
    }

    method HandleAuthorize(req: AuthorizeRequest, userId: string, code: string, now: int) returns (r: Result<string, OAuthError>)
      modifies this
      ensures match Authorize(old(View()), req, userId, code, now)
        case Success(db) => View() == db && r == Success(code)
        case Failure(e) => View() == old(View()) && r == Failure(e)
    {
      if req.responseType != "code" { return Failure(UnsupportedResponseType); }
      if req.clientId !in clients || req.redirectUri == "" { return Failure(InvalidRequest); }
      if (req.clientId, req.redirectUri) !in redirects { return Failure(InvalidRequest); }
      if clients[req.clientId].isPublic && req.challenge == "" { return Failure(InvalidRequest); }
      var challengeMethod := req.challengeMethod;
      if req.challenge != "" && challengeMethod == "" { challengeMethod := "S256"; }
      if userId == "" { return Failure(AccessDenied); }
      if code in codes { return Failure(ServerError); }
      codes := codes[code := Code(req.clientId, userId, req.redirectUri, req.scope,
                                  req.challenge, challengeMethod, now + CODE_LIFETIME, false)];
      return Success(code);
    }

    method MarkAuthorizationCodeUsed(code: string) returns (ok: bool)
      modifies this
      ensures (View(), ok) == MarkUsed(old(View()), code)
    {
      if code in codes && !codes[code].used {
        codes := codes[code := codes[code].(used := true)];
        return true;
      }
      return false;
    }

    method IssueTokens(grant: Grant, accessToken: string) returns (ok: bool)
      modifies this
      ensures (View(), ok) == Issue(old(View()), grant, accessToken)
    {
      if accessToken in tokens { return false; }
      tokens := tokens[accessToken := grant];
      return true;
    }

    /** handleAuthorizationCode with nobody in between: it answers with a token exactly when the checks pass. */
    method HandleAuthorizationCode(req: Exchange, accessToken: string, now: int) returns (r: Result<string, OAuthError>)
      modifies this
      ensures match ReadAndCheck(crypto, old(View()), req, now)
        case Failure(e) => View() == old(View()) && r == Failure(e)
        case Success(row) =>
          var (db, issued) := Issue(MarkUsed(old(View()), req.code).0, CodeGrant(row, req, now), accessToken);
          && View() == db && codes[req.code].used
          && r == (if issued then Success(accessToken) else Failure(ServerError))
    {
      if req.code == "" { return Failure(InvalidRequest); }
      if req.code !in codes { return Failure(InvalidGrant); }
      var row := codes[req.code];
      var problem := CheckRow(crypto, row, req, now);
      if problem.Some? { return Failure(problem.value); }
      var marked := MarkAuthorizationCodeUsed(req.code);
      if !marked { return Failure(ServerError); }
      var ok := IssueTokens(CodeGrant(row, req, now), accessToken);
      if !ok { return Failure(ServerError); }
      return Success(accessToken);
    }

    method HandleClientCredentials(clientId: string, secret: string, scope: string, accessToken: string)
      returns (r: Result<string, OAuthError>)
      modifies this
      ensures match CheckSecret(crypto, old(View()), clientId, secret, scope)
        case Failure(e) => View() == old(View()) && r == Failure(e)
        case Success(grant) =>
          && View() == Issue(old(View()), grant, accessToken).0
          && r == (if Issue(old(View()), grant, accessToken).1 then Success(accessToken) else Failure(ServerError))
    {
      if clientId == "" || secret == "" { return Failure(InvalidClient); }
      if clientId !in clients { return Failure(InvalidClient); }
      var client := clients[clientId];
      if crypto.hash(secret) != client.secretHash { return Failure(InvalidClient); }
      var granted := if scope == "" then "default" else scope;
      var ok := IssueTokens(Grant(clientId, client.userId, granted, FromSecret(secret)), accessToken);
      if !ok { return Failure(ServerError); }
      return Success(accessToken);
    }
  }

  // --- Interleavings ------------------------------------------------------------------------------

  /** A request between two of its database steps. */
  datatype Thread =
    | Checked(req: Exchange, row: Code, at: int)
    | Granting(grant: Grant)
    | Finished

  datatype System = System(db: Db, threads: seq<Thread>)

  datatype Event =
    | RegisterEvent(userId: string, registration: Registration, clientId: string, secret: string, lost: set<nat>)
    | AuthorizeEvent(request: AuthorizeRequest, userId: string, code: string, now: int)
    | BeginExchange(req: Exchange, now: int)
    | Mark(thread: nat)
    | Insert(thread: nat, accessToken: string)
    | BeginSecret(clientId: string, secret: string, scope: string)
    | Abort(thread: nat)

  function Step(crypto: Crypto, s: System, e: Event): System {
    match e
    case RegisterEvent(userId, registration, clientId, secret, lost) =>
      s.(db := Register(crypto, s.db, userId, registration, clientId, secret, lost).0)
    case AuthorizeEvent(request, userId, code, now) =>
      (match Authorize(s.db, request, userId, code, now)
       case Success(db) => s.(db := db)
       case Failure(_) => s)
    case BeginExchange(req, now) =>
      (match ReadAndCheck(crypto, s.db, req, now)
       case Success(row) => s.(threads := s.threads + [Checked(req, row, now)])
       case Failure(_) => s)
    case Mark(i) =>
      if i < |s.threads| && s.threads[i].Checked? then
        var t := s.threads[i];
        var (db, ok) := MarkUsed(s.db, t.req.code);
        System(db, s.threads[i := if ok then Granting(CodeGrant(t.row, t.req, t.at)) else Finished])
      else s
    case Insert(i, accessToken) =>
      if i < |s.threads| && s.threads[i].Granting? then
        System(Issue(s.db, s.threads[i].grant, accessToken).0, s.threads[i := Finished])
      else s
    case BeginSecret(clientId, secret, scope) =>
      (match CheckSecret(crypto, s.db, clientId, secret, scope)
       case Success(grant) => s.(threads := s.threads + [Granting(grant)])
       case Failure(_) => s)
    case Abort(i) =>
      if i < |s.threads| then s.(threads := s.threads[i := Finished]) else s
  }

  function Run(crypto: Crypto, es: seq<Event>): System {
    if es == [] then System(Db(map[], {}, map[], map[]), [])
    else Step(crypto, Run(crypto, es[..|es| - 1]), es[|es| - 1])
  }

  ghost predicate Reachable(crypto: Crypto, s: System) {
    HashesNonEmpty(crypto) && exists es: seq<Event> :: s == Run(crypto, es)
  }

  /** The PKCE condition of section 4.6 of RFC 7636, for a row that carries a challenge. */
  predicate ChallengeMet(crypto: Crypto, row: Code, verifier: string) {
    row.challenge != "" ==>
      verifier != "" && VerifyCodeChallenge(crypto, verifier, row.challenge, row.challengeMethod)
  }

  /** A grant that the tables justify. */
  predicate Justified(crypto: Crypto, db: Db, g: Grant) {
    match g.source
    case FromCode(code, verifier, checkedAt) =>
      && code in db.codes && db.codes[code].used
      && var row := db.codes[code];
      && g.clientId == row.clientId && g.userId == row.userId && g.scope == row.scope
      && checkedAt <= row.expiresAt
      && ChallengeMet(crypto, row, verifier)
    case FromSecret(secret) =>
      && g.clientId in db.clients
      && g.userId == db.clients[g.clientId].userId
      && crypto.hash(secret) == db.clients[g.clientId].secretHash
  }

  predicate SameCode(g: Grant, h: Grant) {
    g.source.FromCode? && h.source.FromCode? && g.source.code == h.source.code
  }

  predicate TablesInv(db: Db) {
    && (forall c | c in db.clients :: db.clients[c].isPublic ==> db.clients[c].secretHash == "")
    && (forall c | c in db.codes ::
        && db.codes[c].clientId in db.clients
        && (db.clients[db.codes[c].clientId].isPublic ==> db.codes[c].challenge != ""))
  }

  predicate TokensInv(crypto: Crypto, db: Db) {
    && (forall a | a in db.tokens :: Justified(crypto, db, db.tokens[a]))
    && (forall a, b | a in db.tokens && b in db.tokens && SameCode(db.tokens[a], db.tokens[b]) :: a == b)
  }

  predicate ThreadInv(crypto: Crypto, db: Db, t: Thread) {
    match t
    case Finished => true
    case Checked(req, row, at) =>
      && req.code in db.codes && row == db.codes[req.code].(used := false)
      && at <= row.expiresAt
      && ChallengeMet(crypto, row, req.verifier)
    case Granting(grant) =>
      && Justified(crypto, db, grant)
      && (forall a | a in db.tokens :: !SameCode(db.tokens[a], grant))
  }

  predicate Rivals(t: Thread, u: Thread) {
    t.Granting? && u.Granting? && SameCode(t.grant, u.grant)
  }

  predicate Inv(crypto: Crypto, s: System) {
    && TablesInv(s.db)
    && TokensInv(crypto, s.db)
    && (forall i | 0 <= i < |s.threads| :: ThreadInv(crypto, s.db, s.threads[i]))
    && (forall i, j | 0 <= i < j < |s.threads| :: !Rivals(s.threads[i], s.threads[j]))
  }

  /** Tables only grow, and a code row changes only in being marked used. */
  predicate Grows(db: Db, db': Db) {
    && (forall c | c in db.clients :: c in db'.clients && db'.clients[c] == db.clients[c])
    && (forall c | c in db.codes :: c in db'.codes && (db'.codes[c] == db.codes[c] || db'.codes[c] == db.codes[c].(used := true)))
  }

  lemma {:induction false} GrowthKeepsThread(crypto: Crypto, db: Db, db': Db, t: Thread)
    requires ThreadInv(crypto, db, t) && Grows(db, db') && db'.tokens == db.tokens
    ensures ThreadInv(crypto, db', t)
  {
  }

  lemma {:induction false} GrowthKeepsTokens(crypto: Crypto, db: Db, db': Db)
    requires TokensInv(crypto, db) && Grows(db, db') && db'.tokens == db.tokens
    ensures TokensInv(crypto, db')
  {
  }

  lemma {:induction false} GrowthKeepsInv(crypto: Crypto, s: System, db': Db)
    requires Inv(crypto, s) && TablesInv(db') && Grows(s.db, db') && db'.tokens == s.db.tokens
    ensures Inv(crypto, s.(db := db'))
  {
    GrowthKeepsTokens(crypto, s.db, db');
    forall i | 0 <= i < |s.threads| ensures ThreadInv(crypto, db', s.threads[i]) {
      GrowthKeepsThread(crypto, s.db, db', s.threads[i]);
    }
  }

  /** No token and no other request holds a code that is still unused. */
  lemma {:induction false} UnusedCodeIsFree(crypto: Crypto, s: System, code: string, g: Grant)
    requires Inv(crypto, s) && code in s.db.codes && !s.db.codes[code].used
    requires g.source.FromCode? && g.source.code == code
    ensures forall a | a in s.db.tokens :: !SameCode(s.db.tokens[a], g)
    ensures forall i | 0 <= i < |s.threads| && s.threads[i].Granting? :: !SameCode(s.threads[i].grant, g)
  {
  }

  lemma {:induction false} MarkInv(crypto: Crypto, s: System, i: nat)
    requires Inv(crypto, s) && i < |s.threads| && s.threads[i].Checked?
    ensures Inv(crypto, Step(crypto, s, Mark(i)))
  {
    var t := s.threads[i];
    assert ThreadInv(crypto, s.db, t);
    var (db, ok) := MarkUsed(s.db, t.req.code);
    assert Grows(s.db, db);
    GrowthKeepsInv(crypto, s, db);
    var marked := s.(db := db);
    var s' := Step(crypto, s, Mark(i));
    if ok {
      var g := CodeGrant(t.row, t.req, t.at);
      UnusedCodeIsFree(crypto, s, t.req.code, g);
      assert ThreadInv(crypto, db, Granting(g));
    }
    forall j | 0 <= j < |s'.threads| ensures ThreadInv(crypto, db, s'.threads[j]) {
      if j != i { assert ThreadInv(crypto, db, marked.threads[j]); }
    }
    forall j, k | 0 <= j < k < |s'.threads| ensures !Rivals(s'.threads[j], s'.threads[k]) {
      if j != i && k != i { assert !Rivals(s.threads[j], s.threads[k]); }
    }
  }

  lemma {:induction false} IssueKeepsTokens(crypto: Crypto, db: Db, g: Grant, accessToken: string)
    requires TokensInv(crypto, db) && Justified(crypto, db, g)
    requires forall a | a in db.tokens :: !SameCode(db.tokens[a], g)
    ensures TokensInv(crypto, Issue(db, g, accessToken).0)
  {
  }

  lemma {:induction false} IssueKeepsThread(crypto: Crypto, db: Db, g: Grant, accessToken: string, t: Thread)
    requires ThreadInv(crypto, db, t) && !Rivals(Granting(g), t)
    ensures ThreadInv(crypto, Issue(db, g, accessToken).0, t)
  {
  }

  lemma {:induction false} InsertInv(crypto: Crypto, s: System, i: nat, accessToken: string)
    requires Inv(crypto, s) && i < |s.threads| && s.threads[i].Granting?
    ensures Inv(crypto, Step(crypto, s, Insert(i, accessToken)))
  {
    var g := s.threads[i].grant;
    var s' := Step(crypto, s, Insert(i, accessToken));
    assert ThreadInv(crypto, s.db, s.threads[i]);
    IssueKeepsTokens(crypto, s.db, g, accessToken);
    forall j | 0 <= j < |s'.threads| ensures ThreadInv(crypto, s'.db, s'.threads[j]) {
      if j != i {
        assert !Rivals(s.threads[if j < i then j else i], s.threads[if j < i then i else j]);
        IssueKeepsThread(crypto, s.db, g, accessToken, s.threads[j]);
      }
    }
    forall j, k | 0 <= j < k < |s'.threads| ensures !Rivals(s'.threads[j], s'.threads[k]) {
      assert !Rivals(s.threads[j], s.threads[k]);
    }
  }

  lemma {:induction false} PushInv(crypto: Crypto, s: System, t: Thread)
    requires Inv(crypto, s) && ThreadInv(crypto, s.db, t)
    requires t.Granting? ==> t.grant.source.FromSecret?
    ensures Inv(crypto, s.(threads := s.threads + [t]))
  {
  }

  lemma {:induction false} WritesInv(crypto: Crypto, s: System, e: Event)
    requires HashesNonEmpty(crypto) && Inv(crypto, s) && (e.RegisterEvent? || e.AuthorizeEvent?)
    ensures Inv(crypto, Step(crypto, s, e))
  {
    match e
    case RegisterEvent(userId, registration, clientId, secret, lost) =>
      GrowthKeepsInv(crypto, s, Register(crypto, s.db, userId, registration, clientId, secret, lost).0);
    case AuthorizeEvent(request, userId, code, now) =>
      var r := Authorize(s.db, request, userId, code, now);
      if r.Success? { GrowthKeepsInv(crypto, s, r.value); }
  }

  lemma {:induction false} ReadsInv(crypto: Crypto, s: System, e: Event)
    requires HashesNonEmpty(crypto) && Inv(crypto, s) && (e.BeginExchange? || e.BeginSecret?)
    ensures Inv(crypto, Step(crypto, s, e))
  {
    match e
    case BeginExchange(req, now) =>
      var r := ReadAndCheck(crypto, s.db, req, now);
      if r.Success? { PushInv(crypto, s, Checked(req, r.value, now)); }
    case BeginSecret(clientId, secret, scope) =>
      var r := CheckSecret(crypto, s.db, clientId, secret, scope);
      if r.Success? { PushInv(crypto, s, Granting(r.value)); }
  }

  lemma {:induction false} StepInv(crypto: Crypto, s: System, e: Event)
    requires HashesNonEmpty(crypto) && Inv(crypto, s)
    ensures Inv(crypto, Step(crypto, s, e))
  {
    match e
    case RegisterEvent(_, _, _, _, _) => WritesInv(crypto, s, e);
    case AuthorizeEvent(_, _, _, _) => WritesInv(crypto, s, e);
    case BeginExchange(_, _) => ReadsInv(crypto, s, e);
    case BeginSecret(_, _, _) => ReadsInv(crypto, s, e);
    case Mark(i) =>
      if i < |s.threads| && s.threads[i].Checked? { MarkInv(crypto, s, i); }
    case Insert(i, accessToken) =>
      if i < |s.threads| && s.threads[i].Granting? { InsertInv(crypto, s, i, accessToken); }
    case Abort(i) =>
  }

  lemma {:induction false} RunInv(crypto: Crypto, es: seq<Event>)
    requires HashesNonEmpty(crypto)
    ensures Inv(crypto, Run(crypto, es))
  {
    if es != [] {
      RunInv(crypto, es[..|es| - 1]);
      StepInv(crypto, Run(crypto, es[..|es| - 1]), es[|es| - 1]);
    }
  }

  lemma {:induction false} ReachableInv(crypto: Crypto, s: System)
    requires Reachable(crypto, s)
    ensures Inv(crypto, s)
  {
    var es: seq<Event> :| s == Run(crypto, es);
    RunInv(crypto, es);
  }

  // --- Main results -----------------------------------------------------------------------------------

  /**
   Single use, as section 4.1.2 of RFC 6749 asks: in every interleaving at most one token is issued per code, to the
   client and user and with the scope that were bound at authorization, before the code expired.
   */
  lemma {:induction false} SingleUse(crypto: Crypto, s: System, a: string, b: string)
    requires Reachable(crypto, s) && a in s.db.tokens && b in s.db.tokens
    requires s.db.tokens[a].source.FromCode? && s.db.tokens[b].source.FromCode?
    ensures s.db.tokens[a].source.code == s.db.tokens[b].source.code ==> a == b
    ensures var g := s.db.tokens[a];
      && g.source.code in s.db.codes
      && var row := s.db.codes[g.source.code];
      row.used && (g.clientId, g.userId, g.scope) == (row.clientId, row.userId, row.scope)
      && g.source.checkedAt <= row.expiresAt
  {
    ReachableInv(crypto, s);
    assert SameCode(s.db.tokens[a], s.db.tokens[b]) ==> a == b;
    assert Justified(crypto, s.db, s.db.tokens[a]);
  }

  /**
   Section 4.6 of RFC 7636: every token ever issued to a public client came from a code whose non-empty challenge the
   presented verifier met.
   */
  lemma {:induction false} PublicClientsProveTheVerifier(crypto: Crypto, s: System, a: string)
    requires Reachable(crypto, s) && a in s.db.tokens
    requires s.db.tokens[a].clientId in s.db.clients && s.db.clients[s.db.tokens[a].clientId].isPublic
    ensures var g := s.db.tokens[a];
      && g.source.FromCode? && g.source.code in s.db.codes
      && var row := s.db.codes[g.source.code];
      && row.challenge != "" && g.source.verifier != ""
      && VerifyCodeChallenge(crypto, g.source.verifier, row.challenge, row.challengeMethod)
  {
    ReachableInv(crypto, s);
    assert Justified(crypto, s.db, s.db.tokens[a]);
  }

  /** Every token's client is registered, so the previous result covers all tokens of public clients. */
  lemma {:induction false} TokensBelongToClients(crypto: Crypto, s: System, a: string)
    requires Reachable(crypto, s) && a in s.db.tokens
    ensures s.db.tokens[a].clientId in s.db.clients
  {
    ReachableInv(crypto, s);
    assert Justified(crypto, s.db, s.db.tokens[a]);
  }

  /** A fresh code can be redeemed for its lifetime, exactly by those who know the verifier and repeat client and redirect URI or omit them. */
  lemma {:induction false} FreshCodeRedeemable(
    crypto: Crypto, db: Db, req: AuthorizeRequest, userId: string, code: string, now: int, exchange: Exchange, later: int)
    requires Authorize(db, req, userId, code, now).Success? && exchange.code == code != ""
    ensures ReadAndCheck(crypto, Authorize(db, req, userId, code, now).value, exchange, later).Success? <==>
      && later <= now + CODE_LIFETIME
      && exchange.clientId in {"", req.clientId}
      && exchange.redirectUri in {"", req.redirectUri}
      && (req.challenge != "" ==>
          && exchange.verifier != ""
          && req.challenge == if req.challengeMethod in {"", "S256"} then crypto.s256(exchange.verifier) else exchange.verifier)
  {
  }

  /** What an authorization stores, exactly when every check passes; nothing else changes. */
  lemma {:induction false} AuthorizedRow(db: Db, req: AuthorizeRequest, userId: string, code: string, now: int)
    ensures Authorize(db, req, userId, code, now).Success? <==>
      && req.responseType == "code" && req.clientId in db.clients && req.redirectUri != ""
      && (req.clientId, req.redirectUri) in db.redirects
      && (db.clients[req.clientId].isPublic ==> req.challenge != "")
      && userId != "" && code !in db.codes
    ensures Authorize(db, req, userId, code, now).Success? ==>
      var db' := Authorize(db, req, userId, code, now).value;
      && code in db'.codes && db'.codes - {code} == db.codes
      && db' == db.(codes := db'.codes)
      && var row := db'.codes[code];
      && row.clientId == req.clientId && row.userId == userId && row.redirectUri == req.redirectUri && row.scope == req.scope
      && row.challenge == req.challenge && row.expiresAt == now + 600 && !row.used
  {
    if Authorize(db, req, userId, code, now).Success? {
      var db' := Authorize(db, req, userId, code, now).value;
      assert db'.codes - {code} == db.codes;
    }
  }

  /** Why an authorization is refused: the first check that fails decides. */
  lemma {:induction false} AuthorizeRefusals(db: Db, req: AuthorizeRequest, userId: string, code: string, now: int)
    ensures var r := Authorize(db, req, userId, code, now);
      var known := req.responseType == "code" && req.clientId in db.clients && req.redirectUri != ""
        && (req.clientId, req.redirectUri) in db.redirects && (db.clients[req.clientId].isPublic ==> req.challenge != "");
      && (r == Failure(UnsupportedResponseType) <==> req.responseType != "code")
      && (r == Failure(AccessDenied) <==> known && userId == "")
      && (r == Failure(ServerError) <==> known && userId != "" && code in db.codes)
      && (r == Failure(InvalidRequest) <==> req.responseType == "code" && !known)
  {
  }

  /** Why an exchange is refused: without a code or a needed verifier the request is invalid, otherwise the grant is. */
  lemma {:induction false} ExchangeRefusals(crypto: Crypto, db: Db, req: Exchange, now: int)
    ensures var r := ReadAndCheck(crypto, db, req, now);
      && (r == Failure(InvalidRequest) <==>
          (|| req.code == ""
           || (req.code in db.codes
               && var row := db.codes[req.code];
               && !row.used && now <= row.expiresAt && req.clientId in {"", row.clientId}
               && req.redirectUri in {"", row.redirectUri} && row.challenge != "" && req.verifier == "")))
      && (r.Failure? && r.error != InvalidRequest ==> r == Failure(InvalidGrant))
      && (req.code in db.codes && db.codes[req.code].used ==> r.Failure?)
  {
  }

  /** From authorization to token, undisturbed: the token is issued exactly under these conditions, and is for what was authorized. */
  lemma {:induction false} AuthorizeThenExchange(
    crypto: Crypto, db: Db, req: AuthorizeRequest, userId: string, code: string, now: int,
    exchange: Exchange, later: int, accessToken: string)
    requires Authorize(db, req, userId, code, now).Success? && exchange.code == code != "" && accessToken !in db.tokens
    ensures var start := System(Authorize(db, req, userId, code, now).value, []);
      var s := Step(crypto, Step(crypto, Step(crypto, start, BeginExchange(exchange, later)), Mark(0)), Insert(0, accessToken));
      && (accessToken in s.db.tokens <==>
          && later <= now + 600 && exchange.clientId in {"", req.clientId} && exchange.redirectUri in {"", req.redirectUri}
          && (req.challenge != "" ==>
              && exchange.verifier != ""
              && req.challenge == if req.challengeMethod in {"", "S256"} then crypto.s256(exchange.verifier) else exchange.verifier))
      && (accessToken in s.db.tokens ==>
          && s.db.tokens == db.tokens[accessToken := s.db.tokens[accessToken]]
          && var g := s.db.tokens[accessToken];
          && g.clientId == req.clientId && g.userId == userId && g.scope == req.scope
          && ReadAndCheck(crypto, s.db, exchange, later) == Failure(InvalidGrant))
  {
    FreshCodeRedeemable(crypto, db, req, userId, code, now, exchange, later);
  }

  /** A new confidential client gets tokens with exactly the secrets that hash as its own does; a public one gets none. */
  lemma {:induction false} RegisteredSecretIsAccepted(
    crypto: Crypto, db: Db, owner: string, reg: Registration, clientId: string, secret: string, lost: set<nat>,
    given: string, scope: string, accessToken: string)
    requires HashesNonEmpty(crypto) && accessToken !in db.tokens && clientId != ""
    requires Register(crypto, db, owner, reg, clientId, secret, lost).1
    ensures var start := System(Register(crypto, db, owner, reg, clientId, secret, lost).0, []);
      var tokens := Step(crypto, Step(crypto, start, BeginSecret(clientId, given, scope)), Insert(0, accessToken)).db.tokens;
      && (accessToken in tokens <==> given != "" && !reg.isPublic && crypto.hash(given) == crypto.hash(secret))
      && (accessToken in tokens ==>
          && tokens == db.tokens[accessToken := tokens[accessToken]]
          && var g := tokens[accessToken];
          g.clientId == clientId && g.userId == owner && g.scope == if scope == "" then "default" else scope)
  {
  }

  // --- Where tokens come from -----------------------------------------------------------------------

  predicate RegisteredBy(crypto: Crypto, e: Event, clientId: string, client: Client) {
    && e.RegisterEvent? && e.clientId == clientId && e.userId != "" && client.userId == e.userId
    && client.isPublic == e.registration.isPublic
    && client.secretHash == if client.isPublic then "" else crypto.hash(e.secret)
  }

  predicate AllowedBy(e: Event, clientId: string, uri: string) {
    && e.RegisterEvent? && e.clientId == clientId
    && exists i | 0 <= i < |e.registration.redirectUris| :: i !in e.lost && e.registration.redirectUris[i] == uri
  }

  /** The row holds what the user at the authorization endpoint agreed to. */
  predicate AuthorizedBy(e: Event, code: string, row: Code) {
    && e.AuthorizeEvent? && e.code == code && e.userId != ""
    && row.clientId == e.request.clientId && row.userId == e.userId && row.scope == e.request.scope
    && row.redirectUri == e.request.redirectUri && row.expiresAt == e.now + 600
    && row.challenge == e.request.challenge
    && (row.challenge != "" ==>
        row.challengeMethod == if e.request.challengeMethod == "" then "S256" else e.request.challengeMethod)
  }

  predicate ExchangedBy(e: Event, code: string, verifier: string, at: int, row: Code) {
    && e.BeginExchange? && e.req.code == code && e.req.verifier == verifier && e.now == at
    && e.req.clientId in {"", row.clientId} && e.req.redirectUri in {"", row.redirectUri}
  }

  predicate AskedBy(e: Event, g: Grant) {
    && e.BeginSecret? && g.source == FromSecret(e.secret) && e.clientId == g.clientId
    && g.scope == if e.scope == "" then "default" else e.scope
  }

  predicate GrantKnown(past: set<Event>, db: Db, g: Grant) {
    match g.source
    case FromCode(code, verifier, at) =>
      code in db.codes && exists e | e in past :: ExchangedBy(e, code, verifier, at, db.codes[code])
    case FromSecret(_) => exists e | e in past :: AskedBy(e, g)
  }

  predicate ThreadKnown(past: set<Event>, db: Db, t: Thread) {
    match t
    case Finished => true
    case Checked(req, row, at) =>
      req.code in db.codes && exists e | e in past :: ExchangedBy(e, req.code, req.verifier, at, db.codes[req.code])
    case Granting(grant) => GrantKnown(past, db, grant)
  }

  predicate ClientsKnown(crypto: Crypto, past: set<Event>, clients: map<string, Client>) {
    forall c | c in clients :: exists e | e in past :: RegisteredBy(crypto, e, c, clients[c])
  }

  predicate RedirectsKnown(past: set<Event>, redirects: set<(string, string)>) {
    forall r | r in redirects :: exists e | e in past :: AllowedBy(e, r.0, r.1)
  }

  predicate CodesKnown(past: set<Event>, codes: map<string, Code>) {
    forall c | c in codes :: exists e | e in past :: AuthorizedBy(e, c, codes[c])
  }

  predicate TablesKnown(crypto: Crypto, past: set<Event>, db: Db) {
    ClientsKnown(crypto, past, db.clients) && RedirectsKnown(past, db.redirects) && CodesKnown(past, db.codes)
  }

  /** Every row, request and token goes back to requests of the past. */
  predicate Known(crypto: Crypto, past: set<Event>, s: System) {
    && TablesKnown(crypto, past, s.db)
    && (forall i | 0 <= i < |s.threads| :: ThreadKnown(past, s.db, s.threads[i]))
    && (forall a | a in s.db.tokens :: GrantKnown(past, s.db, s.db.tokens[a]))
  }

  lemma {:induction false} GrantStaysKnown(past: set<Event>, e: Event, db: Db, db': Db, g: Grant)
    requires GrantKnown(past, db, g) && Grows(db, db')
    ensures GrantKnown(past + {e}, db', g)
  {
    match g.source
    case FromCode(code, verifier, at) =>
      var x :| x in past && ExchangedBy(x, code, verifier, at, db.codes[code]);
      assert x in past + {e} && ExchangedBy(x, code, verifier, at, db'.codes[code]);
    case FromSecret(_) =>
      var x :| x in past && AskedBy(x, g);
      assert x in past + {e};
  }

  lemma {:induction false} ThreadStaysKnown(past: set<Event>, e: Event, db: Db, db': Db, t: Thread)
    requires ThreadKnown(past, db, t) && Grows(db, db')
    ensures ThreadKnown(past + {e}, db', t)
  {
    match t
    case Finished =>
    case Checked(req, row, at) =>
      var x :| x in past && ExchangedBy(x, req.code, req.verifier, at, db.codes[req.code]);
      assert x in past + {e} && ExchangedBy(x, req.code, req.verifier, at, db'.codes[req.code]);
    case Granting(grant) => GrantStaysKnown(past, e, db, db', grant);
  }

  lemma {:induction false} ClientsStayKnown(crypto: Crypto, past: set<Event>, e: Event, clients: map<string, Client>)
    requires ClientsKnown(crypto, past, clients)
    ensures ClientsKnown(crypto, past + {e}, clients)
  {
    forall c | c in clients ensures exists x | x in past + {e} :: RegisteredBy(crypto, x, c, clients[c]) {
      var x :| x in past && RegisteredBy(crypto, x, c, clients[c]);
      assert x in past + {e};
    }
  }

  lemma {:induction false} RedirectsStayKnown(past: set<Event>, e: Event, redirects: set<(string, string)>)
    requires RedirectsKnown(past, redirects)
    ensures RedirectsKnown(past + {e}, redirects)
  {
    forall r | r in redirects ensures exists x | x in past + {e} :: AllowedBy(x, r.0, r.1) {
      var x :| x in past && AllowedBy(x, r.0, r.1);
      assert x in past + {e};
    }
  }

  lemma {:induction false} CodesStayKnown(past: set<Event>, e: Event, codes: map<string, Code>)
    requires CodesKnown(past, codes)
    ensures CodesKnown(past + {e}, codes)
  {
    forall c | c in codes ensures exists x | x in past + {e} :: AuthorizedBy(x, c, codes[c]) {
      var x :| x in past && AuthorizedBy(x, c, codes[c]);
      assert x in past + {e};
    }
  }

  lemma {:induction false} TablesStayKnown(crypto: Crypto, past: set<Event>, e: Event, db: Db)
    requires TablesKnown(crypto, past, db)
    ensures TablesKnown(crypto, past + {e}, db)
  {
    ClientsStayKnown(crypto, past, e, db.clients);
    RedirectsStayKnown(past, e, db.redirects);
    CodesStayKnown(past, e, db.codes);
  }

  lemma {:induction false} NewClientKnown(
    crypto: Crypto, past: set<Event>, clients: map<string, Client>, e: Event, c: string, client: Client)
    requires ClientsKnown(crypto, past, clients) && e in past && RegisteredBy(crypto, e, c, client)
    ensures ClientsKnown(crypto, past, clients[c := client])
  {
  }

  lemma {:induction false} NewRedirectsKnown(past: set<Event>, redirects: set<(string, string)>, e: Event)
    requires RedirectsKnown(past, redirects) && e in past && e.RegisterEvent?
    ensures RedirectsKnown(past, redirects + Stored(e.clientId, e.registration.redirectUris, e.lost))
  {
    var more := Stored(e.clientId, e.registration.redirectUris, e.lost);
    forall r | r in redirects + more ensures exists x | x in past :: AllowedBy(x, r.0, r.1) {
      if r in more {
        StoredExactly(e.clientId, e.registration.redirectUris, e.lost, r.0, r.1);
        assert AllowedBy(e, r.0, r.1);
      }
    }
  }

  lemma {:induction false} NewCodeKnown(past: set<Event>, codes: map<string, Code>, e: Event, c: string, row: Code)
    requires CodesKnown(past, codes) && e in past && AuthorizedBy(e, c, row)
    ensures CodesKnown(past, codes[c := row])
  {
  }

  lemma {:induction false} RegisterKnown(crypto: Crypto, past: set<Event>, db: Db, e: Event)
    requires TablesKnown(crypto, past, db) && e.RegisterEvent?
    ensures var db' := Register(crypto, db, e.userId, e.registration, e.clientId, e.secret, e.lost).0;
      TablesKnown(crypto, past + {e}, db') && Grows(db, db') && db'.tokens == db.tokens
  {
    var (db', ok) := Register(crypto, db, e.userId, e.registration, e.clientId, e.secret, e.lost);
    TablesStayKnown(crypto, past, e, db);
    if ok {
      NewClientKnown(crypto, past + {e}, db.clients, e, e.clientId, db'.clients[e.clientId]);
      NewRedirectsKnown(past + {e}, db.redirects, e);
    }
  }

  lemma {:induction false} AuthorizeKnown(crypto: Crypto, past: set<Event>, db: Db, e: Event)
    requires TablesKnown(crypto, past, db) && e.AuthorizeEvent?
    requires Authorize(db, e.request, e.userId, e.code, e.now).Success?
    ensures var db' := Authorize(db, e.request, e.userId, e.code, e.now).value;
      TablesKnown(crypto, past + {e}, db') && Grows(db, db') && db'.tokens == db.tokens
  {
    var db' := Authorize(db, e.request, e.userId, e.code, e.now).value;
    TablesStayKnown(crypto, past, e, db);
    NewCodeKnown(past + {e}, db.codes, e, e.code, db'.codes[e.code]);
  }

  lemma {:induction false} MarkKnown(crypto: Crypto, past: set<Event>, db: Db, code: string)
    requires TablesKnown(crypto, past, db)
    ensures TablesKnown(crypto, past, MarkUsed(db, code).0) && Grows(db, MarkUsed(db, code).0)
  {
    if MarkUsed(db, code).1 {
      var x :| x in past && AuthorizedBy(x, code, db.codes[code]);
      NewCodeKnown(past, db.codes, x, code, db.codes[code].(used := true));
    }
  }

  /** Tables that grow keep what is known, whatever becomes of one more event. */
  lemma {:induction false} KnownGrows(crypto: Crypto, past: set<Event>, e: Event, s: System, db': Db)
    requires Known(crypto, past, s) && Grows(s.db, db') && db'.tokens == s.db.tokens
    requires TablesKnown(crypto, past + {e}, db')
    ensures Known(crypto, past + {e}, s.(db := db'))
  {
    forall i | 0 <= i < |s.threads| ensures ThreadKnown(past + {e}, db', s.threads[i]) {
      ThreadStaysKnown(past, e, s.db, db', s.threads[i]);
    }
    forall a | a in db'.tokens ensures GrantKnown(past + {e}, db', db'.tokens[a]) {
      GrantStaysKnown(past, e, s.db, db', db'.tokens[a]);
    }
  }

  /** The thread may be replaced, or added at the end, by one that is known. */
  lemma {:induction false} ThreadKnownIn(crypto: Crypto, past: set<Event>, s: System, i: nat, t: Thread)
    requires Known(crypto, past, s) && i <= |s.threads| && ThreadKnown(past, s.db, t)
    ensures Known(crypto, past, s.(threads := if i < |s.threads| then s.threads[i := t] else s.threads + [t]))
  {
  }

  lemma {:induction false} WritesKnown(crypto: Crypto, past: set<Event>, s: System, e: Event)
    requires Known(crypto, past, s) && (e.RegisterEvent? || e.AuthorizeEvent?)
    ensures Known(crypto, past + {e}, Step(crypto, s, e))
  {
    match e
    case RegisterEvent(userId, registration, clientId, secret, lost) =>
      RegisterKnown(crypto, past, s.db, e);
      KnownGrows(crypto, past, e, s, Register(crypto, s.db, userId, registration, clientId, secret, lost).0);
    case AuthorizeEvent(request, userId, code, now) =>
      var r := Authorize(s.db, request, userId, code, now);
      if r.Success? {
        AuthorizeKnown(crypto, past, s.db, e);
        KnownGrows(crypto, past, e, s, r.value);
      } else {
        KnownLater(crypto, past, e, s);
      }
  }

  lemma {:induction false} KnownLater(crypto: Crypto, past: set<Event>, e: Event, s: System)
    requires Known(crypto, past, s)
    ensures Known(crypto, past + {e}, s)
  {
    TablesStayKnown(crypto, past, e, s.db);
    KnownGrows(crypto, past, e, s, s.db);
  }

  /** Once the past takes in the event itself, what a reading step starts is known. */
  lemma {:induction false} ReadsKnown(crypto: Crypto, past: set<Event>, s: System, e: Event)
    requires Known(crypto, past, s) && e in past && (e.BeginExchange? || e.BeginSecret?)
    ensures Known(crypto, past, Step(crypto, s, e))
  {
    match e
    case BeginExchange(req, now) =>
      var r := ReadAndCheck(crypto, s.db, req, now);
      if r.Success? {
        assert ExchangedBy(e, req.code, req.verifier, now, s.db.codes[req.code]);
        ThreadKnownIn(crypto, past, s, |s.threads|, Checked(req, r.value, now));
      }
    case BeginSecret(clientId, secret, scope) =>
      var r := CheckSecret(crypto, s.db, clientId, secret, scope);
      if r.Success? {
        assert AskedBy(e, r.value);
        ThreadKnownIn(crypto, past, s, |s.threads|, Granting(r.value));
      }
  }

  lemma {:induction false} StepKnown(crypto: Crypto, past: set<Event>, s: System, e: Event)
    requires Known(crypto, past, s) && Inv(crypto, s)
    ensures Known(crypto, past + {e}, Step(crypto, s, e))
  {
    KnownLater(crypto, past, e, s);
    match e
    case RegisterEvent(_, _, _, _, _) => WritesKnown(crypto, past, s, e);
    case AuthorizeEvent(_, _, _, _) => WritesKnown(crypto, past, s, e);
    case BeginExchange(_, _) => ReadsKnown(crypto, past + {e}, s, e);
    case BeginSecret(_, _, _) => ReadsKnown(crypto, past + {e}, s, e);
    case Mark(i) => if i < |s.threads| && s.threads[i].Checked? { MarkStepKnown(crypto, past + {e}, s, i); }
    case Insert(i, accessToken) =>
      if i < |s.threads| && s.threads[i].Granting? { InsertKnown(crypto, past + {e}, s, i, accessToken); }
    case Abort(i) => if i < |s.threads| { ThreadKnownIn(crypto, past + {e}, s, i, Finished); }
  }

  lemma {:induction false} MarkedThreadKnown(past: set<Event>, db: Db, t: Thread)
    requires t.Checked? && ThreadKnown(past, db, t)
    ensures GrantKnown(past, db, CodeGrant(t.row, t.req, t.at))
  {
  }

  lemma {:induction false} MarkStepKnown(crypto: Crypto, past: set<Event>, s: System, i: nat)
    requires Known(crypto, past, s) && i < |s.threads| && s.threads[i].Checked? && past != {}
    ensures Known(crypto, past, Step(crypto, s, Mark(i)))
  {
    var t := s.threads[i];
    var (db', ok) := MarkUsed(s.db, t.req.code);
    MarkKnown(crypto, past, s.db, t.req.code);
    MarkedKnown(crypto, past, s, db');
    assert ThreadKnown(past, db', t);
    MarkedThreadKnown(past, db', t);
    ThreadKnownIn(crypto, past, s.(db := db'), i, if ok then Granting(CodeGrant(t.row, t.req, t.at)) else Finished);
  }

  lemma {:induction false} MarkedKnown(crypto: Crypto, past: set<Event>, s: System, db': Db)
    requires Known(crypto, past, s) && Grows(s.db, db') && db'.tokens == s.db.tokens && TablesKnown(crypto, past, db')
    requires past != {}
    ensures Known(crypto, past, s.(db := db'))
  {
    var e :| e in past;
    assert past + {e} == past;
    KnownGrows(crypto, past, e, s, db');
  }

  lemma {:induction false} InsertKnown(crypto: Crypto, past: set<Event>, s: System, i: nat, accessToken: string)
    requires Known(crypto, past, s) && i < |s.threads| && s.threads[i].Granting?
    ensures Known(crypto, past, Step(crypto, s, Insert(i, accessToken)))
  {
    assert ThreadKnown(past, s.db, s.threads[i]);
    var db' := Issue(s.db, s.threads[i].grant, accessToken).0;
    forall j | 0 <= j < |s.threads| ensures ThreadKnown(past, db', s.threads[j]) {
      assert ThreadKnown(past, s.db, s.threads[j]);
    }
    forall a | a in db'.tokens ensures GrantKnown(past, db', db'.tokens[a]) {
      assert GrantKnown(past, s.db, db'.tokens[a]);
    }
    ThreadKnownIn(crypto, past, s.(db := db'), i, Finished);
  }

  function Past(es: seq<Event>): set<Event> { set e | e in es }

  lemma {:induction false} RunKnown(crypto: Crypto, es: seq<Event>)
    requires HashesNonEmpty(crypto)
    ensures Known(crypto, Past(es), Run(crypto, es))
  {
    if es != [] {
      var init := es[..|es| - 1];
      RunKnown(crypto, init);
      RunInv(crypto, init);
      StepKnown(crypto, Past(init), Run(crypto, init), es[|es| - 1]);
      assert Past(init) + {es[|es| - 1]} == Past(es);
    }
  }

  /** The token is what the user of the authorization agreed to, and the exchange proved what it had to. */
  predicate FromAuthorization(crypto: Crypto, g: Grant, auth: Event, exchange: Event) {
    && auth.AuthorizeEvent? && exchange.BeginExchange? && exchange.req.code == auth.code
    && g.clientId == auth.request.clientId && g.userId == auth.userId != "" && g.scope == auth.request.scope
    && exchange.now <= auth.now + 600
    && exchange.req.clientId in {"", auth.request.clientId} && exchange.req.redirectUri in {"", auth.request.redirectUri}
    && (auth.request.challenge != "" ==>
        && exchange.req.verifier != ""
        && auth.request.challenge ==
             if auth.request.challengeMethod in {"", "S256"} then crypto.s256(exchange.req.verifier) else exchange.req.verifier)
  }

  /** The token belongs to the owner who registered the client, and was asked for with a secret that hashes as the client's does. */
  predicate FromOwner(crypto: Crypto, g: Grant, reg: Event, ask: Event) {
    && reg.RegisterEvent? && ask.BeginSecret? && g.clientId == reg.clientId == ask.clientId
    && g.userId == reg.userId != "" && !reg.registration.isPublic
    && crypto.hash(ask.secret) == crypto.hash(reg.secret)
    && g.scope == if ask.scope == "" then "default" else ask.scope
  }

  /**
   In every interleaving, every token goes back to requests that were made: an authorization of the same code, whose
   client, user and scope it carries, and an exchange in time that proved the challenge; or the registration of its
   client, whose owner it is for, and a request with the client's secret.
   */
  lemma {:induction false} TokenOrigin(crypto: Crypto, es: seq<Event>, a: string)
    requires HashesNonEmpty(crypto) && a in Run(crypto, es).db.tokens
    ensures var g := Run(crypto, es).db.tokens[a];
      if g.source.FromCode?
      then exists auth, exchange | auth in es && exchange in es ::
        FromAuthorization(crypto, g, auth, exchange) && auth.code == g.source.code
      else exists reg, ask | reg in es && ask in es :: FromOwner(crypto, g, reg, ask)
  {
    RunInv(crypto, es);
    RunKnown(crypto, es);
    OriginOf(crypto, Past(es), Run(crypto, es), a);
  }

  lemma {:induction false} OriginOf(crypto: Crypto, past: set<Event>, s: System, a: string)
    requires HashesNonEmpty(crypto) && Known(crypto, past, s) && Inv(crypto, s) && a in s.db.tokens
    ensures var g := s.db.tokens[a];
      if g.source.FromCode?
      then exists auth, exchange | auth in past && exchange in past ::
        FromAuthorization(crypto, g, auth, exchange) && auth.code == g.source.code
      else exists reg, ask | reg in past && ask in past :: FromOwner(crypto, g, reg, ask)
  {
    var g := s.db.tokens[a];
    assert Justified(crypto, s.db, g) && GrantKnown(past, s.db, g);
    match g.source
    case FromCode(code, verifier, at) =>
      var row := s.db.codes[code];
      var exchange :| exchange in past && ExchangedBy(exchange, code, verifier, at, row);
      var auth :| auth in past && AuthorizedBy(auth, code, row);
      assert FromAuthorization(crypto, g, auth, exchange);
    case FromSecret(secret) =>
      var ask :| ask in past && AskedBy(ask, g);
      var reg :| reg in past && RegisteredBy(crypto, reg, g.clientId, s.db.clients[g.clientId]);
      assert FromOwner(crypto, g, reg, ask);
  }

  /** Of all requests that have read a code as unused, the first to mark it gets the grant and every other is refused. */
  lemma {:induction false} FirstMarkWins(crypto: Crypto, s: System, i: nat, j: nat)
    requires Reachable(crypto, s) && i < |s.threads| && j < |s.threads| && i != j
    requires s.threads[i].Checked? && s.threads[j].Checked? && s.threads[i].req.code == s.threads[j].req.code
    ensures var s2 := Step(crypto, Step(crypto, s, Mark(i)), Mark(j));
      && s2.threads[j] == Finished
      && s.threads[i].req.code in s.db.codes && s.threads[i].req.code in s2.db.codes
      && s2.db.codes[s.threads[i].req.code].used
      && (s2.threads[i].Granting? <==> !s.db.codes[s.threads[i].req.code].used)
  {
    ReachableInv(crypto, s);
    assert ThreadInv(crypto, s.db, s.threads[i]);
  }
}
