/**
 Password reset and email verification tokens: internal/auth/domain/service.go over
 internal/auth/infrastructure/sql_repository.go.

 Both operations validate the token row, change the user, and only then mark the token used by a compare-and-set.
 Calls may interleave between these steps.
 */
module OneTimeTokens {
  import opened Prelude

  datatype Token = Token(userId: string, expiresAt: int, used: bool)

  /** What a user row holds that the two operations change. */
  datatype User = User(password: string, verified: bool)

  datatype Effect = NewPassword(hash: string) | VerifiedEmail

  /** Tokens by the hash of their raw value. */
  datatype Db = Db(users: map<string, User>, tokens: map<string, Token>)

  datatype TokenError = InvalidToken | AlreadyUsed | Expired | UserNotFound

  function Validate(db: Db, hash: string, now: int): Result<Token, TokenError> {
    if hash !in db.tokens then Failure(InvalidToken)
    else if db.tokens[hash].used then Failure(AlreadyUsed)
    else if db.tokens[hash].expiresAt < now then Failure(Expired)
    else Success(db.tokens[hash])
  }

  function Apply(u: User, e: Effect): User {
    match e
    case NewPassword(hash) => u.(password := hash)
    case VerifiedEmail => u.(verified := true)
  }

  /** UPDATE users ... WHERE id = $1, refused when no row matches. */
  function ChangeUser(db: Db, userId: string, e: Effect): Option<Db> {
    if userId in db.users then Some(db.(users := db.users[userId := Apply(db.users[userId], e)])) else None
  }

  /** UPDATE ... SET used_at = NOW() WHERE token_hash = $1 AND used_at IS NULL. */
  function MarkUsed(db: Db, hash: string): Option<Db> {
    if hash in db.tokens && !db.tokens[hash].used
    then Some(db.(tokens := db.tokens[hash := db.tokens[hash].(used := true)]))
    else None
  }

  class AuthService {
    var users: map<string, User>
    var tokens: map<string, Token>

    ghost function View(): Db reads this { Db(users, tokens) }

    constructor (users: map<string, User>, tokens: map<string, Token>)
      ensures View() == Db(users, tokens)
    {
      this.users, this.tokens := users, tokens;
    }

    /** ResetPassword or VerifyEmail with nobody in between. */
    method Consume(hash: string, e: Effect, now: int) returns (r: Result<(), TokenError>)
      modifies this
      ensures match Validate(old(View()), hash, now)
        case Failure(error) => r == Failure(error) && View() == old(View())
        case Success(token) =>
          if token.userId in old(users) then
            r == Success(()) && View() == MarkUsed(ChangeUser(old(View()), token.userId, e).value, hash).value
          else r == Failure(UserNotFound) && View() == old(View())
    {
      if hash !in tokens { return Failure(InvalidToken); }
      var token := tokens[hash];
      if token.used { return Failure(AlreadyUsed); }
      if token.expiresAt < now { return Failure(Expired); }
      if token.userId !in users { return Failure(UserNotFound); }
      users := users[token.userId := Apply(users[token.userId], e)];
      tokens := tokens[hash := tokens[hash].(used := true)];
      return Success(());
    }
  }

  // --- Interleavings -----------------------------------------------------------------------

  datatype Stage = Validated | Acted | Replied(success: bool)

  datatype Call = Call(hash: string, userId: string, effect: Effect, stage: Stage)

  datatype System = System(db: Db, calls: seq<Call>)

  datatype Event =
    | Create(hash: string, userId: string, expiresAt: int)
    | Begin(hash: string, effect: Effect, now: int)
    | Act(call: nat)
    | Mark(call: nat)

  function Step(s: System, e: Event): System {
    match e
    case Create(hash, userId, expiresAt) =>
      if hash in s.db.tokens then s
      else s.(db := s.db.(tokens := s.db.tokens[hash := Token(userId, expiresAt, false)]))
    case Begin(hash, effect, now) =>
      (match Validate(s.db, hash, now)
       case Success(token) => s.(calls := s.calls + [Call(hash, token.userId, effect, Validated)])
       case Failure(_) => s)
    case Act(i) =>
      if i < |s.calls| && s.calls[i].stage == Validated then
        match ChangeUser(s.db, s.calls[i].userId, s.calls[i].effect)
        case Some(db) => System(db, s.calls[i := s.calls[i].(stage := Acted)])
        case None => s.(calls := s.calls[i := s.calls[i].(stage := Replied(false))])
      else s
    case Mark(i) =>
      if i < |s.calls| && s.calls[i].stage == Acted then
        match MarkUsed(s.db, s.calls[i].hash)
        case Some(db) => System(db, s.calls[i := s.calls[i].(stage := Replied(true))])
        case None => s.(calls := s.calls[i := s.calls[i].(stage := Replied(false))])
      else s
  }

  function Run(users: map<string, User>, es: seq<Event>): System {
    if es == [] then System(Db(users, map[]), []) else Step(Run(users, es[..|es| - 1]), es[|es| - 1])
  }

  predicate Succeeded(s: System, i: nat, hash: string) {
    i < |s.calls| && s.calls[i].hash == hash && s.calls[i].stage == Replied(true)
  }

  /** A token is used exactly when one call on it has succeeded, and there is only one. */
  ghost predicate Inv(s: System) {
    && (forall hash | hash in s.db.tokens ::
        s.db.tokens[hash].used <==> exists i: nat :: Succeeded(s, i, hash))
    && (forall i: nat | i < |s.calls| :: s.calls[i].hash in s.db.tokens && s.calls[i].userId == s.db.tokens[s.calls[i].hash].userId)
    && (forall i: nat, j: nat, hash | Succeeded(s, i, hash) && Succeeded(s, j, hash) :: i == j)
  }

  lemma {:induction false} UnusedMeansNone(s: System, hash: string)
    requires Inv(s) && (hash in s.db.tokens ==> !s.db.tokens[hash].used)
    ensures forall i: nat :: !Succeeded(s, i, hash)
  {
  }

  lemma {:induction false} NoNewSuccess(s: System, t: System)
    requires Inv(s)
    requires forall i: nat, hash :: Succeeded(t, i, hash) <==> Succeeded(s, i, hash)
    requires forall hash | hash in s.db.tokens :: hash in t.db.tokens && t.db.tokens[hash] == s.db.tokens[hash]
    requires forall hash | hash in t.db.tokens && hash !in s.db.tokens :: !t.db.tokens[hash].used
    requires forall i: nat | i < |t.calls| :: t.calls[i].hash in t.db.tokens && t.calls[i].userId == t.db.tokens[t.calls[i].hash].userId
    ensures Inv(t)
  {
  }

  lemma {:induction false} MarkInv(s: System, i: nat)
    requires Inv(s) && i < |s.calls| && s.calls[i].stage == Acted
    ensures Inv(Step(s, Mark(i)))
  {
    var t := Step(s, Mark(i));
    var h := s.calls[i].hash;
    assert forall j: nat, hash | !(j == i && hash == h) :: Succeeded(t, j, hash) <==> Succeeded(s, j, hash);
    if MarkUsed(s.db, h).None? {
      NoNewSuccess(s, t);
    } else {
      assert Succeeded(t, i, h);
      forall hash | hash in t.db.tokens
        ensures t.db.tokens[hash].used <==> exists j: nat :: Succeeded(t, j, hash)
      {
        if hash != h {
          if j: nat :| Succeeded(s, j, hash) { assert Succeeded(t, j, hash); }
          if j: nat :| Succeeded(t, j, hash) { assert Succeeded(s, j, hash); }
        }
      }
      forall j: nat, k: nat, hash | Succeeded(t, j, hash) && Succeeded(t, k, hash) ensures j == k {
        if hash == h {
          UnusedMeansNone(s, h);
        }
      }
    }
  }

  lemma {:induction false} StepInv(s: System, e: Event)
    requires Inv(s)
    ensures Inv(Step(s, e))
  {
    var t := Step(s, e);
    if e.Mark? {
      if e.call < |s.calls| && s.calls[e.call].stage == Acted { MarkInv(s, e.call); }
    } else {
      assert forall i: nat, hash :: Succeeded(t, i, hash) <==> Succeeded(s, i, hash);
      NoNewSuccess(s, t);
    }
  }

  lemma {:induction false} RunInv(users: map<string, User>, es: seq<Event>)
    ensures Inv(Run(users, es))
  {
    if es != [] {
      RunInv(users, es[..|es| - 1]);
      StepInv(Run(users, es[..|es| - 1]), es[|es| - 1]);
    }
  }

  // --- Main results ---------------------------------------------------------------------------

  /** In every interleaving at most one call per token answers with success. */
  lemma {:induction false} AtMostOneSuccess(users: map<string, User>, es: seq<Event>, i: nat, j: nat, hash: string)
    requires Succeeded(Run(users, es), i, hash) && Succeeded(Run(users, es), j, hash)
    ensures i == j
  {
    RunInv(users, es);
  }

  /** After a success no further call on that token passes validation, so the user changes again only through calls already under way. */
  lemma {:induction false} NoValidationAfterSuccess(
    users: map<string, User>, es: seq<Event>, i: nat, hash: string, effect: Effect, now: int)
    requires Succeeded(Run(users, es), i, hash)
    ensures Validate(Run(users, es).db, hash, now) == Failure(AlreadyUsed)
    ensures Step(Run(users, es), Begin(hash, effect, now)) == Run(users, es)
  {
    RunInv(users, es);
    assert Run(users, es).db.tokens[hash].used;
  }

  /**
   The token does not make the password change happen at most once.  When two calls on one token both validate before
   either marks it, the call that is told "failed" overwrites the password of the call that is told "success".
   */
  lemma {:induction false} FailedCallOverwrites(db: Db, hash: string, first: string, second: string, now: int)
    requires Validate(db, hash, now).Success? && db.tokens[hash].userId in db.users
    ensures var begun := Step(Step(System(db, []), Begin(hash, NewPassword(first), now)), Begin(hash, NewPassword(second), now));
      var s := Step(Step(Step(Step(begun, Act(0)), Act(1)), Mark(0)), Mark(1));
      && Succeeded(s, 0, hash) && s.calls[0].effect == NewPassword(first)
      && |s.calls| == 2 && s.calls[1].stage == Replied(false)
      && db.tokens[hash].userId in s.db.users && s.db.users[db.tokens[hash].userId].password == second
  {
  }

  predicate WritesPassword(s: System, e: Event, userId: string) {
    && e.Act? && e.call < |s.calls| && s.calls[e.call].stage == Validated
    && s.calls[e.call].userId == userId && userId in s.db.users && s.calls[e.call].effect.NewPassword?
  }

  /** The calls that have changed a user's password, in the order in which they did. */
  function Writers(users: map<string, User>, es: seq<Event>, userId: string): seq<nat> {
    if es == [] then []
    else
      var init, e := es[..|es| - 1], es[|es| - 1];
      Writers(users, init, userId) + if WritesPassword(Run(users, init), e, userId) then [e.call] else []
  }

  predicate IsReset(c: Call, userId: string) { c.userId == userId && c.effect.NewPassword? }

  /** The writers are the resets that have acted, and the password is that of the last of them. */
  ghost predicate Written(users: map<string, User>, s: System, w: seq<nat>, userId: string) {
    && (forall k | 0 <= k < |w| :: w[k] < |s.calls| && IsReset(s.calls[w[k]], userId) && s.calls[w[k]].stage != Validated)
    && (forall i: nat | i < |s.calls| && IsReset(s.calls[i], userId) && s.calls[i].stage in {Acted, Replied(true)} :: i in w)
    && (userId in s.db.users <==> userId in users)
    && (userId in users ==>
        s.db.users[userId].password == if w == [] then users[userId].password else s.calls[w[|w| - 1]].effect.hash)
  }

  lemma {:induction false} WriteWritten(users: map<string, User>, s: System, w: seq<nat>, e: Event, userId: string)
    requires Written(users, s, w, userId) && WritesPassword(s, e, userId)
    ensures Written(users, Step(s, e), w + [e.call], userId)
  {
    var w' := w + [e.call];
    assert w'[|w|] == e.call;
    assert forall i: nat | i in w :: i in w';
  }

  lemma {:induction false} OtherWritten(users: map<string, User>, s: System, w: seq<nat>, e: Event, userId: string)
    requires Written(users, s, w, userId) && !WritesPassword(s, e, userId)
    ensures Written(users, Step(s, e), w, userId)
  {
  }

  /**
   Whatever the interleaving, email verifications included, the password is that of the last call to write it, or the
   one the user came with.
   */
  lemma {:induction false} LastWriterWins(users: map<string, User>, es: seq<Event>, userId: string)
    ensures Written(users, Run(users, es), Writers(users, es, userId), userId)
  {
    if es != [] {
      LastWriterWins(users, es[..|es| - 1], userId);
      var s, w, e := Run(users, es[..|es| - 1]), Writers(users, es[..|es| - 1], userId), es[|es| - 1];
      if WritesPassword(s, e, userId) { WriteWritten(users, s, w, e, userId); } else { OtherWritten(users, s, w, e, userId); }
    }
  }

  predicate IsLast(w: seq<nat>, i: nat) { w != [] && w[|w| - 1] == i }

  /** The last writer, whatever it was answered, wrote the same password. */
  predicate LastWroteTheSame(s: System, w: seq<nat>, i: nat) {
    && w != [] && w[|w| - 1] < |s.calls| && i < |s.calls|
    && s.calls[w[|w| - 1]].effect == s.calls[i].effect
  }

  /** No other writer wrote the same password. */
  predicate Unique(s: System, w: seq<nat>, i: nat) {
    forall k | 0 <= k < |w| && w[k] != i :: w[k] < |s.calls| && i < |s.calls| && s.calls[w[k]].effect != s.calls[i].effect
  }

  predicate InForce(s: System, i: nat, userId: string) {
    && userId in s.db.users && i < |s.calls|
    && s.calls[i].effect == NewPassword(s.db.users[userId].password)
  }

  lemma {:induction false} InForceIff(users: map<string, User>, s: System, w: seq<nat>, i: nat, userId: string)
    requires Written(users, s, w, userId) && userId in users && i < |s.calls|
    requires IsReset(s.calls[i], userId) && s.calls[i].stage == Replied(true)
    ensures InForce(s, i, userId) <==> LastWroteTheSame(s, w, i)
    ensures Unique(s, w, i) ==> (InForce(s, i, userId) <==> IsLast(w, i))
  {
    assert i in w;
  }

  /**
   So the password of a call that was answered with success is in force exactly if the last call to write one, whatever
   it was answered, wrote the same; when no other wrote the same, exactly if no other call wrote after it.
   */
  lemma {:induction false} PasswordInForce(users: map<string, User>, es: seq<Event>, i: nat, userId: string)
    requires userId in users && i < |Run(users, es).calls|
    requires IsReset(Run(users, es).calls[i], userId) && Run(users, es).calls[i].stage == Replied(true)
    ensures var s, w := Run(users, es), Writers(users, es, userId);
      && (InForce(s, i, userId) <==> LastWroteTheSame(s, w, i))
      && (Unique(s, w, i) ==> (InForce(s, i, userId) <==> IsLast(w, i)))
  {
    LastWriterWins(users, es, userId);
    InForceIff(users, Run(users, es), Writers(users, es, userId), i, userId);
  }

  // --- Which password stays ----------------------------------------------------------------------

  function RunFrom(s: System, es: seq<Event>): System {
    if es == [] then s else Step(RunFrom(s, es[..|es| - 1]), es[|es| - 1])
  }

  /** The call sets the user another password. */
  predicate Resets(c: Call, userId: string, password: string) {
    c.userId == userId && c.effect.NewPassword? && c.effect.hash != password
  }

  predicate Pending(s: System, i: nat, userId: string, password: string) {
    i < |s.calls| && s.calls[i].stage == Validated && Resets(s.calls[i], userId, password)
  }

  /** None of the calls from number base on sets the user another password. */
  predicate QuietFrom(s: System, base: nat, userId: string, password: string) {
    forall i | base <= i < |s.calls| :: !Resets(s.calls[i], userId, password)
  }

  predicate HasPassword(s: System, userId: string, password: string) {
    userId in s.db.users && s.db.users[userId].password == password
  }

  /** The password stays in every continuation in which no reset to another one passes validation any more. */
  ghost predicate Stays(s: System, userId: string, password: string) {
    forall es: seq<Event> :: QuietFrom(RunFrom(s, es), |s.calls|, userId, password) ==>
      HasPassword(RunFrom(s, es), userId, password)
  }

  predicate NonePending(s: System, userId: string, password: string) {
    forall i: nat | i < |s.calls| :: !Pending(s, i, userId, password)
  }

  lemma {:induction false} StepStays(s: System, e: Event, base: nat, userId: string, password: string)
    requires QuietFrom(Step(s, e), base, userId, password) && base <= |s.calls|
    ensures QuietFrom(s, base, userId, password) && base <= |Step(s, e).calls|
    ensures HasPassword(s, userId, password) && NonePending(s, userId, password) ==>
      HasPassword(Step(s, e), userId, password) && NonePending(Step(s, e), userId, password)
  {
    var t := Step(s, e);
    forall i | base <= i < |s.calls| ensures !Resets(s.calls[i], userId, password) {
      assert !Resets(t.calls[i], userId, password);
    }
    if NonePending(s, userId, password) {
      forall i: nat | i < |t.calls| ensures !Pending(t, i, userId, password) {
        if i < |s.calls| { assert !Pending(s, i, userId, password); }
      }
      if e.Act? && e.call < |s.calls| { assert !Pending(s, e.call, userId, password); }
    }
  }

  lemma {:induction false} RunStays(s: System, es: seq<Event>, userId: string, password: string)
    requires HasPassword(s, userId, password) && NonePending(s, userId, password)
    requires QuietFrom(RunFrom(s, es), |s.calls|, userId, password)
    ensures var t := RunFrom(s, es); |s.calls| <= |t.calls| && HasPassword(t, userId, password) && NonePending(t, userId, password)
  {
    if es != [] {
      CallsGrow(s, es[..|es| - 1]);
      StepStays(RunFrom(s, es[..|es| - 1]), es[|es| - 1], |s.calls|, userId, password);
      RunStays(s, es[..|es| - 1], userId, password);
    }
  }

  lemma {:induction false} CallsGrow(s: System, es: seq<Event>)
    ensures |s.calls| <= |RunFrom(s, es).calls|
  {
    if es != [] {
      CallsGrow(s, es[..|es| - 1]);
    }
  }

  /**
   From any state on, the user's password stays whatever happens, until a further reset passes validation, exactly if no
   reset that has been validated already is waiting to write another one.
   */
  lemma {:induction false} PasswordStays(s: System, userId: string, password: string)
    requires HasPassword(s, userId, password)
    ensures Stays(s, userId, password) <==> NonePending(s, userId, password)
  {
    if NonePending(s, userId, password) {
      forall es: seq<Event> | QuietFrom(RunFrom(s, es), |s.calls|, userId, password)
        ensures HasPassword(RunFrom(s, es), userId, password)
      {
        RunStays(s, es, userId, password);
      }
    } else {
      var i: nat :| i < |s.calls| && Pending(s, i, userId, password);
      var es := [Act(i)];
      assert es[..0] == [] && RunFrom(s, []) == s;
      assert RunFrom(s, es) == Step(s, Act(i));
      assert QuietFrom(RunFrom(s, es), |s.calls|, userId, password);
      assert !HasPassword(RunFrom(s, es), userId, password);
    }
  }

  /** The same in every run, after a call on the user has been answered with success. */
  lemma {:induction false} SuccessStays(users: map<string, User>, es: seq<Event>, i: nat, userId: string)
    requires userId in users && i < |Run(users, es).calls|
    requires IsReset(Run(users, es).calls[i], userId) && Run(users, es).calls[i].stage == Replied(true)
    ensures var s := Run(users, es); var password := s.calls[i].effect.hash;
      HasPassword(s, userId, password) && Stays(s, userId, password) <==>
      LastWroteTheSame(s, Writers(users, es, userId), i) && NonePending(s, userId, password)
  {
    PasswordInForce(users, es, i, userId);
    var s := Run(users, es);
    var password := s.calls[i].effect.hash;
    assert InForce(s, i, userId) <==> HasPassword(s, userId, password);
    if HasPassword(s, userId, password) { PasswordStays(s, userId, password); }
  }

  // --- What a call goes back to -------------------------------------------------------------------

  /** A token validates exactly while it exists, is unused and has not expired; and why it does not otherwise. */
  lemma {:induction false} ValidateExact(db: Db, hash: string, now: int)
    ensures var r := Validate(db, hash, now);
      && (r.Success? <==> hash in db.tokens && !db.tokens[hash].used && now <= db.tokens[hash].expiresAt)
      && (r == Failure(InvalidToken) <==> hash !in db.tokens)
      && (r == Failure(AlreadyUsed) <==> hash in db.tokens && db.tokens[hash].used)
      && (r == Failure(Expired) <==> hash in db.tokens && !db.tokens[hash].used && db.tokens[hash].expiresAt < now)
  {
  }

  predicate CreatedBy(e: Event, hash: string, token: Token) {
    e == Create(hash, token.userId, token.expiresAt)
  }

  /** The call was begun in time on a token created for its user. */
  predicate BegunBy(c: Call, create: Event, begin: Event) {
    && create.Create? && begin.Begin? && begin.hash == create.hash == c.hash && begin.now <= create.expiresAt
    && c.userId == create.userId && c.effect == begin.effect
  }

  predicate TokenKnown(past: set<Event>, hash: string, token: Token) {
    exists e | e in past :: CreatedBy(e, hash, token)
  }

  predicate CallKnown(past: set<Event>, c: Call) {
    exists create, begin | create in past && begin in past :: BegunBy(c, create, begin)
  }

  predicate Known(past: set<Event>, s: System) {
    && (forall hash | hash in s.db.tokens :: TokenKnown(past, hash, s.db.tokens[hash]))
    && (forall i | 0 <= i < |s.calls| :: CallKnown(past, s.calls[i]))
  }

  lemma {:induction false} TokenKnownLater(past: set<Event>, e: Event, hash: string, token: Token, later: Token)
    requires TokenKnown(past, hash, token) && later == token.(used := later.used)
    ensures TokenKnown(past + {e}, hash, later)
  {
    var x :| x in past && CreatedBy(x, hash, token);
    assert x in past + {e} && CreatedBy(x, hash, later);
  }

  lemma {:induction false} CallKnownLater(past: set<Event>, e: Event, c: Call, later: Call)
    requires CallKnown(past, c) && later == c.(stage := later.stage)
    ensures CallKnown(past + {e}, later)
  {
    var create, begin :| create in past && begin in past && BegunBy(c, create, begin);
    assert create in past + {e} && begin in past + {e} && BegunBy(later, create, begin);
  }

  lemma {:induction false} TokensStep(s: System, e: Event, hash: string)
    requires hash in Step(s, e).db.tokens
    ensures var t := Step(s, e).db.tokens[hash];
      && (hash in s.db.tokens ==> t == s.db.tokens[hash].(used := t.used))
      && (hash !in s.db.tokens ==> CreatedBy(e, hash, t))
  {
  }

  lemma {:induction false} CallsStep(s: System, e: Event, i: nat)
    requires i < |Step(s, e).calls|
    ensures var c := Step(s, e).calls[i];
      && (i < |s.calls| ==> c == s.calls[i].(stage := c.stage))
      && (i >= |s.calls| ==>
          && e.Begin? && e.hash == c.hash && e.effect == c.effect && e.hash in s.db.tokens
          && e.now <= s.db.tokens[e.hash].expiresAt && c.userId == s.db.tokens[e.hash].userId)
  {
  }

  lemma {:induction false} StepKnown(past: set<Event>, s: System, e: Event)
    requires Known(past, s)
    ensures Known(past + {e}, Step(s, e))
  {
    var r := Step(s, e);
    assert e in past + {e};
    forall hash | hash in r.db.tokens ensures TokenKnown(past + {e}, hash, r.db.tokens[hash]) {
      TokensStep(s, e, hash);
      if hash in s.db.tokens { TokenKnownLater(past, e, hash, s.db.tokens[hash], r.db.tokens[hash]); }
    }
    forall i | 0 <= i < |r.calls| ensures CallKnown(past + {e}, r.calls[i]) {
      CallsStep(s, e, i);
      if i < |s.calls| {
        CallKnownLater(past, e, s.calls[i], r.calls[i]);
      } else {
        var create :| create in past && CreatedBy(create, e.hash, s.db.tokens[e.hash]);
        assert create in past + {e} && BegunBy(r.calls[i], create, e);
      }
    }
  }

  function Past(es: seq<Event>): set<Event> { set e | e in es }

  lemma {:induction false} RunKnown(users: map<string, User>, es: seq<Event>)
    ensures Known(Past(es), Run(users, es))
  {
    if es != [] {
      RunKnown(users, es[..|es| - 1]);
      StepKnown(Past(es[..|es| - 1]), Run(users, es[..|es| - 1]), es[|es| - 1]);
      assert Past(es[..|es| - 1]) + {es[|es| - 1]} == Past(es);
    }
  }

  /** In every interleaving a call that gets past validation presented, before it expired, a token made for its user. */
  lemma {:induction false} CallOrigin(users: map<string, User>, es: seq<Event>, i: nat)
    requires i < |Run(users, es).calls|
    ensures exists create, begin | create in es && begin in es :: BegunBy(Run(users, es).calls[i], create, begin)
  {
    RunKnown(users, es);
    assert CallKnown(Past(es), Run(users, es).calls[i]);
    var create, begin :| create in Past(es) && begin in Past(es) && BegunBy(Run(users, es).calls[i], create, begin);
    assert create in es && begin in es;
  }

  /** The event is the user's email being verified. */
  predicate Verifies(s: System, e: Event, userId: string) {
    && e.Act? && e.call < |s.calls| && s.calls[e.call].stage == Validated
    && s.calls[e.call].userId == userId && s.calls[e.call].effect.VerifiedEmail?
  }

  function VerifiedBy(users: map<string, User>, es: seq<Event>, userId: string): bool {
    if es == [] then false
    else VerifiedBy(users, es[..|es| - 1], userId) || Verifies(Run(users, es[..|es| - 1]), es[|es| - 1], userId)
  }

  lemma {:induction false} StepVerifies(s: System, e: Event, userId: string)
    ensures userId in Step(s, e).db.users <==> userId in s.db.users
    ensures userId in s.db.users ==>
      (Step(s, e).db.users[userId].verified <==> s.db.users[userId].verified || Verifies(s, e, userId))
  {
  }

  /** In every interleaving, password resets included, a user is verified exactly if they were or a verification has acted. */
  lemma {:induction false} VerifiedExactly(users: map<string, User>, es: seq<Event>, userId: string)
    requires userId in users
    ensures userId in Run(users, es).db.users
    ensures Run(users, es).db.users[userId].verified <==> users[userId].verified || VerifiedBy(users, es, userId)
  {
    if es != [] {
      VerifiedExactly(users, es[..|es| - 1], userId);
      StepVerifies(Run(users, es[..|es| - 1]), es[|es| - 1], userId);
    }
  }
}
