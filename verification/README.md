# Verification of the fintech ecosystem's core protocols

A Dafny model of the stateful protocols of this repository and proofs of what they keep. `dafny verify dfyconfig.toml`
checks the whole project.

Each file models one component, in the form the source has: an object whose methods update fields is a class with those
fields, and each of its methods is proved against a specification function over the old state. A table of a database is a
map or a sequence, an SQL statement is one atomic step, and calls that leave the process (bank, provider, broker, clock)
have their outcomes as parameters, so the theorems range over every pattern of failures. Where requests may overlap, a run
is an arbitrary interleaving of their atomic steps.

| file | component |
|---|---|
| AuditChain.dfy | hash-chained audit log and its verifier |
| CircuitBreaker.dfy | generation-based circuit breaker under concurrent requests |
| RateLimiter.dfy | sliding-window-log rate limiter, serial and concurrent |
| OAuth.dfy | client registration, authorization codes and token issue, interleaved |
| OneTimeTokens.dfy | password reset and email verification tokens, interleaved |
| Payments.dfy, OverlappingPayments.dfy | payment intents and idempotency keys, serial and overlapping |
| Ledger.dfy | double-entry postings from gRPC and Kafka, and the service that judges them |
| Calendar.dfy, Billing.dfy | renewal dates, and the renewal worker |
| WebhookDlq.dfy | dead letter queue with retry budget |
| RabbitMq.dfy, Retry.dfy | second circuit breaker, and the two backoffs |
| Secrets.dfy | secret manager with cache, serial and interleaved |
| Scopes.dfy | scope strings |
| Prelude.dfy | Option and Result |

Every lemma switches automatic induction off: each induction is written out as a call.

## Where the code does not do what is expected of it

The code is modelled as it is. For each of these there is a theorem that says exactly when the expected property holds, or
that shows it failing.

- An honest audit log of two zones is rejected, because the chain runs over all zones while the check reads one.
- k overlapping calls can push a rate-limit window to limit + 2 (k - 1) n units: a comment in the code calls prune and count
  atomic, but a plain pipeline is not a transaction, and the clock is read before it.
- A password reset that is answered with an error can still overwrite the password set by the one that succeeded.
- A charge whose status update fails is kept as a charge of an intent that is not succeeded. A refund writes a status
  and an event and never calls the bank, so "refunds" below counts these status updates; a refunded intent can be charged
  again. A confirmation charges whenever it reads the intent before a success is recorded, or after another request has
  written over it; an idempotency key prevents that only once an answer has been saved under it.
- Deleting the newest rows of the audit log is not noticed if the check then reads an unbroken stretch of older ones.
- The repository's README.md calls the ledger the single source of truth for all financial state. The three postings
  of a split payment share one reference, so the ledger, which stores a reference once, keeps at most one of them.
  The payments service publishes `payment_id` and `refund.completed` where the ledger's consumer expects `id` and
  `payment.refunded`, so from that stream at most one payment and no refund is recorded; with the call that
  posts each payment directly, a first payment is credited twice and its refund never debited.
- An amount of minus 2 to the 63rd passes the ledger's wrapping sum check with legs that do not cancel.
- A renewal whose write fails is billed again; a cancellation made during a tick is undone; a renewal at the end of a month
  can skip a month.
- A dead letter whose worker crashed stays in `retrying` until replayed; abandoning a listed one does not stop it; one
  whose retry falls after its expiry waits in vain until it is cleaned up.
- The secret cache does not distinguish providers, and under interleaving can keep a secret that a completed Put replaced.

## Model

| member | source | states |
|---|---|---|
| `AuditChain.NewestFirstSorts` | pkg/audit/secure.go:197-206 | the query of the window returns a permutation of the rows, newest first |
| `AuditChain.QueryReadsNewest` | pkg/audit/secure.go:197-206 | the query reads as many rows of the zone as the limit allows, and none that it leaves out is newer than one it reads |
| `AuditChain.PositionsExact` | pkg/audit/secure.go:197-206 | the window is drawn from exactly the rows of the zone |
| `AuditChain.AcceptsMeans` | pkg/audit/secure.go:137-161 | the scan finds nothing if and only if every signature is valid and every row names the signature of the next older one |
| `AuditChain.SignatureCovers` | pkg/audit/secure.go:88-118 | a valid row stays valid under exactly those edits that keep timestamp, actor, zone, action, resource type, resource id, metadata and previous hash; two valid rows carry one signature exactly if they agree on these |
| `AuditChain.FindingsExact` | pkg/audit/secure.go:131-162 | a row is reported for its signature, or for its link, exactly if that is wrong |
| `AuditChain.EditIsReported` | pkg/audit/secure.go:131-162 | in accepted rows, an edited row that keeps its signature is reported exactly if one of the eight signed columns differs |
| `AuditChain.LogIsWhatWasAsked` | pkg/audit/secure.go:64-85 | in every run the log holds, column by column and in order, what callers asked to log, stamped with the clock, as far as it could be encoded and stored |
| `AuditChain.RunChains` | pkg/audit/secure.go:64-85 | in every run of one logger, with failed writes and restarts, each issued entry is signed and names the entry issued just before it, or the genesis marker |
| `AuditChain.AcceptanceIsContiguity` | pkg/audit/secure.go:131-162 | for every run over any mix of zones, a window is accepted if and only if its rows are adjacent in the global log, none of them written blind after a failed start, and storage kept their signed fields |
| `AuditChain.SingleZoneAccepted` | pkg/audit/secure.go:64-85 | a log of one zone whose restarts could read the table is accepted for every limit |
| `AuditChain.HonestTwoZoneLogRejected` | pkg/audit/secure.go:64-85 | three honest entries of which the middle one is of another zone are rejected |
| `AuditChain.AcceptedRowsAreAnInfix` | pkg/audit/secure.go:88-161 | rows of which the newest, if valid, carries an issued signature are accepted if and only if they repeat, in order and without a gap, a stretch of the issued log |
| `AuditChain.TamperEvidence` | pkg/audit/secure.go:131-162 | the same for what VerifyChain reads from an arbitrarily altered table in which only issued signatures verify |
| `AuditChain.AcceptedColumns` | pkg/audit/secure.go:131-162 | the rows of an accepted window of any altered table agree column by column with a gapless stretch of what callers asked to log |
| `AuditChain.LostSuffixUnnoticed` | pkg/audit/secure.go:88-118 | of rows that are accepted, the newest can be left out and the unsigned columns edited, and the rest is still accepted |
| `AuditChain.LostTail` | pkg/audit/secure.go:131-162 | after the newest rows of the table are deleted, for every run over any mix of zones, the check accepts if and only if the window, refilled with older rows, is contiguous |
| `AuditChain.LostTailUnnoticed` | pkg/audit/secure.go:131-162 | the deletion is not noticed if a window reaching as many rows further back as the zone has lost was accepted before |
| `AuditChain.SingleZoneLossUnnoticed` | pkg/audit/secure.go:131-162 | so in a log of one zone whose restarts could read the table no deletion of the newest rows is noticed, for any limit |
| `AuditChain.LostRowNoticed` | pkg/audit/secure.go:131-162 | but a deletion is noticed when the window reaches back, in place of the lost row, past an entry written after a failed start |
| `AuditChain.ForkRunInv` | pkg/audit/secure.go:64-85 | with any number of processes and overlapping calls, each issued entry is signed and names the entry its logger chained to |
| `AuditChain.ForkedTamperEvidence` | pkg/audit/secure.go:131-162 | then an arbitrarily altered table is accepted if and only if the window repeats, without a gap, entries each of which was chained to the next |
| `CircuitBreaker.RunInv` | pkg/resilience/breaker.go:104-216 | in every interleaving the breaker's fields are what the history of its generations amounts to |
| `CircuitBreaker.Accounting` | pkg/resilience/breaker.go:104-139 | in every reachable state requests = successes + failures + requests of this generation in flight |
| `CircuitBreaker.AdmissionExact` | pkg/resilience/breaker.go:104-121 | in every reachable state and at every instant, from the books of the current generation: a closed breaker admits, a half-open one exactly while its results and requests in flight leave room, an open one only strictly after its timeout; and which refusal is given otherwise |
| `CircuitBreaker.ResultExact` | pkg/resilience/breaker.go:123-216 | in every reachable state, what phase a result leads to: only results of the current, unexpired generation have an effect, and a closed breaker opens exactly when the rule trips on its tally |
| `CircuitBreaker.StepsAreCalls` | pkg/resilience/breaker.go:104-139 | the steps of the interleaved runs are the two locked calls |
| `CircuitBreaker.HalfOpenNeverWedges` | pkg/resilience/breaker.go:104-121 | a half-open breaker admits exactly while successes and requests in flight leave room, so always when nothing is in flight |
| `CircuitBreaker.PhaseSafety` | pkg/resilience/breaker.go:141-216 | generation by generation: an open one admits nothing, a half-open one at most maxRequests; it closes only if exactly that many were admitted and all succeeded, an open one ends only strictly after its timeout; and a closed one opens only when the rule trips on results and admissions of its own |
| `CircuitBreaker.OpenAdmitsNothing` | pkg/resilience/breaker.go:104-153 | no request starts between an opening and its expiry |
| `CircuitBreaker.StaleResultIgnored` | pkg/resilience/breaker.go:123-139 | a result from an older generation changes nothing |
| `CircuitBreaker.DefaultTripMeansSixFailures` | pkg/resilience/breaker.go:53-82 | with the default rule a closed generation opens only after six failures in a row |
| `CircuitBreaker.ClosedShowsAtMostFiveFailures` | pkg/resilience/breaker.go:204-216 | with the default rule a closed breaker never shows more than five failures in a row |
| `CircuitBreaker.ProbesClose` | pkg/resilience/breaker.go:188-202 | once an opening has expired, successful probes, each with its own start and end, close the breaker with the maxRequests-th of them and not before |
| `CircuitBreaker.DefaultBreaker` | pkg/resilience/breaker.go:53-82 | a breaker without settings stays closed through five failures, opens at the sixth for a minute, and is closed by one success after that |
| `RateLimiter.PruneDropsPrefix` | pkg/ratelimit/limiter.go:96-98 | pruning a sorted set drops exactly an initial part, the scores outside the window |
| `RateLimiter.RunInv` | pkg/ratelimit/limiter.go:89-160 | in every interleaving of clock readings, prunes, counts and adds, each window is loaded within its bound, a reserve for every call under way included |
| `RateLimiter.OverAdmissionBound` | pkg/ratelimit/limiter.go:89-160 | with at most k calls of at most n units under way at any moment, no window ever holds more than limit + 2 (k - 1) n units, whatever the interleaving |
| `RateLimiter.OverAdmissionReached` | pkg/ratelimit/limiter.go:89-160 | for all k and n up to the limit some such interleaving does reach limit + 2 (k - 1) n |
| `RateLimiter.InOrderBound` | pkg/ratelimit/limiter.go:89-160 | if no call counts after one with a later clock has pruned, limit + (k - 1) n holds, k being only the calls between counting and adding |
| `RateLimiter.InOrderBoundReached` | pkg/ratelimit/limiter.go:89-160 | and some such run reaches it |
| `RateLimiter.SerialLimit` | pkg/ratelimit/limiter.go:89-160 | with calls one at a time every window holds at most the limit |
| `RateLimiter.CallIsFourSteps` | pkg/ratelimit/limiter.go:89-160 | an undisturbed call is its four steps in turn |
| `RateLimiter.AllowNExact` | pkg/ratelimit/limiter.go:89-160 | in any sequence of calls on any keys, a call is allowed exactly if its units fit beside those that earlier calls on its key were granted in its window; what remains is the limit less the units in the window; other keys do not matter |
| `RateLimiter.RetryAfterOldest` | pkg/ratelimit/limiter.go:115-137 | the wait of a denied call lasts until the earliest grant in its window leaves it, and is none if there is nothing in it |
| `RateLimiter.GrantedWithinLimit` | pkg/ratelimit/limiter.go:89-160 | so in any sequence of calls no window of a key is granted more than the limit |
| `RateLimiter.StoreIsSerialRun` | pkg/ratelimit/limiter.go:89-160 | what is stored under a key is the sorted set of the serial run of that key's calls |
| `RateLimiter.RetryInstant` | pkg/ratelimit/limiter.go:115-137 | a one-unit retry is admitted exactly from the expiry of the entry `limit` places from the end |
| `RateLimiter.RetryAfterExact` | pkg/ratelimit/limiter.go:115-137 | after serial calls, the oldest entry's expiry is the exact earliest instant at which a denied one-unit call is admitted |
| `OAuth.RunInv` | cmd/auth/handlers.go:388-448 | in every interleaving of any number of requests every token is justified by a used code or a matching secret, and no two by one code |
| `OAuth.SingleUse` | cmd/auth/handlers.go:388-448 | at most one token per code, with the client, user and scope bound at authorization, checked before expiry (section 4.1.2 of RFC 6749) |
| `OAuth.FirstMarkWins` | internal/auth/infrastructure/sql_repository.go:495-510 | of requests that read the same unused code the first to mark it gets the grant and the others are refused |
| `OAuth.PublicClientsProveTheVerifier` | cmd/auth/handlers.go:430-447 | every token of a public client came from a code whose non-empty challenge the presented verifier met (section 4.6 of RFC 7636) |
| `OAuth.TokensBelongToClients` | cmd/auth/handlers.go:450-488 | every token's client is registered |
| `OAuth.FreshCodeRedeemable` | cmd/auth/handlers.go:388-448 | a fresh code is redeemable exactly within ten minutes, by the same client and URI or none given, with the verifier if there is a challenge |
| `OAuth.RegisteredUriIsAccepted` | cmd/auth/handlers.go:657-661 | a new client can be authorized with exactly those redirect URIs whose insert did not fail, though all are reported as registered |
| `OAuth.AuthorizedRow` | cmd/auth/handlers.go:501-588 | an authorization succeeds exactly if every check passes, and then stores a code with just the client, user, URI, scope and challenge of the request and ten minutes to live |
| `OAuth.AuthorizeRefusals` | cmd/auth/handlers.go:501-588 | which error an authorization is refused with |
| `OAuth.ExchangeRefusals` | cmd/auth/handlers.go:388-448 | which error an exchange is refused with |
| `OAuth.AuthorizeThenExchange` | cmd/auth/handlers.go:388-588 | from authorization to token, undisturbed: the token is issued exactly for the right client, URI, verifier and time, carries the authorized client, user and scope, and the code is spent |
| `OAuth.RegisteredSecretIsAccepted` | cmd/auth/handlers.go:350-386 | a new confidential client gets tokens, for its owner, with exactly the secrets that hash as its own; a public one gets none |
| `OAuth.TokenOrigin` | cmd/auth/handlers.go:350-588 | in every interleaving each token goes back to an authorization of its code, whose client, user and scope it carries, and a timely exchange that met the challenge; or to its client's registration, whose owner it is for, and a request with a secret that hashes the same |
| `OneTimeTokens.RunInv` | internal/auth/infrastructure/sql_repository.go:139-165 | in every interleaving a token is used exactly if one call on it has succeeded |
| `OneTimeTokens.AtMostOneSuccess` | internal/auth/domain/service.go:316-327 | in every interleaving at most one call per token answers with success |
| `OneTimeTokens.NoValidationAfterSuccess` | internal/auth/domain/service.go:298-314 | after a success no call on that token passes validation |
| `OneTimeTokens.FailedCallOverwrites` | internal/auth/domain/service.go:316-327 | two overlapping resets: the one told "failed" overwrites the password of the one told "success" |
| `OneTimeTokens.LastWriterWins` | internal/auth/infrastructure/sql_repository.go:99-125 | in every interleaving, email verifications included, the password is that of the last call to write one, whatever it was told |
| `OneTimeTokens.PasswordInForce` | internal/auth/domain/service.go:316-327 | the password of a call told "success" is in force if and only if the last call to write one wrote the same; if no other wrote the same, if and only if no call wrote after it |
| `OneTimeTokens.PasswordStays` | internal/auth/domain/service.go:316-327 | from every state, a password stays in every continuation until a further reset passes validation, if and only if no validated reset of that user with another password is pending |
| `OneTimeTokens.SuccessStays` | internal/auth/domain/service.go:316-327 | the password of a call told "success" is in force and stays so in every such continuation if and only if the last call to write one wrote the same and no other is pending |
| `OneTimeTokens.ValidateExact` | internal/auth/domain/service.go:298-314 | a token validates exactly while it exists, is unused and has not expired, and why it does not |
| `OneTimeTokens.CallOrigin` | internal/auth/domain/service.go:298-327 | in every interleaving a call that gets past validation presented, before it expired, a token created for its user |
| `OneTimeTokens.VerifiedExactly` | internal/auth/infrastructure/sql_repository.go:99-125 | in every interleaving a user is verified exactly if they were or a verification has acted |
| `Payments.ChargeAccounting` | cmd/payments/handlers.go:235-256 | in every run, whatever fails: charges = refunds, which are status updates, + (1 if succeeded) + charges whose status update was lost |
| `Payments.ChargeConservation` | cmd/payments/handlers.go:235-256 | charges minus refunds are 1 for a succeeded intent and 0 otherwise if and only if no status update was lost |
| `Payments.RefundedIntentChargedAgain` | cmd/payments/handlers.go:235-240 | a refunded intent can be confirmed, and charged, again |
| `Payments.NoServerErrors` | cmd/payments/handlers.go:79-85 | no handler answers with a server error, so errors are recorded and replayed too |
| `Payments.RecordStays` | cmd/payments/handlers.go:56-74 | a record is never changed or removed |
| `Payments.RetriesAreIdempotent` | cmd/payments/handlers.go:34-88 | after a recorded keyed request, every later one of that user and key gets the same answer and changes nothing; if its record cannot be looked up it gets an error and still changes nothing |
| `Payments.PostingsExact` | cmd/payments/handlers.go:291-349 | in every run, account by account: a confirmed split payment posts amount less fee to the connected account, the fee to the platform and minus the amount to the user, any other the amount to the user, all under its id and less the ledger calls that were lost; nothing else is posted |
| `Payments.EventsExact` | cmd/payments/handlers.go:262-416 | in every run one event is published per recorded success and per refund, in order, with the intent's user and amount, unless publishing fails |
| `Payments.IntentIsAsCreated` | cmd/payments/handlers.go:123-193 | in every run an intent has the user, positive amount, currency, fee and account of a request that created it |
| `Payments.AnswersExact` | cmd/payments/handlers.go:123-432 | an answer shows an intent exactly if a creation, a charge or a refund was recorded, and shows it as stored; declines, errors and 401 exactly when they apply |
| `OverlappingPayments.RunInv` | cmd/payments/handlers.go:34-432 | in every interleaving a confirmation under way has read a status other than succeeded, a refund under way has read succeeded, and no answer is a server error |
| `OverlappingPayments.StatusIsLastWritten` | cmd/payments/handlers.go:195-432 | in every interleaving the status of an intent is the one written last, or the one it was created with |
| `OverlappingPayments.EachChargesOnce` | cmd/payments/handlers.go:235-262 | the charges of an intent are as many as the requests that have charged it, each at most once |
| `OverlappingPayments.ChargedUnlessPaid` | cmd/payments/handlers.go:229-262 | in every interleaving a confirmation charges if and only if the bank accepts it and the last status written on the intent before it read is not a success |
| `OverlappingPayments.SecondConfirmation` | cmd/payments/handlers.go:229-262 | of two accepted confirmations, the second charges as well if and only if it reads before the first has recorded its success, while nobody else writes the intent |
| `OverlappingPayments.BooksBalance` | cmd/payments/handlers.go:195-432 | in every interleaving charges - refunds = (1 if succeeded) all along if and only if every request that finishes keeps it so: no accepted charge goes unrecorded, and the intent is succeeded at a write exactly if it was when the request read it |
| `OverlappingPayments.RecordIsFirstAnswer` | cmd/payments/handlers.go:56-86 | in every interleaving the record of a key is the answer that a request of that user and key saved first |
| `OverlappingPayments.AnsweredFromRecord` | cmd/payments/handlers.go:56-86 | in every interleaving an arriving keyed request is answered from a record if and only if an earlier request of that user and key got to save its answer, and then with the one saved first |
| `OverlappingPayments.SavedKeyAnswers` | cmd/payments/handlers.go:56-86 | in every interleaving a saved key keeps its answer and answers every later request with it |
| `OverlappingPayments.UndisturbedIsServed` | cmd/payments/handlers.go:34-432 | a request whose steps nobody disturbs is served as in the serial model, with the same answer |
| `Ledger.LegsCancel` | cmd/ledger/grpc.go:21-37 | the two legs of a posting cancel if and only if the amount is not the one without a 64-bit negation, and pass the service's check in either case |
| `Ledger.RecordExact` | internal/ledger/domain/service.go:47-139 | a transaction is refused as unbalanced exactly if its sum is not a multiple of 2 to the 64th, then at the first entry without an account or with a currency that is not the common one, then, unless its reference is known, for a zero amount; it is recorded exactly if nothing of this holds and its reference is new |
| `Ledger.PostingMoves` | cmd/ledger/grpc.go:21-37 | an accepted posting moves its amount on its account and, inversely, on the balancing account |
| `Ledger.Directions` | cmd/ledger/events.go:39-74 | postings and succeeded payments credit the account and debit the balancing one, refunds the reverse, under their own references |
| `Ledger.TotalWrapsToZero` | internal/ledger/domain/service.go:47-139 | whatever is submitted, the total over all accounts stays a multiple of 2 to the 64th |
| `Ledger.Conservation` | cmd/ledger/grpc.go:21-37 | for everything the front ends post, the total over all accounts is exactly minus 2 to the 64th per recorded amount without negation, so zero if and only if none was recorded |
| `Ledger.OneReferenceOnce` | internal/ledger/domain/service.go:92-99 | of transactions with one new reference only the first acceptable one is recorded |
| `Ledger.SplitIsBalanced` | cmd/payments/handlers.go:291-336 | the three postings of a split payment sum to zero for any fee |
| `Ledger.SplitPaymentRecordsOneLeg` | cmd/payments/handlers.go:291-336 | but they share a reference, so at most one is recorded, and the balancing account is unchanged if and only if none is |
| `Ledger.RefundUndoesSuccess` | cmd/ledger/events.go:39-74 | a refunded event undoes the succeeded event of the same payment on every account if and only if the ledger refuses both, knew both references, or knew neither and the amount has a negation |
| `Ledger.EventStreamRecordsOnce` | cmd/ledger/events.go:11-22 | the payments service's events carry no `id`: if the ledger has no transaction without one, it records exactly the first acceptable success event of the stream, otherwise nothing, and never a refund |
| `Ledger.BalanceOfFirsts` | internal/ledger/domain/service.go:47-139 | whatever is submitted, an account holds what the first acceptable transaction of each new reference moves on it, and nothing else |
| `Ledger.EndToEnd` | cmd/payments/handlers.go:262-349 | for every serial run of the payments service, with its ledger calls and events arriving in any mixture, an account holds what the first acceptable posting of each payment moves on it plus the first acceptable success event of all |
| `Ledger.RefundedPaymentCreditedTwice` | cmd/ledger/events.go:11-74 | so a first payment, confirmed and refunded without any failure, leaves its user credited twice |
| `Calendar.ClosedForm` | internal/billing/domain/service.go:74-79 | days counted month by month are the closed form of the proleptic Gregorian calendar, in all years |
| `Calendar.DayNumberOrders` | internal/billing/domain/service.go:74-79 | the day number orders valid dates as the calendar does, and is injective |
| `Calendar.FromMonthIsTheDay` | internal/billing/domain/service.go:74-79 | the normalising date is the one valid date that many days from the first of the month |
| `Calendar.MonthlyStep` | internal/billing/domain/service.go:78-78 | a monthly step advances by exactly the length of the month it starts in, 28 to 31 days |
| `Calendar.YearlyStep` | internal/billing/domain/service.go:75-77 | a yearly step advances by 366 days exactly if a leap day lies in the twelve months ahead, else by 365 |
| `Calendar.Landing` | internal/billing/domain/service.go:74-79 | a step lands on the same day of the target month if it has one, else at most on the 3rd of the next |
| `Calendar.NextExact` | internal/billing/domain/service.go:74-79 | a renewal lands a year ahead for "year" and a month ahead otherwise, on the same day or as far into the month after as days are left over |
| `Calendar.DayOfMonthChangesOnce` | internal/billing/domain/service.go:74-79 | over any renewals the day of the month changes at most once, to 3 or less, and never from 28 or less |
| `Calendar.EndOfJanuarySkipsFebruary` | internal/billing/domain/service.go:78-78 | a renewal on 31 January bills next on 3 March, or 2 March in leap years |
| `Calendar.TwelveMonthsAreAYear` | internal/billing/domain/service.go:74-79 | twelve monthly renewals from a day up to the 28th are one yearly renewal |
| `Billing.TickOn` | internal/billing/service/worker.go:43-81 | a tick does to each subscription what processing it alone does, in whatever order rows come |
| `Billing.PeriodExact` | internal/billing/domain/service.go:74-79 | a period lasts the month it starts in, or for "year" the year ahead with its leap day if it has one |
| `Billing.TickExact` | internal/billing/service/worker.go:57-81 | what a tick does to a listed subscription by the fate of its payment: a decline makes it past due for the same period, a payment is billed and moves it on one period, what is written clears the cancellation, and the owner never changes |
| `Billing.CreateExact` | internal/billing/domain/service.go:26-52 | what a subscription starts as, and why it is refused |
| `Billing.CancelExact` | internal/billing/domain/service.go:54-72 | a cancellation keeps the period and fails exactly without a row or a write |
| `Billing.SubscriptionIsAsCreated` | internal/billing/domain/service.go:26-52 | in every serial run a subscription has the user, organization, plan and first period of the request that created it |
| `Billing.RunInv` | internal/billing/service/worker.go:57-81 | in every serial run each bill is for the period after the renewals written before it |
| `Billing.BilledPeriods` | internal/billing/service/worker.go:57-81 | in every serial run the billed periods of a subscription follow one another without gap, repeated only after a renewal that was not written back, and it stands exactly as many periods past its first as bills were written back |
| `Billing.PeriodsBilledOnce` | internal/billing/service/worker.go:73-80 | no period is billed twice if and only if every bill but perhaps the last was written back |
| `Billing.StoppedIsNeverBilled` | internal/billing/infrastructure/sql_repository.go:45-46 | a canceled or past-due subscription is never billed again in a serial run, and a canceled one stays canceled |
| `Billing.OverdueCatchesUp` | internal/billing/service/worker.go:43-81 | whenever between two instants n ticks with successful payments come, the subscription is still due at the first exactly if n renewals do not pass it, so never once 28 n days exceed its arrears; each payment moves it on by one period, and none comes before the period has ended |
| `Billing.CancellationSurvives` | internal/billing/service/worker.go:43-81 | a cancellation after the first j listed rows survives the tick exactly unless the row is among the rest and its outcome is written, and is not charged exactly unless the row is among the rest and its payment succeeds |
| `Billing.WorkSplits` | internal/billing/service/worker.go:49-54 | the loop over the listed rows is its first j rows and then the rest |
| `WebhookDlq.RunInv` | pkg/webhook/dlq.go:104-222 | the budget, retry-time and spacing invariants hold in every run of one worker, crashes included, among any other calls |
| `WebhookDlq.RetryBudget` | pkg/webhook/dlq.go:177-207 | attempts are one more than recorded failures; failures never exceed max(maxRetries - 1, 1) plus replays, and stay below while pending; pending entries have a retry time |
| `WebhookDlq.ExhaustedExactly` | pkg/webhook/dlq.go:177-207 | an entry nobody replays or abandons is exhausted if and only if it has failed max(maxRetries - 1, 1) times |
| `WebhookDlq.BackoffIsKept` | pkg/webhook/dlq.go:268-277 | the n-th retry comes no sooner than the sum of the first n delays after the first failure |
| `WebhookDlq.DefaultSchedule` | pkg/webhook/dlq.go:85-94 | by default an entry gives up after four retries, at the earliest after 156 minutes |
| `WebhookDlq.SettledStays` | pkg/webhook/dlq.go:136-163 | from every state, an entry that is neither pending nor claimed keeps its row until replayed or abandoned: also one left in `retrying` by a crash |
| `WebhookDlq.AbandonIsFinal` | pkg/webhook/dlq.go:159-214 | abandoning is final, in every continuation that does not replay or abandon the entry again, if and only if the worker neither has it in its listing nor is delivering it |
| `WebhookDlq.RetryTimes` | pkg/webhook/dlq.go:104-207 | in every run an entry expires a time to live after its first failure, and its next retry, unless replayed, is due exactly the scheduled delay after its last attempt |
| `WebhookDlq.DelayExact` | pkg/webhook/dlq.go:268-277 | the delay by attempt: the first at first, the last one once the schedule is used up |
| `WebhookDlq.DefaultDelays` | pkg/webhook/dlq.go:79-97 | by default 1, 5, 30, 120 and 360 minutes, and seven days to live |
| `WebhookDlq.ListedExactly` | pkg/webhook/dlq.go:136-156 | a listing that is not cut short holds exactly the pending entries that are due and have not expired |
| `WebhookDlq.StillListable` | pkg/webhook/dlq.go:136-266 | a pending entry can still be listed at some instant exactly if the cleanup leaves it and its retry falls before its expiry |
| `WebhookDlq.DeliveryExact` | pkg/webhook/dlq.go:167-207 | what success and failure leave of the delivered row, the other rows being as they were |
| `WebhookDlq.ManualExact` | pkg/webhook/dlq.go:159-222 | what a replay, an abandonment and the start of a delivery leave |
| `WebhookDlq.EntryIsAsAdded` | pkg/webhook/dlq.go:104-133 | in every run what is retried is the payload that was handed over |
| `RabbitMq.BreakerIsHistory` | pkg/messaging/rabbitmq.go:420-470 | for every history: open if and only if the failures since the last reset reach the threshold (at least 1), never half-open |
| `RabbitMq.AllowIsHistory` | pkg/messaging/rabbitmq.go:420-437 | the decision of Allow from the history alone |
| `RabbitMq.FailuresAddUp` | pkg/messaging/rabbitmq.go:439-470 | a breaker has never opened if and only if it has seen fewer failures than the threshold in all, whatever successes came between |
| `RabbitMq.HalfOpenIfEver` | pkg/messaging/rabbitmq.go:420-470 | from a half-open state, which is never reached, three successes close and one failure opens |
| `RabbitMq.BackoffClosedForm` | pkg/messaging/rabbitmq.go:210-217 | doubling capped at every step is doubling capped once, on the first wait exactly if the initial delay is within the cap |
| `RabbitMq.BackoffGrows` | pkg/messaging/rabbitmq.go:210-217 | waits never get shorter and never exceed the cap, if and only if it is not the first one, which is not capped, or the initial delay is within the cap |
| `RabbitMq.TotalWaitBound` | pkg/messaging/rabbitmq.go:180-219 | n failures wait at most 2^n - 1 initial delays, exactly that while the cap is not met, and at most n caps plus what the first wait exceeds the cap by, exactly that when the initial delay reaches the cap |
| `RabbitMq.DefaultBackoff` | pkg/messaging/rabbitmq.go:81-91 | by default the waits are 1, 2, 4, 8, 16 and 32 seconds and then a minute each |
| `Retry.DelayIsBackoff` | pkg/retry/retry.go:119-125 | with multiplier 2 the delay is the reconnection loop's, if and only if it is not the first one or the initial delay is within the cap |
| `Retry.DelayDoubles` | pkg/retry/retry.go:119-125 | with multiplier 2 the delay is the doubled initial delay, capped |
| `Retry.DelaysGrow` | pkg/retry/retry.go:119-125 | with a multiplier of at least 1 delays never get shorter and stay between 0 and the cap |
| `Retry.DelayExact` | pkg/retry/retry.go:119-125 | for every multiplier the delay is the geometric one, capped and rounded towards zero |
| `Retry.DefaultDelays` | pkg/retry/retry.go:56-74 | by default 1, 2, 4, 8 and 16 seconds and then half a minute each |
| `Secrets.CacheIsTransparent` | pkg/secrets/secrets.go:110-177 | with all writes through Put, every serial Get answers what the provider would at that moment |
| `Secrets.LastPutIsStored` | pkg/secrets/secrets.go:158-177 | that is the secret of the last accepted Put |
| `Secrets.CacheIgnoresProvider` | pkg/secrets/secrets.go:110-117 | after a read from one provider another's read agrees with that provider if and only if both store the same |
| `Secrets.CachedExactly` | pkg/secrets/secrets.go:110-137 | a cached secret answers reads of its key up to and including its expiry, whatever happens to the providers; otherwise the provider asked decides |
| `Secrets.PutExact` | pkg/secrets/secrets.go:158-177 | a Put changes one key of the primary provider and uncaches it, or is refused and changes nothing |
| `Secrets.GetIsItsSteps` | pkg/secrets/secrets.go:110-137 | an undisturbed Get is its steps of the interleaved runs |
| `Secrets.PutIsItsSteps` | pkg/secrets/secrets.go:158-177 | an accepted Put is a change and an invalidation |
| `Secrets.AnswersAreRecent` | pkg/secrets/secrets.go:110-137 | in every interleaving, whoever writes, an answer at t was the provider's value at some instant between t - TTL - fill latency and t |
| `Secrets.PutIsSeen` | pkg/secrets/secrets.go:158-177 | every Get that begins after a Put has invalidated the key answers with a secret stored since that Put, in every continuation, if and only if no call on the key then holds an older secret it can still put into the cache |
| `Scopes.FieldsAreTokens` | pkg/scopes/scopes.go:91-108 | every parsed scope is non-empty and free of commas and spaces |
| `Scopes.PartitionIsUnique` | pkg/scopes/scopes.go:111-123 | that contract admits one pair of lists only |
| `Scopes.ParseOfJoin` | pkg/scopes/scopes.go:91-128 | parsing undoes printing if and only if every scope is a token |
| `Scopes.JoinOfParse` | pkg/scopes/scopes.go:91-128 | printing a parse and parsing again gives the same list, for every input |
| `Scopes.ParsedSplit` | pkg/scopes/scopes.go:91-108 | two scope strings joined by a comma or space parse to one list after the other |
| `Scopes.GrantsCombine` | pkg/scopes/scopes.go:67-88 | a combined scope string grants exactly what one of its parts grants |
| `Scopes.GrantsGrow` | pkg/scopes/scopes.go:67-88 | more granted scopes never take a permission away |
| `Scopes.GrantsExact` | pkg/scopes/scopes.go:67-88 | a scope is granted exactly if none is required, or the wildcard, the scope itself or some `p:*` for a required `p:q` is among the granted ones |
| `Scopes.JoinAppend` | pkg/scopes/scopes.go:125-128 | scopes are printed one after the other with single spaces between |
| `AuditChain.SecureLogger.constructor` | pkg/audit/secure.go:44-61 | a new process starts from the signature of the newest row of the whole table, or from the genesis marker if there is none or the read fails |
| `AuditChain.SecureLogger.Log` | pkg/audit/secure.go:64-85 | an entry is stamped, chained to the last signature of any zone, signed and stored, and only a stored entry moves the chain head |
| `AuditChain.SecureLogger.VerifyChain` | pkg/audit/secure.go:131-162 | the loop from the oldest row of the window to the newest reports exactly the findings of the recursive scan, and accepts exactly when there are none |
| `CircuitBreaker.Breaker.ToNewGeneration` | pkg/resilience/breaker.go:169-186 | a new generation clears the counts and sets the expiry of its phase |
| `CircuitBreaker.Breaker.CurrentState` | pkg/resilience/breaker.go:141-153 | an expired closed generation is renewed and an expired open one becomes half-open, strictly after the expiry |
| `CircuitBreaker.Breaker.BeforeRequest` | pkg/resilience/breaker.go:104-121 | a request is refused when open, or when half-open and full; otherwise it is counted and told its generation |
| `CircuitBreaker.Breaker.AfterRequest` | pkg/resilience/breaker.go:123-139 | a result counts only for the generation it was admitted in |
| `CircuitBreaker.Breaker.HandleSuccess` | pkg/resilience/breaker.go:188-202 | successes count, and enough of them in a row close a half-open breaker |
| `CircuitBreaker.Breaker.HandleFailure` | pkg/resilience/breaker.go:204-216 | failures count, trip a closed breaker by its rule and reopen a half-open one at once |
| `CircuitBreaker.Breaker.Execute` | pkg/resilience/breaker.go:85-102 | a call that is admitted is recorded as a success exactly if it neither fails nor panics |
| `RateLimiter.Limiter.AllowN` | pkg/ratelimit/limiter.go:89-160 | a call prunes the key's set, and adds its units exactly if they fit; other keys stay as they are; remaining, reset and retry-after as reported |
| `OAuth.AuthHandler.RegisterClient` | cmd/auth/handlers.go:604-670 | a registration stores the client, with an empty secret hash if it is public, and allows its redirect URIs except those whose insert fails, which is ignored |
| `OAuth.AuthHandler.HandleAuthorize` | cmd/auth/handlers.go:501-588 | a code is stored, bound to client, user, URI, scope and challenge, exactly if all checks pass; otherwise nothing changes |
| `OAuth.AuthHandler.MarkAuthorizationCodeUsed` | internal/auth/infrastructure/sql_repository.go:495-510 | the compare-and-set succeeds once |
| `OAuth.AuthHandler.HandleAuthorizationCode` | cmd/auth/handlers.go:388-448 | undisturbed, an exchange that passes the checks uses up its code and issues one token for what the code was bound to; one that does not changes nothing |
| `OAuth.AuthHandler.HandleClientCredentials` | cmd/auth/handlers.go:350-386 | a token is issued to a client whose secret hashes to the stored hash |
| `OneTimeTokens.AuthService.Consume` | internal/auth/domain/service.go:298-327 | undisturbed, a valid token changes its user and is used up; an invalid one changes nothing |
| `Payments.PaymentHandler.CreatePaymentIntent` | cmd/payments/handlers.go:123-193 | an authenticated, valid request stores a new intent; any other changes nothing |
| `Payments.PaymentHandler.ConfirmPaymentIntent` | cmd/payments/handlers.go:195-362 | an intent that is not succeeded is charged; the outcome decides status, published event and ledger postings, and failures of the last two are ignored |
| `Payments.PaymentHandler.RecordPostings` | cmd/payments/handlers.go:291-349 | of one posting, or three for a split payment, those that get through are recorded in order |
| `Payments.PaymentHandler.RefundPaymentIntent` | cmd/payments/handlers.go:364-432 | only a succeeded intent is marked refunded, and an event published; the bank is not called |
| `Payments.PaymentHandler.IdempotencyMiddleware` | cmd/payments/handlers.go:34-88 | a recorded key is answered from the record; otherwise the request is handled and its answer recorded |
| `Ledger.LedgerService.RecordTransaction` | internal/ledger/domain/service.go:47-139 | a transaction is recorded exactly if its wrapped sum is zero, its accounts exist in one currency, its reference is new and no amount is zero; else the first check that fails is reported and nothing changes |
| `Ledger.LedgerService.BulkRecordTransactions` | cmd/ledger/grpc.go:64-104 | a batch is its transactions in turn, each judged in the ledger that those before it leave |
| `Billing.CalculateNextPeriod` | internal/billing/domain/service.go:74-79 | the next period end is 28 to 366 days later at the same time of day |
| `Billing.Repository.ListDueSubscriptions` | internal/billing/infrastructure/sql_repository.go:45-62 | the listing holds every active subscription whose period has ended, each once, without its cancellation |
| `Billing.BillingService.CreateSubscription` | internal/billing/domain/service.go:26-52 | a subscription starts active with its first period, uncharged, if its plan exists |
| `Billing.BillingService.CancelSubscription` | internal/billing/domain/service.go:54-72 | a cancellation marks the row canceled, if it exists and the write succeeds |
| `Billing.SubscriptionWorker.ProcessSubscription` | internal/billing/service/worker.go:57-81 | a declined payment makes the row past due; a successful one is billed and moves the period on |
| `Billing.SubscriptionWorker.RunProcess` | internal/billing/service/worker.go:43-55 | a tick processes the due rows one by one, each as it was listed |
| `WebhookDlq.DeadLetterQueue.GetRetryDelay` | pkg/webhook/dlq.go:268-277 | the delay is one of the schedule, the last one repeating |
| `WebhookDlq.DeadLetterQueue.Add` | pkg/webhook/dlq.go:104-133 | a new entry is pending with one attempt, a retry time and an expiry; an existing id is refused |
| `WebhookDlq.DeadLetterQueue.GetPendingRetries` | pkg/webhook/dlq.go:136-156 | the listing holds at most `limit` ready entries, earliest first, and leaves out none that is earlier |
| `WebhookDlq.DeadLetterQueue.RecordFailure` | pkg/webhook/dlq.go:177-207 | one more attempt: exhausted without a retry time if attempts are used up, else pending with one |
| `WebhookDlq.DeadLetterQueue.CleanupExpired` | pkg/webhook/dlq.go:257-266 | exactly the pending entries past their expiry expire, and are counted |
| `RabbitMq.CircuitBreaker.Allow` | pkg/messaging/rabbitmq.go:420-437 | refuses exactly while open and the last failure is not longer ago than the timeout |
| `RabbitMq.CircuitBreaker.RecordSuccess` | pkg/messaging/rabbitmq.go:439-456 | closes an open breaker, counts towards closing a half-open one, and changes nothing when closed |
| `RabbitMq.CircuitBreaker.RecordFailure` | pkg/messaging/rabbitmq.go:458-470 | counts and stamps the failure and opens the breaker at the threshold |
| `RabbitMq.Reconnect` | pkg/messaging/rabbitmq.go:180-219 | the loop waits the k-th backoff after the k-th failure, and stops when closed, out of retries or connected |
| `Retry.Execute` | pkg/retry/retry.go:76-99 | calls until a success, the last attempt or a cancelled wait, with the calculated delay after each failure before the last |
| `Secrets.Manager.GetFrom` | pkg/secrets/secrets.go:110-137 | answers from a fresh cache entry, else from the provider, filling the cache |
| `Secrets.Manager.Put` | pkg/secrets/secrets.go:158-177 | an accepted write reaches the primary provider and empties the cache for its key; a refused one changes nothing |
| `Scopes.ParseScopes` | pkg/scopes/scopes.go:91-108 | the loop, its trimming included, returns the fields of the string with commas as spaces |
| `Scopes.HasScope` | pkg/scopes/scopes.go:67-88 | true exactly if nothing is required or some parsed scope covers it: wildcard, equal, or `prefix:*` |
| `Scopes.ValidateScopes` | pkg/scopes/scopes.go:111-123 | the two results interleave to the parse, one all valid, the other all invalid |

## Left out

- AuditChain: the MAC is an uninterpreted function without collisions; the check of the signing key's length, ties in the
  query's order by timestamp, and what storage does to the unsigned columns are not modelled. Timestamps are
  distinct and increasing, except where several loggers are treated.
- CircuitBreaker: the state-change hook, the 32-bit width of the counts and the 64-bit width of the generation.
- RateLimiter: all callers share one clock, so skew between servers is not modelled; key expiry, clocks finer than a
  millisecond and collisions of member names; requests that the middleware lets pass when Redis fails; `Burst`, which the
  code never reads; one configuration per key.
- OAuth: deletion of clients (there is none), refresh tokens, introspection, token expiry, and failing reads, which change
  nothing; hashes are uninterpreted functions and SHA-256 output is never empty.
- OneTimeTokens: creating tokens sends email; only their rows are modelled.
- Payments: the publication to Redis for the command line tool, metrics, audit calls, paths and methods. In the
  overlapping runs a charge and the status update after it are one step; nothing of the database is read between them.
- Ledger: accounts are names, as the domain service treats them; schema.sql types them UUID, under which no posting to
  `system_balancing` could be stored. The outbox, zones, modes, the cached repository and database failures are left out.
  End to end, payments are served one at a time, their ids are not empty, and calls and events each arrive in order.
- Calendar: local time zones and daylight saving time; instants are UTC. Years outside Go's range of time values.
- Billing: amounts and invoices; a missing plan, which the foreign key excludes. Of what can come
  between the rows of a tick only a cancellation is treated.
- WebhookDlq: several workers at once. The repository holds the queue but not the worker that drives it; the runs assume
  one that finishes its listing before it polls again. GetStats, headers and URLs are left out.
- RabbitMq: connections, channels, consumers, and Publish around the breaker; the reconnect loop is observed over a finite
  sequence of rounds. The closed form assumes delays below 2 to the 62nd nanoseconds.
- Retry: rounding of float64; delays are computed over the reals and truncated. The dead letter stream is Redis I/O.
- Secrets: List, Delete, Health and rotation; callers that change a cached secret in place; a Put that is refused writes nothing
  (one that writes and then fails is an out-of-band write, covered by the interleaved theorem). Time zones of clocks.
- Scopes: GetRequiredScope, a table lookup; strings are sequences of characters, not UTF-8 bytes.
- Approval postings of internal/flow, notifications, fraud rules, policy engines, tenants and SIEM: not part of this model.
- HTTP, gRPC, generated code, the gateway, CLI, SDKs, SAML, OIDC, SCIM, bcrypt, JWT and encryption: wrappers and foreign calls.
