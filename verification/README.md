# PulseLedger: a verified model

PulseLedger is a double-entry payment ledger on PostgreSQL. Its promises rest on three state
machines that meet in the database: concurrent transfers and fundings that lock account rows, post a
balanced journal entry and update cached balances; an idempotency protocol over one row per
(principal, key, operation); and a transactional outbox drained by leased workers into a consumer
that applies each event at most once. This project models them in Dafny, statement by statement
where the SQL is the program, and proves what they keep over every run: any number of requests,
workers and operators, interleaved in any order, with crashes, aborts, retries, lease overruns and
purges anywhere.

`dafny verify dfyconfig.toml` checks everything.

## How it is laid out

| file | what it is |
|---|---|
| `Ledger.dfy` | the book (accounts, journal, ledger transactions), one posting, the book invariant |
| `LedgerTriggers.dfy` | any data statements on the ledger tables against the append-only and commit-time triggers |
| `LedgerDomain.dfy` | the application's own posting validation |
| `Requests.dfy` | transfers and fundings, their checks, serial histories, and locality: a transaction that saw only its locked rows did what it would have done on the whole book |
| `Idempotency.dfy` | the idempotency table, its statements, and the life of one key |
| `Postings.dfy`, `PostingTheorems.dfy` | the concurrent posting machine and what all its runs guarantee |
| `Delivery.dfy`, `DeliveryTheorems.dfy` | outbox, workers, consumer and operator as one machine, and its guarantees |
| `PostingRefinement.dfy`, `OutboxRefinement.dfy` | the code refines the machines: an attempt, a claim's statements, a poll, a replay and a sweep are lists of machine actions |
| `LeaseOverruns.dfy` | what workers that overrun their leases can do: exactly which events have no bound on their attempts, and whose lease a late failure cuts short |
| `StaleHolder.dfy` | whose claim a posting transaction completes: the exact rule of the backstop, and a run of a stale holder |
| `PulseSystem.dfy` | both machines joined at the commit that writes money and event together |
| `LedgerDatabase.dfy`, `TransferService.dfy`, `TransferRoutes.dfy` | the posting transaction, the retry loop and the request handler as imperative code over mutable tables |
| `IdempotencyStore.dfy`, `Outbox.dfy`, `PollChain.dfy`, `Transaction.dfy`, `Batches.dfy` | the stores, the consumer, the worker and `withTransaction` as imperative code |
| `Reconciliation.dfy`, `Keyset.dfy`, `MoneyText.dfy`, `CanonicalJson.dfy`, `Backoff.dfy` | reconciliation, pagination, money text, canonical request form, retry delays |

A run is a sequence of states with one enabled action between each two (`IsRun`). Safety theorems
quantify over all runs. The imperative code is tied to the machines in both directions: a commit in
the middle of any interleaving leaves what the one transaction would
(`PostingTheorems.CommitIsOneTransaction`), and an attempt, a poll or a sweep, whatever goes wrong in
it, is a list of machine actions (`PostingRefinement.AttemptIsRun`, `OutboxRefinement.PollIsRun`).

## Where code and promise differ

- A COMMIT can take effect and its answer be lost. The request then ends in a server error although
  its money moved. `TransferService.ErrorChangesIffLost` says this is the only way an error leaves a
  change; `TransferService.PostsAtMostOnce` that even a retry would not post again; and
  `TransferRoutes.LostAnswerIsReplayed` that resending with the key is answered with the posting.
- The design says a posting transaction that does not hold the key's claim rolls back. The code asks
  only for some unfinished row: `StaleHolder.StaleHolderPosts` is a run in which a request whose claim
  was reclaimed posts and settles the later claim. `StaleHolder.BackstopIff` is the exact condition for
  the rollback of a funding; a transfer, whose UPDATE looks in its SERIALIZABLE snapshot, rolls back
  whenever that condition asks for it and may do so in further cases. At most one posting per key
  survives that (`PostingTheorems.AtMostOnePostingPerKey`).
- A reclaim that is lost re-reads the row without comparing fingerprints, so a replay may carry another
  request's answer (`IdempotencyStore.ForeignAnswerReplayed`). `IdempotencyStore.ForeignReplayIff` is
  the exact condition, and without a release or purge of the key in between it never happens
  (`IdempotencyStore.NoForeignReplay`).
- `sortKeysDeep`, as a function, drops the key `__proto__`, so two different bodies can share a
  canonical form (`CanonicalJson.ProtoKeyIsLost`); `CanonicalJson.CanonicalIff` is the exact condition.
  The routes' closed schemas and the framework's parser keep such bodies from reaching it.
- The journal's triggers do not fire on TRUNCATE (`LedgerTriggers.TruncateEscapesTriggers`), so the
  committed ledger is append-only exactly as long as nobody truncates it
  (`LedgerTriggers.LedgerIsAppendOnly`).
- A worker that dies without marking its event failed lets the attempt count pass the maximum, without
  bound (`LeaseOverruns.AttemptsUnbounded`). An event whose own claims are settled inside their
  leases never does (`DeliveryTheorems.DeliveryIsBounded`); and whatever happened before, the count can
  grow further if and only if the row is neither processed nor parked
  (`LeaseOverruns.AttemptsGrowIff`).
- A worker that marks its event failed after its lease has passed cuts short the lease of whoever
  claimed the event since: two workers may then hold it by claims less than the lease apart
  (`LeaseOverruns.LateFailureCutsLease`). The inbox still lets it take effect once.
- Reconciliation groups the journal by account and currency but joins by account alone.
  `Reconciliation.ReportIsExact` is its verdict on any tables; the foreign keys, which keep an account's
  entries in one currency, make that one issue per disagreeing account
  (`Reconciliation.OneIssuePerAccount`).

## Model

| member | source | states |
|---|---|---|
| Ledger.GroupedUpdateIsFold | migrations/002_double_entry_ledger.sql:248-259 | the grouped signed-delta UPDATE moves every balance exactly as applying the entries one by one would, for any entry list: repeated, unknown and unbalanced accounts included |
| Ledger.AcceptedPassesCommitCheck | migrations/002_double_entry_ledger.sql:94-137 | an accepted posting has a debit, a credit, equal totals and is finalized, so the deferred check never refuses it |
| Ledger.CommitCheckIff | migrations/002_double_entry_ledger.sql:94-137 | the commit check passes exactly the finalized transactions that have a debit, a credit and equal totals |
| Ledger.PostLedgerRefusals | migrations/002_double_entry_ledger.sql:151-271 | a posting is refused with the error of the first condition that fails: well-formed arrays, positive amounts and known sides, active accounts, one currency, a zero net, an unused id, balances in range and no customer below zero; with none failing it is accepted |
| Ledger.PostLedgerConserves | migrations/002_double_entry_ledger.sql:218-259 | a posting creates and destroys no money: each currency's balances still sum to zero |
| Ledger.PostLedgerKeepsBook | migrations/002_double_entry_ledger.sql:151-271 | every accepted posting keeps the whole book invariant: cache equals journal, totals zero, balances legal, every transaction committed and balanced, every entry well-formed |
| LedgerTriggers.LedgerIsAppendOnly | migrations/002_double_entry_ledger.sql:36-149 | for any INSERT, UPDATE, DELETE and TRUNCATE statements of a committing transaction: earlier transactions and entries stay untouched throughout, and nothing is added to them, if and only if no committed row is truncated; and then every transaction is finalized and balanced |
| LedgerTriggers.TruncateEscapesTriggers | migrations/002_double_entry_ledger.sql:64-72 | truncating a journal with entries commits, and leaves transactions the commit check would refuse |
| LedgerTriggers.StatementOnlyAppends | migrations/002_double_entry_ledger.sql:36-92 | even inside its own transaction, no statement but TRUNCATE changes a row except by finalizing it, removes one, or adds an entry to a finalized transaction |
| LedgerTriggers.PostingPassesTriggers | migrations/002_double_entry_ledger.sql:228-263 | the statements of an accepted posting get past every trigger and leave exactly its rows |
| LedgerDomain.ValidatePosting | src/modules/ledger/ledger-domain.ts:193-213 | the first failing rule decides the error, and no error means two entries or more with both sides, one currency and equal totals |
| LedgerDomain.ValidatedIsPosted | src/modules/ledger/ledger-repository.ts:197-219 | a validated posting to active accounts of its currency becomes exactly its journal rows under a finalized transaction, refused only for a used id or an illegal balance |
| Requests.TransferExecutesIff | src/modules/transfers/transfer-service.ts:111-153 | a transfer run alone succeeds if and only if its ownership, treasury, status, currency, funds, range and fresh-id conditions hold |
| Requests.TransferRefusals | src/modules/transfers/transfer-service.ts:117-140 | the first condition a transfer fails, visibility and ownership, status, currency, funds, id, range, decides its error, and it goes through exactly when none fails |
| Requests.TransferLeaves | src/modules/transfers/transfer-repository.ts:82-108 | a transfer that went through took its amount from an account of its caller, gave it to the destination, and left one credit of the source, one debit of the destination, a finalized transfer transaction and its transfer row, nothing else |
| Requests.FundingExecutesIff | src/modules/ledger/ledger-service.ts:43-84 | a funding goes through if and only if customer account and treasury are there, active, in one currency and in range, and the id is new |
| Requests.FundingLeaves | src/modules/ledger/ledger-service.ts:63-72 | a funding debits the account and credits the treasury by its amount under a finalized funding transaction, and writes no transfer row |
| Requests.AccountStatements | src/modules/accounts/account-repository.ts:32-40 | a new account is an active, empty customer account of its owner, and a status change changes nothing but the status |
| Requests.TwoEntries | src/modules/transfers/transfer-repository.ts:82-93 | the two-entry posting is balanced by the amount, raises one balance and lowers the other by it, and touches nothing else |
| Requests.OperationKeepsBook | src/modules/transfers/transfer-repository.ts:73-159 | account opening, status change, transfer and funding each keep the book invariant |
| Requests.OperationKeepsTransfers | src/modules/transfers/transfer-repository.ts:82-108 | every operation keeps each transfer row equal to what its two journal entries say |
| Requests.BodyLocal | src/modules/transfers/transfer-repository.ts:52-71 | a transaction that saw only its locked rows has the same outcome, and installs the same book, as one run on the whole committed book |
| Idempotency.StatementKeepsSpacing | src/modules/idempotency/idempotency-repository.ts:66-132 | no statement lets two callers proceed on one row within the stale timeout of each other |
| Idempotency.ExactlyOneReclaims | src/modules/idempotency/idempotency-repository.ts:101-116 | of any number of concurrent reclaimers of one stale row, in any order, exactly one UPDATE moves it: the first |
| Idempotency.CompletedRowIsStable | src/modules/idempotency/idempotency-repository.ts:149-185 | a completed row survives every statement but a purge old enough for it |
| Postings.CommitIsSerial | src/modules/transfers/transfer-repository.ts:190-199 | committing what was written under lock is executing the whole request alone at the moment of commit |
| Postings.NextKeepsInv | src/modules/transfers/transfer-service.ts:109-153 | every step of any interleaving keeps: books consistent, history serializable, attempts isolated, keys and postings in step |
| PostingRefinement.AttemptIsRun | src/modules/transfers/transfer-repository.ts:52-159 | one attempt of any request, whatever failure hits it and wherever, is a list of machine actions that leads to exactly the book and keys the attempt leaves |
| PostingRefinement.StatementsAreRun | src/modules/idempotency/idempotency-repository.ts:66-185 | the statements of the key protocol, run one after another, are that many machine actions |
| PostingRefinement.SweepIsRun | src/modules/idempotency/idempotency-repository.ts:187-208 | the retention sweep of the keys is a list of the machine's purges |
| PostingTheorems.SerialEquivalence | src/modules/transfers/transfer-service.ts:109-153 | the committed book of every run equals executing the committed operations one at a time in commit order |
| PostingTheorems.ChecksHoldSerially | src/modules/transfers/transfer-service.ts:117-140 | each committed transfer's checks hold in the serial state just before it, and it moves exactly its amount |
| PostingTheorems.BooksAlwaysAgree | src/modules/reconciliation/reconciliation-repository.ts:31-50 | in every reachable state each cached balance is its journal sum, each currency sums to zero, balances fit 64 bits and customers are never negative |
| PostingTheorems.TransfersMirrorJournal | migrations/004_transfer_ledger_integrity.sql:7-15 | in every reachable state each transfer row names a finalized transfer transaction of its currency whose journal is exactly its one credit and its one debit, and exactly the transactions of kind transfer have such a row |
| PostingTheorems.EveryRunReconciles | src/modules/reconciliation/reconciliation-repository.ts:93-98 | reconciliation reports no issue in any reachable state |
| PostingTheorems.CommitIsOneTransaction | src/modules/transfers/transfer-repository.ts:131-156 | a commit at the end of any interleaving leaves the book, key row and event list that the imperative transaction would leave if run at once |
| PostingTheorems.CommittedHistoryIsAppendOnly | migrations/002_double_entry_ledger.sql:64-92 | between any two points of a run the committed ledger was only appended to, and no old transaction gained an entry |
| PostingTheorems.AtMostOnePostingPerKey | src/modules/transfers/transfer-repository.ts:147-155 | under any duplicates, stale reclaims, crashes, releases and late settlements, the commits under a key never exceed one plus the purges of its row in the run, and the row answers 201 exactly when one posting is unpurged, with that posting's id |
| PostingTheorems.RecordsAreTrue | src/modules/transfers/transfer-repository.ts:131-156 | the postings and purges the machine counts per key are the commits and purges its run contains |
| PostingTheorems.ReclaimsAreSpaced | src/modules/idempotency/idempotency-repository.ts:95-116 | in every run two callers that proceed on one row, undisturbed by release or purge, are more than the stale timeout apart |
| PostingTheorems.ReplayIsStable | src/modules/idempotency/idempotency-repository.ts:149-185 | from completion to purge no step of any run changes a key's row, and nobody proceeds on it |
| PostingTheorems.NoWaitCycle | migrations/002_double_entry_ledger.sql:190-194 | in every reachable state the wait-for relation has no cycle of any length |
| PostingTheorems.SomeoneCanStep | src/modules/transfers/transfer-repository.ts:52-62 | while attempts are unfinished, some attempt can take its own next step without anybody aborting |
| StaleHolder.BackstopIff | src/modules/transfers/transfer-repository.ts:147-155 | a transaction that wrote its posting is rolled back by the backstop if and only if the rows its UPDATE sees hold no unfinished row of its key: those of that moment for a funding, at most those, of its snapshot, for a transfer |
| StaleHolder.StaleHolderPosts | src/modules/transfers/transfer-repository.ts:131-156 | for every stale timeout a run in which a request whose claim was reclaimed by another caller commits, once, and answers the later claim |
| Delivery.NextKeepsInv | src/modules/outbox/outbox-repository.ts:82-123 | every step of workers, consumer, operator and sweep keeps nothing lost, nothing doubled, leases apart, attempts counted |
| DeliveryTheorems.NoLostEventNoDoubleEffect | src/modules/audit/audit-repository.ts:13-45 | over every run each written event is still in the outbox or has its effect, no event has two, and every effect is a written event's |
| DeliveryTheorems.ConcurrentClaimsAreDisjoint | src/modules/outbox/outbox-repository.ts:85-94 | two claims not yet committed never have the same event locked |
| DeliveryTheorems.LeasesExclude | src/modules/outbox/outbox-repository.ts:82-105 | while an event's claims stay within their leases, no two workers hold a claim of it unfinished, and none claims it anew from under another |
| DeliveryTheorems.ClaimsAreALeaseApart | src/modules/outbox/outbox-repository.ts:95-101 | two claims of one event with no markFailed or replay between them are at least the lease apart |
| DeliveryTheorems.AttemptsCountClaims | src/modules/outbox/outbox-repository.ts:95-101 | attempts is exactly the number of claims since insertion or the last replay |
| DeliveryTheorems.ParkedUntilReplay | src/modules/outbox/outbox-repository.ts:182-194 | an event parked at infinity stays as it is, locked by nobody, until an operator replays it |
| DeliveryTheorems.ProcessedIsFinal | src/modules/outbox/outbox-repository.ts:107-123 | a processed event never changes again in any run, and leaves the outbox only through a sweep its age allows |
| DeliveryTheorems.ProcessedWhenItSays | src/modules/outbox/outbox-repository.ts:107-114 | a processed event was marked so, out of processing, at the time its row says |
| DeliveryTheorems.OnlyOldProcessedLeave | src/modules/outbox/outbox-repository.ts:205-224 | in every run an event leaves the outbox only by a sweep, and only after it was marked processed before the cutoff |
| DeliveryTheorems.DeliveryIsBounded | src/modules/outbox/outbox-worker.ts:116-137 | an event whose own claims are settled within their leases never has more attempts than the maximum (or one, if the maximum is zero), whatever happens to other events |
| LeaseOverruns.AttemptsGrowIff | src/modules/outbox/outbox-domain.ts:90-96 | in any reachable state and for any maximum, an event's attempts can without a replay still grow to any number if and only if its row is neither processed nor parked |
| LeaseOverruns.AttemptsUnbounded | src/modules/outbox/outbox-domain.ts:90-96 | for every lease, maximum and batch size a run from empty tables in which workers that die push an event to any number of attempts |
| LeaseOverruns.LateFailureCutsLease | src/modules/outbox/outbox-repository.ts:116-123 | for every lease and every shorter wait a run in which a markFailed after its own lease frees an event another worker holds, and a third claims it before that lease is over |
| PulseSystem.ExactlyOneEventAtMostOneEffect | src/modules/transfers/transfer-repository.ts:121-129 | in the whole system each committed posting has one event, pending or applied, and no other; every event written is a committed posting's; no posting has two effects; every effect belongs to a committed posting |
| LedgerDatabase.CountsFindUnavailable | migrations/002_double_entry_ledger.sql:202-212 | comparing the two counts finds exactly the postings naming a missing or inactive account |
| LedgerDatabase.CountFindsMixed | migrations/002_double_entry_ledger.sql:214-216 | one distinct currency counted means all named accounts share it |
| LedgerDatabase.Database.GroupByAccount | migrations/002_double_entry_ledger.sql:252-257 | the hash aggregate holds, for each account named, its signed sum, and no other account |
| LedgerDatabase.Database.PostLedgerTransaction | migrations/002_double_entry_ledger.sql:151-271 | the statement sequence, counting checks and one grouped UPDATE, refines the one-entry-at-a-time posting, errors included |
| LedgerDatabase.Database.PostRequest | src/modules/transfers/transfer-repository.ts:73-159 | ledger, transfer row, event and the key's answer are written together, or the first failing statement's error is returned |
| LedgerDatabase.Database.RunTransaction | src/modules/transfers/transfer-repository.ts:190-199 | one attempt installs the whole request or leaves every table as it was; it installs it exactly if it was sound and COMMIT took effect, answered or not; and it is answered with success, its own rejection, or the failure that hit it, retryable or not as that failure is |
| TransferService.FromMinorTakes | src/modules/ledger/ledger-domain.ts:29-42 | of all texts exactly the decimal form of each integer from 1 to the bigint maximum is accepted |
| TransferService.DefaultSleepBound | docs/adr/002-serializable-locking-retries.md:25 | with the defaults, any jitter and any rounding of the arithmetic, at most 362 ms of sleep are scheduled |
| TransferService.DefaultSleepsAre | src/modules/transfers/transfer-service.ts:167-179 | a full run of sleeps is 362 ms exactly when no delay is cut short by its factor, and each one that is takes off a millisecond at least, so with all cut short 351 ms remain at most |
| TransferService.DefaultSleepBoundReached | src/modules/transfers/transfer-service.ts:175-176 | in doubles, the largest jitter below one reaches the 362 ms |
| TransferService.PostsAtMostOnce | src/modules/transfers/transfer-service.ts:104-113 | one request posts at most once: after an attempt that took effect, even unheard, every later one is refused and changes nothing |
| TransferService.ErrorChangesIffLost | src/modules/transfers/transfer-service.ts:163-165 | a request that ends in an error changed the tables if and only if its last COMMIT took effect and the answer was lost, and then by exactly its posting |
| TransferService.RetriedWhileUndone | src/modules/transfers/transfer-service.ts:163-180 | attempts undone by 40001 or 40P01, in the body or at a sound COMMIT, are retried and only they: the first other attempt decides, completed, rejected or rethrown, and the request is exhausted exactly if all are undone |
| TransferService.CompletedTransfers | src/modules/transfers/transfer-service.ts:148-161 | a completed request moved exactly its amount between the tables its last attempt found and left, wrote one event and answered its key |
| TransferService.Service.Attempts | src/modules/transfers/transfer-service.ts:109-181 | all attempts but the last are answered retryably, one retry and one sleep recorded for each; the last answer decides the ending and the tables are what the attempts left, whatever others commit in between |
| TransferService.Service.Create | src/modules/transfers/transfer-service.ts:94-184 | never more than the maximum number of transactions, exactly one of completed, exhausted or rethrown; it ends at the first attempt not undone by a retryable failure; completed means the amount moved, with one event and the key's answer; on an error the tables differ from what others left if and only if the last COMMIT took effect unheard |
| TransferRoutes.ProceededEnds | src/modules/transfers/transfer-routes.ts:86-105 | a request that owned its key ends with the key answered for good, 201 exactly when the book changed, or with the key free and nothing else changed, or, its COMMIT's answer lost, with a server error and the key answered 201 |
| TransferRoutes.ClaimDecides | src/modules/transfers/transfer-routes.ts:71-83 | a request proceeds exactly on a free key or on its own claim gone stale; otherwise another request's key conflicts, a stored answer is replayed, a running claim is reported, and nothing changes |
| TransferRoutes.AccountsDecide | src/modules/transfers/transfer-service.ts:111-148 | with no infrastructure failing, the first of visibility, status, currency, funds and range that fails gives the status and code, and the answer is 201 if and only if none fails |
| TransferRoutes.MalformedIsRefused | src/modules/transfers/transfer-service.ts:99-102 | 400 for an amount exactly when the text is no decimal from 1 to the bigint maximum, and for a transfer to the source itself |
| TransferRoutes.AnswerMovesMoney | src/modules/transfers/transfer-routes.ts:86-91 | a 201, even a lost one, means the named amount left the caller's source account for the destination, with its credit and its debit in the journal and one event |
| TransferRoutes.RetryGetsTheSameAnswer | src/modules/transfers/transfer-routes.ts:65-106 | resending a request, at any later time, gets the first answer again and changes nothing, unless that answer was a server error or in progress |
| TransferRoutes.LostAnswerIsReplayed | src/modules/transfers/transfer-routes.ts:86-105 | after a lost COMMIT answer the tables are those of the answered request, and resending is answered its 201 and changes nothing |
| TransferRoutes.Handler.Post | src/modules/transfers/transfer-routes.ts:65-106 | undisturbed, however often it retries and whatever failures its attempts meet, it is exactly claim, create and settle under its last attempt's failure, and a 201 means the amount moved; in any world no transaction begins unless the claim proceeds, a settled key is answered from its row, and the key is settled once, as answered, unless it was completed with the money or lost |
| TransferRoutes.Handler.Settle | src/modules/idempotency/idempotency-service.ts:53-70 | a client error becomes the key's answer, anything else frees the key, and a failing settlement changes nothing |
| IdempotencyStore.ForeignReplayIff | src/modules/idempotency/idempotency-repository.ts:80-126 | a try replays another request's answer if and only if it saw its own stale claim, its UPDATE moved nothing, and the row read again was completed under another fingerprint |
| IdempotencyStore.NoForeignReplay | src/modules/idempotency/idempotency-repository.ts:101-125 | with no release and no purge of the key between the SELECT and the second look, a try never replays another request's answer |
| IdempotencyStore.ClaimReplaysOwn | src/modules/idempotency/idempotency-repository.ts:45-64 | the same for the whole claim loop |
| IdempotencyStore.ForeignAnswerReplayed | src/modules/idempotency/idempotency-repository.ts:119-125 | a concrete interleaving in which another request's answer is replayed |
| IdempotencyStore.SettledIsAnswered | src/modules/idempotency/idempotency-repository.ts:83-92 | a settled row nobody purges is replayed to its fingerprint and conflicts with any other, and stays |
| IdempotencyStore.QuietIsAlone | src/modules/idempotency/idempotency-repository.ts:66-132 | with nobody interfering the loop of statements is the one-step claim |
| IdempotencyStore.Store.TryClaim | src/modules/idempotency/idempotency-repository.ts:66-132 | one try, with any statements of others between its own: it proceeds exactly when its own INSERT or UPDATE took effect, is in progress only on an unfinished row, and has no answer only on an empty slot |
| IdempotencyStore.Store.ReclaimStale | src/modules/idempotency/idempotency-repository.ts:96-126 | the reclaim proceeds exactly when its UPDATE took effect; a lost one answers from the row as it then stands, completed or unfinished, or finds the slot empty |
| IdempotencyStore.Store.Claim | src/modules/idempotency/idempotency-repository.ts:45-64 | at most six statements, at most the last takes effect, and it proceeds exactly then; it gives up only on an unfinished row or, after three tries, a slot empty each time; a settled row is replayed or conflicts; alone it is the one-step claim |
| IdempotencyStore.Store.Release | src/modules/idempotency/idempotency-repository.ts:149-162 | an unfinished claim disappears, a completed row stays |
| IdempotencyStore.Store.Complete | src/modules/idempotency/idempotency-repository.ts:164-185 | an unfinished claim gets its answer, a completed row keeps its own |
| IdempotencyStore.Store.PurgeCompletedBefore | src/modules/idempotency/idempotency-repository.ts:187-208 | the sweep removes exactly the completed rows older than the cutoff and reports how many; every other row stays as it is, an unfinished one always; it is what one purge statement per key leaves |
| Batches.TakeOldest | src/modules/outbox/outbox-repository.ts:90-91 | the oldest rows up to the limit: nothing left out is older than anything taken |
| Outbox.Store.ClaimBatch | src/modules/outbox/outbox-repository.ts:82-105 | only rows that are unfinished, due, neither parked nor under a live lease nor locked by others; the oldest of them up to the limit, all of them below it; each leased, counted and returned with its new attempt number, and no other row touched |
| Outbox.Store.MarkProcessed | src/modules/outbox/outbox-repository.ts:107-114 | only a processing event becomes processed |
| Outbox.Store.MarkFailed | src/modules/outbox/outbox-repository.ts:116-123 | only a processing event becomes failed, with the given next attempt |
| Outbox.Store.Replay | src/modules/outbox/outbox-repository.ts:182-194 | true exactly for a parked event, which alone gets a fresh budget |
| Outbox.Store.ReplayAllParked | src/modules/outbox/outbox-repository.ts:196-203 | every parked event is reset, counted once, and none stays parked |
| Outbox.Store.PurgeProcessedBefore | src/modules/outbox/outbox-repository.ts:205-224 | the sweep removes exactly the processed events older than the cutoff and reports how many |
| Outbox.AuditConsumer.Consume | src/modules/audit/audit-repository.ts:13-45 | inbox row and effect appear together or not at all, whether or not the COMMIT's answer arrives; a second delivery is a duplicate without effect, and each inbox event keeps exactly one effect |
| Outbox.NextAttemptBounds | src/modules/outbox/outbox-domain.ts:98-103 | a failed event waits between half of and all of 100 ms doubled with each attempt, a minute from the eleventh on; at least 50 ms, 100 ms from the second attempt on |
| Outbox.PolledRowEnds | src/modules/outbox/outbox-worker.ts:116-137 | each claimed event ends processed exactly when the mark took effect, parked exactly when the budget is spent, due in 100 ms to a minute when failed, or still leased |
| Outbox.Poller.ProcessEvent | src/modules/outbox/outbox-worker.ts:116-137 | handler, markProcessed and markFailed, each done, undone or done with its answer lost where that differs; what becomes of the row, if it is still there, of the inbox and the effects, and which error escapes |
| Outbox.Poller.Poll | src/modules/outbox/outbox-worker.ts:98-114 | a batch of the oldest due rows is processed in order until done or until an error escapes, a failed claim processes nothing; every row's fate, the events consumed, the effects with their own aggregates, and no other row touched |
| OutboxRefinement.ClaimBatchIsRun | src/modules/outbox/outbox-repository.ts:82-105 | claimBatch is one claim of the delivery machine, from BEGIN over its row locks to COMMIT |
| OutboxRefinement.ProcessEventIsRun | src/modules/outbox/outbox-worker.ts:116-137 | processing one event, whatever goes wrong with it, is a list of the machine's moves of one worker |
| OutboxRefinement.PollIsRun | src/modules/outbox/outbox-worker.ts:98-114 | one whole poll is a list of machine actions that leads to exactly the rows, inbox and effects the poll leaves, every other worker where it was |
| OutboxRefinement.ReplayAllIsRun | src/modules/outbox/outbox-repository.ts:196-203 | replaying all parked events is one machine replay for each |
| OutboxRefinement.SweepIsRun | src/modules/outbox/outbox-repository.ts:205-224 | the retention sweep is the machine's purge, tried on every event |
| PollChain.SingleChain | src/modules/outbox/outbox-worker.ts:85-96 | over every interleaving a pending timer and a poll in flight never coexist, and a running worker always has one of them |
| PollChain.PollsDoNotOverlap | src/modules/outbox/outbox-worker.ts:89-95 | a poll only begins when none is in flight |
| PollChain.RunningKeepsPolling | src/modules/outbox/outbox-worker.ts:85-96 | in every reachable state a running worker's timer can fire into a poll, or its poll can end and sets the timer; a worker that is off begins nothing and sets none |
| PollChain.StopResolvesQuiet | src/modules/outbox/outbox-worker.ts:69-79 | when stop resolves nothing is in flight or scheduled, unless start was called again |
| PollChain.OutboxWorker.SchedulePoll | src/modules/outbox/outbox-worker.ts:85-96 | a timer is set exactly when the worker runs with neither timer nor poll |
| PollChain.OutboxWorker.Start | src/modules/outbox/outbox-worker.ts:57-61 | starting twice is starting once, a started worker runs and has a timer unless a poll is still in flight, and a running worker keeps its one chain |
| PollChain.OutboxWorker.Stop | src/modules/outbox/outbox-worker.ts:69-79 | the timer is cleared, the poll in flight is left alone and is what is waited for |
| Transaction.Connection.WithTransaction | src/ports/transaction.ts:19-42 | the first failure is thrown whatever ROLLBACK does, data changes only by the whole work, and the connection is handed back once, for reuse only with no transaction open |
| Reconciliation.ReconciliationStore.Run | src/modules/reconciliation/reconciliation-repository.ts:25-99 | the loop's report lists exactly the accounts at fault, in id order, and ok holds if and only if every journal account is known and each group sums to its cached balance |
| Reconciliation.ReportIsExact | src/modules/reconciliation/reconciliation-repository.ts:31-98 | on any tables: exactly the disagreeing groups, unknown accounts and unsupported balances are listed, in id order, and ok holds if and only if every journal account is known and each group of each account sums to its cached balance, zero if it has none |
| Reconciliation.OneIssuePerAccount | src/modules/reconciliation/reconciliation-repository.ts:52-98 | with one currency per account each disagreeing account is listed once, with its type and both balances, and ok holds exactly when all cached balances equal their journal sums and all journal accounts are known |
| Reconciliation.ConsistentBookReconciles | src/modules/reconciliation/reconciliation-repository.ts:31-50 | a book satisfying the ledger invariant reports ok |
| Reconciliation.TwoCurrenciesReportedTwice | src/modules/reconciliation/reconciliation-repository.ts:38-48 | an account with entries in two currencies that cancel is reported twice although its cached balance is right |
| Keyset.FollowIsFaithful | src/modules/ledger/ledger-repository.ts:99-138 | however the table changes between pages, the listing is strictly increasing by creation time and then id, invents nothing, and includes every row present throughout |
| Keyset.UnchangedTableListedInOrder | src/modules/accounts/account-repository.ts:56-82 | with no change between pages the pages concatenate to the full ordered list |
| Keyset.ListingEnds | src/modules/accounts/account-repository.ts:75-81 | following the cursor over an unchanged table ends |
| MoneyText.FormatThenParse | web/src/lib/money.ts:10-29 | for every positive amount of any size and both groupings, parsing the shown digits gives the same digits |
| MoneyText.ParsedIsCanonical | web/src/lib/money.ts:23-29 | any input parses to null or to a positive decimal without leading zeros that shows and parses back to itself |
| MoneyText.ParsedIs | web/src/lib/money.ts:23-29 | without its commas and spaces an input must be digits, perhaps a point and one or two decimals; it parses to hundred times the whole part plus the hundredths, zero and every other text to null |
| MoneyText.CleanedIs | web/src/lib/money.ts:24 | cleaning drops commas and white space and keeps everything else in order |
| MoneyText.SpacesAre | web/src/lib/money.ts:24 | the white space of the regular expression, code point by code point |
| MoneyText.DocumentedAmounts | web/src/lib/money.ts:19-21 | the documented examples: 2500, 2,500.5 and 2500.05 |
| MoneyText.GroupedFromRight | web/src/lib/money.ts:15 | where the commas stand, counted from the right: after every third digit, or after the third and then every second; no digit moves |
| MoneyText.DigitsShown | web/src/lib/money.ts:12-16 | the shown number is the grouped whole part without leading zeros, a point and two decimals |
| MoneyText.ShownIs | web/src/lib/money.ts:10-17 | a minus sign in front of the same text, the symbol of the currency or its code, rupees grouped the Indian way |
| MoneyText.SymbolIsRefused | web/src/lib/money.ts:8-16 | shown text with its currency symbol or minus sign is never taken for an amount |
| MoneyText.DecimalOfValue | web/src/lib/money.ts:27-28 | a canonical decimal text is the text of its own value |
| CanonicalJson.CanonicalIff | src/modules/idempotency/idempotency-domain.ts:104-122 | two bodies share a canonical form if and only if, `__proto__` keys aside, they are equal up to key order at every level |
| CanonicalJson.CanonicalDecides | src/modules/idempotency/idempotency-domain.ts:108-122 | for bodies without that key, exactly equality up to key order |
| CanonicalJson.CanonicalIdempotent | src/modules/idempotency/idempotency-domain.ts:108-122 | canonicalizing twice changes nothing |
| CanonicalJson.NameLessIff | src/modules/idempotency/idempotency-domain.ts:113-114 | keys are sorted by the code units where they first differ, a prefix first |
| CanonicalJson.ProtoKeyIsLost | src/modules/idempotency/idempotency-domain.ts:115-121 | a concrete pair of different bodies with one canonical form |
| Backoff.DelayBounds | src/modules/transfers/transfer-service.ts:175-176 | every delay lies between half its capped exponential, rounded down, and the whole, however the arithmetic is rounded |
| Backoff.FactorIsOneIff | src/modules/transfers/transfer-service.ts:176 | in doubles the jitter factor is one, and the delay the whole, exactly from the largest double below one on |

## Left out

- PostgreSQL's conflict detection: a serialization failure or deadlock report is an abort that may hit any attempt at any point; unique constraints, row locks and commit-or-nothing are modelled directly.
- Isolation levels: an attempt reads its rows when it locks them. Under SERIALIZABLE some of these runs end in an abort instead, so the machine has at least the real runs.
- TransferService.Service.Create: other transactions commit arbitrary changes between attempts, not during one; interleaving inside attempts is the posting machine's part.
- IdempotencyStore.Store.PurgeCompletedBefore: nobody else changes the table between two batches of the sweep; in the machines a purge is one row at a time, at any moment.
- Outbox.Store.PurgeProcessedBefore: nobody else changes the table between two batches of the sweep.
- Outbox.Poller.Poll: one worker's poll on its own; leases running out under it and competing workers are the delivery machine's part.
- OutboxRefinement.PollIsRun: from states in which nobody else has the claimed events locked or their inbox rows uncommitted, the clock standing still during the poll; interleavings are the machine's own.
- PostingRefinement.AttemptIsRun: from states in which no other attempt holds the request's rows or its key; waiting and interleaving are the machine's own.
- TransferRoutes.RetryGetsTheSameAnswer: about one client resending without other writers of its key; concurrent duplicates are in the posting machine.
- TRUNCATE of tables other than the ledger's, with CASCADE, and schema changes: `LedgerTriggers` has the data statements on the ledger tables only.
- Order and limit of the claim in the delivery machine, which may lock any eligible event; `Outbox.Store.ClaimBatch` has them.
- The two clocks: database and application share one monotone clock.
- Identifiers, currencies, principals, references and fingerprints are abstract comparable values; journal entry ids and timestamps are not kept, SHA-256 and random ids are not modelled.
- Arrays in request bodies are scalars of the canonical form, since they are returned unchanged; JSON.stringify of the ordered tree is not modelled.
- Cursor encoding (base64url, section 5 of RFC 4648) is the identity on (created_at, id); the range check of a page limit is not modelled.
- The length rule of the Idempotency-Key header, HTTP schemas and routing, authentication, logging, metrics text, command-line tools, configuration, migrations as a process, and the web pages.
- The funding route's handler, which follows the transfer handler's protocol; funding itself is in the posting machine.
- Double arithmetic other than in the retry delays: there each result is rounded by any monotone function exact on whole and half numbers of ordinary size, and only for the largest jitter by the rounding of doubles between a half and one.
- Telemetry of the worker and of the transfer service; listing and counting parked events; outbox statistics.
