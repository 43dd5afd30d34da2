# Wallet ledger: model and proofs

This project models a double-entry wallet ledger on PostgreSQL and proves what it keeps. The ledger accepts balanced
transactions, reserves wallet funds with expiring holds, settles holds by capture, reverses transactions, and leaves
one outbox event per touched wallet. Around it stand a relay that publishes the events, a payment saga, a circuit
breaker and a paged listing of postings. `dafny verify dfyconfig.toml` checks everything.

## How the model is laid out

The ledger is modelled at three levels, and each is tied to the next.

1. **Atomic operations** (`Ledger`): a store of transactions, idempotency rows, holds and outbox events, and for each
   of post, authorize, capture, release and expire the outcome of executing it alone. `Apply` uses exact integers,
   `Apply64` the 64-bit registers of the code.
2. **Repositories as imperative code** (`Storage`, `LedgerRepository`, `HoldRepository`, `HoldUseCases`, `Reversals`,
   `Saga`): row tables, SQL statements, loops over maps in arbitrary order, rollback. Every method is proved to be the
   atomic operation.
3. **Interleaved workers** (`Workers`): any number of workers with program counters, one statement at a time, with row
   locks, pending unique-index entries, READ COMMITTED reads, crashes and a clock. `Solo` proves that one worker by
   itself is the atomic operation; `Safety`, `Interleaving`, `Refinement` and `Histories` prove that every interleaving
   is a serial execution of what it committed.

`Money`, `Journal` and `Transactions` are the domain: checked money, entries, reversals. `Balances` and `Accounting`
say how balances move, and `ReversalRuns` what reversals do over every run. `Deadlock`, `Progress` and `LockInversion`
are about waiting, and `Answers` says what the answers of interleaved workers are worth. `Checkouts` and `Overlapping`
are about repeated and concurrent attempts at one checkout, `Completion` about when one completes and what it answers.
`Outbox`, `Leases` and `LateOutcome` are the claim protocol of the relays, `Relaying` the batch loop and `Draining`
the number of rounds it takes. `Breaker` and `Pagination` are the circuit breaker and the keyset listing.

Time is one monotone integer clock, passed in wherever the code reads it. A database transaction's NOW() is its start,
as in PostgreSQL, which is why an operation carries two readings. Ids are natural numbers ordered as their canonical
strings are, 0 being the empty one. What anti-fraud, the gateway, the event publisher and the sampled backoff answer
are inputs of the model.

## Where the code does not do what it says

The model follows the code. These are results about it.

- **The balance test can be fooled by waiting.** A posting reads its balance as of the start of its database
  transaction. If a hold lapses and is re-granted while the posting waits for the wallet lock, the available balance it
  reads can be negative, and a debit near 2^63 then wraps to a non-negative sum and is accepted (`Overflow.Overdraft`).
  An accepted test is right exactly when the exact projected balance is at least -2^63
  (`Balances.AcceptedIsTrueIffInWindow`), and a commit on it overdraws the account exactly when it is not
  (`Balances.CommitOverdrawsIff`); above MaxInt64 the test rejects a balance that would be enough. Over whole runs
  this is the exact condition: wallets stay non-negative at every point, and the run is serial, if and only if no
  worker commits that passed such a test (`Refinement.SafeIffInWindow`, `Refinement.SerialIffInWindow`). A condition
  on each wallet account's requests alone that rules the failure out is `Workload.Modest`
  (`Workload.ModestWorkloadIsSafe`).
- **Captures can deadlock.** The comment at internal/ledger/adapters/postgres/hold_repository.go:250-252 promises one
  lock order. A capture locks its own wallet first and the entry's wallets afterwards. If one of these belongs to an
  account below the hold's own, some posting on the two accounts and some schedule leave both waiting for each other,
  until one loses its connection or PostgreSQL aborts it (`LockInversion.InvertedCaptureDeadlocks`). That is the exact
  condition (`LockInversion.CaptureDeadlocksIff`): if no settlement goes to a wallet account below its hold's own, no
  schedule of any number of workers deadlocks (`Progress.NoReachableDeadlock`).
- **A capture needs its money twice.** The balance test runs before the hold is marked captured, so the hold's own
  reservation still counts against it (`Accounting.CaptureNeedsFundsTwice`).
- **One branch never replays.** After a failed key insert the code looks the key up again and may report a replay. It
  cannot: the same transaction id would have been refused earlier (`KeyRaces.RereadAlwaysConflicts`).
- **A released checkout cannot be retried under its key**, and each retry may ask the gateway again
  (`Checkouts.RetryAfterRelease`). A run completes exactly when its hold is captured already, or anti-fraud approves,
  the gateway pays and the hold can be captured (`Completion.CompletesIff`), which for a new checkout takes twice the
  amount (`Completion.FreshCompletesIff`). Otherwise an approved and paid run has paid the gateway and posted nothing
  (`Completion.PaidInVain`).
- **Published is final only in time.** The mark statements do not look at the status they overwrite. What is published
  is kept by every continuation exactly when no outstanding claim is older than a minute, or there is a single relay
  (`LateOutcome.KeptIffTimely`, `LateOutcome.RunKeptIffTimely`); otherwise at most five moves publish an event and fail
  it again (`LateOutcome.LateClaimBreaks`).
- **A crashed relay's events may wait twice.** Putting a stale claim back stamps its row with the present instant, so
  an event with a recorded failure starts its backoff anew and takes a place in a batch that then lets it go
  (`Draining.StaleClaimWaits`). ceil(n / batch) rounds are enough exactly when the events let go fit into the places
  left over, and one round more is enough otherwise (`Draining.RoundsNeeded`, `Draining.AlwaysEnoughIff`).

## Model

| member | source | states |
|---|---|---|
| Money.WrapSum | internal/ledger/adapters/postgres/transaction_repository.go:513-516 | adding 64-bit registers one by one leaves the same register as one exact sum, so only the last test matters |
| Money.WrapSign | internal/ledger/adapters/postgres/transaction_repository.go:513-519 | the sign test on a wrapped sum is right exactly on [-2^63, 2^63): above it the register turns negative, below it non-negative |
| Money.Money.Add | internal/ledger/domain/money.go:45-66 | succeeds if and only if both operands are valid, currencies agree and the exact sum fits 64 bits; reports overflow exactly when only the last of these fails |
| Journal.CheckedSumExact | internal/ledger/domain/journal_entry.go:98-132 | the checked total of a side is the exact total, or overflow exactly when the exact total does not fit, whatever the order of postings |
| Journal.SumSide | internal/ledger/domain/journal_entry.go:98-132 | the summing loop stops at the first failing addition and returns the specified checked sum |
| Journal.EntryAcceptedIffValid | internal/ledger/domain/journal_entry.go:35-90 | an entry is accepted if and only if it is valid: valid postings in its currency, both sides present, equal totals that fit 64 bits |
| Journal.ValidateEntry | internal/ledger/domain/journal_entry.go:35-90 | the validation loop returns the specified verdict, first fault first, and accepts exactly the valid entries |
| Journal.EntryFaults | internal/ledger/domain/journal_entry.go:35-90 | which fault an entry is refused for: its ids and currency, then the first bad posting, then a missing side, then overflow before imbalance |
| Journal.IsBalanced | internal/ledger/domain/journal_entry.go:134-146 | compares the two checked sums; an overflow on either side is an error, never a balance |
| Journal.TotalPermuted | internal/ledger/domain/journal_entry.go:98-132 | totals depend on which postings there are, not on their order |
| Journal.ValidEntryPermuted | internal/ledger/adapters/postgres/transaction_repository.go:639-685 | an entry whose postings come back in another order is still valid |
| Journal.DeltaStep | internal/ledger/adapters/postgres/transaction_repository.go:494-505 | reading one more posting moves its own account's delta only, and no partial delta leaves [-MaxInt64, MaxInt64] |
| Journal.DeltasByAccount | internal/ledger/adapters/postgres/transaction_repository.go:494-505 | the map filled with raw 64-bit additions holds the exact delta of every account of the entry and of no other |
| Transactions.Validate | internal/ledger/domain/transaction.go:161-189 | accepts exactly the valid transactions, and names the first fault of the others |
| Transactions.NewTransaction | internal/ledger/domain/transaction.go:12-29 | succeeds if and only if id, trimmed description and entry are good and belong together; never makes a reversal |
| Transactions.Reconstitute | internal/ledger/domain/transaction.go:34-59 | rebuilding from stored parts succeeds exactly when the parts are valid, and then gives those parts back |
| Transactions.Reverse | internal/ledger/domain/transaction.go:89-159 | succeeds if and only if the original is valid and no reversal, the new ids are present, fresh and one per posting, and the description is not blank, and names the first fault otherwise; the result mirrors every posting in order |
| Transactions.ReversalCancels | internal/ledger/domain/transaction.go:89-159 | a transaction and its reversal together move no account |
| Balances.InsertMoves | internal/ledger/adapters/postgres/generated/wallets_balances.sql.go:14-51 | posting moves each account's booked and available balance by exactly its delta, at every instant |
| Balances.ActiveHoldsLapse | internal/ledger/adapters/postgres/generated/wallets_balances.sql.go:38-48 | time can only lower the sum of active holds |
| Balances.AcceptedIsTrueIffInWindow | internal/ledger/adapters/postgres/transaction_repository.go:507-519 | an accepted 64-bit test is true if and only if the exact projected balance is at least -2^63 |
| Balances.CommitOverdrawsIff | internal/ledger/adapters/postgres/transaction_repository.go:507-519 | a posting that commits on an accepted reading, however old, overdraws the account if and only if the exact projected balance of that reading was below -2^63 |
| Balances.Test64Exact | internal/ledger/adapters/postgres/transaction_repository.go:507-519 | on a currently non-negative available balance the raw test accepts exactly the projected balances in [0, MaxInt64] of readable accounts, so wrap-around always rejects |
| Balances.HoldTestMeaning | internal/ledger/adapters/postgres/hold_repository.go:98-108 | the 64-bit test of a new hold is exact on accounts that are not overdrawn |
| Balances.PostGrantedIff | internal/ledger/adapters/postgres/transaction_repository.go:53-214 | the answer to a posting executed alone, each if and only if: a replay or a conflict as its key decides; too little balance when a wallet account it touches has too many credits to be read or would leave [0, MaxInt64]; a constraint violation when a row is refused; and done otherwise |
| Balances.Apply64KeepsNonNegative | internal/ledger/adapters/postgres/transaction_repository.go:99-106 | executed alone with the code's registers, no operation overdraws a wallet |
| Accounting.AuthorizeReserves | internal/ledger/adapters/postgres/hold_repository.go:98-125 | a granted hold lowers its account's available balance by exactly its amount until it expires and moves nothing else |
| Accounting.SettlementConstructed | internal/ledger/application/wallet/capture_hold.go:101-140 | the two-posting settlement of a stored hold is a valid transaction if and only if its description is not blank |
| Accounting.CaptureSettles | internal/ledger/adapters/postgres/hold_repository.go:320-342 | a capture that posts moves exactly the amount from wallet to settlement account and leaves the wallet's available balance as it was while the hold would have lasted |
| Accounting.CaptureNeedsFundsTwice | internal/ledger/adapters/postgres/hold_repository.go:320-336 | an active hold with nothing else in its way is captured if and only if its amount is available a second time, since its own reservation is still counted |
| Accounting.ReleaseReturns | internal/ledger/application/wallet/release_hold.go:18-44 | a release gives back exactly the amount while the hold would have lasted |
| Accounting.ExpireIsNeutral | internal/ledger/application/wallet/expire_hold.go:18-44 | an expiration changes no balance from then on |
| Accounting.ReleaseUndoesAuthorize | internal/ledger/adapters/postgres/hold_repository.go:110-125 | release undoes authorize: every balance at every instant is what it was |
| Tables.IndexesMatchLog | migrations/000001_initial_schema.up.sql:12-52 | the unique indexes of the row tables answer what the log of transactions says |
| Tables.TableSums | internal/ledger/adapters/postgres/generated/wallets_balances.sql.go:15-36 | summing the posting table row by row gives what the log has booked |
| Tables.JoinFindsEntry | internal/ledger/adapters/postgres/generated/transactions.sql.go:85-89 | joining postings on an entry's id finds that entry's postings, all of them |
| Storage.Database.GetLedgerBalance | internal/ledger/adapters/postgres/generated/wallets_balances.sql.go:14-64 | the aggregate gives the exact sums of the log and of the active holds, and fails exactly when one of the three exceeds MaxInt64 |
| Storage.Database.CreateTransaction | migrations/000001_initial_schema.up.sql:12-18 | the insert is refused exactly on a duplicate id, a missing, self or already reversed original, and else adds one row |
| Storage.Database.CreateJournalEntry | migrations/000001_initial_schema.up.sql:20-26 | the insert is refused exactly on a duplicate id, a second entry of a transaction, a missing transaction or a currency in lower case |
| Storage.Database.CreatePosting | migrations/000001_initial_schema.up.sql:28-37 | the insert is refused exactly on a duplicate id, a missing entry or account, an unknown direction or an amount that is not positive |
| Storage.Database.CreateIdempotencyKey | migrations/000001_initial_schema.up.sql:45-52 | the insert is refused exactly on a taken key, a transaction that already has a key, or a missing transaction |
| Storage.Database.CreateWalletHold | migrations/000003_create_wallet_holds.up.sql:1-26 | the insert is refused exactly on an unknown wallet, an amount that is not positive, a currency in lower case, a blank key or hash, a duplicate id or a second hold under a wallet's key |
| Storage.Database.UpdateWalletHoldStatus | internal/ledger/adapters/postgres/generated/holds.sql.go:201-220 | one row changes if the hold is authorized, none otherwise |
| Storage.Database.GetTransactionDetails | internal/ledger/adapters/postgres/generated/transactions.sql.go:72-90 | returns exactly the join of the stored transaction, ordered by posting id |
| LedgerRepository.AccountKeys | internal/ledger/adapters/postgres/transaction_repository.go:400-415 | the keys listed in the map's arbitrary order and sorted are the one ascending list of the entry's distinct accounts |
| LedgerRepository.TransactionRepository.LockWalletAccounts | internal/ledger/adapters/postgres/transaction_repository.go:395-433 | exactly the accounts of the entry that have a wallet are locked, each with its own wallet, one after the other in ascending account order |
| LedgerRepository.TransactionRepository.CheckIdempotency | internal/ledger/adapters/postgres/transaction_repository.go:362-393 | absent if and only if the key was never recorded, a replay if and only if the recorded row is the one this request would write, else a conflict |
| LedgerRepository.TransactionRepository.ValidateWalletBalances | internal/ledger/adapters/postgres/transaction_repository.go:488-523 | in whatever order the map yields the accounts, passes exactly when every locked account passes the 64-bit test |
| LedgerRepository.TransactionRepository.CreateOutboxEvents | internal/ledger/adapters/postgres/transaction_repository.go:435-484 | one event for each distinct locked wallet |
| LedgerRepository.TransactionRepository.InsertRows | internal/ledger/adapters/postgres/transaction_repository.go:121-172 | the inserts go through if and only if no unique index or reference refuses a row, and then the tables hold the extended log |
| LedgerRepository.TransactionRepository.PostInTransaction | internal/ledger/adapters/postgres/transaction_repository.go:219-345 | verdict and committed state are those of the specified posting |
| LedgerRepository.TransactionRepository.Post | internal/ledger/adapters/postgres/transaction_repository.go:43-214 | the whole operation refines the atomic specification on every input; a refusal leaves no row behind |
| LedgerRepository.TransactionRepository.GetAggregate | internal/ledger/adapters/postgres/transaction_repository.go:588-711 | every posted transaction is rebuilt without a validation error, equal up to the order of its postings, which come back by id; not found exactly when it is not there |
| HoldRepository.EndHold | internal/ledger/domain/hold.go:121-170 | a hold leaves the authorized status only, by capture or release before it expires and by expiration from then on |
| HoldRepository.HoldRepository.Authorize | internal/ledger/adapters/postgres/hold_repository.go:39-140 | refines the atomic specification and returns the stored hold, new or replayed |
| HoldRepository.HoldRepository.UpdateStatus | internal/ledger/adapters/postgres/hold_repository.go:172-205 | succeeds exactly on an authorized hold and changes that hold's status only |
| HoldRepository.HoldRepository.Capture | internal/ledger/adapters/postgres/hold_repository.go:234-349 | refines the atomic specification: posting and status change together or not at all |
| Reversals.ReverseTransactionUseCase.Execute | internal/ledger/application/transaction/reverse.go:41-87 | success means that the mirror is in the ledger under the key, posted now or found recorded, and every balance is taken back; of a reversible original it succeeds exactly when the key is its own, or new with free ids and balances that can give back what the original moved, and each refusal has exactly its own cause |
| ReversalRuns.RunReversesOriginals | internal/ledger/application/transaction/reverse.go:41-84 | when no stored or requested transaction that a request reverses is itself a reversal, every reversal in every reachable database aims at an earlier original |
| ReversalRuns.RunReversesInjectively | migrations/000001_initial_schema.up.sql:15-15 | over every run of any number of workers reversal is a partial injection from reversals to earlier transactions that are no reversals |
| ReversalRuns.ReversedNamesOriginal | internal/ledger/domain/transaction.go:89-159 | what Reverse makes of an original found at any point of a run meets that condition, when no other request bears the id of an original posted in the run |
| HoldUseCases.CreateHold | internal/ledger/application/wallet/create_hold.go:35-93 | returns the specified fault before touching the store, or the outcome of authorizing the hold it built |
| HoldUseCases.CaptureHold | internal/ledger/application/wallet/capture_hold.go:51-156 | returns the specified fault, or the outcome of capturing with the two-posting settlement; building the settlement never fails on a stored hold |
| HoldUseCases.HoldGrantedIff | internal/ledger/application/wallet/create_hold.go:35-93 | a request adds exactly the hold asked for if and only if it is good, its key and id are free, and its wallet has the amount available |
| HoldUseCases.HoldAnswers | internal/ledger/application/wallet/create_hold.go:35-93 | what a hold request is answered: the first fault of the request, the hold its key already has from the same request, a conflict, too little balance, a taken id, or a new hold |
| HoldUseCases.CaptureAnswers | internal/ledger/application/wallet/capture_hold.go:49-140 | what a capture request is answered: the first fault of the request; on a captured hold a replay, a conflict or a refusal as its key decides; on a live hold its settlement or what stands in the way |
| HoldUseCases.CaptureGrantedIff | internal/ledger/adapters/postgres/hold_repository.go:278-348 | a capture under a fresh key goes through if and only if it has no fault, the hold is authorized and unexpired, no row is refused, the amount is available beside the hold's own reservation, and a settlement wallet stays within 64 bits |
| HoldUseCases.ReleaseOrExpire | internal/ledger/domain/hold.go:121-170 | a release ends exactly the live holds and an expiration exactly the expired ones; success returns the stored hold with exactly that status and changes nothing else, and a refusal says what the stored hold shows |
| Workers.SortedAccounts | internal/ledger/adapters/postgres/transaction_repository.go:411-415 | the lock order: strictly increasing, exactly the accounts of the postings |
| Solo.AloneIsSpecified | internal/ledger/adapters/postgres/transaction_repository.go:43-214 | the statement-level program of any operation, with nobody in its way, ends with the specified verdict and committed state |
| Interleaving.RunKeeps | internal/ledger/adapters/postgres/transaction_repository.go:74-106 | in every reachable state locks and pending index entries have one holder each, and what each worker has checked under its locks is true of the committed database |
| Safety.CommitEvolves | internal/ledger/adapters/postgres/hold_repository.go:317-342 | a commit by another worker keeps what a lock holder relies on: a locked wallet's available balance never falls |
| Refinement.RunIsSerial | internal/ledger/adapters/postgres/transaction_repository.go:43-214 | for any number of workers and any interleaving of statements, crashes and clock ticks in which no worker commits that passed a test with an exact projected balance below -2^63, the committed database is that of the committed operations executed one at a time in commit order, each succeeding |
| Refinement.NoWalletOverdrawn | internal/ledger/adapters/postgres/transaction_repository.go:486-523 | in every such run, credits less debits less active holds of every wallet stay non-negative |
| Refinement.SafeIffInWindow | internal/ledger/adapters/postgres/transaction_repository.go:486-523 | every wallet is non-negative at every point of a run if and only if no worker commits in it that passed a test with an exact projected balance below -2^63 |
| Refinement.SerialIffInWindow | internal/ledger/adapters/postgres/transaction_repository.go:43-214 | the committed operations, executed one at a time in commit order with exact tests, all succeed if and only if the same condition holds |
| Workload.ModestWorkloadIsSafe | internal/ledger/adapters/postgres/transaction_repository.go:507-519 | when no posting debits a wallet account more than 2^63 less that account's authorized and requested holds, every schedule keeps every wallet non-negative and is equivalent to a serial one |
| Overflow.Overdraft | internal/ledger/adapters/postgres/transaction_repository.go:513-519 | a concrete run in which a hold lapses while a post waits for its lock, the raw sum wraps and the wallet ends overdrawn |
| Histories.RunIsPassed | internal/ledger/adapters/postgres/transaction_repository.go:43-214 | with no condition at all, every run's committed database is that of a serial execution of its committed operations, their balance tests taken as passed |
| Histories.RunKeepsLedger | internal/ledger/adapters/postgres/transaction_repository.go:121-207 | in every reachable database ids are unique, no transaction is reversed twice, idempotency rows and transactions correspond one to one, and each posting left exactly one event per wallet it touches |
| Histories.RunConserves | internal/ledger/domain/journal_entry.go:35-90 | in every reachable database debits equal credits in each currency and the accounts' balances sum to zero |
| Histories.PostedAtMostOnce | internal/ledger/adapters/postgres/transaction_repository.go:362-393 | after an operation posted under a key, at any later point of any run the same request is a replay and every other use of the key a conflict, neither changing anything |
| Histories.AtMostOneEnding | internal/ledger/adapters/postgres/generated/holds.sql.go:201-207 | under any interleaving of captures, releases and expirations of one hold at most one commits |
| Histories.EndingIsFinal | internal/ledger/domain/hold.go:121-170 | the committed ending decides the hold's status for good |
| Histories.CapturedHasTransaction | internal/ledger/adapters/postgres/hold_repository.go:320-342 | a hold that became captured has its transaction in the ledger under the capture's key |
| Answers.AnswersAreTrue | internal/ledger/adapters/postgres/transaction_repository.go:53-214 | in every run each answer of each worker was true of the database when it was given: replays and conflicts of the recorded row, refusals of the balance, row or hold they name; only a lost connection is no answer |
| Answers.AnswersLast | internal/ledger/adapters/postgres/transaction_repository.go:182-207 | what was reported as recorded is there at every later point: a replayed or done request has its own row, a conflict another one, and a capture, release or expiration that reported success has ended its hold |
| Answers.DoneIsHistory | internal/ledger/adapters/postgres/transaction_repository.go:182-214 | the committed history is exactly what the workers that answered done report, each commit once |
| Answers.RecordedKeyIsAnswered | internal/ledger/adapters/postgres/transaction_repository.go:70-97 | at its start and under its locks an operation whose key is recorded goes no further and is answered as the row or the hold decides |
| Answers.RepeatedCaptureIsAnswered | internal/ledger/adapters/postgres/hold_repository.go:286-306 | a capture that finds its hold captured is a replay, a conflict or a refusal as its key decides |
| Bookkeeping.BalancesSumToZero | internal/ledger/domain/journal_entry.go:35-90 | splitting the books by account loses nothing: balances in a currency sum to zero |
| Bookkeeping.OutcomeKeeps | internal/ledger/adapters/postgres/transaction_repository.go:121-207 | every operation keeps the ledger invariant, whatever its balance test said |
| Bookkeeping.NotDoneChangesNothing | internal/ledger/adapters/postgres/transaction_repository.go:70-97 | an operation that is refused or replayed leaves the database as it was |
| KeyRaces.RereadAlwaysConflicts | internal/ledger/adapters/postgres/transaction_repository.go:182-207 | a post that rolls back on a failed key insert and reads the key again always ends in a conflict; the replay answer there is never given |
| Deadlock.SomebodyCanStep | internal/ledger/adapters/postgres/transaction_repository.go:411-430 | in any state satisfying the invariant with unfinished workers, ids per request, and no capture that touches a wallet account below its hold's own, some worker can step |
| Progress.NoReachableDeadlock | internal/ledger/adapters/postgres/transaction_repository.go:411-430 | if the requests mint their own row ids and no settlement goes to a wallet account below the hold's own, no schedule reaches a state where unfinished workers all wait |
| LockInversion.InvertedCaptureDeadlocks | internal/ledger/adapters/postgres/hold_repository.go:250-284 | in every database, every capture that is ready and touches a wallet account below its own, and every new posting that touches both accounts, can be scheduled so that the two wait for each other |
| LockInversion.CaptureDeadlocksIff | internal/ledger/adapters/postgres/hold_repository.go:250-284 | a capture whose hold is authorized and unexpired can be brought into a deadlock by postings, releases and expirations if and only if it touches a wallet account below its hold's own |
| Saga.PaymentSagaOrchestrator.Execute | internal/ledger/application/saga/payment_saga.go:70-195 | the orchestration is the specified run, asks each service at most once with the command's own amount, currency and recipient, and answers with the gateway's transaction id |
| Saga.PaymentSagaOrchestrator.CompensateHold | internal/ledger/application/saga/payment_saga.go:197-206 | compensation is a release, reported as failed exactly when the release fails |
| Saga.SagaOutcome | internal/ledger/application/saga/payment_saga.go:105-206 | completed means the hold is captured; a failure after authorization other than a failed compensation means it is released; a failed compensation has written nothing since the authorization |
| Checkouts.FailedRunRestores | internal/ledger/application/saga/payment_saga.go:129-166 | a run that makes a fresh hold and ends by releasing it leaves every booked and available balance, at every instant, as before |
| Checkouts.RetryAfterRelease | internal/ledger/application/saga/payment_saga.go:118-187 | a checkout whose hold was released or expired can never complete under its key: each retry asks anti-fraud, and the gateway if approved, writes nothing and reports a failed compensation |
| Checkouts.CheckoutPaysAtMostOnce | internal/ledger/application/saga/payment_saga.go:105-195 | any number of attempts at one checkout, with other operations between them, together debit the wallet once by exactly the amount if the capture key is recorded, and by nothing otherwise |
| Checkouts.CompletedAsksNobodyAgain | internal/ledger/application/saga/payment_saga.go:118-127 | after a completed run no later attempt asks anti-fraud or the gateway or writes anything |
| Completion.CompletesIff | internal/ledger/application/saga/payment_saga.go:105-195 | a run completes if and only if it has a hold that is captured already, or both services say yes and the hold can be captured in the database the hold step leaves |
| Completion.FreshCompletesIff | internal/ledger/application/saga/payment_saga.go:105-195 | under a new key: if and only if the hold is granted, both services say yes, the settlement's rows insert before the hold expires and twice the amount is available |
| Completion.StoredCompletesIff | internal/ledger/application/saga/payment_saga.go:105-195 | under a key that has a hold: if and only if the request is good and the same, and the hold is captured, or authorized and capturable with both services saying yes |
| Completion.BadCommandAnswers | internal/ledger/application/saga/payment_saga.go:70-103 | a command with a missing id, an amount that is not positive or a blank key or hash is told its first fault, and nobody is asked |
| Completion.FreshAnswers | internal/ledger/application/saga/payment_saga.go:105-206 | under a new key a run makes its hold and asks anti-fraud if and only if the command is good and the hold can be granted; then rejection by anti-fraud, failure of the gateway, failure of the capture, failed compensation and completion each have exactly their own cause |
| Completion.StoredAnswers | internal/ledger/application/saga/payment_saga.go:105-206 | under a key that has a hold: a conflict for another request, completion at once on a captured hold, the answers above on an authorized one, a failed compensation on one that was given back |
| Completion.PaidInVain | internal/ledger/application/saga/payment_saga.go:146-187 | an approved and paid run on an uncaptured hold that does not complete has asked the gateway and left transactions and keys as they were |
| Overlapping.SagaOutcomeAmid | internal/ledger/application/saga/payment_saga.go:105-195 | the saga's outcome stands amid any operations of others between its steps, as long as nobody else ends its hold |
| Overlapping.UseCasesAreSteps | internal/ledger/application/wallet/capture_hold.go:49-140 | creating, capturing and releasing the checkout's hold are steps of the interleaving, whose balance test may there have read an earlier database |
| Overlapping.OverlappingAttemptsPayOnce | internal/ledger/application/saga/payment_saga.go:105-195 | attempts at one checkout that overlap in any number and any interleaving of their steps, whatever their balance tests read, debit the wallet at most once and by exactly the amount |
| Outbox.CeilingGrows | internal/ledger/application/outbox/backoff.go:41-64 | the backoff ceiling never falls with more failures and stays within (0, max] |
| Outbox.CeilingIsCappedWait | internal/ledger/application/outbox/backoff.go:41-52 | the ceiling is the initial wait multiplied once for each failure after the first, or the cap |
| Leases.OneHolderPerEvent | internal/ledger/adapters/postgres/outbox_repository.go:68-98 | in runs of any number of relays in which no outstanding claim is older than a minute when somebody fetches, an event has at most one holder, and its row is processing |
| Leases.PublishedIsFinal | internal/ledger/adapters/postgres/generated/outbox_events.sql.go:161-168 | in such runs a published row is never changed again |
| Leases.RetriesCountFailures | internal/ledger/adapters/postgres/outbox_repository.go:200-221 | in such runs the retry count equals the failed publishes, less those waiting or lost with their relay, and never exceeds the limit; a published row was published |
| Leases.PublishedAtMostOnce | internal/ledger/application/outbox/relay.go:130-168 | in such runs an event no success of which was lost is published at most once |
| Leases.BackoffIsKept | internal/ledger/application/outbox/relay.go:117-168 | in such runs, after a recorded failure nobody hands the event to the publisher again before the delay sampled for that attempt has passed since the failing batch read its clock |
| Leases.UnpublishedComesBack | internal/ledger/adapters/postgres/outbox_repository.go:75-95 | at every point of such a run an unpublished row under the retry limit is a candidate of the next fetch if and only if it was not claimed within the last minute, and as it stands it is one a minute later |
| LateOutcome.LateClaimBreaks | internal/ledger/adapters/postgres/generated/outbox_events.sql.go:140-168 | from any reachable state with a claim older than a minute and another idle relay, at most five moves publish the event and then fail it again |
| LateOutcome.KeptIffTimely | internal/ledger/adapters/postgres/generated/outbox_events.sql.go:140-168 | published rows are kept by every continuation if and only if no outstanding claim is older than a minute or there is one relay |
| LateOutcome.RunKeptIffTimely | internal/ledger/adapters/postgres/generated/outbox_events.sql.go:140-168 | the same at every point of a whole run |
| Relaying.OutboxRepository.FetchPending | internal/ledger/adapters/postgres/outbox_repository.go:58-149 | returns the oldest candidates up to the limit as they were before the claim, and marks exactly these as claimed |
| Relaying.OutboxRepository.RequeueStale | internal/ledger/adapters/postgres/outbox_repository.go:75-82 | exactly the claims older than sixty seconds go back to failed, stamped now |
| Relaying.Relay.ProcessBatch | internal/ledger/application/outbox/relay.go:69-115 | row by row: an event that is due is published or has one more failure, stamped with the batch's clock, one that is not keeps its stamp, no other row changes; each event due and accepted is sent once, and the number returned counts them |
| Relaying.RetriedIffBackoffOver | internal/ledger/application/outbox/relay.go:117-128 | an event whose publish failed in a batch is tried again exactly when the delay sampled then has passed since that batch read its clock |
| Relaying.BatchIsRun | internal/ledger/application/outbox/relay.go:69-115 | a batch is a run of the shared claim machine, so what holds of all its runs holds of batches |
| Draining.Drain | internal/ledger/application/outbox/relay.go:69-128 | with a succeeding publisher, from any table, stale claims included: each round publishes the batch size or what is left, save that the first lets go the events whose backoff still runs; each event is delivered once and no other row changes |
| Draining.SpacedRounds | internal/ledger/adapters/postgres/outbox_repository.go:75-82 | when the first fetch finds no claim younger than a minute and the second round comes once the longest backoff since then is over, every row is due in the second round |
| Draining.RoundsNeeded | internal/ledger/application/outbox/relay.go:69-115 | ceil(n / batch) rounds empty n candidates, and fewer do not, if and only if the events the first round lets go fit into the places left over; otherwise exactly one more is needed |
| Draining.AlwaysEnoughIff | internal/ledger/application/outbox/relay.go:117-128 | ceil(n / batch) rounds are enough for every sample of the delays if and only if the events of the first batch whose longest backoff is not over fit into the places left over |
| Draining.AtRiskIff | internal/ledger/adapters/postgres/outbox_repository.go:75-82 | when every failed row is due, the events that may be let go are exactly the stale claims with a recorded failure whose backoff, begun anew by the fetch, is not over |
| Draining.StaleClaimWaits | internal/ledger/adapters/postgres/outbox_repository.go:75-82 | a table with one stale claim, where the one round that ceil(n / batch) allows delivers nothing |
| Breaker.CircuitBreaker.constructor | internal/platform/resilience/circuit_breaker.go:57-77 | non-positive settings get their defaults and the breaker starts closed |
| Breaker.CircuitBreaker.BeforeExecution | internal/platform/resilience/circuit_breaker.go:106-117 | admits exactly when the breaker is not open after the timeout has been looked at |
| Breaker.CircuitBreaker.AfterExecution | internal/platform/resilience/circuit_breaker.go:119-159 | a completion is the specified transition, and none while open |
| Breaker.CountersMeanTheirSchedule | internal/platform/resilience/circuit_breaker.go:137-175 | in every schedule of overlapping calls the failure count is the length of the failing suffix of completions since the breaker closed, the success count that of the completions since it half-opened, all of them successes, and both are below their thresholds |
| Breaker.EdgesAndCauses | internal/platform/resilience/circuit_breaker.go:131-175 | the mode changes along four edges only, each exactly when the schedule calls for it |
| Breaker.NoAdmissionWithinTimeout | internal/platform/resilience/circuit_breaker.go:106-135 | no call is admitted within the timeout of an opening |
| Breaker.RefusedIffJustOpened | internal/platform/resilience/circuit_breaker.go:106-135 | in every schedule a request is turned away if and only if some earlier event opened the breaker less than the timeout ago |
| Pagination.ListEntries | internal/ledger/adapters/postgres/generated/postings.sql.go:44-63 | the first entries of the account past the cursor in descending (created_at, id) order |
| Pagination.Execute | internal/ledger/application/account/list_entries.go:40-83 | errors exactly on an empty account id or a page size outside 1..100 (0 is the default), else the page cut from the list with a cursor exactly when more follows |
| Pagination.CursorContinues | internal/ledger/adapters/postgres/generated/postings.sql.go:57-63 | listing past an entry's cursor gives exactly the rest of the list |
| Pagination.NewerEntriesDoNotShift | internal/ledger/adapters/postgres/generated/postings.sql.go:57-63 | entries that are not past the cursor do not disturb the pages after it |
| Pagination.ReadAll | internal/ledger/application/account/list_entries.go:48-82 | following the cursors with any page sizes ends, the pages together are all postings in descending order, each once, and only the last page has no cursor |

## Left out

- Refinement.RunIsSerial: stated for runs in which no worker commits that passed a test with an exact projected balance below -2^63; Refinement.SerialIffInWindow shows that nothing less will do, and Histories.RunIsPassed says what remains true otherwise.
- Refinement.NoWalletOverdrawn: the same window, a fixed set of wallets, and accounts that start non-negative; wallet creation does not look at the account's balance.
- Progress.NoReachableDeadlock: for requests with ids of their own and settlements that go up; two requests inserting the same rows in different orders can wait on each other's unique-index entries.
- Leases.OneHolderPerEvent: for runs in which no outstanding claim is older than a minute when somebody fetches; the fetch transaction is one step, with the rows locked by a concurrent fetch as an input.
- Leases.RetriesCountFailures: the same runs.
- Leases.UnpublishedComesBack: that a row is claimable is stated of the row as it stands; between now and then other relays may claim it.
- Outbox.CeilingGrows: real arithmetic; float rounding and overflow of the backoff power are left out, and the sampled delay is any value up to the ceiling.
- Relaying.OutboxRepository.FetchPending: rows locked by a concurrent fetch are skipped in the shared machine (Outbox.IsPick) and absent here, where one relay runs alone.
- Draining.Drain: one relay, no new events, a publisher that accepts everything; when there is a second round, the first fetch leaves no live claim of another relay and the second round finds every backoff over (Draining.SpacedRounds).
- Reversals.ReverseTransactionUseCase.Execute: which answer a reversal gets is stated for databases in which no wallet is overdrawn, as in Balances.PostGrantedIff; what success means is stated for all.
- Completion.FreshAnswers: under the same conditions as Completion.CompletesIff.
- Leases.BackoffIsKept: the same runs as Leases.OneHolderPerEvent.
- Completion.CompletesIff: for databases in which no wallet is overdrawn when the hold is made, nobody else writing during the run, and a capture that begins after the hold.
- Overlapping.SagaOutcomeAmid: no other client ends the saga's hold while a run is under way; Overlapping.OverlappingAttemptsPayOnce needs no such condition.
- LedgerRepository.TransactionRepository.ValidateWalletBalances: a balance that cannot be read and a balance that is too low are one refusal here, because which account is met first depends on map order.
- Storage.Database.LockWalletByLedgerAccountID: statements of the imperative repositories meet no other session; waiting and interference are in Workers.
- Wallet and account statuses: whether a wallet can operate is an input of the use cases; the code checks it outside any lock, so nothing is claimed about postings on closed wallets.
- Currencies of accounts: currency is a fact about entries only, as in the code; the wallet's currency is an input of hold creation.
- Hold creation timestamps: kept only in the check that a new hold expires in the future.
- Event payloads, event ids, error texts and processed_at: an outbox event is its wallet in the ledger and its status, retry count and timestamps in the relay.
- Hash collisions: a checkout's retries differ from its first attempt in the expiry only.
- Ambiguous commits and failures inside PostgreSQL: a connection loss means rollback.
- Withdraw, transfer and deposit use cases: they build a transaction and post it, after checks outside the lock.
- ListExpiredHolds and the expiry worker: they pick hold ids to expire; expiring one hold is modelled.
- An outbox repository without a connection pool: it fetches without claiming and exists for lightweight callers.
- State-change callbacks of the circuit breaker, and Execute as one piece: admission and completion are separate events so that calls can overlap.
- Save of the outbox repository: events enter with their posting.
- HTTP handlers, JSON, configuration, metrics, tracing, logging, AWS clients, the DynamoDB projection, the mock services, the web interface, scripts and deployment.
