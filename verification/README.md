# Lajan'm money engine: model and proofs

Lajan'm is a mobile wallet. Its API server keeps a double-entry ledger, moves money between wallets,
tops wallets up from MonCash by webhook and pays out to MonCash. This project models that engine in
Dafny and proves what it keeps over whole runs: money is conserved, nothing is posted twice, a wallet's
overdraft and spending stay bounded, a payout is settled or given back, a top-up counts once.

`dafny verify dfyconfig.toml` verifies the whole project.

## How it is built

The ledger is modelled twice. `ledger.dfy` is the value: a journal that is only appended to, and a
status beside each operation. `ledger_service.dfy` is the class over its two flat tables, with the
loops of the service; each method is proved to act on the tables as the value's function does. The same
two levels recur: `topup.dfy` and `topup_service.dfy`, the machine of `engine.dfy` and the handlers of
`handlers.dfy`.

`engine.dfy` splits transfers and payouts at their database reads and commits. Any number of requests
advance in any order beside webhooks, one-time codes, tier upgrades and the clock, and any of them may
crash between two steps. The other `engine_*.dfy` files hold the invariants and the theorems about its
runs: conservation (`engine_core`), what may enter at all (`engine_admission`), overdraft and caps
(`engine_limits`), payouts whatever happens (`engine_payout`), transfers that share a request id
(`engine_transfers`), top-ups in the midst of everything else (`engine_topups`) and one-time codes
(`engine_otp`). The handlers are tied to the machine twice over: each does what the machine does with the
request left undisturbed, and its contract also says in the settings, tables and amounts themselves what
comes of it.

Some promises hold only in some runs. For those the faults a run may show are named, the promise is
proved of every run without the harmful ones, and runs with each harmful one are built in which it fails,
so that each result is an if-and-only-if over the faults: how many requests of a wallet race
(`engine_overdraft`); whether requests of one payout overlap, where they die, and whether MonCash's answers
arrive (`engine_faults`, `engine_answers`, `engine_fault_runs`); whether verifications of a code overlap or
die, and whether a code is used for what it was sent for (`engine_guesses`, `engine_guess_runs`). `engine_reach.dfy` holds what those runs
share. `commit_or_reread.dfy` is the race for a unique key on its own, `compliance.dfy` the
reconciliation report.

The rest stands alone: `phone.dfy` (both normalizers and the migration), `rate_limit.dfy`, `auth.dfy`,
`paging.dfy`, `fraud.dfy`.

### Choices

- Amounts are mathematical integers, as if `amountHTG * 100` never left the exact range of a double.
- An account is named by its owner. This is sound because a table has one row per owner, which is itself
  proved of `getOrCreate`. An operation's id is its position in the journal, since rows are never deleted.
- Idempotency keys are tagged by family instead of prefixed; MonCash references are taken not to start
  with an internal prefix. A request id is shared by all users, as in the source.
- The clock is an argument, and it never goes back in the machine. An operation is stamped with the
  instant of its commit. Midnight and the first of the month are any functions of time with the order
  one expects.
- Hashes, argon2 and the webhook signature are values handed to the model: a right or wrong code, a valid
  or invalid signature. Any failure not modelled is a crash.
- A payout call to MonCash ends in one of three ways: paid and answered so; not paid; or paid, with the
  answer late, lost or unreadable. The client reports the last two alike
  (`moncash-client.service.ts:94-114`), and the payout is then reversed at once.
- A save writes the columns the handler changed. The source saves whole entities: under an overlap a stale
  save of a wrong code would also clear `consumedAt`, and two attempts of one top-up job could overwrite a
  reference. No result here turns on it. Logins, where it matters, are saved whole (`LoginRace`).
- `enforceLimits` asks for its two sums at once. The machine reads the day before the month and lets
  other requests in between.
- `getOrCreate` of the accounts a request needs moves no money and is not a step of the machine.
- A Redis key is gone from the instant its time to live has run out.

### Where the code and its words disagree

- `security.service.ts:118` speaks of a matching-purpose code. The code does not compare the purpose:
  `EngineGuessRuns.PurposesMatchWhen` has the run in which a code sent for transfers lets a payout
  through, and says when that cannot happen.
- `security.service.ts:79-81` says retries are bounded. The stored count is, in every run
  (`EngineGuesses.TriesOnRecordBounded`); the wrong values actually compared are exactly when
  verifications of one code neither overlap nor die before the save (`EngineGuessRuns.GuessesBoundedWhen`).
- `rate-limit.service.ts:43` counts calls over a window. The refreshed expiry makes it stricter than that:
  it counts the unbroken run of calls less than a window apart, and shuts out steady traffic that a
  sliding window lets through (`RateLimit.CountIsRun`, `RateLimit.ExactWhenRunFits`, `RateLimit.SteadyIsShutOut`).
- `payout.service.ts:102-116` has a repeated request answered from its row, or ask MonCash again. Over the
  faults of module `EngineFaults` (overlapping requests, deaths at work, lost answers) `EngineFaultRuns` says
  exactly when MonCash may be asked twice or for something else than was reserved, when a payout may be both
  paid and given back, when row and operation may disagree, and when a repeat may be turned away.
- `payout.service.ts:159-163` gives the money back when MonCash "can't confirm". If MonCash did pay and only
  its answer was lost, the payout is both paid and given back, with no other fault (`EngineFaultRuns.AnswerLost`).
- `topup.service.ts:119-124` lets a late failure notice overwrite a completed top-up's status
  (`Topup.StatusIsLastMark`). No money moves, so balances are unaffected.
- `wallet.service.ts:80-84` calls the balance check best-effort. `EngineOverdraft.NeverNegativeWhen` says
  exactly when it is enough.

## Model

| member | source | states |
|---|---|---|
| LedgerService.LedgerService.AssertBalanced | services/api/src/modules/ledger/ledger.service.ts:267-289 | the loops accept exactly the lists of at least two positive legs that net to zero in every currency, and name the first objection otherwise |
| LedgerService.LedgerService.TotalsByCurrency | services/api/src/modules/ledger/ledger.service.ts:272-280 | the map holds each currency's net, unless some amount is not positive |
| LedgerService.LedgerService.PostOperationWithManager | services/api/src/modules/ledger/ledger.service.ts:235-265 | one operation and its rows are appended, or an error leaves both tables as they were |
| LedgerService.LedgerService.FindOperation | services/api/src/modules/ledger/ledger.service.ts:66-68 | finds the one operation under a key |
| LedgerService.LedgerService.LoadEntries | services/api/src/modules/ledger/ledger.service.ts:69-71 | the flat rows of an operation are its legs, in order |
| LedgerService.LedgerService.PostOperation | services/api/src/modules/ledger/ledger.service.ts:44-60 | the tables and the answer are those of the abstract post: a repeated key changes nothing and is answered with the operation and the legs the first call stored |
| LedgerService.LedgerService.ReverseOperation | services/api/src/modules/ledger/ledger.service.ts:82-117 | the tables and the answer are those of the abstract reversal, all or nothing; the legs answered are those stored |
| LedgerService.LedgerService.ConfirmOperation | services/api/src/modules/ledger/ledger.service.ts:127-131 | only a pending operation becomes completed; nothing else changes |
| LedgerService.LedgerService.GetBalance | services/api/src/modules/ledger/ledger.service.ts:134-155 | the aggregate over flat rows is the balance of the journal |
| LedgerService.LedgerService.SumDirection | services/api/src/modules/ledger/ledger.service.ts:164-185 | the aggregate over flat rows is what the journal moved in that direction since the instant |
| LedgerService.LedgerService.CountDirection | services/api/src/modules/ledger/ledger.service.ts:188-197 | the size of the set of rows of the account in that direction since the instant |
| LedgerService.LedgerService.ListEntries | services/api/src/modules/ledger/ledger.service.ts:205-233 | the clamped page of the filtered history: rows of the account, in the period, of an asked-for type if any is asked for, each labelled with its operation's type, newest first, as many as are left |
| LedgerTables.RowsReadBack | services/api/src/modules/ledger/ledger.service.ts:252-262 | stored rows read back as the legs passed in, currency defaulted and decimal amount exact |
| LedgerTables.InsertIsAppend | services/api/src/modules/ledger/ledger.service.ts:243-262 | inserting an operation row and its entry rows appends one posting and leaves every other as it was |
| LedgerTables.FlatBalance | services/api/src/modules/ledger/ledger.service.ts:134-155 | summing flat rows and summing the journal operation by operation give one balance |
| LedgerTables.FlatSide | services/api/src/modules/ledger/ledger.service.ts:164-185 | the same for one direction since an instant, dated by row or by operation |
| LedgerTables.PagesCoverHistory | services/api/src/modules/ledger/ledger.service.ts:205-233 | for every filter, a walk in pages within the clamp shows each stored row of the account, period and types exactly as often as it is stored, and no other, newest first |
| LedgerTables.PageRows | services/api/src/modules/ledger/ledger.service.ts:205-233 | whatever the page, nothing foreign to the account, period and types is on it, every label is the operation's type, and it is newest first |
| LedgerTables.PagesAddUp | services/api/src/modules/ledger/ledger.service.ts:164-233 | what such a walk since an instant shows in one direction adds up to `sumDirection` |
| Decimal.DecimalRoundTrip | services/api/src/modules/ledger/ledger.service.ts:258 | an amount written as a decimal string reads back unchanged |
| Decimal.UsualNotation | services/api/src/modules/ledger/ledger.service.ts:258 | the string is the usual decimal notation, last digit last and without a leading zero |
| Ledger.MirrorTwice | services/api/src/modules/ledger/ledger.service.ts:97-103 | mirroring is an involution |
| Ledger.MirrorCancels | services/api/src/modules/ledger/ledger.service.ts:97-103 | an operation and one reversal net to zero on every account and in every currency |
| Ledger.MirrorBalanced | services/api/src/modules/ledger/ledger.service.ts:97-110 | the mirror of balanced legs passes the balance check |
| Ledger.ReversalRefusedOnlyForItsKey | services/api/src/modules/ledger/ledger.service.ts:90-110 | a reversal is refused only for an unknown original or a used key, never for imbalance |
| Ledger.PostWellFormed | services/api/src/modules/ledger/ledger.service.ts:44-60 | a post keeps balance, unique keys and the tie between reversed operations and adjustments |
| Ledger.ReceiptIsStored | services/api/src/modules/ledger/ledger.service.ts:62-73 | whoever is answered, a repeat included, is told the legs the operation is stored with, under its own key; a repeat changes nothing |
| Ledger.ReversalReceiptIsStored | services/api/src/modules/ledger/ledger.service.ts:82-117 | an accepted reversal appends the mirror of the original, tells its legs, and marks the original |
| Ledger.ReverseWellFormed | services/api/src/modules/ledger/ledger.service.ts:82-117 | a reversal keeps them too |
| Ledger.ConfirmWellFormed | services/api/src/modules/ledger/ledger.service.ts:127-131 | so does a confirmation |
| Ledger.CallKeeps | services/api/src/modules/ledger/ledger.service.ts:44-131 | any one call keeps the book well formed, its entries unchanged and REVERSED final |
| Ledger.RunKeeps | services/api/src/modules/ledger/ledger.service.ts:76-131 | over every run of calls: REVERSED exactly when an adjustment points at the operation, entries never change, REVERSED is never undone |
| Ledger.EntriesSumToZero | services/api/src/modules/ledger/ledger.service.ts:267-289 | all entries of a currency in a well-formed book sum to zero |
| Ledger.DebitsSinceLater | services/api/src/modules/ledger/ledger.service.ts:157-185 | spending since a later instant is no larger and never negative |
| CommitOrReread.NextKeeps | services/api/src/modules/ledger/ledger.service.ts:44-73 | each read, insert or re-read of a race keeps it equivalent to a sequential run |
| CommitOrReread.Linearizable | services/api/src/modules/ledger/ledger.service.ts:44-73 | every interleaving, with crashes, is equivalent to a sequential run of the calls that returned, and no re-read comes back empty |
| CommitOrReread.SameKeySameRow | services/api/src/modules/ledger/ledger.service.ts:44-73 | racing calls under one key return one row, and at most one of them inserted it |
| CommitOrReread.LaterDidNotInsert | services/api/src/modules/ledger/ledger.service.ts:50-56 | in the sequential run only the first call of a key inserts |
| CommitOrReread.NamesItsRow | services/api/src/modules/ledger/ledger.service.ts:62-73 | every call's row holds its key |
| CommitOrReread.TableDistinct | services/api/src/database/migrations/1735689600000-InitSchema.ts:41-43 | no key is in the table twice |
| PostRace.FindKeyIsPosition | services/api/src/modules/ledger/ledger.service.ts:66-68 | the search of the ledger is the search of the race on the column of keys |
| PostRace.PostIsAlone | services/api/src/modules/ledger/ledger.service.ts:44-73 | a post answers with the row and the idempotent flag of a call that runs alone, and leaves the column as it does |
| Accounts.AccountsService.GetOrCreate | services/api/src/modules/ledger/services/accounts.service.ts:29-57 | returns the owner's row whatever other connections insert after the read, and keeps one row per owner |
| Accounts.AccountsService.FindOne | services/api/src/modules/ledger/services/accounts.service.ts:36-42 | finds the owner's row or knows there is none |
| Topup.CommitRowsOk | services/api/src/modules/topup/topup.service.ts:32-150 | every commit keeps amounts positive, references unique, and a row's user, amount and reference as they were |
| Topup.CreditEffect | services/api/src/modules/topup/topup.service.ts:126-137 | a completed notice moves the row's amount from float to wallet the first time and nothing after |
| Topup.CreditedWhen | services/api/src/modules/topup/topup.service.ts:107-150 | after any deliveries a row is credited exactly when it was before or a completed notice posted |
| Topup.DeliveredBalance | services/api/src/modules/topup/topup.service.ts:107-150 | every balance after any deliveries is the old one plus each completed known reference once |
| Topup.Confluence | services/api/src/modules/topup/topup.service.ts:101-150 | duplicates, order, failure notices and crashes after the post do not matter: balances depend only on which references completed |
| Topup.StatusIsLastMark | services/api/src/modules/topup/topup.service.ts:119-141 | a row's status is that of the last notice saved for it, so a completed one stays so exactly when no failure is saved after its last completion |
| Topup.StatusAfter | services/api/src/modules/topup/topup.service.ts:75-141 | a row starts PENDING, becomes COMPLETED only by a completed notice of its own, and FAILED only by a failure notice or by giving up an open row without a reference |
| EngineTopups.NextCredits | services/api/src/modules/topup/topup.service.ts:126-137 | any event of the machine credits a row exactly when it posts its completed notice, and counts it once |
| EngineTopups.TopupsBring | services/api/src/modules/topup/topup.service.ts:101-150 | in every run, with anything in between, top-ups have brought each account the amounts of the completed rows, each once |
| EngineTopups.TopupsConfluent | services/api/src/modules/topup/topup.service.ts:101-150 | two runs in which the same rows completed end with the same top-ups on every account |
| EngineTopups.StatusIsLastWord | services/api/src/modules/topup/topup.service.ts:75-150 | in every run, whatever comes between, a row is COMPLETED exactly if the last event that decided about it was a completed notice, PENDING if none has, and FAILED otherwise |
| TopupService.TopupService.Initiate | services/api/src/modules/topup/topup.service.ts:32-72 | the row is saved before MonCash is asked, the reference after; success is reported only with a reference; below 25 gourdes nothing happens |
| TopupService.TopupService.IsTaken | services/api/src/database/migrations/1735689600004-AddTopup.ts:34-41 | the unique index on references |
| TopupService.TopupService.RetryInitiation | services/api/src/modules/topup/topup.service.ts:75-99 | only an open row changes: it gets the reference, or is FAILED on the last attempt; every other failure goes back to the queue |
| TopupService.TopupService.HandleWebhook | services/api/src/modules/topup/topup.service.ts:107-150 | the handler is the sequence of commits the confluence theorems are about; "failed" marks the one row, every other status posts its amount under the reference and completes it |
| TopupService.GivesUpOnTheLastAttempt | services/api/src/modules/topup/processors/topup-initiation.processor.ts:16-20 | a job that keeps failing runs exactly as often as configured, once by default |
| Engine.ConfiguredIsOk | services/api/src/modules/security/security.service.ts:13-48 | each setting left out is in force at its documented default and each given one as given, so caps, threshold and payout maximum always bind |
| EngineAdmission.InadmissibleWhen | services/api/src/modules/payout/payout.service.ts:51-62 | each refusal before the first read goes with its own condition; a payout above the maximum, a transfer to nobody or to oneself is refused |
| EngineAdmission.NextAdmitted | services/api/src/modules/payout/payout.service.ts:51-123 | every event keeps requests, MonCash calls and payout rows within what may be asked for |
| EngineAdmission.OnlyAdmittedMoves | services/api/src/modules/payout/payout.service.ts:51-134 | in every run every transfer is between two different registered users, and no payout reserves, asks MonCash for, or records more than the maximum |
| EngineAdmission.VerifiedWhen | services/api/src/modules/kyc/kyc.service.ts:97 | in every run a user is verified exactly if an approval verified them |
| EngineAdmission.CodesAsSent | services/api/src/modules/security/security.service.ts:50-59 | in every run each code on record was sent to its owner, with three tries and five minutes from then |
| EngineCore.NextCore | services/api/src/modules/payout/payout.service.ts:51-195 | every event keeps the ledger well formed and every request entitled to its place in the protocol |
| EngineCore.RunCore | services/api/src/modules/payout/payout.service.ts:51-195 | so it holds in every state of every run, crashes included |
| EngineCore.Conservation | services/api/src/modules/compliance/compliance.service.ts:34-56 | in every reachable state entries sum to zero per currency and wallets plus float are zero |
| Compliance.FlatWallets | services/api/src/modules/compliance/compliance.service.ts:45-51 | the joined sum over flat rows is what the journal holds in wallets |
| Compliance.ReachableBalances | services/api/src/modules/compliance/compliance.service.ts:44-65 | the report on any reachable snapshot is balanced |
| Compliance.GetReconciliation | services/api/src/modules/compliance/compliance.service.ts:44-65 | wallets summed at one moment and the float at a later one: the discrepancy is what the float moved in between, so a sound ledger reports balanced on one snapshot and otherwise exactly when that is nothing |
| EngineLimits.JournalStep | services/api/src/modules/wallet/wallet.service.ts:98-106 | one event lowers a wallet by no more than the request it posts, and raises its spending by exactly that |
| EngineLimits.FloorStep | services/api/src/modules/wallet/wallet.service.ts:80-106 | one event keeps the balance, less what racing requests may still debit, above the floor |
| EngineLimits.BoundedOverdraft | services/api/src/modules/wallet/wallet.service.ts:80-106 | with at most c requests between check and post a balance never falls below minus c-1 times the larger daily setting; with one it is never negative |
| EngineOverdraft.BoundIsReached | services/api/src/modules/wallet/wallet.service.ts:80-106 | for every c some run takes a verified wallet to exactly that floor, with c whole daily caps paid out in one day |
| EngineOverdraft.NeverNegativeWhen | services/api/src/modules/payout/payout.service.ts:67-96 | wallets stay out of the red in all runs if and only if no two requests of a wallet race |
| EngineLimits.DailyStep | services/api/src/modules/security/security.service.ts:153-166 | one event keeps the day's spending, racing requests included, within c daily caps |
| EngineLimits.MonthlyStep | services/api/src/modules/security/security.service.ts:151-175 | the same for the month |
| EngineLimits.CapsHold | services/api/src/modules/security/security.service.ts:140-176 | in every run spending since the start of day and month stays within c times the settings of the tier, basic or verified, and within the settings when requests do not race |
| EngineOverdraft.DailyCapHoldsWhen | services/api/src/modules/security/security.service.ts:149-166 | the daily cap itself holds in all runs if and only if no two requests of a wallet race |
| EnginePayout.NextRowsOk | services/api/src/database/migrations/1735689600005-AddPayout.ts:33-35 | every event keeps one payout row per reserve, and rows only for reserves |
| EnginePayout.PayoutEffect | services/api/src/modules/payout/payout.service.ts:87-168 | a reserve and its reversal together move nothing; a reserve alone moves its amount |
| EnginePayout.PayoutAtMostOnce | services/api/src/modules/payout/payout.service.ts:87-179 | under any interleaving and crash of requests sharing an id: one reserve, one reversal, one row, and the wallet is down by the amount or by nothing |
| EngineFaults.OrderlyNext | services/api/src/modules/payout/payout.service.ts:98-195 | one event without a harmful fault keeps one request at work at most, each fitting what store and MonCash show, and at rest the payout settled or untouched |
| EngineFaults.ReservedNext | services/api/src/modules/payout/payout.service.ts:87-134 | without deaths at work, one event keeps calls and rows at the payer and amount of the reserve |
| EngineFaults.OrderlyPayout | services/api/src/modules/payout/payout.service.ts:98-195 | in every run without the harmful faults, each clause under its own: never both paid and given back; asked at most once; at rest kept and paid, or given back, with row and operation saying which; asked and recorded as reserved |
| EngineFaults.EveryAnswerRecorded | services/api/src/modules/payout/payout.service.ts:98-108 | in every run, whatever overlaps and dies, every answer ever given is the recorded outcome |
| EngineAnswers.OpenNext | services/api/src/modules/payout/payout.service.ts:98-195 | one event without overlap and without a death between reversal and row leaves every request's way clear |
| EngineAnswers.NobodyTurnedAway | services/api/src/modules/payout/payout.service.ts:98-195 | in every such run no request past its gates is refused by the ledger or the row table |
| EngineAnswers.RetryAnswered | services/api/src/modules/payout/payout.service.ts:98-108 | in every such run a request past its gates, left to run with nobody at work, is answered with the outcome on record, the earlier one if there was one |
| EngineFaultRuns.NobodyTurnedAwayWhen | services/api/src/modules/payout/payout.service.ts:98-179 | no request past its gates is turned away in all runs, if and only if there is no overlap and no death between the reversal and its row |
| EngineFaultRuns.RepeatStuck | services/api/src/modules/payout/payout.service.ts:165-168 | after such a death a refused repeat cannot reverse again and gets no answer |
| EngineFaultRuns.AskedOnceWhen | services/api/src/modules/payout/payout.service.ts:109-123 | MonCash is asked at most once per request id in all runs, if and only if no request looks for the row while another is at work and none dies after asking |
| EngineFaultRuns.NeverBothWhen | services/api/src/modules/payout/payout.service.ts:122-168 | no payout is both paid and given back in all runs, if and only if there is no such overlap, no death between MonCash's yes, or the reversal, and the row, and no lost answer |
| EngineFaultRuns.AnswerLost | services/api/src/modules/topup/moncash-client.service.ts:94-114 | a run with no other fault in which MonCash pays, its answer is lost, the money goes back and the row says FAILED |
| EngineFaultRuns.SettledWhen | services/api/src/modules/payout/payout.service.ts:109-179 | a payout with nobody at work is paid and kept, or unpaid and given back, in all runs, if and only if there is no overlap, no death at work and no lost answer |
| EngineFaultRuns.ClosedWhen | services/api/src/modules/payout/payout.service.ts:109-179 | row, operation and reversal tell one story at rest in all runs, if and only if there is no overlap and no death at work |
| EngineFaultRuns.AsReservedWhen | services/api/src/modules/payout/payout.service.ts:123-134 | MonCash is asked for, and the row records, what was reserved in all runs, if and only if there is no such overlap and no death at work |
| EngineFaultRuns.RepeatAsks | services/api/src/modules/payout/payout.service.ts:109-123 | after a death at any point of the work, a repeat asks again, and for its own amount |
| EngineFaultRuns.BothWork | services/api/src/modules/payout/payout.service.ts:98-179 | two overlapping requests end with the payout paid, given back and recorded as paid |
| EngineOtp.NextOtpInv | services/api/src/modules/security/security.service.ts:83-114 | while no two requests hold one code between read and save, every event keeps codes bounded on record and consumed by one request each |
| EngineOtp.RunAuthored | services/api/src/modules/wallet/wallet.service.ts:98-106 | every transfer and reserve in the ledger was written by one of the requests |
| EngineTransfers.SentNext | services/api/src/modules/wallet/wallet.service.ts:98-106 | one event keeps answers true to the ledger, and operations to one author each |
| EngineTransfers.TransferOnce | services/api/src/modules/wallet/wallet.service.ts:98-136 | in every run, whatever interleaves or dies: one operation per transfer request id, every answer names it, and at most one, its author's, says it was not a repeat |
| EngineOtp.CodePerLargeOperation | services/api/src/modules/security/security.service.ts:83-132 | under the same condition large transfers and payouts map injectively to codes of the payer, each consumed, matched in value, read before it expired and with tries left |
| EngineGuesses.TriesOnRecordBounded | services/api/src/modules/security/security.service.ts:89-95 | in every run, however verifications overlap or die, the stored count of wrong tries stays within the limit |
| EngineGuesses.CountedNext | services/api/src/modules/security/security.service.ts:83-114 | without slips, one event keeps every wrong value compared on record or about to be, and none compared past the limit or the right one |
| EngineGuesses.WrongGuessesBounded | services/api/src/modules/security/security.service.ts:76-104 | without slips no code is compared with more wrong values than its limit, and after that many it is never consumed |
| EngineGuesses.RightValueAccepted | services/api/src/modules/security/security.service.ts:83-110 | without slips the right value of an unused, unexpired code of the payer's gets in if and only if fewer than three wrong ones were compared; else the answer is that there were too many |
| EngineGuessRuns.NoEnd | services/api/src/modules/security/security.service.ts:93-95 | with either slip one code takes any number of wrong values |
| EngineGuessRuns.GuessesBoundedWhen | services/api/src/modules/security/security.service.ts:76-104 | the bound holds in all runs if and only if verifications of a code do not overlap and none dies on a wrong value |
| EngineGuesses.RunOneCodeEach | services/api/src/modules/security/security.service.ts:83-132 | without overlap, every large operation in every reachable state spent a code of its payer's, and no two the same |
| EngineGuessRuns.OneCodeEachWhen | services/api/src/modules/security/security.service.ts:83-132 | that is so in all runs if and only if no code is read while another request holds it unsaved |
| EngineGuesses.RunPurposes | services/api/src/modules/security/security.service.ts:116-132 | where nobody presents a code sent for the other use, every consumed code was sent for its use |
| EngineGuessRuns.PayoutByTransferCode | services/api/src/modules/security/security.service.ts:120-132 | a run in which a code sent for transfers lets a payout reserve its money |
| EngineGuessRuns.PurposesMatchWhen | services/api/src/modules/security/security.service.ts:116-132 | codes match their use in all runs if and only if nobody presents one sent for the other: the gate adds nothing of its own |
| Handlers.MoneyHandlers.VerifyAndConsumeOtp | services/api/src/modules/security/security.service.ts:83-114 | each error goes with the first condition that fails; a code is accepted if and only if it is the user's, unused, not expired, with tries left and of this value; a wrong value costs one try, the right one is consumed |
| Handlers.MoneyHandlers.EnforceLimits | services/api/src/modules/security/security.service.ts:140-176 | passes exactly when both windows have room under the settings of the tier, and says which had not |
| Handlers.MoneyHandlers.PassGates | services/api/src/modules/wallet/wallet.service.ts:85-96 | a request passes if and only if balance, day, month and, from the threshold on, a right code allow it; the first that does not is the reason; the tables are left as the machine's steps leave them |
| Handlers.MoneyHandlers.PassCode | services/api/src/modules/security/security.service.ts:120-132 | below the threshold no code is looked at, above it a right one is needed; it does what the machine's code steps do |
| Handlers.MoneyHandlers.PostFor | services/api/src/modules/payout/payout.service.ts:87-96 | one posting of the amount in centimes from payer to payee or float, unless the key is there; it does what the machine's post does |
| Handlers.MoneyHandlers.Transfer | services/api/src/modules/wallet/wallet.service.ts:66-137 | it succeeds if and only if request and gates allow it, and then the one posting is there; otherwise the ledger is unchanged and the reason is the first that applies; tables and answer are those of a submitted request advanced to its end undisturbed |
| Handlers.MoneyHandlers.InitiatePayout | services/api/src/modules/payout/payout.service.ts:51-195 | refused, it changes no table; else MonCash is asked once under a new or a resumed reserve, and reserve, status, row and answer tell that it paid, or that all was given back; a repeat with a row is answered from it; all as in the machine undisturbed |
| Handlers.MoneyHandlers.Settle | services/api/src/modules/payout/payout.service.ts:98-195 | a repeated reserve with a row is answered from it and asks nobody; any other goes on to MonCash |
| Handlers.MoneyHandlers.Resolve | services/api/src/modules/payout/payout.service.ts:122-179 | one call is logged; a yes completes the reserve and its row, anything else appends the mirror, marks the reserve and fails the row |
| Handlers.MoneyHandlers.Record | services/api/src/modules/payout/payout.service.ts:126-134 | the row is saved as given unless the operation has one |
| Handlers.MoneyHandlers.FindRow | services/api/src/modules/payout/payout.service.ts:99 | finds the row of an operation |
| Phone.OnlyPlusAndDigitsMatter | services/api/src/common/phone.ts:27-67 | the result depends only on a leading plus and the digits |
| Phone.CanonicalFixed | services/api/src/common/phone.ts:36-39 | canonical numbers are left alone |
| Phone.ResultCanonical | services/api/src/common/phone.ts:27-77 | every accepted number comes out as a plus and 8 to 15 digits |
| Phone.NormalizeIdempotent | services/api/src/common/phone.ts:27-67 | normalizing twice is normalizing once |
| Phone.FourSpellings | services/api/src/common/phone.ts:13-17 | all four spellings of every national number give one result |
| Phone.DigitsOnly | services/api/src/common/phone.ts:46-66 | what happens to a number without a plus, in the order of the rules |
| Phone.PlusAndDigits | services/api/src/common/phone.ts:31-39 | a plus and 8 to 15 digits are kept; every other count is refused, none at all as missing |
| Phone.LeadingPlusWhen | services/api/src/common/phone.ts:28-29 | a plus behind one character counts as leading if and only if that is one of the characters JavaScript trims |
| Phone.FormatRoundTrip | services/api/src/common/phone.ts:84-89 | a displayed canonical number reads back as itself |
| Phone.FormattedGroups | services/api/src/common/phone.ts:84-89 | a Haitian number is shown in the same digits, with a blank after the country and after every two digits |
| Phone.OthersAsTheyAre | services/api/src/common/phone.ts:84-86 | every other string is shown as it is |
| Phone.SqlIdempotent | services/api/src/database/migrations/1735689600011-NormalizePhoneNumbers.ts:27-53 | the SQL normalizer is idempotent on every string |
| Phone.TwinsAgreeWhen | services/api/src/database/migrations/1735689600011-NormalizePhoneNumbers.ts:27-53 | on accepted numbers the two normalizers agree if and only if they see the same leading plus, or the digits are 509 and eight more |
| Phone.TabbedPlus | services/api/src/database/migrations/1735689600011-NormalizePhoneNumbers.ts:35-37 | behind a tab, a foreign number is normalized by one and not by the other |
| Phone.RefusedStaysRefused | services/api/src/database/migrations/1735689600011-NormalizePhoneNumbers.ts:27-53 | a number registration refuses is not rewritten to one it would accept, except sixteen or seventeen digits beginning with two zeros behind a plus only registration sees |
| Phone.TwinsAgreeOnRequests | services/api/src/common/phone.ts:27-67 | so they agree on every accepted string that request validation lets through |
| NormalizePhoneNumbers.MixedDistinct | services/api/src/database/migrations/1735689600011-NormalizePhoneNumbers.ts:75-79 | any mix of rewritten and original rows is free of duplicates once the collision check passed |
| NormalizePhoneNumbers.HasCollisions | services/api/src/database/migrations/1735689600011-NormalizePhoneNumbers.ts:56-73 | finds out whether two accounts share a canonical number |
| NormalizePhoneNumbers.Up | services/api/src/database/migrations/1735689600011-NormalizePhoneNumbers.ts:25-80 | refuses and changes nothing on a collision; else rewrites one row at a time in any order, with all numbers distinct in every table in between |
| RateLimit.RateLimitService.Consume | services/api/src/common/rate-limit.service.ts:48-76 | bumps the key's counter, refuses above the limit, and refuses without Redis |
| RateLimit.CoversWindow | services/api/src/common/rate-limit.service.ts:53-64 | the counter is never below the calls in the trailing window |
| RateLimit.NoLaxerThanSlidingWindow | services/api/src/common/rate-limit.service.ts:48-76 | whatever it accepts a true sliding-window limiter accepts |
| RateLimit.AtMostLimitPerWindow | services/api/src/common/rate-limit.service.ts:48-76 | no window of the configured length holds more than the limit of accepted calls |
| RateLimit.LookupsPerHour | services/api/src/modules/wallet/wallet.service.ts:161-167 | at most thirty recipient look-ups in any hour |
| RateLimit.RunIsLongest | services/api/src/common/rate-limit.service.ts:53-61 | the run counted back from the last call is the longest with gaps below the window |
| RateLimit.CountIsRun | services/api/src/common/rate-limit.service.ts:53-64 | the counter counts that run |
| RateLimit.ExactWhenRunFits | services/api/src/common/rate-limit.service.ts:53-64 | it equals the sliding window's count if and only if the run began inside the trailing window |
| RateLimit.SteadyIsShutOut | services/api/src/common/rate-limit.service.ts:53-76 | steady calls at any pace below the window are all refused after `limit`, while a sliding window never refuses them exactly when `limit` periods span the window |
| RateLimit.LookupEveryTwoMinutes | services/api/src/modules/wallet/wallet.service.ts:20-24 | a look-up every 121 seconds: the thirty-first is refused with thirty in the hour |
| Auth.AuthService.Register | services/api/src/modules/auth/auth.service.ts:30-54 | one row per canonical number whatever is inserted between read and insert; a lost race is an uncaught unique violation |
| Auth.AuthService.FindByPhone | services/api/src/modules/auth/auth.service.ts:57 | finds the row of a number or knows there is none |
| Auth.AuthService.Login | services/api/src/modules/auth/auth.service.ts:56-92 | the PIN is checked before the lock; each outcome and what it stores in the one row, the fifth wrong PIN locking for fifteen minutes |
| Auth.LockIsTheRule | services/api/src/modules/auth/auth.service.ts:183-197 | the counter is the wrong PINs since the last success, and the lock runs from the last wrong one |
| Auth.RightPinGetsIn | services/api/src/modules/auth/auth.service.ts:56-75 | the right PIN gets in exactly when fewer than five wrong ones came before, or the last is fifteen minutes old |
| LoginRace.AfterSerial | services/api/src/modules/auth/auth.service.ts:56-92 | logins that do not overlap and do not die on a wrong PIN leave every wrong PIN on record |
| LoginRace.OverlapHidesWrongPins | services/api/src/modules/auth/auth.service.ts:183-188 | any number of overlapping wrong PINs can leave one on record |
| LoginRace.AllCountedWhen | services/api/src/modules/auth/auth.service.ts:56-92 | every wrong PIN is on record after every history, if and only if logins do not overlap and none dies on a wrong PIN |
| Auth.SpellingsShareAnAccount | services/api/src/modules/auth/auth.service.ts:31-36 | every spelling of a national number reaches the account under it |
| Paging.WalkCovers | services/api/src/common/dto/pagination-query.dto.ts:32-37 | answers to page after page, through the clamp, cover every row once, in order, and end |
| Paging.WalkCoversWhen | services/api/src/common/dto/pagination-query.dto.ts:28-37 | of `toFindPaging` alone: that is so for every list if and only if the size asked for is at least one and at most the clamp, which request validation already demands |
| Paging.ExtraRowShows | apps/admin-web/src/lib/adminApi.ts:168-183 | the queue shows the page asked for, and says exactly whether more follows |
| Paging.HasMoreExactWhen | apps/admin-web/src/lib/adminApi.ts:161-167 | that is so for every queue and offset if and only if the server's clamp leaves room for the extra row |
| Paging.LoadAllRebuilds | services/api/src/modules/support/support.service.ts:157-163 | loading until there is no more rebuilds the whole queue |
| Paging.ThreadIsNewest | services/api/src/modules/support/support.service.ts:88-99 | a thread shows its newest 500 messages oldest first, and loses none that is newer than one shown |
| Paging.NewestFirstOrders | services/api/src/testing/fake-ledger-data-source.ts:149-153 | the order is newest first, loses no row and is stable |
| Fraud.CheckAmountAnomaly | services/api/src/modules/fraud/fraud.service.ts:105-125 | the rows looked at are the account's newest, at most 25, of the last ninety days; flagged if and only if at least five of them are debits of other operations and the amount is above the multiple of their floored average; nearly exact on a well-formed ledger |
| Fraud.LookBack | services/api/src/modules/fraud/fraud.service.ts:105-110 | no row of the account and period is newer than those looked at and left out |
| Fraud.AverageIsPositive | services/api/src/modules/fraud/fraud.service.ts:117-118 | the guard on the average always holds for positive amounts |
| Fraud.NeverMisses | services/api/src/modules/fraud/fraud.service.ts:117-118 | an amount above the multiple of the exact average is always flagged |
| Fraud.OverFlagsLittle | services/api/src/modules/fraud/fraud.service.ts:117-118 | a flagged amount is above the multiple of an average short by less than one unit |
| Fraud.DebitsAreSound | services/api/src/modules/fraud/fraud.service.ts:110-118 | all three hold of the rows the ledger returns, whose amounts are positive |

## Left out

- LedgerService.LedgerService.ListEntries: rows of one instant keep table order; the database promises no order among them.
- Handlers.MoneyHandlers.InitiatePayout: runs at one instant and undisturbed; interleavings, crashes and the passing of time are those of the machine.
- Handlers.MoneyHandlers.Transfer: as above.
- EngineOverdraft.DailyCapHoldsWhen: the day's cap only; that c races reach the month's bound is not shown.
- EngineOtp.NextOtpInv: needs that no two requests hold one code; what happens otherwise is in `EngineGuessRuns`.
- EngineOtp.CodePerLargeOperation: likewise; `EngineGuessRuns.OneCodeEachWhen` shows the condition is needed.
- Topup.Confluence: over rows whose references are already known, and webhook traffic alone; `EngineTopups.TopupsConfluent` has everything in between.
- RateLimit.RateLimitService.Consume: a counter value, not the Redis protocol; INCR and EXPIRE are one step, as MULTI makes them.
- NormalizePhoneNumbers.Up: one transaction, without other writers.
- Auth.AuthService.Register: what other connections insert in between is given; their updates of other columns are not modelled.
- Currency per wallet: handlers post in gourdes only, as the source does; the ledger itself is proved for any currency.
- The race inside one post: a post is one step of the machine, and `CommitOrReread` opens that step up.
- MonCash, SMS, notifications, job queue, Redis and database plumbing: foreign calls.
- Controllers, guards, request validation and deployment settings, except the bounds that the proofs use.
- `formatMinor` and `formatAmount`: they go through floating point and `toFixed`.
- Upload inspection and storage: a flat list of checks and file access.
- FAQ, disputes, suspicious-activity reports, KYC review and audit records: single-row edits; of KYC only the tier upgrade is kept.
- Fraud velocity and new-beneficiary rules, and the raising of flags: counts compared with a setting.
- Support ticket status changes, device sessions, PIN change, masked names: single-row edits or string display.
- Mobile and admin screens: user interface.
