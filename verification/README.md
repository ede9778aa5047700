# go-money: a verified model of the ledger

go-money keeps accounts, transactions, a double-entry ledger and an audit log in PostgreSQL. `Transfer`,
`recordFailure` and `Reverse` are short database transactions that lock rows in a chosen order, re-read,
check, update two balances and insert rows. This project models them in Dafny at three levels and proves
what concurrent use of them keeps.

* **Alone.** `Spec` says what each database transaction does to the committed tables when nothing else
  runs. `Services` holds the code statement by statement, as methods that change an open transaction
  object, proved against `Spec` for a driver error after any number of statements. `Rules` says in the
  columns of the tables when a transfer or a reversal is refused, for which reason, and what each commit
  writes. `Errors` has the texts that `Reverse` searches to recognise a unique violation.
* **Over histories.** `Integrity`, `Accounting`, `Totals`, `Consequences`, `Reduction` and `Unwinding` prove
  what any sequence of committed transactions keeps: the four tables fit together, floors hold, balances
  agree with the ledger, totals drift by an exact number of paise, reversed transfers and their reversals
  cancel, and exactly when what stands can be taken back newest first.
* **Interleaved.** `Sessions` is a state machine of any number of calls whose steps interleave arbitrarily,
  each with a private log of uncommitted changes, over one lock table. `Interleaving` and `Serializability`
  prove every run equal to its committed events run one at a time; `Safety`, `Traces`, `Refusals` and
  `Answers` carry the history results over to runs and say which answers and traces calls leave and when
  they are true;
  `Progress` proves that waiting is acyclic, that somebody can always go on, and that calls finish.

`Display` is the Indian-notation formatter and `Numerals` the digits under it, `Decoding` the two loops that
read a movement back out of ledger rows, `Money` the rounding of a stored `NUMERIC(15,2)`, and `Schema` the
rows. Money is counted in paise: stored values are integers, amounts in flight are reals, because nothing
restricts a request to two decimals.

Check everything with `dafny verify dfyconfig.toml`.

## What the code does, and where its notes promise more

* `README.md:102` says that every attempted operation leaves a trace. With no request failing, a transfer
  leaves one, posted or refused, exactly when its reference is free (`TransferTracedIffReferenceFree`; among
  interleaved calls, when no other call commits under it, `TracedIffReferenceNotTaken`): a valid transfer
  under a used reference fails without a row (internal/transaction/service.go:115-117, 149), and so does the
  record of an invalid one. A reversal leaves one exactly when it is accepted
  (`ReverseTracedIffAccepted`; `RefusalLeavesNoTrace` is a run). A call that the driver breaks leaves none,
  and a failed recording is swallowed (`Bank.RecordFailure`). There is exactly one audit row per committed
  call (`TracesAreCommits`).
* Money is conserved in whole paise, for any floors (`WholePaiseConserve`, `WholePaiseBalances`,
  `EveryWholePaiseRun`). For other amounts and non-negative floors it is conserved in a currency exactly when
  no transfer of that currency is a tie, that is, has a fraction of exactly half a paisa
  (`ConservedIffNoTies`; `HalfPaisaMintsMoney` is an instance).
* Reversing a transfer next restores all balances exactly when rounding slipped nothing
  (`ReverseInverts`); a transfer stored as zero paise cannot be reversed at all. After any history, with any
  amounts, floors and reversals, everything that stands can be taken back newest first exactly when, for each
  standing transfer, its destination stays on its floor on its opening balance, the standing transfers before
  it and what rounding slipped (`UnwindsIffPayable`). Off ties that is the balance in the history without
  its reversed transfers and reversals (`PayableOffTies`). With non-negative floors, or without ties, it
  holds when no reversal reached behind a younger transfer that still stands (`UndoingAllRestores`); it can
  fail otherwise (`NewestIsRefused`).
* A recorded failure names a reason that was true when it was found. It is true of the tables it is recorded
  on exactly when the missing account is still missing, or the funds are still insufficient; every other reason
  stays true (`RecordedReasonTrueIff`; `ReasonGoesStale` is a run). A refused reversal, none of whose requests
  failed, was refused for what its checks say of the tables after some commit (`EveryRefusalWasTrue`). A
  rejected transfer is told a reason that was true after some commit, whatever fails (`EveryRejectionWasTrue`),
  and one that breaks by itself was valid but lost its reference to another call (`BrokenByReference`).
* `README.md:100` describes the unique constraint on reversals as a second line of defence that maps to a 409.
  The constraint never fires: in every reachable state a reversal's insert goes through
  (`ConstraintNeverFires`). The 409 is given all the same, because any error whose text contains `unique` or
  `23505` passes for a violation, and the stores put account and transaction numbers into their errors. A
  reversal is answered ALREADY_REVERSED exactly when the driver fails at one of its requests and either the
  driver's own text or the number of the row at hand contains one of the two strings (`ToldReversedIff` for a
  call that runs alone, `ToldExactlyByText` for every interleaved run). `UnreversedToldReversed` is an instance:
  a transfer to account 23505 that nothing has reversed, when the lock of that account fails for any reason.
* The grouping shape holds exactly for numbers that are not negative (`ShapeIffNonNegative`). The paise of a
  stored balance, which is all that is ever shown so (internal/account/handler.go:112), always fit two digits
  (`StoredFitsTwoDigits`); only from 99.5 paise on would the formatter show 100 (`CarryIsLost`).

## Model

| member | source | states |
|---|---|---|
| Money.Rnd | migrations/000001_init_schema.up.sql:21 | a stored amount is the nearest paisa, ties away from zero |
| Money.NearestIsUnique | migrations/000001_init_schema.up.sql:21 | that rule determines the stored value |
| Money.RndDebit | internal/account/store.go:97-106 | a relative debit moves a stored balance by the stored amount, one paisa less at a tie with a positive remainder |
| Money.RndCredit | internal/account/store.go:97-106 | a relative credit moves it by the stored amount, one paisa less at a tie with a negative result |
| Decoding.DecodeEntries | internal/reversal/service.go:72-82 | the loop of Reverse computes source, destination and amount by last matching row |
| Decoding.DecodeFindsRows | internal/reversal/service.go:72-85 | amount and source are those of the last debit row, the destination is that of the last credit row; amount 0 means no debit at all |
| Decoding.ToResponse | internal/transaction/handler.go:124-158 | the response copies the row and its ledger rows, derives source, destination and amount as the other loop does, and is absent in what it cannot derive; what it shows after the symbol is digits, a dot and two digits, which are the amount in rupees and paise |
| Decoding.DeriveAgrees | internal/transaction/handler.go:135-151 | the response loop finds the same rows as the loop of Reverse, and is silent where there are none |
| Numerals.DecimalRoundTrip | internal/transaction/handler.go:156-158 | a displayed amount has a numeral without leading zeros, a dot and two digits, character by character, and is worth the amount |
| Decoding.PostingRoundTrip | internal/transaction/service.go:119-120 | both loops recover exactly what Transfer posted, in either row order; a stored amount of zero decodes to nothing |
| Decoding.MirrorRoundTrip | internal/reversal/service.go:128-129 | decoding a reversal's rows gives the original movement with its ends swapped |
| Rules.RefusedBeforeReading | internal/transaction/service.go:54-82 | exactly when a transfer is refused for its amount, for naming one account twice, or for an account that is missing, and which of two missing accounts is named |
| Rules.RefusedOnAccounts | internal/transaction/service.go:90-101 | for two accounts that exist: each remaining reason, and acceptance, exactly by status, currency, balance and floor, in the order of the checks |
| Rules.ReadingMeans | internal/transaction/service.go:54-101 | those four reasons and acceptance are for positive amounts between two different existing accounts only |
| Rules.RefusedOnRow | internal/reversal/service.go:51-66 | a reversal is refused as not found exactly when the row is absent, for its type exactly when it is there and no transfer, and for status s exactly when it is a transfer of status s that is not completed |
| Rules.RefusedOnRows | internal/reversal/service.go:72-109 | for a completed transfer of sound tables: an internal error exactly when its debit row is zero, missing funds exactly when the account of its credit row would fall below its floor, and otherwise acceptance |
| Rules.RefusalMeans | internal/reversal/service.go:50-109 | what every refusal says about the rows of the tables; nothing is refused as already reversed |
| Rules.InsertableMeans | migrations/000001_init_schema.up.sql:29-33 | a transaction row goes in exactly when no row has its id, nor a reference or an original that it has itself |
| Rules.OpenedWrites | migrations/000001_init_schema.up.sql:17-26 | a new account is active, with floor 0 and the nearest paisa of the opening balance, and nothing else changes |
| Rules.TransferWrites | internal/transaction/service.go:103-138 | every column a transfer writes: two rounded balances, its row, a debit row of the source, a credit row of the destination, the audit row |
| Rules.ReversalWrites | internal/reversal/service.go:111-150 | every column a reversal writes: both balances, its row, the status of the original, the mirrored rows, the audit row |
| Rules.FailureWrites | internal/transaction/service.go:158-188 | every column a recorded failure writes: a failed row with reference and reason, and an audit row with the same reason, the account numbers given and the nearest paisa of the amount |
| Rules.OpenedCanSend | internal/account/store.go:83-94 | a new account can send its whole opening balance, in whole paise, to any active account of its currency |
| Rules.RequestOrder | internal/reversal/service.go:50-154 | the thirteen requests of a reversal in order, the account locks ascending |
| Errors.ContainsStr | internal/reversal/service.go:209-216 | the loop finds a string exactly when it occurs |
| Errors.ContainsParts | internal/reversal/service.go:209-216 | a text in which a string occurs is that string between two others |
| Errors.PartsContain | internal/reversal/service.go:209-216 | and the other way round |
| Errors.IsUniqueViolation | internal/reversal/service.go:200-203 | an error passes for a unique violation exactly when its text contains one of the two strings |
| Errors.TellsIff | internal/account/store.go:55-106 | a failed request passes for one exactly when the driver's text does or the number of its row does: nothing else the stores and the service add matters |
| Errors.RequestTexts | internal/reversal/service.go:70-125 | the texts of the errors that name no row |
| Errors.RowTexts | internal/reversal/service.go:91-98 | the texts of the errors that name one; the number of an account that is being locked appears twice |
| Errors.UuidIsCanonical | internal/transaction/store.go:50-57 | a transaction number appears in five groups of hexadecimal digits that are its value |
| Errors.DuplicateKeyTells | internal/reversal/service.go:118-126 | a real collision is recognised through both layers of wrapping |
| Errors.DuplicateKeyText | internal/transaction/store.go:28-39 | the text of a collision as PostgreSQL words it, with its code |
| Errors.NothingPostedTellsNothing | internal/reversal/service.go:83-85 | an original without postings is an internal error |
| Errors.NoRowsTellsNothing | internal/reversal/service.go:91-98 | a missing account is an internal error unless its number tells |
| Services.Tx.AccountForUpdate | internal/account/store.go:55-62 | a locking read of an account, or no rows; either failure names the account |
| Services.Tx.UpdateBalance | internal/account/store.go:97-106 | adds to the current balance, rounds, and treats a missing row as no error |
| Services.Tx.TxForUpdate | internal/transaction/store.go:50-57 | a locking read of a transaction, or no rows; either failure names the transaction |
| Services.Tx.Create | internal/transaction/store.go:28-39 | inserts exactly one row unless one of the three unique columns collides or the row it reverses does not exist |
| Services.Tx.SetReversed | internal/transaction/store.go:79-86 | overwrites the status of one row and nothing else |
| Services.Tx.InsertEntry | internal/ledger/store.go:15-25 | appends one rounded row, or fails on a negative amount or a missing key |
| Services.Tx.ListByTransaction | internal/ledger/store.go:27-47 | the loop returns the rows of one transaction in order |
| Services.Tx.InsertAudit | internal/audit/store.go:21-32 | appends one audit row |
| Services.PostTransfer | internal/transaction/service.go:63-142 | for a driver error at any statement: the callback posts the whole transfer exactly when it is legal and enough statements go through, returns its two rows in order, and exactly when it ends in which reason |
| Services.PostFailure | internal/transaction/service.go:158-188 | the callback adds the failed row under its reference and reason, and its audit row; the captured row is assigned before the audit insert |
| Services.PostReversal | internal/reversal/service.go:50-154 | for a driver error at any request: the callback undoes the whole transfer and returns the mirrored rows in order, or ends in the error that determines the answer |
| Services.Char3 | migrations/000001_init_schema.up.sql:20 | three characters are stored as they are, fewer are padded with blanks, and more are an error unless the rest is blank |
| Services.Bank.CreateAccount | internal/account/handler.go:67-95 | exactly which requests are refused before and by the database; otherwise the next free number gets an active account with floor 0, the nearest paisa of the balance, and the three characters of the given or default currency |
| Services.Bank.Transfer | internal/transaction/service.go:53-153 | all or nothing for a driver error at any statement, and exactly which answer after how many; a posted transfer was between two active accounts of one currency and covered its floor, and its rows are those of the request; a rejection adds both failure rows with its reason or neither; with no request failing, exactly what is committed |
| Services.Bank.RecordFailure | internal/transaction/service.go:155-191 | errors are swallowed; the failed row with its reason is there exactly when the audit insert and COMMIT also went through, while the caller gets its id already when the insert did |
| Services.Bank.Reverse | internal/reversal/service.go:47-168 | for every number of requests the driver survives: undoes the transfer or leaves every table as it was, the audit log included, and exactly which answer is given; not found, type and status exactly by the columns of the original; the rows returned are the rows stored |
| Services.Bank.Answered | internal/reversal/service.go:156-165 | an error of its own is answered as it is; any other by what its text contains |
| Integrity.ApplyGrows | internal/transaction/store.go:79-86 | a commit changes nothing that was there but balances and one completed transfer's status |
| Integrity.HistoryGrows | internal/ledger/store.go:15-25 | over any history currency, floor and status of accounts and all but that one status are immutable, failed and reversed are terminal, and both logs are append-only |
| Integrity.ReversalDecodes | internal/reversal/service.go:68-85 | what Reverse decodes is the posted pair, on two accounts of one currency |
| Integrity.ReversalMoves | internal/reversal/service.go:111-116 | a reversal gives back exactly the stored amount, without rounding, to two accounts of one currency |
| Integrity.TransferKeepsTx | internal/transaction/service.go:119-138 | a posted transfer has two mirrored rows and one matching audit row |
| Integrity.ReversalKeepsTx | internal/reversal/service.go:128-150 | a reversal's rows mirror those of its original, and its audit row names credited and debited account |
| Integrity.FailureKeepsTx | internal/transaction/service.go:160-187 | a recorded failure has no ledger rows and one matching audit row, so that the tables stay sound; `Rules.FailureWrites` has the columns |
| Integrity.KeysKept | migrations/000001_init_schema.up.sql:32-33 | references and reversed originals stay unique, and every reversed row has its reversal |
| Integrity.FloorsKept | internal/transaction/service.go:99-108 | the checked balance bounds the stored one, for fractional amounts too |
| Integrity.HistorySound | internal/transaction/service.go:63-142 | double-entry shape, audit match, unique keys and floors hold after every history |
| Accounting.TransferMoves | internal/transaction/service.go:103-108 | the two balances move by the stored amount, up to one paisa of slip each, under exact conditions |
| Accounting.SlipAtTies | internal/transaction/service.go:99-108 | where balances cannot be negative only the source slips, exactly at ties |
| Accounting.LedgerAgrees | internal/transaction/service.go:103-126 | every balance is opening plus credits minus debits plus what rounding slipped |
| Accounting.SlipsAreTies | internal/transaction/service.go:103-126 | with non-negative floors, or without ties, that is the number of half-paisa transfers out of the account |
| Accounting.DebitsEqualCredits | internal/transaction/service.go:119-126 | the sum of debits equals the sum of credits, even for rounded amounts |
| Accounting.HistoryReduction | internal/reversal/service.go:111-139 | deleting every reversed transfer with its reversal leaves every account's ledger sum unchanged |
| Accounting.WholePaiseBalances | internal/transaction/service.go:103-126 | in whole paise and for any floors every balance is its opening balance plus its standing transfers |
| Reduction.StandingOfEvents | internal/reversal/service.go:111-139 | what stands in the ledger is what the transfers moved that the history does not undo |
| Reduction.EventReduction | internal/reversal/service.go:111-139 | off ties, replaying the history without its reversed transfers and their reversals leaves the same accounts |
| Unwinding.UnwindsIffPayable | internal/reversal/service.go:107-116 | for every history, with any amounts, floors and reversals: taking back everything that stands, newest first, is accepted at every step exactly when each destination can pay from its opening balance, the standing transfers before and the slips; then balances are openings plus slips |
| Unwinding.PayableOffTies | internal/reversal/service.go:107-109 | off ties that condition is that each destination had its floor, when the transfer was made, in the history without reversed transfers and reversals |
| Unwinding.UndoingAllRestores | internal/reversal/service.go:107-116 | with non-negative floors or without ties it is met when no reversal reached behind a younger standing transfer, and every account is left with its opening balance and a paisa per half-paisa transfer out of it |
| OutOfTurn.NewestIsRefused | internal/reversal/service.go:107-109 | a history with a reversal out of turn whose newest standing transfer is refused and which cannot be taken back |
| Totals.TransferDrift | internal/transaction/service.go:103-108 | for any floors a transfer moves the total of any currency by at most one paisa, by none off a tie |
| Totals.ReversalDrift | internal/reversal/service.go:100-116 | a reversal never moves the total of any currency |
| Totals.ExactDrift | internal/transaction/service.go:96-108 | the money of each currency, and of the bank, is what was opened plus what slipped at ties |
| Totals.DriftAtTies | internal/transaction/service.go:103-108 | with non-negative floors that is one paisa per half-paisa transfer |
| Totals.ConservedIffNoTies | internal/transaction/service.go:96-108 | with non-negative floors the money of a currency, or of the bank, is conserved exactly when none of its transfers is a tie |
| Totals.WholePaiseConserve | internal/transaction/service.go:96-108 | in whole paise and for any floors the money of each currency, and of the bank, is what was opened |
| Totals.HalfPaisaMintsMoney | internal/transaction/service.go:99-108 | half a paisa from one rupee adds a paisa to the bank |
| Consequences.ReversedIffOneReversal | internal/reversal/service.go:58-66 | a row is reversed exactly when exactly one row reverses it; only transfers are |
| Consequences.AcceptedReversalIsFree | migrations/000001_init_schema.up.sql:33 | a completed transaction has no reversal yet |
| Consequences.ReverseInverts | internal/reversal/service.go:74-116 | when reversing a transfer next succeeds, and when it restores every account, both exactly |
| Consequences.ReverseInvertsFloored | internal/reversal/service.go:107-116 | with non-negative floors it is never refused for funds and restores every account exactly off ties |
| Consequences.ReverseDecides | internal/reversal/service.go:50-165 | a reversal that runs alone on sound tables, with no request failing, is answered by its own checks and never finds its original already reversed |
| Consequences.ToldReversedIff | internal/reversal/service.go:156-165 | exactly when it is answered ALREADY_REVERSED: when the driver fails at a request whose error shows one of the two strings |
| Consequences.LockOf23505 | internal/reversal/service.go:95-98 | any failure at the lock of account 23505 is such an error |
| Consequences.UnreversedToldReversed | internal/reversal/service.go:161-163 | a transfer that nothing has reversed and that can be reversed, answered ALREADY_REVERSED |
| Consequences.TransferTracedIffReferenceFree | internal/transaction/service.go:110-191 | with no request failing a transfer, valid or not, is audited exactly when its reference is free |
| Consequences.ReverseTracedIffAccepted | internal/reversal/service.go:141-150 | a reversal is audited exactly when no request fails and its checks accept it |
| Consequences.AtMostOnce | internal/transaction/service.go:110-117 | no two commits share an id, a reference or an original; a recorded failure blocks its reference |
| Consequences.AuditBijection | internal/transaction/service.go:128-138 | every transaction has exactly one row in the whole audit log |
| Interleaving.PlanIsEvent | internal/transaction/service.go:103-138 | a session's finished log has exactly the effect of the atomic transaction |
| Interleaving.CommitRespects | internal/account/store.go:54-62 | a commit leaves alone whatever another session's locks and claimed keys protect |
| Interleaving.PhaseKept | internal/reversal/service.go:68-98 | what a session read under its locks, and its unlocked read of ledger rows, stays current through other commits |
| Serializability.ChecksAreCurrent | internal/transaction/service.go:83-101 | the checks on the rows as read decide as the committed rows would now |
| Serializability.CommitIsEvent | internal/transaction/service.go:63-142 | what is committed is the transaction run atomically on the tables of that moment |
| Serializability.StepKeeps | internal/transaction/service.go:63-191 | every step of every session, failing ones included, keeps the invariant of the run |
| Serializability.Serializable | internal/reversal/service.go:50-154 | for any number of sessions and every interleaving the committed tables are those of the committed events run one at a time in commit order |
| Safety.EveryRunIsSound | internal/transaction/service.go:99-138 | in every reachable state floors hold, the four tables fit together, and debits equal credits |
| Safety.EveryRunBalances | internal/reversal/service.go:111-139 | in every reachable state each balance is opening plus its standing transfers plus slips |
| Safety.EveryRunConserves | internal/transaction/service.go:96-108 | in every reachable state the money of each currency changed by account creation and ties alone |
| Safety.EveryWholePaiseRun | internal/transaction/service.go:96-126 | in every reachable state in whole paise, for any floors, balances are openings plus standing transfers and totals are what was opened |
| Safety.EveryRunReduces | internal/reversal/service.go:111-139 | off ties the accounts of every reachable state are those of its history without reversed transfers and reversals |
| Safety.EveryRunUnwinds | internal/reversal/service.go:107-116 | after every run, what stands can be taken back newest first exactly when the history is payable |
| Safety.EveryRunGrows | internal/reversal/service.go:68-71 | in every run the ledger rows of a committed transaction never change |
| Safety.TracesAreCommits | internal/transaction/service.go:128-138 | one audit row and one transaction row per committed call |
| Traces.TracedIffReferenceNotTaken | internal/transaction/service.go:110-191 | in every run, a finished transfer call none of whose requests failed has committed something, and so is audited, exactly when no other call committed under its reference |
| Safety.RefusalLeavesNoTrace | internal/reversal/service.go:51-57 | a run in which a refused reversal leaves nothing |
| Safety.AnswersMatchCommits | internal/transaction/service.go:144-153 | a call's answer tells exactly what it committed |
| Safety.ErrorsMoveNothing | internal/transaction/service.go:144-191 | a call that ends in an error committed at most once, and then one failed row with its audit row and nothing else |
| Safety.RecordedReasonsWereTrue | internal/transaction/service.go:71-101 | the reason stored in a failed row was true on the committed tables it was found on, and the row and its audit row hold the reference, the reason, the accounts and the amount of the request |
| Safety.EveryTransferWasAllowed | internal/transaction/service.go:83-101 | every committed transfer of every run was between two different accounts that were active then, of one currency, and left its source on its floor |
| Refusals.ReasonStaysIff | internal/transaction/service.go:71-101 | a reason once true stays true of later tables, except a missing account that is opened and funds that arrive |
| Refusals.RecordedReasonTrueIff | internal/transaction/service.go:144-158 | in every run exactly when the reason stored in a failed row is true of the tables it is recorded on |
| Refusals.ReasonGoesStale | internal/transaction/service.go:147-158 | a run that records an account as missing after it was opened |
| Refusals.EveryRefusalWasTrue | internal/reversal/service.go:50-165 | in every run a finished reversal none of whose requests failed has committed, or its answer says what is in the rows of the tables after some commit: no such row, no transfer, that status, a credited account that cannot pay, or a zero debit |
| Refusals.SendsItsRequests | internal/reversal/service.go:50-154 | an interleaved reversal sends the requests of one that runs alone |
| Answers.EveryRejectionWasTrue | internal/transaction/service.go:144-153 | in every run, whatever fails, a finished transfer has posted, or is told a reason that was true after some commit, or broke and committed nothing |
| Answers.BrokenByReference | internal/transaction/service.go:110-117 | a transfer that broke although none of its requests failed was valid after some commit, and another call committed under its reference |
| Answers.FoundIsTold | internal/transaction/service.go:155-191 | a reason once found is the one that is told, whatever fails while it is recorded |
| Refusals.OvertakenByAnother | internal/reversal/service.go:61-66 | a reversal told that its original is reversed was overtaken by another call's reversal of it |
| Safety.EveryRunCommitsOnce | migrations/000001_init_schema.up.sql:32-33 | across all interleavings money moves at most once per reference, and a transfer is undone at most once |
| Safety.ReversalUncontested | internal/reversal/service.go:118-126 | a reversal's insert neither waits for nor collides with another |
| Safety.ConstraintNeverFires | migrations/000001_init_schema.up.sql:33 | in every reachable state the insert of a reversal waits for nobody and violates nothing |
| Safety.ToldExactlyByText | internal/reversal/service.go:156-165 | in every run a call is answered ALREADY_REVERSED exactly when it was ended by a driver error whose text passes for a unique violation |
| Safety.ToldThoughStanding | internal/reversal/service.go:91-98 | in every reachable state a reversal about to lock account 23505 is answered so by any failure there, while its transfer stands unreversed |
| Progress.WaitsUpward | internal/transaction/service.go:64-81 | every wait goes upward: connection, transaction row, account rows ascending, unique keys |
| Progress.NoDeadlock | internal/reversal/service.go:87-98 | the waits-for graph of a reachable state has no cycle |
| Progress.SomeoneCanRun | internal/transaction/service.go:64-81 | in every reachable state with an unfinished call some call can take an ordinary step |
| Progress.RunsAreShort | internal/transaction/service.go:144-158 | calls in flight take a bounded number of steps, whatever interleaves or fails |
| Progress.AllCanFinish | internal/transaction/service.go:53-191 | ordinary steps alone bring every call to its answer |
| Progress.WaitsAtBeginIff | internal/db/db.go:15 | a call waits to begin exactly while 200 transactions are open |
| Display.FormatWithCommas | internal/account/handler.go:132-148 | the loop puts the last three characters apart and the rest in pairs |
| Display.CommasRoundTrip | internal/account/handler.go:132-148 | for every integer, deleting the commas gives its numeral back |
| Display.GroupingIsInjective | internal/account/handler.go:132-148 | a parser undoes the grouping, and no two integers are shown alike |
| Display.ShapeIffNonNegative | internal/account/handler.go:134-147 | the output is a head of one or two digits, pairs and a final three exactly for numbers that are not negative |
| Display.NegativeHundredIsMisgrouped | internal/account/handler.go:135-146 | minus one hundred is shown with its sign in a group of its own |
| Display.AmountIsShown | internal/account/handler.go:126-130 | a stored amount is shown as grouped rupees, a dot and exactly two digits |
| Display.AmountRoundTrip | internal/account/handler.go:126-130 | reading what is shown gives the stored amount back |
| Display.NegativeIsShown | internal/account/handler.go:126-130 | a negative balance is shown with its sign on the paise and, from one rupee on, on the rupees |
| Display.StoredFitsTwoDigits | internal/account/handler.go:126-130 | the paise of a stored amount of either sign never come out as 100 |
| Display.CarryIsLost | internal/account/handler.go:127-129 | the paise come out as 100 exactly from 99.5 paise on |

## Left out

- IEEE float64: amounts and balances are exact; an error in the comparison at internal/transaction/service.go:99 or in the display arithmetic is not modelled.
- PostgreSQL and pgx: taken as given are row locks and inserted unique keys held to the end of a transaction, locking reads of the latest committed row, plain reads of committed rows, waiting for a colliding uncommitted key, nothing left of an aborted transaction, and rounding of stored numerics with ties away from zero. Overflow of a balance, a reference of more than 255 characters and constraint errors in interleaved runs are driver errors with any text.
- A COMMIT whose outcome the caller does not learn: a failed COMMIT is modelled as an abort.
- Services.Bank.Transfer: the interleaved form of the same code is modelled on values in `Sessions`, where no objects are shared; the object form covers a call that runs alone.
- Generated ids, timestamps, serial ids of the logs and their gaps: ids are arbitrary unused values, and the logs are in commit order.
- HTTP codes, and the texts of errors that are never searched: each such error is a constructor of its own.
- A read that fails while it scans a row, or at its end: its text adds nothing that could pass for a unique violation, so it is a driver error like the others.
- Responses to a call just made, which show the requested amount instead of the stored one.
- Changes of an account's status or floor: no code performs them, so seeded accounts carry any status and floor from the start.
- Filters, paging and listings of accounts, transactions and audit rows: reads without a deep property; they take a connection for one statement each, which is not counted; for the rest a begin step waits until one is free.
- Customers, configuration, routing, migrations runner and frontend: plumbing around the ledger; the set of customers and the default currency are constants of the bank.
