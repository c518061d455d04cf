# A verified model of the ledger backend

This Dafny project models the multi-asset wallet ledger of the Go backend: balances per wallet
and asset, the transaction table, the database operations that move money, the usecases and
callback handlers that call them, the decimal arithmetic between them, the rate limiter, the
username search and the history pages. `dafny verify dfyconfig.toml` checks everything.

How it is layered:

- **Ledger** gives each repository operation its meaning when it runs alone: `Atomic(op, db)`.
  **Repository** holds the imperative operations, proved against it, and **Indexes** shows that the
  unique indexes mirror their columns. **OperationEffects** says of each operation, in its caller's
  terms, which error it gives, which balances move by how much, and every column of its row.
- **Locking** runs each operation as the database sees it: one row access after another, locks
  held to commit, writes invisible until commit, any number of operations interleaved, any of
  them failing at any point. Every interleaving is proved equal to running the committed
  operations one at a time in commit order. **Deadlock** says which circles of waiting can arise,
  and **Overtaking** which operations can fail although they would succeed alone.
- **Accounting**, **Solvency**, **ExactlyOnce** and **Undo** prove invariants over all runs:
  balances are what the transaction table says, totals are conserved, no balance is negative,
  effects happen once, a rejection is the exact inverse of its withdrawal.
- **IrisCallbacks**, **MidtransNotifications** and **OverlappingHandlers** drive the ledger with
  arbitrary sequences of callbacks. **Users**, **FiatWithdrawals**, **CryptoWithdrawals**, **Deposits**,
  **Transfers** and **TopUps** are the usecases with their guards, outside calls and failures, and
  **Payouts** follows one fiat withdrawal through its answer and all its callbacks.
  **EndToEnd** puts all of them into one state machine in which a call that waits for an outside
  service is two steps with anything in between, and proves that the books balance after every run.
- **Decimals**, **TokenUnits**, **Exchange** and **Dashboard** are the arithmetic: exact values,
  the explicit roundings of the decimal library, and error bounds.
- **Usernames** is the search for a free name at registration; **RateLimiter** and **History** stand alone.

Amounts are `real`; every rounding step is written out. Wallet ids are numbers in the order of
their UUID text, which is the order transfers lock in. Transaction ids are parameters, since the
code draws them at random; an id that is taken makes the insert fail. The answers of payment,
payout, price and chain services are parameters too.

Where the code does not have a property without a condition, the condition is stated and its
necessity is proved or shown by a concrete run:

- Each operation keeps the accounts if and only if it is faithful, for positive amounts
  (`Accounting.SoundIffFaithful`).
- Two overlapping handlers of the same Midtrans notification can both credit
  (`OverlappingHandlers.OverlapCreditsTwice`); how often is counted exactly (`OverlapCredits`).
- The status write after a payout call can reopen a withdrawal that a callback has already
  refunded or completed, and it can then be refunded again (`ExactlyOnce.ReopenedIsRefundedTwice`);
  `Payouts.RefundedTwiceIff` says exactly when.
- Swaps of one wallet that lead from asset to asset and back can block each other: two opposite
  ones, or three around the three assets. Nothing else can (`Deadlock.DeadlockIff`).
- A settlement of a row with a source wallet could deadlock with that row's rejection
  (`Deadlock.SettledWithdrawalDeadlocks`); the payment handler settles none
  (`EndToEnd.SettlesRowsWithoutSource`).
- A deposit that has to create its balance row can fail because another deposit beside it has just
  created it; no other operation can fail in vain (`Overtaking.FailsInVainIff`).
- A swap quotes the requested rupiah and debits them rounded, so a request of less than half a rupiah
  pays out for nothing (`Exchange.FreeSwap`); `Dashboard.SwapCostsItsFee` accounts for the difference.
- The service keeps its books in every orderly run (`EndToEnd.BooksBalance`), and a callback or
  status write against that order breaks them (`EndToEnd.DisorderBreaks`,
  `EndToEnd.UnpaidTopUpCompleted`).
- The listener knows a deposit by its transaction hash alone. A second token transfer in one chain
  transaction is not credited (`Deposits.CreditedPerHash`), and neither is a withdrawal sent to
  another user's deposit address (`Deposits.InternalSendIsNotCredited`).
- The fiat withdrawal check compares the unrounded total, so it can pass and the debit still be
  refused (`FiatWithdrawals.RoundingRefuses`).
- A withdrawal below one token unit is debited and sends nothing (`CryptoWithdrawals.AllDust`).

## Model

| member | source | states |
|---|---|---|
| Users.UserRepository.CreateUserWithWallet | internal/repository/user_repository.go:69-96 | user, wallet and the default balances, or nothing: refused exactly when an id or a unique column is taken; afterwards no two users clash and no wallet is shared |
| Repository.TransactionRepository.CreateDefaultBalances | internal/repository/user_repository.go:80-92 | a new wallet gets a zero balance in each of the three default assets, or nothing is written |
| Repository.TransactionRepository.LockBalanceForUpdate | internal/repository/wallet_repository.go:77-88 | returns the balance of exactly this wallet and asset, or that there is none |
| Repository.TransactionRepository.ExecuteTransferTx | internal/repository/transaction_repository.go:23-78 | locking in wallet order and reading back by sender has the effect of the atomic transfer, with the same errors |
| Repository.TransactionRepository.ExecuteWithdrawFiatTx | internal/repository/transaction_repository.go:114-149 | debits amount and fee and inserts the pending row, or changes nothing and says why |
| Repository.TransactionRepository.CreatePendingTopUpTx | internal/repository/transaction_repository.go:151-166 | inserts a pending row under a unique order id and moves no money |
| Repository.TransactionRepository.SettleTopUpTx | internal/repository/transaction_repository.go:168-183 | credits rupiah and marks the row successful, whatever its status was |
| Repository.TransactionRepository.GetTransactionByOrderID | internal/repository/transaction_repository.go:185-194 | finds a row if and only if that row carries the order id, so it finds none only when none does |
| Indexes.ByOrderFinds | internal/repository/transaction_repository.go:187 | at most one row carries an order id, and the lookup leads to it |
| Indexes.OrdersStayIndexed | internal/domain/transaction.go:22 | every operation keeps the index on order ids the mirror of its column, in both directions |
| Indexes.HashesStayIndexed | internal/domain/transaction.go:21 | the same for transaction hashes |
| OperationEffects.OpeningEffect | internal/repository/user_repository.go:80-92 | a new wallet is refused if it has one of the three balances, and otherwise has each of them at zero and moves no other |
| OperationEffects.TransferEffect | internal/repository/transaction_repository.go:23-78 | which error a transfer gives; the sender loses and the recipient gains the amount, and every column of the row names its part |
| OperationEffects.WithdrawFiatEffect | internal/repository/transaction_repository.go:114-149 | which error it gives; amount and fee leave the balance and stand in their own columns of a pending row |
| OperationEffects.CreateTopUpEffect | internal/repository/transaction_repository.go:151-166 | every column of the pending row; no balance moves |
| OperationEffects.SettleEffect | internal/repository/transaction_repository.go:168-183 | the wallet's rupiah grow by the amount and the row becomes successful and keeps its other columns |
| OperationEffects.StatusEffect | internal/repository/transaction_repository.go:196-202 | one status changes, nothing else |
| OperationEffects.DepositEffect | internal/repository/transaction_repository.go:236-291 | the wallet's balance of the asset grows by the amount, from zero if there was none, and every column of the row; a known hash changes nothing |
| OperationEffects.CreateWithdrawalEffect | internal/repository/transaction_repository.go:293-326 | the amount leaves the balance, and every column of the pending row |
| OperationEffects.UpdateWithdrawalEffect | internal/repository/transaction_repository.go:328-334 | status and hash of the one row, and what becomes of the index on hashes |
| OperationEffects.SwapEffect | internal/repository/transaction_repository.go:336-382 | the debit leaves one balance, what is received joins the other, and every column of the row |
| OperationEffects.RejectEffect | internal/repository/transaction_repository.go:384-464 | a pending row's amount, and for a fiat withdrawal its fee, return to its source; every error and the row that is left |
| Repository.TransactionRepository.UpdateTransactionStatus | internal/repository/transaction_repository.go:196-202 | overwrites the status of the row, and of no other |
| Repository.TransactionRepository.CreditCryptoDeposit | internal/repository/transaction_repository.go:236-291 | credits an existing or new balance once per transaction hash, in the same transaction as the row that takes the hash |
| Repository.TransactionRepository.CreatePendingCryptoWithdrawTx | internal/repository/transaction_repository.go:293-326 | debits and inserts the pending row, or changes nothing |
| Repository.TransactionRepository.UpdateCryptoWithdrawTx | internal/repository/transaction_repository.go:328-334 | writes status and hash; a hash that another row has refuses both |
| Repository.TransactionRepository.ExecuteSwapTx | internal/repository/transaction_repository.go:336-382 | debits one balance and credits another of the same wallet and records the debit leg |
| Repository.TransactionRepository.RejectWithdrawCryptoTx | internal/repository/transaction_repository.go:384-420 | gives a pending row's amount back to its source and fails it; does nothing to a decided row |
| Repository.TransactionRepository.RejectWithdrawFiatTx | internal/repository/transaction_repository.go:422-464 | the same, and gives the fee back too |
| Locking.CommitIsAtomic | internal/repository/transaction_repository.go:23-78 | whatever others did between its steps, an operation that commits writes the atomic effect on the tables as they are at commit |
| Locking.AbortIsAtomic | internal/repository/transaction_repository.go:168-183 | on the tables of its last read, an operation gives up for the reason that its atomic form has; a deposit may instead have been overtaken by one that took its hash or created its balance row |
| Locking.AbortsAreJust | internal/repository/transaction_repository.go:253-262 | so in every interleaving no operation fails that would have succeeded alone at that moment, but for such a deposit |
| Overtaking.AloneIsAtomic | internal/repository/transaction_repository.go:23-464 | begun with nothing beside it and advanced access by access, every operation ends: with its atomic effect committed, or without a trace if its atomic form is refused |
| Overtaking.RivalOvertakes | internal/repository/transaction_repository.go:249-262 | for any two deposits of different transactions to one balance that does not exist, a schedule in which the second fails although it would succeed alone |
| Overtaking.FailsInVainIff | internal/repository/transaction_repository.go:249-286 | an operation that would commit alone can be made to fail by others beside it if and only if it is a deposit whose balance row does not exist |
| Locking.WritesAreLocked | internal/repository/transaction_repository.go:293-326 | every row or index key that an operation writes is one it has locked |
| Locking.CommitSparesOthers | internal/repository/wallet_repository.go:77-88 | a commit changes nothing that another operation has read under a lock |
| Locking.ShortPrograms | internal/repository/transaction_repository.go:236-291 | every operation is over after at most five accesses |
| Locking.Serializable | internal/repository/transaction_repository.go:23-464 | in every interleaving, with failures anywhere, the committed tables are those of the committed operations run one at a time in commit order |
| Deadlock.WaitRises | internal/repository/transaction_repository.go:25-39 | along a wait the wanted row climbs in one fixed order, or stays because the holder is a swap on that wallet |
| Deadlock.OnlySwapsDeadlock | internal/repository/transaction_repository.go:336-351 | every circle of waiting operations consists of swaps on one wallet; transfers, rejections, settlements and deposits never take part |
| Deadlock.CircleIsCycle | internal/repository/transaction_repository.go:340-351 | around every circle of waiting operations, each swap's target is the next one's source: the requests form a cycle on one wallet |
| Deadlock.SomeoneCanStep | internal/repository/transaction_repository.go:384-402 | without a cycle among the requests in flight, some unfinished operation can always take its next step and no circle is closed |
| Deadlock.RunsNeverStick | internal/repository/transaction_repository.go:340-351 | however operations without such a cycle interleave, the run never gets stuck |
| Deadlock.RunsCanFinish | internal/repository/transaction_repository.go:23-464 | and from wherever it has come, all operations in flight can be brought to an end one step after the other |
| Deadlock.CycleDeadlocks | internal/repository/transaction_repository.go:340-351 | every cycle of covered swaps with distinct sources does close a circle: begin all, then let each lock its source |
| Deadlock.DeadlockIff | internal/repository/transaction_repository.go:23-464 | a set of operations of any kind can deadlock if and only if one wallet's swaps among them lead from asset to asset and back |
| Deadlock.ThreeSwapsDeadlock | internal/repository/transaction_repository.go:340-351 | three swaps around the three assets are such a case, though no two of them are opposite |
| Deadlock.SettledWithdrawalDeadlocks | internal/repository/transaction_repository.go:168-182 | a settlement of a row that has a source wallet can deadlock with that row's rejection, so settlements must name rows without one |
| Accounting.SoundIffFaithful | internal/repository/transaction_repository.go:311-320 | an operation leaves every balance equal to the sum over the transaction table if it is faithful; with positive amounts, only then |
| Accounting.RunKeepsSound | internal/repository/transaction_repository.go:133-143 | over every run of faithful operations each balance is the sum of the effects of the rows |
| Accounting.TotalIsNetFlow | internal/repository/transaction_repository.go:54-76 | summing balances over all wallets gives settled top-ups, deposits and swap credits less swap debits and withdrawals with fees that have not failed; transfers add nothing |
| Accounting.TotalsConserved | internal/repository/transaction_repository.go:365-376 | the same for every run from the empty ledger |
| Accounting.InterleavedRunsAreSound | internal/repository/transaction_repository.go:23-464 | both for every interleaving of the locked steps whose committed operations are faithful |
| Solvency.RunStaysSolvent | internal/repository/transaction_repository.go:50-52 | with non-negative amounts no run makes a balance negative |
| Solvency.NeverNegative | internal/repository/transaction_repository.go:118-130 | nor does any interleaving of the locked steps |
| ExactlyOnce.DepositCreditsOnce | internal/repository/transaction_repository.go:239-286 | however deposit attempts with one hash interleave, at most one commits, although the existence check is unlocked |
| ExactlyOnce.RefundsOnce | internal/repository/transaction_repository.go:384-464 | in every interleaving a row is refunded at most once more than a status write reopens it; so at most once if no write finds it decided and makes it pending, while writing `pending` onto a pending row is harmless |
| Payouts.RefundsOverLife | internal/usecase/fiat_usecase.go:86-100 | for every payout answer and all callbacks before and after it, how often an open withdrawal is refunded |
| Payouts.RefundedTwiceIff | internal/usecase/fiat_usecase.go:92-100 | twice, if and only if the answer was not final, a callback had failed it before, and the first decisive one afterwards fails it again; after a completed callback, refunded if and only if the answer was not final and the first decisive one afterwards fails it |
| Payouts.LifePays | internal/repository/transaction_repository.go:442-452 | in money: the source balance gets amount and fee back exactly that often, besides what other rows give it |
| ExactlyOnce.ReopenedIsRefundedTwice | internal/usecase/fiat_usecase.go:92-100 | a concrete run in which the write of `pending` after the payout call leads to a second refund |
| Undo.RunCommutes | internal/repository/transaction_repository.go:297-305 | operations that commit after a debit commit without it too, with the same changes |
| Undo.RejectUndoes | internal/repository/transaction_repository.go:384-464 | withdrawal, any operations that do not name it, and its rejection leave exactly what those operations alone leave, but for the failed row |
| IrisCallbacks.IrisWebhook.ProcessIrisNotification | internal/usecase/webhook_usecase.go:110-140 | the loop handles entries in order, skips what it cannot use and stops at the first error |
| IrisCallbacks.EntryEffect | internal/usecase/webhook_usecase.go:112-132 | what an entry with the word `completed`, `failed` or any other does to the row it names and to its source's balance, and which error it gives |
| IrisCallbacks.BatchStops | internal/usecase/webhook_usecase.go:135-139 | a batch ends after its last entry, or at the first whose rejection is refused, with that refusal's error |
| IrisCallbacks.BatchTwice | internal/usecase/webhook_usecase.go:110-140 | processing a batch again changes nothing, even if it stopped early |
| IrisCallbacks.BatchesDeliver | internal/usecase/webhook_usecase.go:135-138 | however callbacks are split into batches, the effect is that of the reached ones in order |
| IrisCallbacks.RefundedOnce | internal/repository/transaction_repository.go:422-464 | every balance receives one refund for each pending row whose first decisive callback is `failed`, and nothing else |
| IrisCallbacks.FinalStatus | internal/usecase/webhook_usecase.go:121-129 | the status every row ends with: success if ever completed, failed if it was open and decided, otherwise as it was |
| IrisCallbacks.BatchesRefundOnce | internal/usecase/webhook_usecase.go:110-140 | the refund theorem for batches as they arrive |
| MidtransNotifications.MidtransWebhook.ProcessMidtransNotification | internal/usecase/webhook_usecase.go:32-108 | each guard, verdict and error of the handler, and its effect on the tables |
| MidtransNotifications.PaidIsCredited | internal/usecase/webhook_usecase.go:82-104 | for a pending row, `settlement`, and `capture` with `accept`, add exactly the notified amount to the wallet's rupiah and make the row successful |
| MidtransNotifications.FailedIsNotCredited | internal/usecase/webhook_usecase.go:82-106 | `deny`, `cancel`, `expire`, and `capture` with any other fraud status, move no balance and make the row failed |
| MidtransNotifications.OtherWordsAreIgnored | internal/usecase/webhook_usecase.go:82-94 | any other status changes nothing |
| MidtransNotifications.OthersAreRefused | internal/usecase/webhook_usecase.go:33-80 | missing fields, a wrong signature, an unknown order, a decided row and an unreadable amount change nothing, each with its answer |
| MidtransNotifications.CreditedOnce | internal/usecase/webhook_usecase.go:58-108 | over every sequence of notifications a balance receives exactly the notified amounts of the pending orders whose first decisive notification settles them, once each |
| MidtransNotifications.DecidedOnce | internal/usecase/webhook_usecase.go:68-76 | every row's status leaves pending at most once, by the first notification that fails it or settles it for a wallet that can be credited, and never changes again |
| OverlappingHandlers.AloneIsTheHandler | internal/usecase/webhook_usecase.go:58-108 | a handler whose read and act nothing comes between does what the handler does alone |
| OverlappingHandlers.OverlapCredits | internal/repository/transaction_repository.go:168-183 | for overlapping handlers, the exact sum credited: every settling handler that read the row before any had acted |
| OverlappingHandlers.NoOverlapCreditsOnce | internal/usecase/webhook_usecase.go:68-71 | handlers that do not overlap credit at most once |
| OverlappingHandlers.OverlapCreditsTwice | internal/repository/transaction_repository.go:168-183 | two that overlap can credit twice |
| Decimals.RoundShift | internal/usecase/fiat_usecase.go:65-67 | rounding a non-negative amount commutes with adding a whole one |
| Decimals.RoundIsNearest | internal/usecase/exchange_usecase.go:132-140 | rounding gives the nearest whole amount and no other, halves away from zero, alike for negative amounts |
| Decimals.BigIntTruncates | internal/usecase/crypto_usecase.go:248-250 | the whole part is the only integer at most one below the amount, and the same of its negation |
| Decimals.DivNear | internal/usecase/exchange_usecase.go:125-126 | a quotient is off by at most half a unit of its 16th place |
| Decimals.DivPlaces | internal/usecase/exchange_usecase.go:125-126 | and has 16 decimal places at most |
| TokenUnits.CreditIsExact | pkg/blockchain/erc20_listener.go:168-169 | with at most 16 decimals a deposit is credited exactly |
| TokenUnits.CreditOf18 | pkg/blockchain/erc20_listener.go:156-159 | with the default of 18 decimals the credit is exact if and only if the units are a multiple of 100 |
| TokenUnits.UnitsRoundTrip | internal/usecase/crypto_usecase.go:248-250 | depositing v units and withdrawing the credit sends v units |
| TokenUnits.Dust | internal/usecase/crypto_usecase.go:248-250 | a withdrawal sends whole units and loses less than one |
| TokenUnits.NoDust | internal/usecase/crypto_usecase.go:248-250 | nothing is lost if and only if the amount has at most 6 places |
| Exchange.ExchangeUsecase.Swap | internal/usecase/exchange_usecase.go:70-157 | the guards in order, the panic on a zero price, the quote at whatever prices the feed gave, and the balances and every column of the row that it books |
| Exchange.Requirements | internal/usecase/exchange_usecase.go:71-119 | which swaps pass the guards and which error the first failing guard gives |
| Exchange.QuoteIsFair | internal/usecase/exchange_usecase.go:123-143 | the fee is the fraction f of what the request is worth at the two rates and the net is the rest of it, both from above and below, up to the 16th place and half a rupiah; the quoted rate is that of the two assets, and the debit is the request |
| Exchange.QuoteSplits | internal/usecase/exchange_usecase.go:123-136 | net and fee are not negative and make up the gross amount, exactly for a crypto target and within a rupiah otherwise |
| Exchange.DebitIsRequest | internal/usecase/exchange_usecase.go:137-140 | the debit is the requested amount if and only if a rupiah request is whole |
| Exchange.FreeSwap | internal/usecase/exchange_usecase.go:125-140 | a request below half a rupiah debits nothing, and pays out all the same if and only if its gross amount reaches half a unit of the 16th place |
| Exchange.RoundTrip | internal/usecase/exchange_usecase.go:123-143 | swapping into crypto and back at fixed rates returns at most the requested amount less two fees, within an explicit rounding bound |
| Exchange.RoundTripThroughRupiah | internal/usecase/exchange_usecase.go:123-143 | so does swapping crypto into rupiah and back, with half a rupiah more for the rounding in between |
| Dashboard.GetDashboard | internal/usecase/wallet_usecase.go:163-192 | the loop's total is the value of the holdings, each at its rate, whatever the order of the rows |
| Dashboard.WalletTotal | internal/usecase/wallet_usecase.go:174-184 | that value is the rupiah plus USDT and USDC at their prices; a missing or non-positive price and any other asset count nothing |
| Dashboard.RowsAreHoldings | internal/usecase/wallet_usecase.go:166-172 | each row's balance is what the wallet holds of its asset |
| Dashboard.SwapCostsItsFee | internal/usecase/exchange_usecase.go:123-143 | a swap lowers the dashboard total by the value of its fee less what was quoted but not debited, within an explicit rounding bound |
| FiatWithdrawals.FiatUsecase.WithdrawFiat | internal/usecase/fiat_usecase.go:40-112 | when it refuses and why; what it reports as deducted is what left the balance and what a rejection gives back; an error leaves every balance as it was |
| FiatWithdrawals.Requirements | internal/usecase/fiat_usecase.go:40-70 | which withdrawals pass, with the minimum of 50000 and the fee of 2500, and which error the first failing check gives |
| FiatWithdrawals.PayoutFailureRestores | internal/usecase/fiat_usecase.go:86-90 | whatever commits during the payout call, its failure gives back exactly the rounded total |
| FiatWithdrawals.RoundingRefuses | internal/usecase/fiat_usecase.go:59-67 | the check passes and the debit is refused exactly when rounding up goes past the balance |
| CryptoWithdrawals.CryptoUsecase.WithdrawCrypto | internal/usecase/crypto_usecase.go:146-190 | the guards in order, and the pending debit |
| CryptoWithdrawals.Requirements | internal/usecase/crypto_usecase.go:146-172 | which withdrawals pass, and which error the first failing check gives |
| CryptoWithdrawals.CryptoUsecase.BroadcastWithdrawal | internal/usecase/crypto_usecase.go:192-275 | sends exactly one transfer, of the configured contract's token to the requested address, if every outside call succeeds, otherwise nothing; the matching status write or rejection follows |
| CryptoWithdrawals.BroadcastSettles | internal/usecase/crypto_usecase.go:174-275 | with any operations in between, every failure point ends in a full refund or in one send with `success` and dust below one unit; the one exception is a hash that another row has |
| CryptoWithdrawals.AllDust | internal/usecase/crypto_usecase.go:248-250 | zero units are sent exactly for amounts below one unit |
| Deposits.ERC20Listener.AddToWatchList | pkg/blockchain/erc20_listener.go:95-99 | from now on a log to this address asks for a deposit to this wallet, and logs to others ask for what they did before |
| Deposits.ERC20Listener.HandleLog | pkg/blockchain/erc20_listener.go:131-195 | removed, undecodable, unwatched and unconfirmed logs do nothing; any other asks for one deposit of the converted amount |
| Deposits.LogEffect | pkg/blockchain/erc20_listener.go:131-178 | which logs do nothing; any other credits the watcher of the recipient with its units over ten to the contract's configured decimals, or to 18 without an entry, exactly up to 16 decimals and to the 16th place beyond, and every column of the row |
| Deposits.RedeliveryIsIgnored | internal/repository/transaction_repository.go:240-245 | logs that were handled may come again in any order and number without effect |
| Deposits.CreditedPerHash | pkg/blockchain/erc20_listener.go:161-178 | each balance grows by the first watched log of each new transaction hash, and by nothing else |
| Deposits.ConfiguredCredit | cmd/api/main.go:176-183 | with the configured 6 decimals that credit is the exact value of the units |
| Deposits.InternalSendIsNotCredited | internal/repository/transaction_repository.go:328-334 | once a withdrawal carries a hash, a deposit of the same chain transaction is refused in every later state |
| Transfers.TransferUsecase.Transfer | internal/usecase/auth_usecase.go:127-153 | the guards in order, then the transfer between the two users' wallets |
| Transfers.Requirements | internal/usecase/auth_usecase.go:127-150 | which transfers pass, and which error the first failing check gives |
| Transfers.TransferMoves | internal/usecase/auth_usecase.go:132-152 | with the guards passed the wallets differ, the amount moves from one to the other, and totals stay |
| Transfers.SameWalletWouldMint | internal/repository/transaction_repository.go:54-64 | without them the second balance write would win and create the amount |
| TopUps.WalletUsecase.TopUp | internal/usecase/wallet_usecase.go:45-86 | no balance changes; the row is pending, or failed if the charge was refused |
| TopUps.RefusedTopUpIsNeverCredited | internal/usecase/wallet_usecase.go:72-76 | after a refused charge, no sequence of notifications credits more than it would without that top-up |
| EndToEnd.NotifyIsProcess | internal/usecase/webhook_usecase.go:32-108 | the step of the service model for a notification is the handler |
| EndToEnd.CallsAskFor | internal/usecase/auth_usecase.go:127-153 | what each call of a user asks the repository for, with the wallets, amounts and ids of the request, and exactly which requests ask for nothing |
| EndToEnd.AnswersAskFor | internal/usecase/webhook_usecase.go:110-140 | what each answer from outside asks for: payout words, callbacks, the calls of a broadcast, chain logs |
| EndToEnd.CallsWait | internal/usecase/crypto_usecase.go:174-181 | which calls wait for an answer from then on, and when the wait ends |
| EndToEnd.OpIsSafe | internal/usecase/auth_usecase.go:127-153 | the usecases' guards establish what the accounts and the balances need of every operation that commits |
| EndToEnd.SettlesRowsWithoutSource | internal/usecase/webhook_usecase.go:96-102 | the payment handler only settles rows without a source wallet, which is what freedom from deadlock asks of settlements |
| EndToEnd.BroadcastWaits | internal/usecase/crypto_usecase.go:179-181 | until a broadcast finishes nothing writes to its row but callbacks that name it, and what each of these makes of it |
| EndToEnd.RunKeepsGood | internal/usecase/webhook_usecase.go:58-140 | the invariant of the whole service over every orderly run |
| EndToEnd.BooksBalance | internal/repository/transaction_repository.go:23-464 | after every orderly run of all usecases and handlers no balance is negative, each is the sum over the table, and totals are conserved |
| EndToEnd.DisorderBreaks | internal/usecase/webhook_usecase.go:121-129 | no clause of that order about callbacks and status writes can go: against it the accounts break, at once or when the broadcast succeeds |
| EndToEnd.UnpaidTopUpCompleted | internal/usecase/webhook_usecase.go:121-122 | a run of three calls that breaks them: register, ask for a top-up, and a `completed` callback with its id |
| EndToEnd.RunIsReplay | internal/repository/transaction_repository.go:23-464 | a run of the service is the run of the operations it commits, all faithful, with no hash replaced |
| EndToEnd.OneCreditPerHash | internal/repository/transaction_repository.go:239-286 | over every orderly run of the service a transaction hash is credited at most once |
| EndToEnd.InterleavedBooksBalance | internal/repository/transaction_repository.go:23-464 | the books balance in every interleaving of guarded operations in which status writes and settlements meet their row as their caller read it |
| EndToEnd.DisciplinedBooksBalance | internal/repository/transaction_repository.go:23-464 | the same with nothing asked of the tables at commit: each operation is what its caller's guards and reads allow where it begins, and no two run beside each other on one row if either overwrites its status |
| EndToEnd.CallsAreWellAsked | internal/usecase/webhook_usecase.go:58-140 | every committing call of an orderly run of the service does ask for what its guards and reads allow |
| RateLimiter.IPBasedRateLimiter.Allow | pkg/middleware/rate_limiter.go:35-74 | what a request does to its client's entry and to no other, and when it is admitted: if tokens left and tokens earned make one |
| RateLimiter.BurstAdmits | pkg/middleware/rate_limiter.go:42-72 | of any number of requests in one instant exactly as many are admitted, the first ones, as the client has tokens left and has earned since it was last refilled, up to a full bucket |
| RateLimiter.FreshBurst | pkg/middleware/rate_limiter.go:38-41 | and of a new client exactly a full bucket |
| RateLimiter.IPBasedRateLimiter.Cleanup | pkg/middleware/rate_limiter.go:26-30 | the loop deletes exactly the clients idle for more than an hour |
| RateLimiter.UnobservableIff | pkg/middleware/rate_limiter.go:21-33 | for every request sequence and every eviction schedule the answers are those without eviction, if and only if there is a bucket and an hour and a tick fill it |
| RateLimiter.ConfiguredLimiter | cmd/api/main.go:280 | the limiter of the API is such a one |
| RateLimiter.AdmissionsAreBounded | pkg/middleware/rate_limiter.go:42-72 | admissions of one IP since its entry are at most a bucket and the refills, in any later window one period's refill more, with and without eviction; tokens stay between zero and the maximum |
| Usernames.DecimalInjective | internal/usecase/auth_google.go:65 | different suffixes are rendered differently |
| Usernames.DecimalReadsBack | internal/usecase/auth_google.go:65 | a suffix is written in ASCII digits that read back as the same number, without leading zeros |
| Usernames.TakenRun | internal/usecase/auth_google.go:63-71 | fewer suffixes in a row are taken than there are names |
| Usernames.AuthUsecase.FreeUsername | internal/usecase/auth_google.go:53-71 | the loop ends for every set of names within one probe more than there are names, with the base name if free and else the least free suffix |
| Usernames.ChosenIsUnique | internal/usecase/auth_google.go:53-71 | that choice is determined by the taken names |
| Usernames.ChosenReads | internal/usecase/auth_google.go:53-71 | for a taken base the name is the base followed by a positive number, all smaller ones being taken |
| Usernames.AuthUsecase.RegisterGoogleUser | internal/usecase/auth_google.go:45-95 | registering a new user is refused only for an e-mail, Google id or generated id that is taken, never for the chosen name |
| History.GetTransactionHistory | internal/usecase/wallet_usecase.go:88-152 | the items are the requested page of the filtered list, column by column; a page below 1 becomes 1 and a size outside 1 to 100 becomes 20; with the page count |
| History.ClampedTwice | internal/repository/transaction_repository.go:204-210 | clamping in the usecase and again in the repository is clamping once |
| History.MatchingIsExact | internal/repository/transaction_repository.go:212-220 | the filtered list holds each row that has the wallet as source or destination and passes the filters as often as the table, and no other |
| History.MatchingSplits | internal/repository/transaction_repository.go:229 | matching rows keep the order of the table |
| History.TotalPages | internal/usecase/wallet_usecase.go:109-112 | the least number of pages that hold the list, one at least |
| History.PagesPartition | internal/repository/transaction_repository.go:227-231 | pages 1 to the page count, one after the other, are the list |
| History.PageSizes | internal/repository/transaction_repository.go:227-231 | earlier pages are full, the last is not empty, later ones are |
| History.RowIsOnItsPage | internal/repository/transaction_repository.go:227-231 | on which page and at which place each row stands |

## Left out

- GORM and PostgreSQL internals, foreign-key share locks, isolation anomalies and retries: row locks are taken as held to commit and FOR UPDATE as reading the latest committed value. An UPDATE of an id that has no row is modelled as holding that id.
- Connection failures other than an operation failing as a whole, at any step.
- Registration runs as one step of the interleaved machine; passwords and the other columns of a user are not modelled.
- Repository.TransactionRepository.LockBalanceForUpdate: states the value read; the row lock it takes is modelled in Locking.
- Deadlock.RunsNeverStick: a settlement is to name, when it begins, a row without a source wallet; EndToEnd.SettlesRowsWithoutSource shows that the payment handler does, and Deadlock.SettledWithdrawalDeadlocks why.
- Deadlock.DeadlockIff: every swap is covered by its balance and has two assets, as the guards of Swap demand; settlements as above.
- Column rounding to decimal(36,18) and decimal(20,8) on storage: amounts stay exact as in the Go code.
- The `credit` field of a transaction is not a column: the table records neither the credit leg of a swap nor a settled amount, and the accounting statements need them. No operation reads it.
- A verified Midtrans amount is not negative in EndToEnd; it comes from the payment service.
- EndToEnd.BooksBalance: needs a run to be orderly, since plain status writes do not look at the row. A refused charge must not have been paid, a payout accepted with a status not already called back as failed, a `completed` callback must not name a top-up that has not succeeded or a withdrawal that failed, a `failed` one no withdrawal that is being broadcast, and the prices of a swap are not negative.
- EndToEnd.DisorderBreaks: for rows with positive amounts; that prices must not be negative is not shown to be needed.
- EndToEnd.BooksBalance: handlers run one at a time between outside calls; what overlapping Midtrans handlers do is in OverlappingHandlers, and the interleaving inside database transactions in Locking.
- Deposits.ERC20Listener.HandleLog: the wait for confirmations is a parameter. The requirements documents ask for 5 confirmations, the code waits for 3.
- Deposits.ERC20Listener.AddToWatchList: addresses are taken to be in lower case already.
- EndToEnd.DisciplinedBooksBalance: an operation begins where its caller reads; what happens when handlers of one row overlap instead is in OverlappingHandlers.
- Deposits.CreditedPerHash: the transaction ids that handlers draw are new; UUID collisions are not modelled there.
- ExactlyOnce.DepositCreditsOnce: needs that no status write replaces the hash of a row by another; the one caller writes a hash onto a row that has none.
- Listener reconnection, backoff and reloading of the watch list; entries can only be added here.
- RateLimiter.IPBasedRateLimiter.Allow: the source updates shared client records under a mutex; here the map holds values and each call is one step. 64-bit overflow of times and tokens is not modelled.
- RateLimiter.UnobservableIff: quantifies over every schedule of cleanups, not only ten-minute ones.
- History.GetTransactionHistory: the page count uses integer division where the source rounds a 64-bit float quotient; the table is a list in one fixed order, while `created_at` alone does not break ties.
- Usernames.AuthUsecase.FreeUsername: two registrations that run at once are not modelled, nor is the sanitising of the base name.
- Transaction notes, case folding and trimming of symbols, networks and addresses.
- ExecuteTopUpTx and GetOrCreateBalance, which no usecase calls for a balance change.
- HTTP handlers, authentication, cryptography and key wiping, e-mail, price fetching, payment and chain clients.
