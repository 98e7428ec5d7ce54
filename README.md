# Exchange observer: a verified model of the margin-debt repayment cascade

The exchange observer service watches a company margin account on Binance and
keeps it free of debt. Two timer jobs run over shared storage. The storage has
three parts:

- the asset configuration table (`ObserverAsset`, keyed by AssetSymbol and Network);
- the transfer ledger (`ObserverTransfer`), numbered by an identity column;
- the debt-monitor table (`TransfersMonitorNoSqlEntity`), one row per symbol.

**The borrow checker job** (`BorrowCheckerJob`) takes every margin balance with
a non-zero `Borrowed` and drives that debt down in a fixed order:

1. repay from the position's own margin balance;
2. transfer from the Binance main book to margin;
3. transfer from a custody (Fireblocks) vault.

The vault step is skipped while any asset mapped to the symbol is locked. It
first looks for one (asset, vault) pair that can pay the whole residual. The
order is asset weight, highest first, then vault weight, highest first. If no
pair can, it takes part payments from every pair in the same order. Every
movement writes a ledger row. A vault movement also extends the lock of its
asset. At the end, the symbol's monitor row is deleted when the debt is
cleared. Otherwise it is replaced by a "Depth" row holding the residual and the
reason. An exception ends the position with an "Error" row, and the loop moves
on to the next position.

**The equity checker job** (`EquityCheckerJob`) adds up the USD value of the
margin balances. It keeps a "USD Total" monitor row when the total is outside
the configured band.

**The gRPC service** (`ObserverService`) upserts and deletes configuration rows
by key. It also serves a paged, filtered query over the ledger.

## How the model is organised

- `common.dfy` (`Common`): Option, `Math.Min`, `Where`, `Sum`, `String.Contains`, `IsNullOrWhiteSpace`.
- `ordering.dfy` (`Ordering`): `OrderByDescending` as a stable insertion sort.
- `domain.dfy` (`Domain`): the records, and DateTime as a tick count.
- `monitor_entity.dfy` (`MonitorEntity`): the monitor row, its keys and `Create`.
- `gateway.dfy` (`Gateway`): the settlement side of the job, as an oracle object.
  - It covers the external market's repay and the exchange gateway's two transfers.
  - Its answers are fixed for the cycle, and it logs every request it receives.
- `job_helper.dfy` (`JobHelper`): the shared store as a class.
  - It has the methods `SaveTransfer`, `GetAssets`, `LockAsset`, `AddToMonitor` and `ResetMonitor`.
  - `MaxDate` and the lock function are defined here too.
- `borrow_plan.dfy` (`BorrowPlan`): what one cycle decides, as pure functions.
  - The inputs are the cycle's snapshot and the gateway's answers.
  - Every step, each pass of the vault step, one position and the whole cycle has a plan.
- `borrow_properties.dfy` (`BorrowProperties`): what those plans guarantee.
- `borrow_checker.dfy` (`BorrowChecker`): the job's methods.
  - Their loops, step-by-step residual and store updates follow the source.
  - Each method is proved to carry out its plan exactly. That means the ledger
    rows, the identity counter, the asset locks, the gateway requests and the
    monitor table.
- `equity_checker.dfy` (`EquityChecker`): the equity check and its properties.
- `observer_service.dfy` (`ObserverService`): asset upsert and delete, and the transfer query.

Decimals are `real` and a DateTime is its tick count. The cycle's `DateTime.UtcNow` is one `now`
parameter. Index prices and the decimal-to-text formatting inside the ledger
reasons and comments are function parameters.

`Create` builds a monitor row but never assigns its Type column, so every row
has an unset type. The model keeps that behaviour.

## Model

| member | source | states |
|---|---|---|
| `MonitorEntity.KeyOfInjective` | src/Service.ExchangeObserver.Domain.Models/NoSql/TransfersMonitorNoSqlEntity.cs:11-12 | two assets share a monitor key exactly when they are the same asset, so each symbol has one row |
| `MonitorEntity.CreateFacts` | src/Service.ExchangeObserver.Domain.Models/NoSql/TransfersMonitorNoSqlEntity.cs:22-33 | a created row stored under its asset's key forms a keyed table, and only that asset's key finds it; the `type` argument does not affect the row, whose Type stays unset |
| `JobHelper.MaxDate` | src/Service.ExchangeObserver/Services/ObserverJobHelper.cs:47-51 | the result is one of the two instants and is not earlier than either |
| `JobHelper.LockRows` | src/Service.ExchangeObserver/Services/ObserverJobHelper.cs:40-45 | each row of the symbol is locked until max(old lock, new lock) and at least the new lock; no lock moves earlier; rows of other symbols and all other columns are unchanged |
| `JobHelper.LockRowsIdempotent` | src/Service.ExchangeObserver/Services/ObserverJobHelper.cs:36-52 | locking twice with the same instant gives the same table as locking once |
| `JobHelper.LockRowsKeepsKeys` | src/Service.ExchangeObserver/Services/ObserverJobHelper.cs:40-45 | locking keeps the (AssetSymbol, Network) keys unique |
| `JobHelper.NumberedExtends` | src/Service.ExchangeObserver/Services/ObserverJobHelper.cs:24-29 | ledger rows numbered from the counter keep identity values increasing and below the counter |
| `JobHelper.ObserverStore.SaveTransfer` | src/Service.ExchangeObserver/Services/ObserverJobHelper.cs:24-29 | exactly one row is appended, carrying the next identity value; existing rows, assets and monitor are untouched |
| `JobHelper.ObserverStore.GetAssets` | src/Service.ExchangeObserver/Services/ObserverJobHelper.cs:30-35 | returns the whole asset table and changes nothing |
| `JobHelper.ObserverStore.LockAsset` | src/Service.ExchangeObserver/Services/ObserverJobHelper.cs:36-52 | the loop leaves the table its lock function describes, locked until now plus the lock time; the ledger and monitor are untouched (the job's own copy, src/Service.ExchangeObserver/Jobs/BorrowCheckerJob.cs:344-359, is the same) |
| `JobHelper.ObserverStore.AddToMonitor` | src/Service.ExchangeObserver/Services/ObserverJobHelper.cs:53-56 | the symbol's key gets the row Create builds, replacing any earlier one; nothing else changes |
| `JobHelper.ObserverStore.ResetMonitor` | src/Service.ExchangeObserver/Services/ObserverJobHelper.cs:57-61 | the symbol's key has no row afterwards; nothing else changes |
| `JobHelper.UpsertMonitorFacts` | src/Service.ExchangeObserver/Services/ObserverJobHelper.cs:53-56 | after an upsert the symbol has exactly the new row and every other symbol keeps its row or its absence |
| `JobHelper.ResetMonitorFacts` | src/Service.ExchangeObserver/Services/ObserverJobHelper.cs:57-61 | after a delete the symbol has no row and every other symbol keeps its row or its absence |
| `JobHelper.UpsertKeepsKeyed` | src/Service.ExchangeObserver/Services/ObserverJobHelper.cs:53-56 | an upsert through Create keeps every row stored under its own asset's key |
| `JobHelper.ResetKeepsKeyed` | src/Service.ExchangeObserver/Services/ObserverJobHelper.cs:57-61 | a delete keeps every remaining row under its own key |
| `JobHelper.OneRowPerSymbol` | src/Service.ExchangeObserver.Domain.Models/NoSql/TransfersMonitorNoSqlEntity.cs:11-12 | in a keyed table two rows for the same asset are the same row |
| `Domain.AddMinutes` | src/Service.ExchangeObserver/Services/ObserverJobHelper.cs:43 | adding a non-negative number of minutes never moves an instant earlier, and adding a positive number moves it later |
| `Common.Min` | src/Service.ExchangeObserver/Jobs/BorrowCheckerJob.cs:129 | the result is one of the two amounts and not above either |
| `Common.FilterFacts` | src/Service.ExchangeObserver/Jobs/BorrowCheckerJob.cs:77-78 | a filter keeps exactly the elements that meet the condition, no more often than before |
| `Common.Contains` | src/Service.ExchangeObserver/Services/ObserverService.cs:134-136 | true exactly when the needle occurs at some offset of the text |
| `Ordering.SortDescFacts` | src/Service.ExchangeObserver/Jobs/BorrowCheckerJob.cs:228-229 | the ordering is highest key first and a permutation of its input |
| `Ordering.SortDescStable` | src/Service.ExchangeObserver/Jobs/BorrowCheckerJob.cs:228-229 | the ordering is stable: the elements of each key keep their original relative order |
| `Gateway.SettlementGateway.Send` | src/Service.ExchangeObserver/Jobs/BorrowCheckerJob.cs:137-142 | the request is logged and the oracle's answer to it is returned |
| `BorrowPlan.FindBalanceFrom` | src/Service.ExchangeObserver/Jobs/BorrowCheckerJob.cs:173 | finds the first main balance of the symbol, or reports that there is none |
| `BorrowPlan.VaultBalanceFrom` | src/Service.ExchangeObserver/Jobs/BorrowCheckerJob.cs:232-234 | finds the first custody balance that matches the vault, asset and network, or reports that there is none |
| `BorrowPlan.FullPassVaultsFacts` | src/Service.ExchangeObserver/Jobs/BorrowCheckerJob.cs:230-250 | the inner loop stops at the first vault that can pay the residual above its floor, with the residual reaching the asset's minimum transfer; every earlier vault fails that test |
| `BorrowPlan.FullPassFromFacts` | src/Service.ExchangeObserver/Jobs/BorrowCheckerJob.cs:228-250 | the full pass picks the first qualifying (asset, vault) pair in loop order, or no pair when none qualifies |
| `BorrowPlan.LocksAfterFacts` | src/Service.ExchangeObserver/Jobs/BorrowCheckerJob.cs:344-359 | the locks a cycle takes only move LockedUntil later, touch no other column, leave symbols without a vault movement as they were, and keep the keys unique |
| `BorrowPlan.PaidSumSplit` | src/Service.ExchangeObserver/Jobs/BorrowCheckerJob.cs:82-109 | the total moved is the amount moved on the exchange plus the amount moved from custody |
| `BorrowProperties.PayFromMarginAccountFacts` | src/Service.ExchangeObserver/Jobs/BorrowCheckerJob.cs:127-167 | the repay amount is min(Balance, Borrowed); at 0 no request is sent and 0 is paid; otherwise exactly one repay request goes out; the step raises exactly when that request fails, with no ledger row; an error response raises "Unable to repay. Error " followed by the error, a thrown exception is rethrown with its own message |
| `BorrowProperties.TransferFromMainAccountFacts` | src/Service.ExchangeObserver/Jobs/BorrowCheckerJob.cs:173-211 | with no main balance for the symbol nothing is sent and 0 is paid; a movement is min(residual, first main balance of the symbol); a zero payment sends nothing; a failure is one failed request and raises, with "Unable to transfer binance main to margin.  Error " followed by the error for an error response and the exception's own message otherwise |
| `BorrowProperties.LockedAssetSkipsVaults` | src/Service.ExchangeObserver/Jobs/BorrowCheckerJob.cs:223-225 | the vault step is skipped, moving nothing and sending nothing, exactly when a snapshot asset of the symbol is locked past now |
| `BorrowProperties.CandidateFacts` | src/Service.ExchangeObserver/Jobs/BorrowCheckerJob.cs:228-229 | the candidate assets are table rows mapped to the symbol, ordered by weight; the vaults are ordered by weight and none is lost |
| `BorrowProperties.FullPassFacts` | src/Service.ExchangeObserver/Jobs/BorrowCheckerJob.cs:228-250 | when a pair qualifies, one request is sent: a transfer of exactly the residual from the first qualifying pair; no earlier pair qualifies; the step raises exactly when that request fails; on success that one movement is the step's payment; a failure books nothing and raises with "Unable to transfer from Fireblocks to Binance.  Error " followed by the error, or the thrown exception's own message |
| `BorrowProperties.FullPassPrefersWeight` | src/Service.ExchangeObserver/Jobs/BorrowCheckerJob.cs:228-229 | no qualifying pair has a heavier asset than the chosen one, and none on the chosen asset has a heavier vault |
| `BorrowProperties.PartialVaultsStopsAt` | src/Service.ExchangeObserver/Jobs/BorrowCheckerJob.cs:263-264 | leaving the vault loop once the residual is 0 (or it raised) gives the same state as running it to the end |
| `BorrowProperties.PartialAssetsStopsAt` | src/Service.ExchangeObserver/Jobs/BorrowCheckerJob.cs:258-259 | leaving the asset loop once the residual is 0 (or it raised) gives the same state as running it to the end |
| `BorrowProperties.PartialAssetsByWeight` | src/Service.ExchangeObserver/Jobs/BorrowCheckerJob.cs:255-286 | partial movements come only from candidates and listed vaults, heavier assets first |
| `BorrowProperties.PartialPassFacts` | src/Service.ExchangeObserver/Jobs/BorrowCheckerJob.cs:253-288 | each partial movement is min(residual, balance above floor), at least the minimum transfer, and never above the residual or the available balance; none is made at residual 0; each quotes the residual the previous one left; the total is their sum; the residual is the start minus the total and stays non-negative |
| `BorrowProperties.VaultStepAccounting` | src/Service.ExchangeObserver/Jobs/BorrowCheckerJob.cs:220-289 | the vault step only moves custody funds; when it completes it reports exactly the sum it moved; when it is skipped it moves nothing |
| `BorrowProperties.PositionConservation` | src/Service.ExchangeObserver/Jobs/BorrowCheckerJob.cs:82-120 | without an exception the debt equals the amount moved plus the residual; with one, it equals the exchange-side amount plus the recorded residual; a cleared position has residual 0 and an unresolved one does not; "payment in process" occurs exactly when the vault step was lock-skipped |
| `BorrowProperties.MarginBalanceCoversDebt` | src/Service.ExchangeObserver/Jobs/BorrowCheckerJob.cs:85-92 | a debt covered by the margin balance is repaid by one repay request and, when that repay succeeds, the position is cleared |
| `BorrowProperties.MonitorAfterRow` | src/Service.ExchangeObserver/Jobs/BorrowCheckerJob.cs:88-119 | after a position its row is gone exactly when the debt was cleared; otherwise the row holds the residual, now, and the Depth reason or "Error" with the exception message |
| `BorrowProperties.MonitorAfterKeyed` | src/Service.ExchangeObserver/Jobs/BorrowCheckerJob.cs:88-119 | a position's monitor update keeps every row under its own key |
| `BorrowProperties.CycleMonitorKeyed` | src/Service.ExchangeObserver/Jobs/BorrowCheckerJob.cs:80-121 | a whole cycle keeps every row under its own key, so the table holds one row per symbol |
| `BorrowProperties.CycleMonitorOthers` | src/Service.ExchangeObserver/Jobs/BorrowCheckerJob.cs:80-121 | monitor rows of symbols that no position carries are left as they were |
| `BorrowProperties.CycleMonitorKeepsRow` | src/Service.ExchangeObserver/Jobs/BorrowCheckerJob.cs:80-121 | a later position of another symbol does not change a symbol's row |
| `BorrowProperties.CycleMonitorRow` | src/Service.ExchangeObserver/Jobs/BorrowCheckerJob.cs:80-121 | at the end of the cycle a position's row reflects its own outcome, when no later position carries its symbol; without an exception its debt equals the amount moved plus the monitored amount |
| `BorrowChecker.PayFromMarginAccount` | src/Service.ExchangeObserver/Jobs/BorrowCheckerJob.cs:125-169 | the method sends the plan's requests and appends the plan's numbered ledger row; the monitor is unchanged |
| `BorrowChecker.TransferFromMainAccount` | src/Service.ExchangeObserver/Jobs/BorrowCheckerJob.cs:171-218 | the method sends the plan's requests and appends the plan's numbered ledger row; the monitor is unchanged |
| `BorrowChecker.ExecuteTransferToFireblocks` | src/Service.ExchangeObserver/Jobs/BorrowCheckerJob.cs:291-336 | one transfer request; on success one numbered ledger row and the amount paid; on failure no row and an exception with the prefixed error |
| `BorrowChecker.MoveAndLock` | src/Service.ExchangeObserver/Jobs/BorrowCheckerJob.cs:247-248 | a successful vault movement is booked and then locks its asset; a failed one locks nothing |
| `BorrowChecker.TransferFromFireblocks` | src/Service.ExchangeObserver/Jobs/BorrowCheckerJob.cs:220-289 | the guard, the full pass and the partial pass together send the plan's requests, book its movements and take its locks |
| `BorrowChecker.FullPass` | src/Service.ExchangeObserver/Jobs/BorrowCheckerJob.cs:227-251 | the nested loops change nothing when no pair qualifies; otherwise they make the plan's one movement on the first qualifying pair |
| `BorrowChecker.PartialPass` | src/Service.ExchangeObserver/Jobs/BorrowCheckerJob.cs:253-288 | the nested loops, with their breaks at residual 0, end in the partial plan's state, movements, locks and requests |
| `BorrowChecker.PartialVaultsPass` | src/Service.ExchangeObserver/Jobs/BorrowCheckerJob.cs:260-285 | the inner loop for one asset carries out the plan's inner loop |
| `BorrowChecker.PartialPairStep` | src/Service.ExchangeObserver/Jobs/BorrowCheckerJob.cs:265-284 | one pair: skipped below the minimum transfer; otherwise a movement of min(residual, available) that lowers the residual and raises the running total |
| `BorrowChecker.CheckPosition` | src/Service.ExchangeObserver/Jobs/BorrowCheckerJob.cs:82-120 | one position is the position plan: the residual falls step by step and stops at 0; the monitor row is deleted, or becomes a Depth row or an Error row |
| `BorrowChecker.PositionMainStage` | src/Service.ExchangeObserver/Jobs/BorrowCheckerJob.cs:94-113 | from the main-book transfer on, the position follows its plan |
| `BorrowChecker.PositionVaultStage` | src/Service.ExchangeObserver/Jobs/BorrowCheckerJob.cs:101-113 | the vault step and the monitor row it leads to follow the plan |
| `BorrowChecker.CheckNextPosition` | src/Service.ExchangeObserver/Jobs/BorrowCheckerJob.cs:80-121 | one loop iteration extends the ledger, locks, requests and monitor from the first k positions' plan to the first k + 1 |
| `BorrowChecker.CheckExchangeBorrows` | src/Service.ExchangeObserver/Jobs/BorrowCheckerJob.cs:69-123 | the cycle reads the asset snapshot once and processes the positions with non-zero debt in order; the ledger, identity counter, locks, request log and monitor are those of the cycle plan |
| `EquityChecker.TotalUsdAppend` | src/Service.ExchangeObserver/Jobs/EquityCheckerJob.cs:66-67 | the total, the sum of the USD values of each balance's positive part, of a concatenation of balance lists is the sum of their totals |
| `EquityChecker.TotalUsdNonNegative` | src/Service.ExchangeObserver/Jobs/EquityCheckerJob.cs:66-67 | when no USD value is negative, the total is not negative |
| `EquityChecker.CheckEquity` | src/Service.ExchangeObserver/Jobs/EquityCheckerJob.cs:53-96 | the three tests, in the source's order, leave the table the equity outcome describes; missing settings or failed balances leave it alone; assets and ledger are untouched |
| `EquityChecker.UpsertTwice` | src/Service.ExchangeObserver/Jobs/EquityCheckerJob.cs:76-90 | when both writes run, the "too high" row replaces the "too low" row |
| `EquityChecker.EquityOthersUnchanged` | src/Service.ExchangeObserver/Jobs/EquityCheckerJob.cs:69-90 | only the "USD Total" row can change |
| `EquityChecker.EquityMonitorKeyed` | src/Service.ExchangeObserver/Jobs/EquityCheckerJob.cs:69-90 | the check keeps every row under its own key |
| `EquityChecker.EquityInBandClears` | src/Service.ExchangeObserver/Jobs/EquityCheckerJob.cs:69-74 | strictly inside the band the "USD Total" row is gone |
| `EquityChecker.EquityRowIsDistance` | src/Service.ExchangeObserver/Jobs/EquityCheckerJob.cs:76-90 | above the maximum the row holds total − max (> 0) with "too high"; this wins even below the minimum; below the minimum and not above the maximum it holds min − total (> 0) with "too low" |
| `EquityChecker.EquityOnBoundUnchanged` | src/Service.ExchangeObserver/Jobs/EquityCheckerJob.cs:69-90 | with min < max, a total exactly on either bound leaves the table unchanged |
| `EquityChecker.EquityIdempotent` | src/Service.ExchangeObserver/Jobs/EquityCheckerJob.cs:53-96 | running the check twice on the same inputs leaves the table the first run left |
| `ObserverService.FindFrom` | src/Service.ExchangeObserver/Services/ObserverService.cs:43-44 | finds the first row with the (AssetSymbol, Network) key, or reports that there is none |
| `ObserverService.AddOrUpdateAsset` | src/Service.ExchangeObserver/Services/ObserverService.cs:38-70 | without a database error, the table becomes the upsert described by `AddOrUpdateFacts`, with IsSuccess; with one, the table is unchanged and the response carries the message; ledger and monitor untouched |
| `ObserverService.RemoveAsset` | src/Service.ExchangeObserver/Services/ObserverService.cs:72-98 | without a database error the matching row is deleted, if any, and the call succeeds; with one, nothing changes and the response carries the message |
| `ObserverService.AddOrUpdateFacts` | src/Service.ExchangeObserver/Services/ObserverService.cs:43-54 | afterwards the key is found and its row holds the request's Weight, MinTransferAmount, BinanceSymbol and LockTimeInMin; an existing row keeps its place, LockedUntil and IsEnabled; a new one is appended unlocked and disabled; every other row is unchanged |
| `ObserverService.AddOrUpdateIdempotent` | src/Service.ExchangeObserver/Services/ObserverService.cs:38-70 | repeating the same upsert changes nothing more |
| `ObserverService.AddOrUpdateKeepsKeys` | src/Service.ExchangeObserver/Services/ObserverService.cs:43-56 | the upsert keeps the (AssetSymbol, Network) keys unique |
| `ObserverService.RemoveFacts` | src/Service.ExchangeObserver/Services/ObserverService.cs:77-88 | with unique keys the key is absent afterwards; an absent key leaves the table unchanged; otherwise exactly the matching row is removed; every row with another key remains |
| `ObserverService.RemoveKeepsKeys` | src/Service.ExchangeObserver/Services/ObserverService.cs:77-83 | deleting keeps the keys unique |
| `ObserverService.RemoveUndoesAdd` | src/Service.ExchangeObserver/Services/ObserverService.cs:38-98 | adding a key the table lacks and then removing it restores the table |
| `ObserverService.TakeFirst` | src/Service.ExchangeObserver/Services/ObserverService.cs:139 | the result is a prefix of the rows whose length is n clamped between 0 and the number of rows |
| `ObserverService.FiltersSelect` | src/Service.ExchangeObserver/Services/ObserverService.cs:109-139 | the chain of conditional filters selects exactly the rows that meet every active condition |
| `ObserverService.PageFacts` | src/Service.ExchangeObserver/Services/ObserverService.cs:139 | a page of rows sorted by key, highest first, holds only input rows and is sorted and bounded by the page size; every row it leaves out is below all rows it holds; a short page holds every row |
| `ObserverService.GetTransfersSound` | src/Service.ExchangeObserver/Services/ObserverService.cs:100-145 | every returned transfer is in the ledger and meets each active filter: id below LastSeenId, asset, inclusive date bounds, search text in From, To or Reason; the page is newest first and has at most Take rows (20 for 0; none for a negative Take, see "Left out") |
| `ObserverService.GetTransfersComplete` | src/Service.ExchangeObserver/Services/ObserverService.cs:139 | the page holds the newest selected rows: a selected row left out is no newer than any returned row, and a page shorter than its size holds every selected row |

## Left out

- I/O is not modelled as I/O. The database, the NoSql writers, the balance extractor, the index-price client and the gRPC transport are abstract state or parameters. The async calls, the logging and the timers (`MyTaskTimer`) are not modelled.
- The two jobs run on their own timers, so they could touch the store concurrently. The model runs each job's cycle on its own and in sequence.
- External calls become oracles. The repay, main-to-margin and custody-to-exchange calls are one `SettlementGateway` whose answers are fixed for the cycle: success, an error response, or a thrown exception. Request ids (`Guid.NewGuid`) are not modelled.
- Time is one `now` per cycle. The job reads `DateTime.UtcNow` separately for the lock guard, each ledger TimeStamp, each lock and each monitor LastTs. The model uses the same instant for all of them.
- Text is built by parameters. The index price written to each ledger row is `indexPrice`, the decimal formatting inside reasons and comments is `render`, and the USD conversion of the equity total is `usdValue`.
- Database and storage failures are not modelled in the jobs. An exception from a ledger write, a lock write or a monitor write is never raised. The gateway's failures and the balance extractor's missing lists (`None`) are modelled.
- Failed balance reads in `CheckEquity` are modelled as `None`. A null `Balances` there throws inside the try block, which logs it and leaves the table alone. The model shows that as a `None` balances argument.
- `AddOrUpdateAsset` and `RemoveAsset` take their database exception as a `dbError` parameter (the message, or none).
- `ObserverService.GetTransfers` does not write back to the request. The source sets `request.Take` to 20 on the caller's request object; the model computes the page size and leaves the request as it is.
- Decimal arithmetic is exact in the model. C# `decimal` keeps 28 to 29 significant digits, so a sum such as the equity total can round, and a result out of range throws `OverflowException`; neither happens with `real`.
- `Domain.AddMinutes` is unbounded. `DateTime.AddMinutes` in the lock extension throws past `DateTime.MaxValue`; the model has no such exception.
- `ObserverService.GetTransfers`: a negative Take gives an empty page here, and `GetTransfersSound` states that. The source passes it to the database as the SQL `LIMIT`, which PostgreSQL rejects, so the call fails instead.
- The settings row's key functions (`ObserverSettingsNoSqlEntity`) are not modelled. The equity check takes the settings row as a value, or none when it is missing.
- `ObserverService.GetTransfers` does not model SQL translation. The model evaluates the query in memory, and `String.Contains` is an exact, case-sensitive substring test.
- Asset row order is not meaningful in the model. An upserted new asset row is modelled as appended. The table has no order in the database.
- The job books its ledger rows with `UpsertAsync` of a new row whose identity is unset. The model treats that as an insert through `SaveTransfer`.
- A null text field in a request or a row is modelled as the empty string.
- The cascade never reads the Fee and IsEnabled columns, and neither does the model.
- The record definitions were not all written at the same time. `ObserverTransfer.cs` declares a string `Id`, but the query and the migrations use the integer `TransferId`. The vault-account entity has no `Weight`, but the job orders vaults by one. The model follows the code that uses the fields: an integer `TransferId`, and a vault as (id, weight, per-asset minimum balances).
- `ExchangeCheckerJob.cs` is not part of this model. It is the superseded balance job, and it is not registered.
- The commented-out `CheckExchangeBalance` block in the borrow checker job is not modelled.
- The property "every row sits under its own key" (`MonitorKeyed`) is not part of the store's class invariant. Keeping it there made every monitor update costly to verify. It is stated instead by lemmas about each update and about whole cycles (`UpsertKeepsKeyed`, `ResetKeepsKeyed`, `CycleMonitorKeyed`, `EquityMonitorKeyed`).
