# Portfolio holdings pipeline, modelled in Dafny

This project models the core of an Android app that shows a stock portfolio.
The app fetches the user's holdings from a REST endpoint and retries transient
failures with exponential backoff. It maps each holding to a domain item with
exact decimal profit and loss, and caches the items in a Room table keyed by
symbol. An offline-first repository decides between the network and the cache,
and a view model projects the cached holdings and a computed summary into a UI
state.

Each Kotlin file of the core becomes one Dafny module:

| module | file | models |
|---|---|---|
| `Common` | common.dfy | `Option`, the exception classes the code tests with `is`, a call that returns or throws, `Result<Unit>` |
| `Decimals` | decimals.dfy | `BigDecimal` values and `RoundingMode.HALF_UP` division and `setScale` |
| `Model` | model.dfy | `Holding`, `PortfolioResponse`, `HoldingEntity`, `PortfolioItem`, `PortfolioSummary` |
| `HoldingMapper` | mapper.dfy | `HoldingMapper.kt` |
| `PortfolioSummaryCalc` | summary.dfy | `CalculatePortfolioSummaryUseCase.kt` |
| `Extensions` | extensions.dfy | `formatAsPercentage`, `formatIndianNumber` and `throwIfCancellation` of `Extensions.kt` |
| `NetworkErrorHandler` | retry.dfy | `NetworkErrorHandler.kt`: the suspend retry loop and the Flow retry predicate |
| `HoldingDao` | dao.dfy | `HoldingDao.kt` over the `holdings` table |
| `PortfolioLocalDataSource` | local.dfy | `PortfolioLocalDataSource.kt` |
| `PortfolioRemoteDataSource` | remote.dfy | `PortfolioRemoteDataSource.kt` |
| `PortfolioRepository` | repository.dfy | `PortfolioRepositoryImpl.kt` |
| `PortfolioViewModel` | viewmodel.dfy | `PortfolioViewModel.kt` and `PortfolioUiState.kt` |

How the model represents the program:

- **Decimals.** Every `BigDecimal` the core produces has a scale fixed by the
  code, so each is an exact integer in a fixed unit:
  - prices, money and `pnl` are in hundredths;
  - percentages are in hundredths of a percent;
  - the intermediate ratio `divide(x, 4, HALF_UP)` is in ten-thousandths.

  A price as it arrives from the JSON layer is a `Decimal(unscaled, scale)`,
  meaning `unscaled / 10^scale`. The scale may be negative, because
  `Double.toString` can print E-notation.
- **HALF_UP rounding** is `DivHalfUp`. The predicate `IsHalfUpQuotient` states
  what it means: the remainder is within half a divisor, and ties go away
  from zero. A uniqueness lemma shows the predicate pins the quotient down.
- **The environment is input.** Connectivity is a boolean. The endpoint is a
  script `api(n)`, the outcome of the n-th request. Whether the database
  write throws is an optional exception. A backoff delay is recorded, not
  slept.
- **The table** is a `map` from symbol to row. The queries are methods that
  enumerate the map and return a list. The ordered query is sorted by
  SQLite's BINARY collation on `symbol`.
- **The view model** is a reducer over a trace of events:
  - the start and stop of collection under `stateIn(WhileSubscribed)`;
  - an emission or failure of the holdings query;
  - a toggle of the summary, or a tab selection;
  - the start and end of a refresh coroutine.

**Behaviour worth knowing before reading the contracts:**

- `insertHoldings` is annotated `OnConflictStrategy.REPLACE`
  (`HoldingDao.kt:14-15`), and `saveHoldings` never clears the table first.
  A refresh is therefore an upsert: rows whose symbols the new batch lacks
  survive it. `UpsertKeepsStaleRows` exhibits one.
- The suspend retry loop compounds its delay:
  `currentDelay := min(currentDelay * m^attempt, maxDelay)` at
  `NetworkErrorHandler.kt:51`. The comment on the line before it gives
  `initialDelay * m^attempt`, which is what the Flow variant computes.
  - With the defaults, only two delays are ever taken (1000 and 2000 ms), and
    both formulas agree on them.
  - With `maxRetries = 4`, the third delay is 8000 ms as written and 4000 ms
    by the comment. `CompoundingDiffersFromCommentedFormula` proves both.
- The unordered snapshot query `getAllHoldingsSync` has no `ORDER BY`. The
  model leaves its order open. Only its emptiness is used by the repository.

## Model

| member | source | states |
|---|---|---|
| Decimals.DivHalfUp | app/src/main/java/com/portfoliodemo/feature/portfolio/data/mapper/HoldingMapper.kt:22 | the quotient rounded HALF_UP: within half a divisor of the exact quotient, ties away from zero, and with the sign of the dividend |
| Decimals.HalfUpQuotientUnique | app/src/main/java/com/portfoliodemo/feature/portfolio/data/mapper/HoldingMapper.kt:22 | at most one integer is a HALF_UP quotient of a given division |
| Decimals.DivHalfUpCharacterization | app/src/main/java/com/portfoliodemo/feature/portfolio/data/mapper/HoldingMapper.kt:22 | `DivHalfUp(n, d) == r` exactly when `r` satisfies the HALF_UP rounding condition |
| Decimals.DivHalfUpExact | app/src/main/java/com/portfoliodemo/feature/portfolio/data/mapper/HoldingMapper.kt:22 | an exact division is not rounded |
| Decimals.DivHalfUpNegate | app/src/main/java/com/portfoliodemo/feature/portfolio/data/mapper/HoldingMapper.kt:22 | HALF_UP is symmetric: negating the dividend negates the quotient |
| Decimals.SetScale | app/src/main/java/com/portfoliodemo/feature/portfolio/data/mapper/HoldingMapper.kt:13 | `setScale(s, HALF_UP)` is the HALF_UP quotient of the value at scale `s`, and widening the scale is exact |
| Decimals.RatioAsPercent | app/src/main/java/com/portfoliodemo/feature/portfolio/data/mapper/HoldingMapper.kt:22-23 | `(num.divide(den, 4, HALF_UP) * 100).setScale(2)` is the HALF_UP quotient of `num * 10000 / den`, in hundredths of a percent |
| Decimals.RatioAsPercentNeedsNoFinalRounding | app/src/main/java/com/portfoliodemo/feature/portfolio/domain/usecase/CalculatePortfolioSummaryUseCase.kt:37-38 | the trailing `setScale(2, HALF_UP)` never changes a value already at 4 decimals times 100 |
| HoldingMapper.ToCents | app/src/main/java/com/portfoliodemo/feature/portfolio/data/mapper/HoldingMapper.kt:13-15 | a wire price becomes hundredths rounded HALF_UP, and a price with at most 2 decimals is kept exactly |
| HoldingMapper.PnlPercentage | app/src/main/java/com/portfoliodemo/feature/portfolio/data/mapper/HoldingMapper.kt:21-26 | zero when the average price is not positive, otherwise the HALF_UP percentage of the price move relative to the average price |
| HoldingMapper.ToEntity | app/src/main/java/com/portfoliodemo/feature/portfolio/data/mapper/HoldingMapper.kt:9-17 | symbol and quantity are copied and each price is its HALF_UP value in hundredths |
| HoldingMapper.EntityToDomain | app/src/main/java/com/portfoliodemo/feature/portfolio/data/mapper/HoldingMapper.kt:19-36 | the stored columns are copied and `pnl` and `pnlPercentage` are derived from them |
| HoldingMapper.HoldingToDomain | app/src/main/java/com/portfoliodemo/feature/portfolio/data/mapper/HoldingMapper.kt:38-59 | prices are rounded to hundredths before any arithmetic, and the item's profit fields are derived from the rounded prices |
| HoldingMapper.HoldingToDomainViaEntity | app/src/main/java/com/portfoliodemo/feature/portfolio/data/mapper/HoldingMapper.kt:9-59 | mapping a holding directly equals going through the entity |
| HoldingMapper.DerivedItemsAreImages | app/src/main/java/com/portfoliodemo/feature/portfolio/data/mapper/HoldingMapper.kt:19-36 | an item has consistent profit fields exactly when it is the domain image of some entity |
| HoldingMapper.PercentageIgnoresQuantity | app/src/main/java/com/portfoliodemo/feature/portfolio/data/mapper/HoldingMapper.kt:21-26 | two rows with the same prices have the same percentage whatever their quantities |
| HoldingMapper.ZeroQuantityHasZeroPnl | app/src/main/java/com/portfoliodemo/feature/portfolio/data/mapper/HoldingMapper.kt:20 | a zero quantity gives zero profit |
| HoldingMapper.PnlSignFollowsPrice | app/src/main/java/com/portfoliodemo/feature/portfolio/data/mapper/HoldingMapper.kt:20 | with a positive quantity, the profit is positive or negative exactly when the last price is above or below the average |
| HoldingMapper.ToEntityRoundsToCents | app/src/test/java/com/portfoliodemo/feature/portfolio/data/mapper/HoldingMapperTest.kt:154-171 | 100.123, 90.456 and 95.789 are stored as 100.12, 90.46 and 95.79 |
| HoldingMapper.TieRoundsUpBeforeArithmetic | app/src/test/java/com/portfoliodemo/feature/portfolio/data/mapper/HoldingMapperTest.kt:173-192 | an average price of 0.005 rounds up to 0.01, so the profit against 0.01 is zero |
| HoldingMapper.ProfitExample | app/src/test/java/com/portfoliodemo/feature/portfolio/data/mapper/HoldingMapperTest.kt:12-33 | 100 against 90 for 10 shares is +100.00 and 11.11% |
| HoldingMapper.LossExample | app/src/test/java/com/portfoliodemo/feature/portfolio/data/mapper/HoldingMapperTest.kt:77-93 | 80 against 100 for 10 shares is -200.00 and -20.00% |
| HoldingMapper.ZeroAveragePriceExample | app/src/test/java/com/portfoliodemo/feature/portfolio/data/mapper/HoldingMapperTest.kt:95-108 | a zero average price gives 0% |
| PortfolioSummaryCalc.Summarize | app/src/main/java/com/portfoliodemo/feature/portfolio/domain/usecase/CalculatePortfolioSummaryUseCase.kt:11-56 | all zeros for no holdings; value, investment and day change are sums over the holdings; total profit is value minus investment; the percentage is guarded by a positive investment and is the HALF_UP ratio |
| PortfolioSummaryCalc.FoldSumConcat | app/src/main/java/com/portfoliodemo/feature/portfolio/domain/usecase/CalculatePortfolioSummaryUseCase.kt:23-25 | the left fold over a concatenation is the sum of the folds |
| PortfolioSummaryCalc.FoldSumPermutation | app/src/main/java/com/portfoliodemo/feature/portfolio/domain/usecase/CalculatePortfolioSummaryUseCase.kt:23-25 | the fold does not depend on the order of the holdings |
| PortfolioSummaryCalc.FoldSumPointwise | app/src/main/java/com/portfoliodemo/feature/portfolio/domain/usecase/CalculatePortfolioSummaryUseCase.kt:23-25 | lists whose items agree on the summed quantity fold to the same total |
| PortfolioSummaryCalc.SummaryAdditive | app/src/main/java/com/portfoliodemo/feature/portfolio/domain/usecase/CalculatePortfolioSummaryUseCase.kt:23-46 | value, investment, day change and total profit of a concatenation are the sums of the parts |
| PortfolioSummaryCalc.SummaryPermutationInvariant | app/src/main/java/com/portfoliodemo/feature/portfolio/domain/usecase/CalculatePortfolioSummaryUseCase.kt:23-46 | every field of the summary is the same for any reordering of the holdings |
| PortfolioSummaryCalc.SummaryIgnoresItemPnl | app/src/main/java/com/portfoliodemo/feature/portfolio/domain/usecase/CalculatePortfolioSummaryUseCase.kt:22-46 | the items' own profit fields are never read |
| PortfolioSummaryCalc.SummaryExamples | app/src/test/java/com/portfoliodemo/feature/portfolio/domain/usecase/CalculatePortfolioSummaryUseCaseTest.kt:30-91 | the single-stock and two-stock cases: 1000/900/+100/11.11%/-50 and 1250/1300/-50/-3.85%/+25 |
| Extensions.NatToStringRoundTrip | app/src/main/java/com/portfoliodemo/core/common/Extensions.kt:16 | the decimal digits printed for a number parse back to it |
| Extensions.FormatMagnitude | app/src/main/java/com/portfoliodemo/core/common/Extensions.kt:16 | `%.2f` of a non-negative amount in hundredths is digits, a point and exactly two digits that read back as the amount, with no leading zero in the integer part |
| Extensions.CanonicalDigits | app/src/main/java/com/portfoliodemo/core/common/Extensions.kt:16 | a digit string without a leading zero is exactly the one printed for its value |
| Extensions.FormatMagnitudeUnique | app/src/main/java/com/portfoliodemo/core/common/Extensions.kt:16 | any string meeting the contract of `FormatMagnitude` for an amount is the text `%.2f` prints for it, so that contract determines the output |
| Extensions.FormatFixed2 | app/src/main/java/com/portfoliodemo/core/common/Extensions.kt:16 | `%.2f` of any amount in hundredths reads back as that amount, has a leading minus exactly for negatives, and has no leading zero after the sign |
| Extensions.FormatFixed2Unique | app/src/main/java/com/portfoliodemo/core/common/Extensions.kt:16 | any string meeting the contract of `FormatFixed2` for an amount is the text `%.2f` prints for it, so that contract determines the output |
| Extensions.FormatAsPercentage | app/src/main/java/com/portfoliodemo/core/common/Extensions.kt:15-17 | the text ends in `%` and reads back as the value rounded HALF_UP to 2 decimals, negative exactly when that rounded value is; the text before `%` is the `%.2f` text of that value, which `FormatFixed2Unique` pins down, so no leading zero appears |
| Extensions.FormatIndianNumber | app/src/main/java/com/portfoliodemo/core/common/Extensions.kt:19-34 | the suffix is " Cr" exactly from ten million on and " L" exactly from one lakh up to ten million; the number printed is the HALF_UP quotient by the unit, or the value itself at 2 decimals below one lakh, and in every branch the number's text is the `%.2f` text of that amount, so no leading zero appears |
| Extensions.ThrowIfCancellation | app/src/main/java/com/portfoliodemo/core/common/Extensions.kt:39-41 | throws, and throws the receiver itself, exactly when it is a cancellation |
| Extensions.PercentageRoundsUp | app/src/test/java/com/portfoliodemo/core/common/ExtensionsTest.kt:40-45 | 12.3456 prints as "12.35%" |
| Extensions.PercentageTieRoundsUp | app/src/test/java/com/portfoliodemo/core/common/ExtensionsTest.kt:60-65 | the tie 12.345 prints as "12.35%" |
| Extensions.PercentageRoundsDown | app/src/test/java/com/portfoliodemo/core/common/ExtensionsTest.kt:67-72 | 12.344 prints as "12.34%" |
| Extensions.PercentageOfZero | app/src/test/java/com/portfoliodemo/core/common/ExtensionsTest.kt:47-51 | zero prints as "0.00%" |
| Extensions.NegativePercentageKeepsSign | app/src/test/java/com/portfoliodemo/core/common/ExtensionsTest.kt:53-58 | -12.3456 prints as "-12.35%" |
| Extensions.CroreExample | app/src/test/java/com/portfoliodemo/core/common/ExtensionsTest.kt:74-79 | fifteen million prints as "1.50 Cr" |
| Extensions.ExactlyOneCrore | app/src/test/java/com/portfoliodemo/core/common/ExtensionsTest.kt:109-114 | ten million prints as "1.00 Cr" |
| Extensions.LakhExample | app/src/test/java/com/portfoliodemo/core/common/ExtensionsTest.kt:81-86 | five million prints as "50.00 L" |
| Extensions.ExactlyOneLakh | app/src/test/java/com/portfoliodemo/core/common/ExtensionsTest.kt:116-121 | one hundred thousand prints as "1.00 L" |
| Extensions.BelowOneLakh | app/src/test/java/com/portfoliodemo/core/common/ExtensionsTest.kt:88-93 | fifty thousand prints as "50000.00" with no suffix |
| Extensions.IndianZero | app/src/test/java/com/portfoliodemo/core/common/ExtensionsTest.kt:95-100 | zero prints as "0.00" |
| NetworkErrorHandler.NextDelay | app/src/main/java/com/portfoliodemo/core/network/NetworkErrorHandler.kt:50-52 | a backoff delay never exceeds `maxDelayMillis` |
| NetworkErrorHandler.RetryLoop | app/src/main/java/com/portfoliodemo/core/network/NetworkErrorHandler.kt:33-58 | the block is called at most once per remaining attempt, and at least once when an attempt remains; one delay separates consecutive calls and each is capped |
| NetworkErrorHandler.RetryWithExponentialBackoff | app/src/main/java/com/portfoliodemo/core/network/NetworkErrorHandler.kt:29-59 | the loop as written ends as the recursive reference does: same outcome, same number of calls, same delays |
| NetworkErrorHandler.RetryOutcomeIsFirstDecisiveAttempt | app/src/main/java/com/portfoliodemo/core/network/NetworkErrorHandler.kt:36-48 | the outcome is that of the first attempt that succeeds, is cancelled, fails non-retryably, or is the last one, and exactly that many calls are made |
| NetworkErrorHandler.NoBudgetNeverCalls | app/src/main/java/com/portfoliodemo/core/network/NetworkErrorHandler.kt:36-58 | with no attempts allowed the block is never called and "Unknown error" is thrown |
| NetworkErrorHandler.DelaysCompound | app/src/main/java/com/portfoliodemo/core/network/NetworkErrorHandler.kt:50-54 | each delay is the previous delay times `multiplier^attempt`, capped, starting from `initialDelayMillis` |
| NetworkErrorHandler.FlowRetryDecision | app/src/main/java/com/portfoliodemo/core/network/NetworkErrorHandler.kt:67-78 | the Flow variant retries exactly when the cause is retryable and the attempt is below `maxRetries`, with a capped delay |
| NetworkErrorHandler.FlowRetry | app/src/main/java/com/portfoliodemo/core/network/NetworkErrorHandler.kt:64-80 | the upstream is collected at least once and at most `maxRetries + 1` times, with one delay between collections |
| NetworkErrorHandler.FlowDelayNonDecreasing | app/src/main/java/com/portfoliodemo/core/network/NetworkErrorHandler.kt:73-75 | the Flow variant's delays never decrease from one attempt to the next |
| NetworkErrorHandler.DefaultRunAgainstPersistentFailure | app/src/main/java/com/portfoliodemo/core/network/NetworkErrorHandler.kt:15-24 | with the default configuration a persistent I/O failure is tried three times, waiting 1000 then 2000 ms, and the last error surfaces |
| NetworkErrorHandler.CompoundingDiffersFromCommentedFormula | app/src/main/java/com/portfoliodemo/core/network/NetworkErrorHandler.kt:50-51 | with four attempts the loop waits 1000, 2000, 8000 ms where the commented formula, as the Flow variant computes it, gives 1000, 2000, 4000 |
| NetworkErrorHandler.FlowCollectsOnceMoreThanSuspendLoop | app/src/main/java/com/portfoliodemo/core/network/NetworkErrorHandler.kt:36-69 | against a persistent retryable failure the Flow variant makes one more attempt than the suspend loop |
| HoldingDao.BelowTotal | app/src/main/java/com/portfoliodemo/core/database/HoldingDao.kt:11 | the symbol order is total |
| HoldingDao.BelowTransitive | app/src/main/java/com/portfoliodemo/core/database/HoldingDao.kt:11 | the symbol order is transitive |
| HoldingDao.BelowAsymmetric | app/src/main/java/com/portfoliodemo/core/database/HoldingDao.kt:11 | the symbol order is asymmetric |
| HoldingDao.LastWithAtLastOccurrence | app/src/main/java/com/portfoliodemo/core/database/HoldingDao.kt:14-15 | for any row of a batch that no later row shares a symbol with, the row that wins for that symbol is that row |
| HoldingDao.LastWith | app/src/main/java/com/portfoliodemo/core/database/HoldingDao.kt:14-15 | finds the row of a batch with a given symbol that no later row of the batch shares, or reports that none has it |
| HoldingDao.InsertHoldings | app/src/main/java/com/portfoliodemo/core/database/HoldingDao.kt:14-15 | an upsert keyed on symbol: the keys afterwards are the old keys plus the batch's symbols, the last batch row for a symbol wins, other rows are untouched, and keys stay consistent with rows |
| HoldingDao.DeleteAllHoldings | app/src/main/java/com/portfoliodemo/core/database/HoldingDao.kt:17-18 | the table is empty afterwards |
| HoldingDao.InsertEmptyBatch | app/src/main/java/com/portfoliodemo/core/database/HoldingDao.kt:14-15 | an empty batch changes nothing |
| HoldingDao.InsertIdempotent | app/src/main/java/com/portfoliodemo/core/database/HoldingDao.kt:14-15 | writing the same batch twice equals writing it once |
| HoldingDao.UpsertKeepsStaleRows | app/src/main/java/com/portfoliodemo/core/database/HoldingDao.kt:14-15 | a row whose symbol is not in the batch survives the insert |
| HoldingDao.InsertSorted | app/src/main/java/com/portfoliodemo/core/database/HoldingDao.kt:11 | inserting a new symbol into a sorted listing keeps it sorted and adds exactly that row |
| HoldingDao.GetAllHoldings | app/src/main/java/com/portfoliodemo/core/database/HoldingDao.kt:11-12 | returns every row exactly once, each as stored, ascending by symbol |
| HoldingDao.GetAllHoldingsSync | app/src/main/java/com/portfoliodemo/core/database/HoldingDao.kt:20-21 | returns every row exactly once, each as stored, in no promised order |
| HoldingDao.SortedListingUnique | app/src/main/java/com/portfoliodemo/core/database/HoldingDao.kt:11 | two sorted listings of the same rows are equal, so the ordered query is deterministic |
| HoldingDao.ListingsHaveSameRows | app/src/main/java/com/portfoliodemo/core/database/HoldingDao.kt:11-21 | the ordered and the unordered query return the same rows |
| PortfolioLocalDataSource.ItemToEntity | app/src/main/java/com/portfoliodemo/feature/portfolio/data/local/PortfolioLocalDataSource.kt:21-29 | the row written for an item copies its symbol, quantity, last price, average price and close and drops its profit fields; reading it back reproduces any item whose profit fields are consistent |
| PortfolioLocalDataSource.GetHoldings | app/src/main/java/com/portfoliodemo/feature/portfolio/data/local/PortfolioLocalDataSource.kt:14-18 | one item per stored row, each the domain image of its row, sorted by symbol |
| PortfolioLocalDataSource.GetHoldingsSync | app/src/main/java/com/portfoliodemo/feature/portfolio/data/local/PortfolioLocalDataSource.kt:33-35 | one item per stored row, each the domain image of its row, so its profit fields are derived from the stored prices |
| PortfolioLocalDataSource.SaveHoldings | app/src/main/java/com/portfoliodemo/feature/portfolio/data/local/PortfolioLocalDataSource.kt:20-31 | every item's symbol is stored, and its row is the stored columns of the last item with that symbol; no existing row is removed, no other symbol appears, and rows the items do not mention are unchanged |
| PortfolioLocalDataSource.ClearHoldings | app/src/main/java/com/portfoliodemo/feature/portfolio/data/local/PortfolioLocalDataSource.kt:37-39 | the table is empty afterwards |
| PortfolioLocalDataSource.SavedRowOfItem | app/src/main/java/com/portfoliodemo/feature/portfolio/data/local/PortfolioLocalDataSource.kt:20-31 | with distinct symbols, the row saved for an item is that item's stored columns |
| PortfolioLocalDataSource.SaveThenReadRoundTrip | app/src/main/java/com/portfoliodemo/feature/portfolio/data/local/PortfolioLocalDataSource.kt:20-35 | saving consistent items with distinct symbols into an empty table and reading back yields exactly those items |
| PortfolioLocalDataSource.ClearThenSaveKeepsOnlySaved | app/src/main/java/com/portfoliodemo/feature/portfolio/data/local/PortfolioLocalDataSource.kt:20-39 | after a clear, a save leaves exactly the saved symbols |
| PortfolioLocalDataSource.SaveNothingChangesNothing | app/src/main/java/com/portfoliodemo/feature/portfolio/data/local/PortfolioLocalDataSource.kt:20-31 | saving an empty list leaves the table as it was |
| PortfolioRemoteDataSource.ResponseToDomain | app/src/main/java/com/portfoliodemo/feature/portfolio/data/remote/PortfolioRemoteDataSource.kt:20 | the response's holdings mapped one by one, same length and order |
| PortfolioRemoteDataSource.GetPortfolioHoldings | app/src/main/java/com/portfoliodemo/feature/portfolio/data/remote/PortfolioRemoteDataSource.kt:13-27 | at most three requests under the default retry; a response becomes its mapped holdings, and any error, cancellation included, surfaces unchanged |
| PortfolioRemoteDataSource.FirstResponseIsUsed | app/src/main/java/com/portfoliodemo/feature/portfolio/data/remote/PortfolioRemoteDataSource.kt:16-20 | a first successful request is the only one, and its holdings are returned mapped |
| PortfolioRemoteDataSource.RecoversOnThirdRequest | app/src/main/java/com/portfoliodemo/feature/portfolio/data/remote/PortfolioRemoteDataSource.kt:16-20 | a timeout and an I/O failure followed by a success give the third response after waiting 1000 and 2000 ms |
| PortfolioRemoteDataSource.NonRetryableFailsAtOnce | app/src/main/java/com/portfoliodemo/feature/portfolio/data/remote/PortfolioRemoteDataSource.kt:14-26 | an error outside the retryable classes fails the fetch after one request |
| PortfolioRepository.Recover | app/src/main/java/com/portfoliodemo/feature/portfolio/data/PortfolioRepositoryImpl.kt:47-56 | a cancellation is rethrown; any other error becomes success exactly when something is cached, and otherwise a failure carrying that error |
| PortfolioRepository.RefreshHoldings | app/src/main/java/com/portfoliodemo/feature/portfolio/data/PortfolioRepositoryImpl.kt:24-58 | offline: no request and no write, success exactly when something is cached, else the no-connection failure; online: as many requests as the retry made (one to three); a returned fetch with a successful write is a success and leaves the table equal to the upsert of the mapped response; a failed fetch or a failed write rethrows a cancellation, otherwise leaves the table alone and fails with that error exactly when nothing is cached; only cancellations escape; a failure means nothing was cached and nothing changed; the table changes only on an online success, and never loses a symbol |
| PortfolioRepository.RunRefreshHoldings | app/src/main/java/com/portfoliodemo/feature/portfolio/data/PortfolioRepositoryImpl.kt:24-58 | the refresh written with the snapshot query and the retry loop ends as the reference refresh does |
| PortfolioRepository.RecoverRun | app/src/main/java/com/portfoliodemo/feature/portfolio/data/PortfolioRepositoryImpl.kt:47-56 | the catch branch written with the snapshot query ends as the reference does |
| PortfolioRepository.GetPortfolioHoldings | app/src/main/java/com/portfoliodemo/feature/portfolio/data/PortfolioRepositoryImpl.kt:20-22 | the cached holdings, one per row, sorted by symbol |
| PortfolioRepository.FetchedHoldingsReadBack | app/src/main/java/com/portfoliodemo/feature/portfolio/data/PortfolioRepositoryImpl.kt:27-35 | after a successful online refresh the result is a success and the table is the upsert of the mapped response, for every response: an empty one leaves the table unchanged, and the last fetched holding for each symbol reads back exactly |
| PortfolioRepository.NetworkFailureFallsBackToCache | app/src/main/java/com/portfoliodemo/feature/portfolio/data/PortfolioRepositoryImpl.kt:47-56 | a failed fetch with holdings cached is a success that leaves the table as it was |
| PortfolioRepository.NetworkFailureWithoutCacheFails | app/src/main/java/com/portfoliodemo/feature/portfolio/data/PortfolioRepositoryImpl.kt:51-53 | a failed fetch with nothing cached is a failure carrying the fetch's own error |
| PortfolioRepository.CancellationEscapes | app/src/main/java/com/portfoliodemo/feature/portfolio/data/PortfolioRepositoryImpl.kt:47-49 | a cancelled request escapes the refresh after one call and changes nothing |
| PortfolioRepository.SaveFailureKeepsCache | app/src/main/java/com/portfoliodemo/feature/portfolio/data/PortfolioRepositoryImpl.kt:25-35 | a write that throws after a successful fetch takes the cache fallback and leaves the table unchanged |
| PortfolioViewModel.Init | app/src/main/java/com/portfoliodemo/feature/portfolio/presentation/PortfolioViewModel.kt:33-42 | starts Loading, collapsed, on the Holdings tab, with no refresh error and no refresh launched |
| PortfolioViewModel.Combine | app/src/main/java/com/portfoliodemo/feature/portfolio/presentation/PortfolioViewModel.kt:53-68 | a returned summary gives Success with the holdings and flag; a thrown one gives Error with its message or "Error processing portfolio data" |
| PortfolioViewModel.Project | app/src/main/java/com/portfoliodemo/feature/portfolio/presentation/PortfolioViewModel.kt:53-62 | the projection is what `combine` yields when the summary calculation returns `Summarize` of the holdings |
| PortfolioViewModel.Emit | app/src/main/java/com/portfoliodemo/feature/portfolio/presentation/PortfolioViewModel.kt:74-85 | a candidate the comparator finds equivalent to the last emitted state changes nothing; any other candidate is shown and becomes the new baseline for the comparator; no other field changes |
| PortfolioViewModel.Step | app/src/main/java/com/portfoliodemo/feature/portfolio/presentation/PortfolioViewModel.kt:44-111 | only a toggle flips the flag, only a tab selection changes the tab, refresh and tab events never touch the screen state, only a refresh event touches the refresh error, and the first start launches one refresh |
| PortfolioViewModel.EquivalentMeansEqual | app/src/main/java/com/portfoliodemo/feature/portfolio/presentation/PortfolioViewModel.kt:74-85 | the comparator suppresses exactly a Success equal to the previous one; Loading and Error are always emitted |
| PortfolioViewModel.ReachableIsConsistent | app/src/main/java/com/portfoliodemo/feature/portfolio/presentation/PortfolioViewModel.kt:42-91 | every reachable state keeps the screen equal to the last emission, the shown summary consistent, and the refresh count tied to the once-flag |
| PortfolioViewModel.ShownSummaryMatchesHoldings | app/src/main/java/com/portfoliodemo/feature/portfolio/presentation/PortfolioViewModel.kt:53-62 | every Success on screen carries the summary of exactly the holdings it shows |
| PortfolioViewModel.ShownStateTracksLatestHoldings | app/src/main/java/com/portfoliodemo/feature/portfolio/presentation/PortfolioViewModel.kt:53-85 | while holdings flow, the screen shows the latest holdings with the current flag |
| PortfolioViewModel.AutoRefreshAtMostOnce | app/src/main/java/com/portfoliodemo/feature/portfolio/presentation/PortfolioViewModel.kt:42-52 | the automatic refresh is launched at most once, and exactly when collection has started at least once |
| PortfolioViewModel.ProjectionNeverErrors | app/src/main/java/com/portfoliodemo/feature/portfolio/presentation/PortfolioViewModel.kt:56-67 | the summary calculation always returns, so the combine step never produces Error |
| PortfolioViewModel.ToggleTwiceRestores | app/src/main/java/com/portfoliodemo/feature/portfolio/presentation/PortfolioViewModel.kt:105-107 | two toggles restore the flag, and while holdings flow also the screen state |
| PortfolioViewModel.RefreshErrorReflectsResult | app/src/main/java/com/portfoliodemo/feature/portfolio/presentation/PortfolioViewModel.kt:93-103 | a refresh clears the error slot, then holds the failure's message or "Failed to refresh portfolio data", and never touches the screen state |
| PortfolioViewModel.UpstreamFailureShowsError | app/src/main/java/com/portfoliodemo/feature/portfolio/presentation/PortfolioViewModel.kt:69-73 | a failing holdings query shows Error with its message or "Error loading portfolio data" |
| PortfolioViewModel.LoadingUntilFirstEmission | app/src/main/java/com/portfoliodemo/feature/portfolio/presentation/PortfolioViewModel.kt:87-91 | the screen stays Loading until the holdings query first emits or fails |

## Left out

- `formatAsCurrency` (`Extensions.kt:9-13`): it depends on `NumberFormat` locale data for `en-IN`.
- The `%.2f` formats use `Locale.getDefault()`. The model assumes a `.` decimal separator, no grouping and an ASCII minus.
- The `Double` to `BigDecimal` conversion through `Double.toString` happens before the model. A wire price enters as the decimal that string denotes.
- NetworkErrorHandler.RetryConfig: the multiplier is a natural number rather than a `Double`. The `pow(...).toLong()` conversion and `Long` saturation of the delay are not modelled.
- `delay` timing, `withContext`, `flowOn`, `viewModelScope.launch` and `stateIn(WhileSubscribed(5000))` scheduling are not modelled. The view model is a sequential reducer, and coroutine interleavings are event orders.
- `MutableStateFlow` conflation is not modelled: equal consecutive values are dropped there, and a slow collector can skip intermediate values.
- The `timestamp` column of `HoldingEntity` is not modelled. Its default reads the clock, and no core code reads it back.
- `NetworkConnectivityManager` becomes a boolean input. It is an Android platform query.
- `PortfolioApiService` and the Ktor client become a scripted sequence of responses. The HTTP and JSON layers are not part of this model.
- Room transactions, Hilt wiring, the database module and the Compose UI are not part of this model.
- A `saveHoldings` whose list insert throws is assumed to leave the table untouched, as if the insert were atomic. `RefreshHoldings` with a write error, and `SaveFailureKeepsCache`, rest on that assumption. A partially applied batch is not modelled.
- `GetPortfolioHoldingsUseCase` and `RefreshPortfolioUseCase` are pure delegations and are treated as identity. `FakePortfolioRepository` is a test double.
- A snapshot read that itself throws inside `refreshHoldings` is not modelled. Storage reads always succeed here, and only the write may fail.
- The Kotlin `Int` quantity is an unbounded integer. All arithmetic on it happens in `BigDecimal`, which does not overflow.
- `BigDecimal.equals` compares scale as well as value. The model compares values only. Every value the core compares has a scale fixed by the code path that made it, so the outcome is the same. The one exception is `BigDecimal.ZERO` (scale 0) in the summary's zero branches against a computed zero (scale 2 or 4). In the app, an empty list's summary therefore differs by `equals` from a summary of zero-quantity holdings, and the model treats the two as equal.
- The `BigDecimal` columns pass through `@TypeConverters(Converters::class)` (`PortfolioDatabase.kt:13`). `Converters` is not part of this model. The model assumes its write-then-read round trip is exact, so a stored price in hundredths reads back unchanged. `SaveThenReadRoundTrip` and `FetchedHoldingsReadBack` rest on that assumption.
- PortfolioViewModel.Combine: the error branch is modelled, but the summary calculation has no throwing path in the model, so it is only reachable with a calculation passed in explicitly.
