# Alpha models of the QuantConnect Python examples, in Dafny

This project models five trading-strategy plugins ("alpha models"), plus one universe-selection
model, from the `Algorithm.Python/Alphas` directory of a QuantConnect algorithm repository. In
each, the host engine supplies prices, indicators, history, order sizing and time. The model
takes those as inputs and keeps the selection and signal rules the plugins themselves implement:

- **Magic-formula universe selection** (`MagicFormula`, `magic_formula.dfy`):
  - Coarse selection runs at most once a month and keeps the 500 most traded stocks that have
    fundamental data.
  - Fine selection keeps the US stocks on the NYSE or the NASDAQ that have been listed for more
    than 180 days and have a market cap above 5e8.
  - It then applies a proportional dollar-volume quota in each of six sectors.
  - Finally it takes the 20 stocks with the highest EV/EBITDA and, of those, the 10 with the
    lowest ROIC.
  - The class `UniverseSelectionModel` holds the fields that the two selection methods update.
- **Magic-formula alpha** (`MagicFormulaAlpha`, `magic_formula_alpha.dfy`):
  - The `SymbolData` class holds a rate-of-change reading and the last sample count that
    `CanEmit` saw.
  - `CanEmit` answers yes at most once per new sample.
  - The `MagicFormulaAlphaModel` class keeps an insertion-ordered dictionary of those entries.
  - `Update` asks every entry, and `OnSecuritiesChanged` pops entries and inserts new ones.
- **Share-class mean reversion** (`ShareClassMeanReversion`, `share_class_mean_reversion.dfy`):
  - The strategy trades GOOG against GOOGL.
  - The class `Algorithm` appends the spread value to `portfolio` on every slice and sets the
    position sizes once.
  - It counts periods, and enters or liquidates around the spread's moving average.
- **Low-volatility selection** (`LowVolatility`, `low_volatility.dfy`): it emits Up insights
  for the `numberOfStocks` least volatile securities that have data.
- **Lunch-break reversal** (`LunchBreak`, `lunch_break.dfy`): at hour 12 it emits one
  insight, against the last hour's return of the first security that qualifies.
- **Triple-leveraged ETF pairs** (`LeveragedEtfPair`, `leveraged_etf_pair.dfy`): every update
  predicts that both ETFs of every pair go down.

Shared modules:

- `Insights` (`insights.dfy`) holds the host's symbols, insights and durations. Durations are
  in minutes.
- `Sequences` (`sequences.dfy`) models the comprehensions, slices and Python's stable `sorted`.
- `OrderedDict` (`ordered_dict.dfy`) models a Python `dict` as its items in insertion order.
  `dict(pairs)` keeps each key at its first position, with its last value.

## Model

| member | source | states |
|---|---|---|
| Sequences.Filter | Algorithm.Python/Alphas/GreenblattMagicFormulaAlgorithm.py:161-163 | a list comprehension with a condition keeps exactly the elements that pass, a sub-multiset of the input |
| Sequences.FilterCounts | Algorithm.Python/Alphas/GreenblattMagicFormulaAlgorithm.py:161-163 | each element of the input that passes is kept exactly as many times as it occurs, and each other element not at all |
| Sequences.FilterConcat | Algorithm.Python/Alphas/GreenblattMagicFormulaAlgorithm.py:161-163 | filtering a concatenation gives the concatenation of the filtered parts, so the kept elements stay in input order |
| Sequences.SortBy | Algorithm.Python/Alphas/GreenblattMagicFormulaAlgorithm.py:165 | `sorted` returns a permutation of its input, ordered by the key (descending when `reverse=True`) |
| Sequences.SortIsStable | Algorithm.Python/Alphas/GreenblattMagicFormulaAlgorithm.py:165 | `sorted` is stable: for every key value, the elements with that key come out in the order they went in |
| Sequences.TopBy | Algorithm.Python/Alphas/LowVolatilityStockSelectionAlpha.py:100 | `sorted(...)[:n]` holds min(n, len) elements of the input, in key order |
| Sequences.TopByIsBest | Algorithm.Python/Alphas/GreenblattMagicFormulaAlgorithm.py:165 | every element of `sorted(...)[:n]` comes from the input, and no element left out comes before, by key, one that was taken |
| Sequences.FilterHead | Algorithm.Python/Alphas/MeanReversionLunchBreakAlpha.py:82-88 | the first element a filtering loop keeps is the first element that passes |
| OrderedDict.Put | Algorithm.Python/Alphas/MeanReversionLunchBreakAlpha.py:88 | `d[k] = v` keeps the keys distinct; an existing key keeps its place and takes the new value, a new key goes last |
| OrderedDict.FromPairsValues | Algorithm.Python/Alphas/GreenblattMagicFormulaAlgorithm.py:167 | in a dict built from pairs, each key holds the value of the last pair with that key |
| OrderedDict.FromDistinctPairs | Algorithm.Python/Alphas/LowVolatilityStockSelectionAlpha.py:95 | a dict built from pairs whose keys do not repeat holds those pairs exactly, in order |
| OrderedDict.FromPairsFirstKey | Algorithm.Python/Alphas/MeanReversionLunchBreakAlpha.py:90 | the first item of a dict built from pairs has the first pair's key |
| LeveragedEtfPair.PairGroups | Algorithm.Python/Alphas/TripleLeveragedETFPairVolatilityDecayAlpha.py:58-62 | group i joins ultraLong[i] with ultraShort[i]; a shorter ultraShort list is an index error |
| LeveragedEtfPair.Update | Algorithm.Python/Alphas/TripleLeveragedETFPairVolatilityDecayAlpha.py:85-98 | exactly 2·groups insights; insight 2i is Down on group i's ultra-long ETF, 2i+1 Down on its ultra-short ETF, each one day long with magnitude 0; nothing else is read |
| LeveragedEtfPair.UpdateIsShortBiased | Algorithm.Python/Alphas/TripleLeveragedETFPairVolatilityDecayAlpha.py:89-96 | every insight is a one-day Down prediction of magnitude 0 for an ETF of some group |
| LeveragedEtfPair.PairedUpdate | Algorithm.Python/Alphas/TripleLeveragedETFPairVolatilityDecayAlpha.py:55-62 | after pairing, insights 2i and 2i+1 name ultraLong[i] and ultraShort[i] |
| LunchBreak.ReturnPairs | Algorithm.Python/Alphas/MeanReversionLunchBreakAlpha.py:82-88 | only securities with data and a non-zero open get an entry, with return close/open − 1, in iteration order |
| LunchBreak.Update | Algorithm.Python/Alphas/MeanReversionLunchBreakAlpha.py:75-98 | off hour 12 nothing; at most one insight; an insight exactly when it is hour 12 and some security qualifies; it is Down when that symbol's recorded return is positive and Up otherwise (zero included), magnitude 0 |
| LunchBreak.InsightForFirstQualifying | Algorithm.Python/Alphas/MeanReversionLunchBreakAlpha.py:90-96 | the one insight is for the first qualifying security in iteration order |
| LunchBreak.DirectionOpposesReturn | Algorithm.Python/Alphas/MeanReversionLunchBreakAlpha.py:88-96 | with distinct symbols the direction opposes that security's own return: Down exactly when close/open − 1 > 0 |
| LowVolatility.Candidates | Algorithm.Python/Alphas/LowVolatilityStockSelectionAlpha.py:77-79 | the candidate symbols are those of the active securities that have data, in iteration order |
| LowVolatility.Zip | Algorithm.Python/Alphas/LowVolatilityStockSelectionAlpha.py:95 | `zip` pairs by position and is as long as the shorter list |
| LowVolatility.Update | Algorithm.Python/Alphas/LowVolatilityStockSelectionAlpha.py:71-108 | empty history gives no insights; otherwise one Up insight of magnitude 0 per symbol among the min(len, numberOfStocks) least volatile, in ascending volatility |
| LowVolatility.DistinctCandidatesZip | Algorithm.Python/Alphas/LowVolatilityStockSelectionAlpha.py:95 | with distinct symbols, `dict(zip(symbols, stdDev))` holds the zipped pairs exactly |
| LowVolatility.UpdateSelectsLowest | Algorithm.Python/Alphas/LowVolatilityStockSelectionAlpha.py:97-106 | exactly min(candidates, volatilities, numberOfStocks) insights, each Up with magnitude 0 and for an active security that has data |
| LowVolatility.DefaultEmitsAtMostTen | Algorithm.Python/Alphas/LowVolatilityStockSelectionAlpha.py:67-100 | with the default `numberOfStocks` of 10, a call emits at most ten insights, and exactly ten once ten distinct symbols have a volatility |
| LowVolatility.LowestVolatilityChosen | Algorithm.Python/Alphas/LowVolatilityStockSelectionAlpha.py:100 | no symbol left out has a lower volatility than one chosen |
| LowVolatility.LowVolIsItsOwnDict | Algorithm.Python/Alphas/LowVolatilityStockSelectionAlpha.py:100 | wrapping the sorted slice in `dict(...)` changes neither its contents nor its order |
| LowVolatility.CandidateOfChosen | Algorithm.Python/Alphas/LowVolatilityStockSelectionAlpha.py:95 | every zipped pair names an active security that has data |
| ShareClassMeanReversion.StepWith | Algorithm.Python/Alphas/testAlpha.py:70-127 | a slice missing either bar changes nothing; otherwise exactly one spread alpha·close0 − beta·close1 is appended; the sizes are set from the first full slice and never again; during warm-up no orders and the counter stands; afterwards the counter advances by exactly one; the invariant (counter ≤ recorded values, sizes set together) is kept |
| ShareClassMeanReversion.Step | Algorithm.Python/Alphas/testAlpha.py:70-127 | `OnData` as written keeps the invariant that the counter never runs past the recorded values |
| ShareClassMeanReversion.EntriesAreHedged | Algorithm.Python/Alphas/testAlpha.py:104-127 | the orders are none, one liquidation, or two opposite equal-weight holdings; an entry happens only when not invested and warmed up, and each leg's insight points the way of its holding; a liquidation happens only when invested |
| ShareClassMeanReversion.EntryDirection | Algorithm.Python/Alphas/testAlpha.py:104-123 | spread ≥ average gives long symbols[1] +0.5 and short symbols[0] −0.5; below it, the reverse |
| ShareClassMeanReversion.RunCounts | Algorithm.Python/Alphas/testAlpha.py:85-102 | over any run, one value is recorded per slice with both bars, and the counter grows by one per such slice after warm-up, so `crossed_mean` indexes only recorded values |
| ShareClassMeanReversion.SizesSetOnce | Algorithm.Python/Alphas/testAlpha.py:79-81 | once alpha and beta are set, no run changes them |
| ShareClassMeanReversion.InvestedExitAsWritten | Algorithm.Python/Alphas/testAlpha.py:98-127 | on an invested slice after warm-up, as written: one liquidation on the first such slice (counter 0); afterwards a liquidation exactly when the values at the counter and just before it straddle the average; otherwise nothing |
| ShareClassMeanReversion.RealizableCounterLags | Algorithm.Python/Alphas/testAlpha.py:85-102 | when every slice agrees with a 20-value simple moving average, the counter stays 20 behind the number of recorded values once warm-up is over, and at 0 before |
| ShareClassMeanReversion.ExitLooksOnePeriodBack | Algorithm.Python/Alphas/testAlpha.py:130-136 | in such a run, the exit test as written compares the value recorded 20 slices before the newest with the one before that |
| ShareClassMeanReversion.RunAppend | Algorithm.Python/Alphas/testAlpha.py:70-127 | running two lists of slices one after the other is running their concatenation; if both halves agree with the moving average, so does the whole |
| ShareClassMeanReversion.FirstSliceSetsSizes | Algorithm.Python/Alphas/testAlpha.py:79-89 | the first slice with both bars sets both sizes from the order quantities, records its spread, and places nothing while the average is not ready |
| ShareClassMeanReversion.WarmUpRecords | Algorithm.Python/Alphas/testAlpha.py:85-89 | warm-up slices only record their spread and place nothing, agreeing with an average that is not yet ready |
| ShareClassMeanReversion.EnterAfterWarmUp | Algorithm.Python/Alphas/testAlpha.py:91-112 | after 20 recorded values the average is ready; a spread at the average goes long GOOGL and short GOOG, and the counter moves to 1 |
| ShareClassMeanReversion.InvestedSliceIgnoresCross | Algorithm.Python/Alphas/testAlpha.py:125-136 | an invested slice recording 1 after twenty-one 5s, with the 20-value average at 4.8, places no order |
| ShareClassMeanReversion.StaleCrossingMissesExit | Algorithm.Python/Alphas/testAlpha.py:130-136 | as written, a run that agrees with the moving average enters after warm-up, its last two values straddle the average, and its invested last slice places nothing |
| ShareClassMeanReversion.CorrectedStepExitsOnCross | Algorithm.Python/Alphas/testAlpha.py:125-127 | with the test on the two newest values, an invested position is liquidated exactly when they straddle the average |
| ShareClassMeanReversion.Algorithm.constructor | Algorithm.Python/Alphas/testAlpha.py:48-68 | symbols are GOOG and GOOGL; empty portfolio, counter 0, no sizes |
| ShareClassMeanReversion.Algorithm.CrossedMean | Algorithm.Python/Alphas/testAlpha.py:130-139 | true exactly when the values at the counter and just before it lie on opposite sides of the mean (≥ on one side, < on the other); the counter advances by exactly one either way |
| ShareClassMeanReversion.Algorithm.OnData | Algorithm.Python/Alphas/testAlpha.py:70-127 | the new fields and the outcome are those of `Step`, and the invariant is kept |
| MagicFormula.CoarseTop | Algorithm.Python/Alphas/GreenblattMagicFormulaAlgorithm.py:161-165 | at most 500 securities, each with fundamental data, volume > 0 and price > 0, in descending dollar volume |
| MagicFormula.CoarseTopIsBest | Algorithm.Python/Alphas/GreenblattMagicFormulaAlgorithm.py:165 | exactly min(500, passing) securities, and no passing security left out trades more than one kept |
| MagicFormula.CoarseSymbolsPass | Algorithm.Python/Alphas/GreenblattMagicFormulaAlgorithm.py:161-169 | the selected symbols are at most 500 and distinct, and each belongs to a security that passes the coarse filter |
| MagicFormula.CoarseSymbolsByDollarVolume | Algorithm.Python/Alphas/GreenblattMagicFormulaAlgorithm.py:165-167 | with distinct symbols, `dollarVolumeBySymbol` is in descending dollar volume, each entry is a passing security's own symbol and volume, and no passing symbol left out trades more than any kept |
| MagicFormula.CoarseItemsAreTop | Algorithm.Python/Alphas/GreenblattMagicFormulaAlgorithm.py:167 | with distinct symbols, the dict holds the top's (symbol, dollar volume) pairs in the top's order |
| MagicFormula.FineFilter | Algorithm.Python/Alphas/GreenblattMagicFormulaAlgorithm.py:190-193 | a security is kept exactly when it is US, on NYS or NAS, listed more than 180 days and worth more than 5e8 |
| MagicFormula.QuotaIsCeiling | Algorithm.Python/Alphas/GreenblattMagicFormulaAlgorithm.py:198-204 | a sector's quota is ⌈size·20/count⌉: the least q with q·count ≥ size·20 |
| MagicFormula.SectorTop | Algorithm.Python/Alphas/GreenblattMagicFormulaAlgorithm.py:202-204 | a sector's bucket holds no more than its quota and no more than the sector's size |
| MagicFormula.SectorLeaders | Algorithm.Python/Alphas/GreenblattMagicFormulaAlgorithm.py:201-204 | a bucket holds min(size, quota) filtered securities of its sector, largest dollar volume first, and none of the sector left out trades more than one kept |
| MagicFormula.SectorSizesPartition | Algorithm.Python/Alphas/GreenblattMagicFormulaAlgorithm.py:201-202 | distinct sector codes split the filtered securities: their sizes add up to the size of their union |
| MagicFormula.BucketsBound | Algorithm.Python/Alphas/GreenblattMagicFormulaAlgorithm.py:198-208 | the buckets of k distinct sectors hold fewer than 20 + k securities |
| MagicFormula.TopFineIsAllBuckets | Algorithm.Python/Alphas/GreenblattMagicFormulaAlgorithm.py:208 | the six buckets hold at most 25 securities, so the cut at 500 removes nothing |
| MagicFormula.FirstMissingMeans | Algorithm.Python/Alphas/GreenblattMagicFormulaAlgorithm.py:201-203 | the lookup fails exactly when a filtered security of a listed sector has no dollar volume, and then it names such a symbol |
| MagicFormula.LookUpAll | Algorithm.Python/Alphas/GreenblattMagicFormulaAlgorithm.py:203 | the key lookups of `sorted` fail on the first symbol in list order that is not a key |
| MagicFormula.SectorBuckets | Algorithm.Python/Alphas/GreenblattMagicFormulaAlgorithm.py:200-204 | the loop fails with KeyError exactly when some sector member has no dollar volume, on the first one; otherwise it yields each sector's bucket in code order |
| MagicFormula.RankFine | Algorithm.Python/Alphas/GreenblattMagicFormulaAlgorithm.py:190-224 | the body of fine selection computes the filter, the buckets, the cut, the two sorts and the symbols, with its KeyError as an outcome |
| MagicFormula.RankingIsMagicFormula | Algorithm.Python/Alphas/GreenblattMagicFormulaAlgorithm.py:217-223 | at most 10 securities, all among the ≤ 20 with the highest EV/EBITDA, in ascending ROIC, and none of those 20 left out has a lower ROIC than one chosen |
| MagicFormula.ByEvToEbitdaIsBest | Algorithm.Python/Alphas/GreenblattMagicFormulaAlgorithm.py:217-220 | no security of `topFine` left out of the 20 has a higher EV/EBITDA than one kept |
| MagicFormula.RankingFromSectors | Algorithm.Python/Alphas/GreenblattMagicFormulaAlgorithm.py:201-223 | every chosen security passes the fine filter and belongs to one of the six sectors |
| MagicFormula.UniverseSelectionModel.constructor | Algorithm.Python/Alphas/GreenblattMagicFormulaAlgorithm.py:138-140 | lastMonth −1, no dollar volumes, no symbols |
| MagicFormula.UniverseSelectionModel.SelectCoarse | Algorithm.Python/Alphas/GreenblattMagicFormulaAlgorithm.py:142-171 | an empty list or the month already handled returns the old symbols and changes nothing; otherwise the month is recorded, the dollar volumes are those of the coarse top, and the symbols returned are the dict's keys |
| MagicFormula.UniverseSelectionModel.SelectFine | Algorithm.Python/Alphas/GreenblattMagicFormulaAlgorithm.py:174-226 | returns [] when nothing passes, the failed lookup's symbol, or the ranking's symbols; `symbols` becomes the ranking and is otherwise untouched |
| MagicFormulaAlpha.EmitsOncePerSample | Algorithm.Python/Alphas/GreenblattMagicFormulaAlgorithm.py:107-113 | right after `CanEmit`, asking again answers no and changes nothing; it answers yes exactly when the indicator is ready and took a new sample |
| MagicFormulaAlpha.EmissionsMeaning | Algorithm.Python/Alphas/GreenblattMagicFormulaAlgorithm.py:52-57 | every insight is Up over the prediction interval with the rate of change as magnitude for an entry that may emit, and each such entry gets one |
| MagicFormulaAlpha.SecondUpdateEmitsNothing | Algorithm.Python/Alphas/GreenblattMagicFormulaAlgorithm.py:52-57 | a second `Update` with no new samples in between emits nothing |
| MagicFormulaAlpha.AddNew | Algorithm.Python/Alphas/GreenblattMagicFormulaAlgorithm.py:73-78 | after the insert loop the keys are exactly the old keys and the history's tickers |
| MagicFormulaAlpha.AddNewKeepsDistinct | Algorithm.Python/Alphas/GreenblattMagicFormulaAlgorithm.py:73-78 | inserting keeps the old keys in place, at the front, and all keys distinct |
| MagicFormulaAlpha.SymbolData.constructor | Algorithm.Python/Alphas/GreenblattMagicFormulaAlgorithm.py:85-89 | a new entry for the symbol, with its reading and previous = 0 |
| MagicFormulaAlpha.SymbolData.Return | Algorithm.Python/Alphas/GreenblattMagicFormulaAlgorithm.py:103-105 | the current rate-of-change value |
| MagicFormulaAlpha.SymbolData.CanEmit | Algorithm.Python/Alphas/GreenblattMagicFormulaAlgorithm.py:107-113 | answers whether a new sample arrived and the indicator is ready, and remembers the sample count |
| MagicFormulaAlpha.AskAll | Algorithm.Python/Alphas/GreenblattMagicFormulaAlgorithm.py:54-56 | the insights emitted by asking each entry in order, with every entry advanced |
| MagicFormulaAlpha.PopAll | Algorithm.Python/Alphas/GreenblattMagicFormulaAlgorithm.py:62-65 | `pop(symbol, None)` for each removed security leaves exactly the other entries, unchanged and in order |
| MagicFormulaAlpha.AddAll | Algorithm.Python/Alphas/GreenblattMagicFormulaAlgorithm.py:72-80 | each ticker with no entry gets a fresh one with previous 0, warmed up to its first history row; existing entries are kept |
| MagicFormulaAlpha.MagicFormulaAlphaModel.constructor | Algorithm.Python/Alphas/GreenblattMagicFormulaAlgorithm.py:46-50 | a daily model with prediction interval lookback days and an empty dictionary |
| MagicFormulaAlpha.MagicFormulaAlphaModel.Update | Algorithm.Python/Alphas/GreenblattMagicFormulaAlgorithm.py:52-57 | the insights are those of the entries that can emit, in dictionary order, and every entry remembers its sample count |
| MagicFormulaAlpha.MagicFormulaAlphaModel.OnSecuritiesChanged | Algorithm.Python/Alphas/GreenblattMagicFormulaAlgorithm.py:59-80 | removed entries go; kept entries are the same objects; unless the history is empty, each new ticker gets a fresh entry with previous 0, warmed up to its reading; the key order is kept, then new keys follow |

## Left out

- The `Initialize` methods, the `clr` imports and the ETF model's unused `date` field are left out: they are host configuration and have no effect on any model.
- The host calls are left out: `History`, `ResolveConsolidator`, `RegisterIndicator`, `RemoveConsolidator`, `CalculateOrderQuantity`, `EmitInsights` and `Log`. Order quantities, readiness and history contents are inputs. `SetHoldings` and `Liquidate` become recorded `Order` values.
- Indicator internals (`RateOfChange`, `SimpleMovingAverage`) are left out. Their sample count, readiness and current value are inputs. `WarmUpIndicators` is modelled as the reading the history row supplies.
- The pandas volatility computation (`unstack`, `pct_change().std()`) is left out. The volatilities are given reals, and `None` stands for an empty history. The model assumes pandas lists the columns in the same order as `symbols`.
- Floating point is left out: prices, returns and ratios are exact reals, so NaN volatilities and ratios are not modelled.
- MagicFormula.Quota: computes ⌈len·20/count⌉ exactly, not through the float `percent` that the source rounds first.
- `SymbolData.__str__` is left out: it is an annualised float power used only for display.
- Dates are modelled as whole numbers. The IPO check uses a day number, coarse selection uses a month number, and insight periods use minutes. The model does not cover the default resolutions other than Daily and Hour.
- `SymbolCache.GetSymbol` is left out: a ticker is used as its own symbol.
- `history.index.levels[0]` and `history.loc[ticker]` are modelled as a list of (ticker, warmed-up reading) rows, taken in the order given. The sorting of pandas index levels is not modelled.
- MagicFormula.CoarseSymbolsByDollarVolume: stated for coarse lists with distinct symbols, as the host provides.
- LunchBreak.DirectionOpposesReturn: stated for distinct symbols, as the host provides. `LunchBreak.Update` covers the general case through the dict's last-value rule.
- LowVolatility.UpdateSelectsLowest: stated for distinct symbols, as the host provides. `LowVolatility.Update` and `LowestVolatilityChosen` hold for all inputs.
- ShareClassMeanReversion.Algorithm.OnData: the moving average is an input, so `OnData` and `Step` hold for any readiness and value. `SmaAgrees` and `Realizable` state what a 20-value simple moving average reports; the finding's run and `ExitLooksOnePeriodBack` are proved for runs that agree with it.

## Findings

| source | as written | input that shows it | evidently intended | confidence | as-written member | corrected member |
|---|---|---|---|---|---|---|
| Algorithm.Python/Alphas/testAlpha.py:130-136 | `crossed_mean` compares `portfolio[period_counter]` with `portfolio[period_counter-1]`. The counter counts only post-warm-up slices, but `portfolio` also holds the warm-up values, so the test reads old values rather than the newest ones | Twenty warm-up slices record the spread 5 (GOOG 105, GOOGL 100, one share each). The next slice finds the 20-value average ready at 5, enters, and sets the counter to 1. An invested slice then records 1 (GOOG 101), and the average becomes 96/20 = 4.8. The newest two values 5 and 1 straddle it, yet the first two values 5 and 5 are compared and nothing is liquidated (`WarmUpThenCross`). In general, `ExitLooksOnePeriodBack` shows the test always reads values from 20 slices back | test whether the two newest recorded values lie on opposite sides of the average | not executed | ShareClassMeanReversion.StaleCrossingMissesExit | ShareClassMeanReversion.CorrectedStepExitsOnCross |
