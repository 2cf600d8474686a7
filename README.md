# Cross-exchange arbitrage engine, modelled in Dafny

This project models the core of a cross-exchange arbitrage simulator. The
backend receives order books from several exchanges. It keeps the latest book
of each exchange. Whenever a book arrives, it scores every ordered pair of
stored books as a possible "buy here, sell there" trade. The outcomes are
`no_funds`, `discarded` (either `insufficient_depth` or
`fees_and_transfer_filtered`) and `accepted`. An accepted trade above the
profit threshold can be executed in simulation. Execution consumes book depth,
moves the per-exchange wallets, and books the profit.

The model covers:

- the engine itself: symbol splitting, the VWAP walkers, depth reservation,
  the wallet-bounded trade size, pair scoring, the all-pairs pass, simulated
  execution, the control operations and the in-memory listings;
- the record types and their dictionary projections;
- the pure book-normalisation steps of the Binance and Uphold feeds;
- the service's feed building and control logic;
- the CORS-origin parser of the web entry point.

Modules:

- `Strings`: Python's `upper`, `lower`, `strip`, `endswith` and `split`, ASCII only.
- `Models`: levels, books, opportunities and trades. Also `best_bid`/`best_ask`, and the `*_to_dict` projections into a small JSON datatype, each proved to round-trip.
- `Symbols`: `split_symbol` and `bootstrap_price_for_symbol`.
- `BookDepth`: the depth walk as a specification (`Takes`, `Filled`, `Cost`, `Reserved`). It also holds the two VWAP walkers as loops proved against that specification, and `_reserve_from_levels` as an in-place method on an `array`.
- `PairEvaluation`: `_max_size_by_funds` and `_evaluate_pair`.
- `ArbitragePass`: one evaluation pass as a value-level fold over the ordered pairs. This covers the bounded logs (600 opportunities, 300 trades, 600 metrics) and the wallet settlement of `_simulate_execution`.
- `EngineStore`: the insertion-ordered book store, the engine invariant, the fee and enabled maps, the initial inventory, and the listing helpers.
- `Engine`: the `ArbitrageEngine` class. Its methods update its fields in place and are each proved against `ArbitragePass`.
- `AppConfigs`: the shared, mutable configuration object.
- `MarketData`: `uphold_pair_from_symbol` and the Binance and Uphold payload checks.
- `Service`: the `ArbitrageService` class.
- `Api`: `_parse_cors_origins`.

Prices, sizes and balances are exact `real`s. Timestamps are integer
milliseconds, and the current time is a parameter. Each engine call is one
atomic step, which is what the engine's lock provides.

Two properties hold only because the arithmetic is exact:

- `_evaluate_pair`'s `insufficient_depth` branch can never be taken, because the target size never exceeds the depth of either book (`PairEvaluation.InsufficientDepthUnreachable`). With floating-point sums it might still be reached.
- `insufficient_liquidity` is a status the record type admits, but no code path produces it.

## Model

| member | source | states |
|---|---|---|
| Strings.Upper | backend/app/engine.py:24 | `upper` keeps the length and maps every character on its own |
| Strings.Strip | backend/app/engine.py:24 | the result of `strip` neither starts nor ends with whitespace |
| Strings.TrimStartSpec | backend/app/engine.py:24 | stripping the front leaves a suffix of the input that does not start with whitespace, and only whitespace was removed |
| Strings.TrimEndSpec | backend/app/engine.py:24 | stripping the end leaves a prefix of the input that does not end with whitespace, and only whitespace was removed |
| Strings.StripIsTrimmedSlice | backend/app/main.py:13 | `strip` returns a slice of its input, and only whitespace lies outside that slice |
| Strings.StripIsIdempotent | backend/app/main.py:13 | stripping twice is the same as stripping once |
| Strings.UpperStripIsIdempotent | backend/app/service.py:65 | normalising a symbol with `upper().strip()` twice is the same as normalising it once |
| Strings.LowerStripIsIdempotent | backend/app/engine.py:139 | normalising an exchange name with `strip().lower()` twice is the same as once, so the engine re-normalises the service's key to the same key |
| Strings.Split | backend/app/main.py:13 | `split` on one character returns at least one piece, and no piece contains the separator |
| Strings.JoinSplit | backend/app/main.py:13 | joining the pieces with the separator gives back the input |
| Models.BestBid | backend/app/models.py:27-29 | absent exactly when there are no bids; otherwise the first bid's price |
| Models.BestAsk | backend/app/models.py:31-33 | absent exactly when there are no asks; otherwise the first ask's price |
| Models.StatusNamesCorrespond | backend/app/models.py:39 | the four statuses and their four names correspond one to one |
| Models.LevelToDict | backend/app/models.py:66-67 | the `price`/`quantity` dictionary of a level; its partner `LevelDictRoundTrip` proves that reading it back gives the level |
| Models.LevelDictRoundTrip | backend/app/models.py:66-67 | a level dictionary gives back the level's price and quantity |
| Models.LevelsToDicts | backend/app/models.py:74-75 | one dictionary per level, in order |
| Models.LevelsDictRoundTrip | backend/app/models.py:74-75 | the list of level dictionaries gives back the side unchanged |
| Models.OrderBookToDict | backend/app/models.py:70-80 | the eight-key book dictionary; `OrderBookDictShape` states each entry and `OrderBookDictRoundTrip` proves that reading it back gives the book |
| Models.OrderBookDictShape | backend/app/models.py:70-80 | `bids`/`asks` hold the levels in order; `best_bid`/`best_ask` are null for an empty side and otherwise equal the first level's price |
| Models.OrderBookDictRoundTrip | backend/app/models.py:70-80 | the book dictionary gives back the book |
| Models.OpportunityToDict | backend/app/models.py:83-100 | the fifteen-key opportunity dictionary; `OpportunityDictFields` states each entry and `OpportunityDictRoundTrip` proves that reading it back gives the opportunity |
| Models.OpportunityKeysDistinct | backend/app/models.py:84-100 | the fifteen keys of an opportunity dictionary are distinct |
| Models.OpportunityDictFields | backend/app/models.py:83-100 | every entry holds its field unchanged; the status appears as its name |
| Models.OpportunityDictRoundTrip | backend/app/models.py:83-100 | the dictionary gives back the opportunity; a book-update time is null exactly when it is absent |
| Models.SimulatedTradeToDict | backend/app/models.py:103-112 | the seven-key trade dictionary; `SimulatedTradeDictRoundTrip` proves that reading it back gives the trade |
| Models.SimulatedTradeDictRoundTrip | backend/app/models.py:103-112 | the trade dictionary gives back all seven fields |
| Symbols.FirstQuote | backend/app/engine.py:25-27 | finds the first known quote, longest first, that is a proper suffix; every earlier quote is not one |
| Symbols.SplitNormalised | backend/app/engine.py:25-30 | the two parts put back together give the value, except that a value of at most three characters without a known quote is paired with `USD` |
| Symbols.SplitSymbol | backend/app/engine.py:23-30 | the same for the upper-cased, stripped symbol |
| Symbols.SplitOnKnownQuote | backend/app/engine.py:25-27 | when a known quote is a proper suffix, the split gives (prefix, quote) with prefix + quote == value, and the quote is the longest such |
| Symbols.SplitWithoutKnownQuote | backend/app/engine.py:28-30 | with no known quote: a value longer than 3 splits off its last three characters; otherwise the result is (value, "USD") |
| Symbols.NormalizeIsUpper | backend/app/engine.py:24 | a normalised symbol has no lower-case letter |
| Symbols.SplitSymbolNormalised | backend/app/engine.py:23-30 | splitting ignores case and surrounding spaces, and both parts are upper case |
| Symbols.SplitExampleLongestQuote | backend/app/engine.py:25-27 | `BTCUSDT` splits as (`BTC`, `USDT`), not at `USD` |
| Symbols.SplitExampleCryptoQuote | backend/app/engine.py:25-27 | `ETHBTC` splits as (`ETH`, `BTC`) |
| Symbols.SplitExampleUnknownQuote | backend/app/engine.py:28-29 | `XRPGBP` splits off its last three characters |
| Symbols.SplitExampleShort | backend/app/engine.py:30 | `AB` is quoted in `USD` |
| Symbols.BootstrapPrice | backend/app/engine.py:33-43 | the table price is always positive; 1.0 for a symbol not in the table |
| BookDepth.Depth | backend/app/engine.py:92-93 | the available depth is never negative |
| BookDepth.Take | backend/app/engine.py:53-54 | a walk never takes more than a level holds or than remains, and never a negative amount |
| BookDepth.NothingToFill | backend/app/engine.py:51-52 | a walk for a non-positive quantity takes nothing, costs nothing and reserves nothing |
| BookDepth.TakesBounds | backend/app/engine.py:53-56 | every level's take lies between 0 and its positive quantity; non-positive levels are skipped |
| BookDepth.FilledIsMinOfDepth | backend/app/engine.py:46-60 | the filled amount is min(max(quantity, 0), depth) |
| BookDepth.FilledBounds | backend/app/engine.py:46-60 | for quantity >= 0 the fill lies in [0, quantity] and below the depth, and it is complete exactly when the quantity fits in the depth |
| BookDepth.TakesFrontToBack | backend/app/engine.py:50-58 | levels before the fill point are taken whole; levels after it are untouched |
| BookDepth.TakesBeforeFillPoint | backend/app/engine.py:50-58 | every level with quantity before the fill point is taken whole |
| BookDepth.TakesAfterFillPoint | backend/app/engine.py:50-58 | nothing is taken from a level after the fill point |
| BookDepth.AveragePriceBetweenPrices | backend/app/engine.py:59 | a non-empty fill is priced between the lowest and the highest level price; an empty one at 0 |
| BookDepth.AveragePriceZeroIffNothingFilled | backend/app/engine.py:59 | with positive prices, the average price is 0 exactly when nothing was filled |
| BookDepth.VwapExample | backend/app/engine.py:46-60 | 4 units against levels (100, 2) and (101, 3) fill 4 at an average of 100.5 |
| BookDepth.ComputeVwapForBuy | backend/app/engine.py:46-60 | the loop returns the specified fill and average price |
| BookDepth.ComputeVwapForSell | backend/app/engine.py:63-77 | the loop returns the same fill and average price as the buy walker |
| BookDepth.ReservedLevels | backend/app/engine.py:80-89 | reserving keeps length and prices, never raises a level or drives a non-negative one below 0, empties every positive level before the fill point, and leaves non-positive levels and levels after the fill point alone |
| BookDepth.ReservedLowersDepth | backend/app/engine.py:80-93 | reserving lowers the depth by exactly the walk's fill, min(quantity, depth) |
| BookDepth.ReserveFromLevels | backend/app/engine.py:80-89 | the in-place loop leaves the array holding the reserved side |
| PairEvaluation.MaxSizeByFunds | backend/app/engine.py:149-169 | the size the wallets allow is never negative and never exceeds the seller's base asset (negative holdings count as none) |
| PairEvaluation.MaxSizeByFundsBounds | backend/app/engine.py:149-169 | 0 when the unit cost is <= 0; otherwise the size is >= 0, within the seller's base, paid for by the buyer's quote, and one of the two limits is reached; missing wallets count as 0 |
| PairEvaluation.EvaluatePair | backend/app/engine.py:237-342 | the opportunity names the buy book's symbol and both exchanges in order; an accepted one has a positive expected profit and a size of at least max(0.1 × desired, 0.0001) |
| PairEvaluation.EvaluatePairIdentity | backend/app/engine.py:259-342 | every outcome names the buy book's symbol, both exchanges in order, and the given latency and time |
| PairEvaluation.SizeFitsBooks | backend/app/engine.py:245-279 | a size past the size check is positive, fits both books' depth, and is filled completely on both sides |
| PairEvaluation.InsufficientDepthUnreachable | backend/app/engine.py:282-297 | with exact arithmetic, no evaluation yields `insufficient_depth` |
| PairEvaluation.EvaluatePairOutcome | backend/app/engine.py:245-342 | `no_funds` exactly when the target is below max(0.1 × desired, 0.0001), with size, spreads and profit 0; otherwise the target is traded at both average prices, the profit is (sell·(1−sf) − buy·(1+bf))·size − transfer, and the outcome is `accepted`/`profitable` exactly when the profit is > 0, else `discarded`/`fees_and_transfer_filtered` |
| PairEvaluation.AcceptedIsFeasible | backend/app/engine.py:245-342 | an accepted size is positive and within the volume-derived size, both depths and both wallets, with a positive profit |
| PairEvaluation.EvaluatePairByWalks | backend/app/engine.py:237-342 | scoring with the two walker loops gives the specified opportunity |
| ArbitragePass.BoundedAppend | backend/app/engine.py:109-111 | appending to a bounded log keeps at most `cap` entries, appends normally below the cap, and always ends with the new entry |
| ArbitragePass.BoundedAppendIsLast | backend/app/engine.py:109-111 | a bounded append keeps the last `cap` entries of the extended log |
| ArbitragePass.LastOfLast | backend/app/engine.py:109-111 | trimming before extending changes nothing once the result is trimmed again |
| ArbitragePass.LatencyMs | backend/app/engine.py:203-208 | the decision latency is clamped at 0 |
| ArbitragePass.ReserveBooks | backend/app/engine.py:350-351 | reserving for a trade keeps each stored book's exchange and symbol in place |
| ArbitragePass.PairStep | backend/app/engine.py:192-235 | one pair step keeps the number of stored books |
| ArbitragePass.PairStepListing | backend/app/engine.py:192-235 | one pair step keeps each stored book's exchange and symbol in place |
| ArbitragePass.PairsFromInRange | backend/app/engine.py:191 | the pair enumeration only yields indices of stored books |
| ArbitragePass.PairsFromSteps | backend/app/engine.py:191 | the enumeration runs row by row, column by column |
| ArbitragePass.PairsFromCovers | backend/app/engine.py:191 | from (i, j), the enumeration contains exactly the later positions of row i and every position of the later rows |
| ArbitragePass.PairsFromComplete | backend/app/engine.py:191 | every later position of row i, and every position of a later row, is enumerated from (i, j) |
| ArbitragePass.PairsFromAfter | backend/app/engine.py:191 | every pair enumerated from (i, j) lies at or after (i, j) in row-major order |
| ArbitragePass.PairsFromOrdered | backend/app/engine.py:191 | the pairs come in strictly increasing row-major order, so none repeats |
| ArbitragePass.RowPass | backend/app/engine.py:191-235 | the pair steps of one row keep the number of stored books |
| ArbitragePass.RowPassStep | backend/app/engine.py:191-235 | a row is its first pair step followed by the rest of the row |
| ArbitragePass.PassOver | backend/app/engine.py:191-235 | a pass over any list of pairs keeps the number of stored books |
| ArbitragePass.Pass | backend/app/engine.py:185-235 | `_evaluate_all_pairs` as one pass over every ordered pair keeps the number of stored books; `PassLogFollowsPairs` and the method `EvaluateAllPairs` state the rest |
| ArbitragePass.PassOverRow | backend/app/engine.py:191-235 | the pass from (i, j) on is the rest of row i followed by the pass over the later rows |
| ArbitragePass.PassOverHead | backend/app/engine.py:191-235 | a pass over a list starting with (i, j) is the pair step at (i, j) followed by the pass over the rest |
| ArbitragePass.Exchanges | backend/app/engine.py:191 | one exchange pair per logged opportunity |
| ArbitragePass.Metrics | backend/app/engine.py:222-234 | one metrics entry per logged opportunity |
| ArbitragePass.EligiblePairsOfListing | backend/app/engine.py:192-199 | eligibility depends only on the books' exchanges and symbols, so reservations do not change it |
| ArbitragePass.PairStepLogs | backend/app/engine.py:192-234 | an eligible pair appends one opportunity naming its exchanges and one metrics entry; an ineligible pair (disabled exchange, different symbols, or i == j) changes nothing |
| ArbitragePass.PassLogFollowsPairs | backend/app/engine.py:191-218 | a pass logs exactly one opportunity per eligible ordered pair, in `permutations` order |
| ArbitragePass.PassAppendsOpportunities | backend/app/engine.py:218 | afterwards the opportunity log is the last 600 of the old log followed by the pass's opportunities |
| ArbitragePass.PassAppendsMetrics | backend/app/engine.py:222-234 | afterwards the metrics log is the last 600 of the old log followed by one entry per logged opportunity |
| ArbitragePass.SetHoldingKeepsNonNegative | backend/app/engine.py:369-384 | writing a non-negative amount keeps every holding non-negative |
| ArbitragePass.HoldingNonNegative | backend/app/engine.py:369-384 | every holding read from non-negative wallets is non-negative |
| ArbitragePass.WithWalletKeepsNonNegative | backend/app/engine.py:360-367 | `setdefault` with a zero wallet keeps every holding non-negative |
| ArbitragePass.SettleKeepsNonNegative | backend/app/engine.py:360-384 | settling a trade of non-negative size keeps every holding non-negative |
| ArbitragePass.BuyerPaysKeepsNonNegative | backend/app/engine.py:369-373 | the buyer's clamped payment keeps every holding non-negative |
| ArbitragePass.SellerDeliversKeepsNonNegative | backend/app/engine.py:375-382 | the seller's clamped delivery keeps every holding non-negative |
| ArbitragePass.BuyerPaysEffect | backend/app/engine.py:369-373 | the buyer's quote falls by cost × (1 + fee), not below 0, and its base rises by exactly the size; no other wallet changes |
| ArbitragePass.SellerDeliversEffect | backend/app/engine.py:375-382 | the seller's base falls by the size, not below 0, and its quote rises by max(0, proceeds − transfer cost); no other wallet changes |
| ArbitragePass.OpenWalletsKeepsHoldings | backend/app/engine.py:360-367 | `setdefault` creates both wallets and changes no holding |
| ArbitragePass.SettleWalletsEffect | backend/app/engine.py:356-384 | both wallet updates combined; every other exchange's holdings are unchanged |
| ArbitragePass.Trades | backend/app/engine.py:389-399 | one trade per executed opportunity |
| ArbitragePass.PairStepLedger | backend/app/engine.py:229-235 | a pair is executed exactly when it is eligible, auto-execution is on, it is accepted and its profit reaches the threshold; then its size is positive, the P&L and the balance both rise by its profit, the wallets settle and one trade is appended; otherwise none of these change |
| ArbitragePass.PassProfit | backend/app/engine.py:387-388 | over a pass, the P&L and the balance both rise by the total profit of the executed opportunities |
| ArbitragePass.PassTrades | backend/app/engine.py:389-399 | afterwards the trade log is the last 300 old trades followed by one trade per executed opportunity, in order |
| ArbitragePass.PassKeepsHoldingsNonNegative | backend/app/engine.py:369-384 | a pass keeps non-negative wallets non-negative |
| EngineStore.IndexOf | backend/app/engine.py:182 | finds the position of the exchange's stored book, or the end of the store |
| EngineStore.StoreBook | backend/app/engine.py:182 | the stored book is in the store afterwards, and the store grows by at most one |
| EngineStore.StoreBookSpec | backend/app/engine.py:182 | storing keeps one book per exchange and replaces that exchange's book in place; the store grows only for a new exchange, and other books stay where they are |
| EngineStore.RemoveExchange | backend/app/engine.py:144 | removing never lengthens the store |
| EngineStore.RemoveExchangeSpec | backend/app/engine.py:144 | `pop` removes the exchange's book and keeps every other book |
| EngineStore.PairStepKeepsConsistent | backend/app/engine.py:192-235 | a pair step preserves the engine invariant: log capacities, one book per exchange, only enabled exchanges stored, balance == start + P&L, and non-negative wallets when the start is non-negative |
| EngineStore.PassKeepsConsistent | backend/app/engine.py:185-235 | a whole pass preserves the engine invariant |
| EngineStore.PassWithFewBooks | backend/app/engine.py:186-188 | with fewer than two stored books a pass changes nothing |
| EngineStore.InitialStateConsistent | backend/app/engine.py:97-120 | a new engine's state satisfies the engine invariant |
| EngineStore.SetEnabledKeepsConsistent | backend/app/engine.py:138-144 | setting an exchange's flag, and dropping its book when switched off, keeps the engine invariant |
| EngineStore.FeedMapLookup | backend/app/engine.py:116-120 | a dict comprehension over the feeds has a key exactly for each kept name, and the last kept feed of that name wins |
| EngineStore.FeedMapHas | backend/app/engine.py:116-120 | a name is a key exactly when some kept feed has it |
| EngineStore.FeedMapLast | backend/app/engine.py:116-120 | the value of a key is that of the last kept feed with that name |
| EngineStore.FeesOfLookup | backend/app/engine.py:116 | `fees` has exactly the enabled feeds' names, each with the last such feed's fee |
| EngineStore.EnabledOfLookup | backend/app/engine.py:118-120 | `exchange_enabled` has every feed's name, with the last such feed's flag |
| EngineStore.InitialBalances | backend/app/engine.py:122-136 | there is a wallet for exactly the configured exchange names |
| EngineStore.InitialBalancesSpec | backend/app/engine.py:122-136 | one wallet per configured name; the shares add up to the starting balance; each wallet is worth its share at the bootstrap price; nothing is negative for a non-negative start |
| EngineStore.InitialShares | backend/app/engine.py:124-133 | the base share at the bootstrap price plus the quote share equals one exchange's share |
| EngineStore.PyTailCases | backend/app/engine.py:437 | Python's `[-limit:]`: the last `limit` entries for a positive limit, everything for 0, and a prefix drop for a negative limit |
| EngineStore.FilterBySymbolsSpec | backend/app/engine.py:438-440 | an item is listed exactly when its upper-cased symbol is requested, or nothing was requested |
| Engine.ArbitrageEngine.constructor | backend/app/engine.py:97-120 | empty store and logs, no P&L, balance == start, fees of enabled feeds, every feed's flag, the split symbol and the initial inventory; the invariant holds |
| Engine.ArbitrageEngine.ResetInventory | backend/app/engine.py:122-136 | the wallets become the initial inventory for the current symbol and feeds |
| Engine.ArbitrageEngine.SetExchangeEnabled | backend/app/engine.py:138-144 | a blank name changes nothing; otherwise the stripped, lower-cased key takes the flag, and disabling removes that key's stored book; the invariant is kept. As in the source, a book stored under a feed name with upper-case letters is not that key's book and stays |
| Engine.ArbitrageEngine.SetSimulationVolumeUsd | backend/app/engine.py:146-147 | the volume becomes max(v, 1.0) |
| Engine.ArbitrageEngine.SetSymbol | backend/app/engine.py:171-176 | stores the normalised symbol and its split, clears books and metrics, resets the inventory, and keeps opportunities, trades, P&L and balance |
| Engine.ArbitrageEngine.ApplySymbol | backend/app/engine.py:171-176 | the configuration takes the given symbol and the engine the given base and quote; books and metrics are cleared, the wallets become the initial inventory, and everything else is kept |
| Engine.ArbitrageEngine.OnOrderBook | backend/app/engine.py:178-183 | a book from a disabled exchange changes nothing (unknown exchanges count as enabled); otherwise the book is stored and one pass runs |
| Engine.ArbitrageEngine.EvaluateAllPairs | backend/app/engine.py:185-235 | the loops over the ordered pairs leave exactly the state the pass specifies, and keep the invariant |
| Engine.ArbitrageEngine.EvaluateRow | backend/app/engine.py:191-235 | the iterations with the buy book at i leave exactly the state of that row of the pass, keep the invariant and leave the pricing inputs unchanged |
| Engine.ArbitrageEngine.EvaluatePairStep | backend/app/engine.py:192-235 | one turn of the pair loop leaves exactly the state of the pair step and keeps the engine invariant |
| Engine.ArbitrageEngine.EvaluatePairAt | backend/app/engine.py:192-235 | one iteration of the pair loop performs exactly one pair step |
| Engine.ArbitrageEngine.SimulateExecution | backend/app/engine.py:344-394 | reserves depth on both books, settles the wallets, adds the profit to the P&L and the balance, and appends the trade |
| Engine.ArbitrageEngine.ReservedBooks | backend/app/engine.py:350-351 | walking the buy book's asks and the sell book's bids in place gives the reserved books |
| Engine.ArbitrageEngine.SettledWallets | backend/app/engine.py:356-384 | the step-by-step wallet updates give the settled wallets |
| Engine.ArbitrageEngine.ListOpportunities | backend/app/engine.py:428-441 | at most `limit` of the stored opportunities; an item is listed exactly when it is among the last `limit` and its symbol is requested, ignoring case, or nothing was requested; the result is the symbol filter of the last `limit`, which keeps the log order by `FilterBySymbolsOfAppend` |
| Engine.ArbitrageEngine.ListTrades | backend/app/engine.py:443-456 | the same for the trade log, also in log order |
| Engine.ArbitrageEngine.SpreadSeries | backend/app/engine.py:458-460 | a suffix of the metrics log: the last `limit` entries, or all of them for 0 |
| AppConfigs.AppConfig.constructor | backend/app/config.py:19-27 | every field holds the given value |
| MarketData.UpholdPairFromSymbol | backend/app/market_data.py:123-128 | a `USDT` symbol becomes its prefix + `USD`; any other symbol is unchanged |
| EngineStore.FilterBySymbolsOfAppend | backend/app/engine.py:438-440 | filtering distributes over concatenation, so the listed items keep the order of the log, once per occurrence |
| EngineStore.FilterBySymbolsSingle | backend/app/engine.py:438-440 | a single item is listed exactly when nothing was requested or its upper-cased symbol is requested |
| MarketData.UpholdPairSpec | backend/app/market_data.py:123-128 | the rewrite ends in `USD`, is one character shorter, keeps the base, and is idempotent |
| MarketData.UpholdPairExample | backend/app/market_data.py:123-128 | `BTCUSDT` becomes `BTCUSD`; `ETHBTC` is unchanged |
| MarketData.PositiveLevels | backend/app/market_data.py:85-94 | the filter never lengthens a side |
| MarketData.PositiveLevelsMembers | backend/app/market_data.py:85-94 | a level is kept exactly when its quantity is > 0 |
| MarketData.PositiveLevelsOfAppend | backend/app/market_data.py:85-94 | filtering distributes over concatenation, so kept levels keep their order |
| MarketData.BinanceBook | backend/app/market_data.py:82-112 | a book comes only from a message with both sides, has a level on each side, and carries the feed's exchange and symbol and the receive time |
| MarketData.BinanceBookSpec | backend/app/market_data.py:82-112 | a message yields a book exactly when both sides are present and each has a positive-quantity level; the book holds exactly those levels in the message's order, for the feed's exchange and symbol, with the event time as exchange time when it is present and non-zero and the receive time otherwise |
| MarketData.UpholdBook | backend/app/market_data.py:153-176 | a ticker yields a book exactly when both prices are present, positive and bid < ask; the book carries the feed's exchange and symbol and the receive time |
| MarketData.UpholdBookSpec | backend/app/market_data.py:153-176 | a ticker yields a book exactly when both prices are present, positive and bid < ask; each side is one level of quantity 100, and the best bid is below the best ask |
| Service.FeedFor | backend/app/service.py:24-48 | an entry yields a feed exactly when it is enabled and of one of the five known kinds; the feed carries its name and the configured symbol |
| Service.FeedsFor | backend/app/service.py:22-49 | at most one feed per configuration entry |
| Service.FeedsForMembers | backend/app/service.py:22-49 | a feed is built exactly when some entry yields it |
| Service.FeedsForSpec | backend/app/service.py:22-49 | at most one feed per entry; a feed is built exactly when some entry yields it; every feed runs the configured symbol under a configured name |
| Service.FeedNamesHas | backend/app/service.py:24 | every entry's name is among the configured names |
| Service.FeedsForAppend | backend/app/service.py:22-49 | feeds are built in configuration order |
| Service.FeedsForDisabled | backend/app/service.py:84-87 | disabling one entry drops its feed and keeps every other entry's feed |
| Service.FirstNamed | backend/app/service.py:84-89 | the search finds the first entry whose lower-cased name is the target, or reports that none matches |
| Service.ArbitrageService.constructor | backend/app/service.py:14-20 | a stopped service with no feeds around a new engine on the same configuration |
| Service.ArbitrageService.BuildFeeds | backend/app/service.py:22-49 | the appending loop returns the feeds the configuration calls for |
| Service.ArbitrageService.Start | backend/app/service.py:51-58 | does nothing when already started; otherwise builds the feeds and marks the service started |
| Service.ArbitrageService.Stop | backend/app/service.py:108-114 | does nothing when not started; otherwise drops the feeds and marks the service stopped |
| Service.ArbitrageService.SetSymbol | backend/app/service.py:64-77 | a blank or unchanged normalised symbol changes nothing, including the engine's fees, flags and assets; otherwise config and engine take the normalised symbol and its split, books and metrics are cleared, the engine's wallets become the initial inventory for it, its logs, P&L, balance, fees and flags are kept, and the feeds are rebuilt |
| Service.ArbitrageService.SetExchangeEnabled | backend/app/service.py:79-96 | a blank name, or one no entry matches case-insensitively, changes nothing; otherwise only the first matching entry takes the flag, the engine takes it under the normalised name, and a running service rebuilds its feeds |
| Service.ArbitrageService.FindFeed | backend/app/service.py:84-89 | the search loop stops at the first matching entry |
| Service.ArbitrageService.ApplyExchangeFlag | backend/app/service.py:85-96 | the found entry and the engine take the flag; a running service's feeds match the new configuration |
| Service.ArbitrageService.SetSimulationVolumeUsd | backend/app/service.py:98-100 | config and engine hold max(v, 1.0) |
| Service.ArbitrageService.ExchangeStates | backend/app/service.py:102-106 | one row per configured feed, in order, with its name and flag |
| Api.StripAll | backend/app/main.py:13 | every piece is stripped, in order |
| Api.NonBlank | backend/app/main.py:13 | dropping blank entries never lengthens the list |
| Api.ParseCorsOrigins | backend/app/main.py:7-13 | a missing or empty setting gives the default origins; no allowed origin is blank |
| Api.DefaultsWhenUnset | backend/app/main.py:7-12 | a missing or empty setting gives exactly the two localhost development origins |
| Api.NonBlankMembers | backend/app/main.py:13 | an entry is kept exactly when it is not blank |
| Api.NonBlankOfAppend | backend/app/main.py:13 | the origins keep the order of the comma-separated input |
| Api.ParsedOriginsMembers | backend/app/main.py:13 | an origin is allowed exactly when it is a non-blank piece once stripped |
| Api.ParsedOriginsShape | backend/app/main.py:13 | no more origins than pieces; each is non-blank, stripped and free of commas |

## Left out

- Network and I/O are not modelled: websockets, HTTP polling, reconnect back-off, sleeping, JSON decoding, the database, the persistence queue, and the FastAPI application and routes. The feed payloads are given as already decoded values, and the feeds in `Service` are values naming what would be connected.
- Concurrency is not modelled: the engine lock, task start and stop, and `asyncio.gather`. Each engine and service call is one atomic step.
- Floating-point rounding is not modelled. Prices and amounts are exact reals, so `insufficient_depth` is provably unreachable here (see above).
- Time is simplified. `datetime.now` is the parameter `now`, timestamps are integer milliseconds, and ISO formatting in the dictionaries is an integer field. A Binance event time of 0 or none falls back to `now`, as in the source.
- `snapshot` (engine.py:400-426) is not modelled; it is a read-only projection for the API.
- The database branches of `list_opportunities` and `list_trades` are not modelled, and neither are the persistence `submit_*` calls.
- `KrakenDepthFeed` and `BybitDepthFeed`: market_data.py defines neither class, so the import at service.py:9 fails and, as written, the service module cannot be loaded at all. The model builds feeds of those two kinds from the configuration (`Service.FeedFor`), as evidently intended, but does not model their message handling.
- `SimulatedDepthFeed` message handling is not modelled: it is driven by random numbers. The service still builds it.
- `simulation_volume_usd`: `AppConfig` (config.py:19-27) is a `slots=True` dataclass without that field, so in the source `set_simulation_volume_usd` raises `AttributeError` in the engine (engine.py:147) and in the service (service.py:99), and `_evaluate_pair` raises on every pair whose buy book has a positive best ask (engine.py:248). The model gives the shared configuration that field, so a pass evaluates every pair as evidently intended.
- The service stores the symbol into the shared configuration once, through the engine's `set_symbol`, rather than assigning the same value twice.
- Engine.ArbitrageEngine.ReservedBooks: the source decrements the level objects of books that the feeds also hold. The model decrements the stored copy, which every later pair of the same pass sees, but it does not capture aliasing with the feeds' own objects.
- Engine.ArbitrageEngine.ListOpportunities: `symbols=None` and an empty list both mean "no filter", as in the source; both are the empty sequence here.
- BookDepth.AveragePriceZeroIffNothingFilled: stated for positive level prices only. With a zero or negative price a real fill could average 0.
- Service.ArbitrageService.SetExchangeEnabled: `Valid()` only ties the feeds to the configuration while the service runs, because a stopped service keeps stale feeds until its next start, as in the source.
- Strings: case mapping and whitespace are ASCII only; Unicode case folding is not modelled.
