/** `ArbitrageEngine` of `backend/app/engine.py`: the object that stores the
    latest book of every exchange, evaluates every ordered pair of books when
    a book arrives, keeps the bounded opportunity, trade and metric logs, and
    settles simulated trades against per-exchange wallets. Its methods update
    its fields in place; each is proved against the value-level pass of
    `ArbitragePass`. */
module Engine {
  import opened Wrappers
  import opened Strings
  import opened Models
  import opened BookDepth
  import opened Symbols
  import opened PairEvaluation
  import opened ArbitragePass
  import opened AppConfigs
  import opened EngineStore

  class ArbitrageEngine {
    const config: AppConfig
    /** `order_books`, in insertion order. */
    var books: seq<Book>
    var opportunities: seq<Opportunity>
    var trades: seq<SimulatedTrade>
    var metrics: seq<Metric>
    var totalPnlUsd: real
    var balanceUsd: real
    var fees: map<string, real>
    var baseAsset: string
    var quoteAsset: string
    /** `exchange_balances`. */
    var balances: Balances
    /** `exchange_enabled`. */
    var enabled: map<string, bool>

    /** The engine's mutable state as a value. */
    function State(): EngineState
      reads this
    {
      EngineState(books, balances, totalPnlUsd, balanceUsd, opportunities, trades, metrics)
    }

    /** What a pass triggered by `lastExchange` at time `now` reads. */
    function Ctx(lastExchange: string, now: int): Context
      reads this`fees, this`enabled, this`baseAsset, this`quoteAsset, config
    {
      Context(config.simulationVolumeUsd, config.transferCostUsd, config.autoSimulateExecution,
              config.opportunityThresholdUsd, fees, enabled, baseAsset, quoteAsset, now, lastExchange)
    }

    ghost predicate Valid()
      reads this, config`startingBalanceUsd
    {
      Consistent(State(), enabled, config.startingBalanceUsd)
    }

    /** A new engine: empty store and logs, no P&L, the fees of the enabled
        feeds, every feed's enabled flag, the assets of the configured
        symbol and the initial inventory. */
    constructor(config: AppConfig)
      ensures this.config == config
      ensures books == [] && opportunities == [] && trades == [] && metrics == []
      ensures totalPnlUsd == 0.0 && balanceUsd == config.startingBalanceUsd
      ensures fees == FeesOf(config.feeds) && enabled == EnabledOf(config.feeds)
      ensures (baseAsset, quoteAsset) == SplitSymbol(config.symbol)
      ensures balances == InitialBalances(config.feeds, config.startingBalanceUsd, config.symbol, baseAsset, quoteAsset)
      ensures Valid()
    {
      this.config := config;
      books := [];
      opportunities := [];
      trades := [];
      metrics := [];
      totalPnlUsd := 0.0;
      balanceUsd := config.startingBalanceUsd;
      fees := FeesOf(config.feeds);
      var split := SplitSymbol(config.symbol);
      baseAsset := split.0;
      quoteAsset := split.1;
      balances := map[];
      enabled := EnabledOf(config.feeds);
      new;
      ResetInventory();
      InitialStateConsistent(config.feeds, config.startingBalanceUsd, config.symbol, baseAsset, quoteAsset, enabled);
    }

    /** `_reset_inventory`: every configured exchange gets an equal share of
        the starting balance, half of it in the base asset. */
    method ResetInventory()
      modifies this`balances
      ensures balances == InitialBalances(config.feeds, config.startingBalanceUsd, config.symbol, baseAsset, quoteAsset)
      ensures config.startingBalanceUsd >= 0.0 ==> NonNegativeHoldings(balances)
    {
      InitialBalancesSpec(config.feeds, config.startingBalanceUsd, config.symbol, baseAsset, quoteAsset);
      balances := InitialBalances(config.feeds, config.startingBalanceUsd, config.symbol, baseAsset, quoteAsset);
    }

    /** `set_exchange_enabled`: the stripped, lower-cased name gets the flag;
        disabling drops that exchange's stored book; a blank name changes
        nothing. */
    method SetExchangeEnabled(exchange: string, flag: bool)
      modifies this`enabled, this`books
      requires Valid()
      ensures Valid()
      ensures var key := Lower(Strip(exchange));
        && (key == [] ==> enabled == old(enabled) && books == old(books))
        && (key != [] ==> enabled == old(enabled)[key := flag])
        && (key != [] && flag ==> books == old(books))
        && (key != [] && !flag ==> books == RemoveExchange(old(books), key))
    {
      var key := Lower(Strip(exchange));
      if key == [] {
        return;
      }
      SetEnabledKeepsConsistent(State(), enabled, key, flag, config.startingBalanceUsd);
      enabled := enabled[key := flag];
      if !flag {
        books := RemoveExchange(books, key);
      }
    }

    /** `set_simulation_volume_usd`: the volume, at least 1. */
    method SetSimulationVolumeUsd(volumeUsd: real)
      modifies config`simulationVolumeUsd
      requires Valid()
      ensures Valid()
      ensures config.simulationVolumeUsd == Max(volumeUsd, 1.0) && config.simulationVolumeUsd >= 1.0
    {
      config.simulationVolumeUsd := Max(volumeUsd, 1.0);
    }

    /** `set_symbol`: the normalised symbol and its assets; the store and the
        metrics are cleared and the inventory is reset, while the
        opportunities, the trades and the P&L are kept. */
    method SetSymbol(symbol: string)
      modifies this, config`symbol
      requires Valid()
      ensures Valid()
      ensures config.symbol == Normalize(symbol)
      ensures (baseAsset, quoteAsset) == SplitSymbol(symbol)
      ensures books == [] && metrics == []
      ensures balances == InitialBalances(config.feeds, config.startingBalanceUsd, config.symbol, baseAsset, quoteAsset)
      ensures opportunities == old(opportunities) && trades == old(trades)
      ensures totalPnlUsd == old(totalPnlUsd) && balanceUsd == old(balanceUsd)
      ensures fees == old(fees) && enabled == old(enabled)
    {
      var normal := Normalize(symbol);
      var split := SplitSymbol(symbol);
      ApplySymbol(normal, split.0, split.1);
    }

    /** The state changes of `set_symbol` once the symbol is normalised and
        split. */
    method ApplySymbol(normal: string, base: string, quote: string)
      modifies this, config`symbol
      requires Valid()
      ensures Valid()
      ensures config.symbol == normal && baseAsset == base && quoteAsset == quote
      ensures books == [] && metrics == []
      ensures balances == InitialBalances(config.feeds, config.startingBalanceUsd, normal, base, quote)
      ensures opportunities == old(opportunities) && trades == old(trades)
      ensures totalPnlUsd == old(totalPnlUsd) && balanceUsd == old(balanceUsd)
      ensures fees == old(fees) && enabled == old(enabled)
    {
      config.symbol := normal;
      baseAsset, quoteAsset := base, quote;
      books := [];
      metrics := [];
      ResetInventory();
    }

    /** `on_order_book`: a book of a disabled exchange is ignored; otherwise
        it replaces its exchange's stored book and every pair is evaluated. */
    method OnOrderBook(book: Book, now: int)
      modifies this`books, this`balances, this`totalPnlUsd, this`balanceUsd, this`opportunities, this`trades, this`metrics
      requires Valid()
      ensures Valid()
      ensures !IsEnabled(old(enabled), book.exchange) ==> State() == old(State())
      ensures IsEnabled(old(enabled), book.exchange) ==>
        State() == Pass(old(Ctx(book.exchange, now)), old(State()).(books := StoreBook(old(books), book)))
    {
      if !IsEnabled(enabled, book.exchange) {
        return;
      }
      StoreBookSpec(books, book);
      ghost var before := books;
      books := StoreBook(books, book);
      forall k | 0 <= k < |books| ensures IsEnabled(enabled, books[k].exchange) {
        if books[k] != book {
          assert books[k] == before[k];
        }
      }
      EvaluateAllPairs(book.exchange, now);
    }

    /** `_evaluate_all_pairs`: every ordered pair of stored books, in
        `permutations` order, as the pass over the state specifies. */
    method EvaluateAllPairs(lastExchange: string, now: int)
      modifies this`books, this`balances, this`totalPnlUsd, this`balanceUsd, this`opportunities, this`trades, this`metrics
      requires Valid()
      ensures Valid()
      ensures State() == Pass(old(Ctx(lastExchange, now)), old(State()))
    {
      var n := |books|;
      if n < 2 {
        PassWithFewBooks(Ctx(lastExchange, now), State());
        return;
      }
      ghost var ctx := Ctx(lastExchange, now);
      ghost var s0 := State();
      var i := 0;
      PairsFromInRange(n, 0, 0);
      while i < n
        invariant 0 <= i <= n && |books| == n
        invariant Valid()
        invariant Ctx(lastExchange, now) == ctx
        invariant InRange(PairsFrom(n, i, 0), n)
        invariant PassOver(ctx, State(), PairsFrom(n, i, 0)) == Pass(ctx, s0)
      {
        ghost var before := State();
        PassOverRow(ctx, before, n, i, 0);
        EvaluateRow(i, lastExchange, now);
        i := i + 1;
      }
      PairsFromSteps(n, n, 0);
    }

    /** The iterations of the pair loop with the buy book at `i`: they leave
        the state the row of the pass specifies. */
    method EvaluateRow(i: nat, lastExchange: string, now: int)
      modifies this`books, this`balances, this`totalPnlUsd, this`balanceUsd, this`opportunities, this`trades, this`metrics
      requires i < |books| && Valid()
      ensures Valid()
      ensures State() == RowPass(old(Ctx(lastExchange, now)), old(State()), i, 0)
      ensures Ctx(lastExchange, now) == old(Ctx(lastExchange, now))
    {
      ghost var ctx := Ctx(lastExchange, now);
      ghost var target := RowPass(ctx, State(), i, 0);
      var n := |books|;
      var j: nat := 0;
      while j < n
        invariant j <= n && |books| == n
        invariant Valid()
        invariant Ctx(lastExchange, now) == ctx
        invariant RowPass(ctx, State(), i, j) == target
      {
        RowPassStep(ctx, State(), i, j);
        EvaluatePairStep(i, j, lastExchange, now);
        j := j + 1;
      }
    }

    /** One turn of the pair loop: the pair step, which leaves everything as
        it was for a pair that is not evaluated. */
    method EvaluatePairStep(i: nat, j: nat, lastExchange: string, now: int)
      modifies this`books, this`balances, this`totalPnlUsd, this`balanceUsd, this`opportunities, this`trades, this`metrics
      requires i < |books| && j < |books| && Valid()
      ensures Valid()
      ensures State() == PairStep(old(Ctx(lastExchange, now)), old(State()), i, j)
      ensures Ctx(lastExchange, now) == old(Ctx(lastExchange, now))
    {
      PairStepKeepsConsistent(Ctx(lastExchange, now), State(), i, j, config.startingBalanceUsd);
      if i != j {
        EvaluatePairAt(i, j, lastExchange, now);
      }
    }

    /** One iteration of the pair loop for the buy book at `i` and the sell
        book at `j`. */
    method EvaluatePairAt(i: nat, j: nat, lastExchange: string, now: int)
      requires i < |books| && j < |books| && i != j
      modifies this`books, this`balances, this`totalPnlUsd, this`balanceUsd, this`opportunities, this`trades, this`metrics
      ensures State() == PairStep(old(Ctx(lastExchange, now)), old(State()), i, j)
    {
      ghost var ctx := Ctx(lastExchange, now);
      ghost var s := State();
      var buy := books[i];
      var sell := books[j];
      if !IsEnabled(enabled, buy.exchange) || !IsEnabled(enabled, sell.exchange) || buy.symbol != sell.symbol {
        assert !Eligible(ctx, s.books, i, j);
        return;
      }
      assert Eligible(ctx, s.books, i, j);
      var o := EvaluatePairByWalks(PricingOf(Ctx(lastExchange, now), balances), buy, sell, LatencyMs(now, buy, sell), now);
      assert o == StepOpportunity(ctx, s, i, j);
      opportunities := BoundedAppend(opportunities, o, OpportunityCapacity);
      metrics := BoundedAppend(metrics, MetricOf(o, lastExchange), MetricCapacity);
      ghost var s1 := State();
      assert s1 == s.(opportunities := BoundedAppend(s.opportunities, o, OpportunityCapacity),
                      metrics := BoundedAppend(s.metrics, MetricOf(o, ctx.lastExchange), MetricCapacity));
      if config.autoSimulateExecution && o.status == Accepted && o.expectedProfitUsd >= config.opportunityThresholdUsd {
        assert Executes(ctx, o);
        assert Ctx(lastExchange, now) == ctx;
        assert State() == s1;
        SimulateExecution(o, i, j, lastExchange, now);
        assert State() == Execute(ctx, s1, o, i, j);
      } else {
        assert !Executes(ctx, o);
      }
    }

    /** `_simulate_execution`: the trade is taken out of the buy book's asks
        and the sell book's bids in place, the wallets are settled, and the
        P&L, the balance and the trade log are updated. */
    method SimulateExecution(o: Opportunity, bi: nat, si: nat, ghost lastExchange: string, ghost now: int)
      requires bi < |books| && si < |books|
      modifies this`books, this`balances, this`totalPnlUsd, this`balanceUsd, this`trades
      ensures State() == Execute(old(Ctx(lastExchange, now)), old(State()), o, bi, si)
    {
      var settled := SettledWallets(o, lastExchange, now);
      var reserved := ReservedBooks(o.tradeSize, bi, si);
      books, balances := reserved, settled;
      totalPnlUsd, balanceUsd := totalPnlUsd + o.expectedProfitUsd, balanceUsd + o.expectedProfitUsd;
      trades := BoundedAppend(trades, TradeOf(o), TradeCapacity);
    }

    /** The two `_reserve_from_levels` calls: each side is walked in place,
        as an array, and the stored books with the buy book's asks and the
        sell book's bids depleted are returned. */
    method ReservedBooks(size: real, bi: nat, si: nat) returns (r: seq<Book>)
      requires bi < |books| && si < |books|
      ensures r == ReserveBooks(books, bi, si, size)
    {
      var asks := books[bi].asks;
      var askLevels := new Level[|asks|](k requires 0 <= k < |asks| => asks[k]);
      assert askLevels[..] == asks;
      ReserveFromLevels(askLevels, size);
      r := books[bi := books[bi].(asks := askLevels[..])];
      var bids := r[si].bids;
      var bidLevels := new Level[|bids|](k requires 0 <= k < |bids| => bids[k]);
      assert bidLevels[..] == bids;
      ReserveFromLevels(bidLevels, size);
      r := r[si := r[si].(bids := bidLevels[..])];
    }

    /** The wallet updates of `_simulate_execution`, in the source's order:
        both wallets are opened if missing, the buyer pays and receives the
        base asset, the seller delivers and receives the proceeds. */
    method SettledWallets(o: Opportunity, ghost lastExchange: string, ghost now: int) returns (wallets: Balances)
      ensures wallets == SettleWallets(Ctx(lastExchange, now), balances, o)
    {
      ghost var ctx := Ctx(lastExchange, now);
      var buyCost := Times(Times(o.buyVwap, o.tradeSize), 1.0 + Get(fees, o.buyExchange));
      var sellProceeds := Times(Times(o.sellVwap, o.tradeSize), 1.0 - Get(fees, o.sellExchange));
      var base, quote := baseAsset, quoteAsset;
      assert buyCost == BuyCostWithFee(ctx, o) && sellProceeds == SellProceedsAfterFee(ctx, o);
      assert base == ctx.baseAsset && quote == ctx.quoteAsset && config.transferCostUsd == ctx.transferCostUsd;
      wallets := balances;
      wallets := WithWallet(wallets, o.buyExchange, base, quote);
      wallets := WithWallet(wallets, o.sellExchange, base, quote);
      assert wallets == OpenWallets(ctx, balances, o);
      ghost var withWallets := wallets;
      wallets := SetHolding(wallets, o.buyExchange, quote, Max(0.0, Holding(wallets, o.buyExchange, quote) - buyCost));
      wallets := SetHolding(wallets, o.buyExchange, base, Holding(wallets, o.buyExchange, base) + o.tradeSize);
      assert wallets == BuyerPays(ctx, withWallets, o);
      ghost var paid := wallets;
      wallets := SetHolding(wallets, o.sellExchange, base, Max(0.0, Holding(wallets, o.sellExchange, base) - o.tradeSize));
      wallets := SetHolding(wallets, o.sellExchange, quote,
                            Holding(wallets, o.sellExchange, quote) + Max(0.0, sellProceeds - config.transferCostUsd));
      assert wallets == SellerDelivers(ctx, paid, o);
    }

    /** `list_opportunities` without a database: the last `limit` stored
        opportunities, restricted to the requested symbols (ignoring case)
        when any are given, in the order of the log. The source's default
        `limit` of 100 is left to the caller, who always passes one here. */
    function ListOpportunities(limit: int, symbols: seq<string>): (r: seq<Opportunity>)
      reads this
      ensures |r| <= |opportunities|
      ensures limit > 0 ==> |r| <= limit
      ensures forall o :: o in r <==>
        o in PyTail(opportunities, limit) && (symbols == [] || Upper(o.symbol) in UpperSymbols(symbols))
      ensures symbols == [] ==> r == PyTail(opportunities, limit)
      ensures r == FilterBySymbols(PyTail(opportunities, limit), OpportunitySymbol, symbols)
    {
      var recent := PyTail(opportunities, limit);
      FilterBySymbolsSpec(recent, OpportunitySymbol, symbols);
      FilterBySymbols(recent, OpportunitySymbol, symbols)
    }

    /** `list_trades` without a database: the last `limit` trades, restricted
        to the requested symbols (ignoring case) when any are given, in the
        order of the log. The source's default `limit` of 100 is left to
        the caller. */
    function ListTrades(limit: int, symbols: seq<string>): (r: seq<SimulatedTrade>)
      reads this
      ensures |r| <= |trades|
      ensures limit > 0 ==> |r| <= limit
      ensures forall t :: t in r <==>
        t in PyTail(trades, limit) && (symbols == [] || Upper(t.symbol) in UpperSymbols(symbols))
      ensures symbols == [] ==> r == PyTail(trades, limit)
      ensures r == FilterBySymbols(PyTail(trades, limit), TradeSymbol, symbols)
    {
      var recent := PyTail(trades, limit);
      FilterBySymbolsSpec(recent, TradeSymbol, symbols);
      FilterBySymbols(recent, TradeSymbol, symbols)
    }

    /** `spread_series`: the most recent `limit` metrics, oldest first. The
        source's default `limit` of 200 is left to the caller. */
    function SpreadSeries(limit: int): (r: seq<Metric>)
      reads this
      ensures |r| <= |metrics| && r == metrics[|metrics| - |r|..]
      ensures limit > 0 ==> r == Last(metrics, limit)
      ensures limit == 0 ==> r == metrics
    {
      PyTailCases(metrics, limit);
      PyTail(metrics, limit)
    }
  }
}
