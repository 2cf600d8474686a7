/** `ArbitrageService` of `backend/app/service.py`: it owns the shared
    configuration and the engine, builds one feed per enabled, known feed
    configuration, and applies the operator's symbol, exchange and volume
    changes to the configuration, the engine and the running feeds. The
    feeds are values naming what would be connected; connecting, the
    database and the persistence worker are not modelled. */
module Service {
  import opened Wrappers
  import opened Strings
  import opened Models
  import opened Symbols
  import opened AppConfigs
  import opened EngineStore
  import opened BookDepth
  import opened Engine

  // ---------------------------------------------------------------------
  // Feeds

  /** The feed classes the service knows, with the simulated feed's own
      parameters. */
  datatype FeedKind =
    | BinanceDepth
    | UpholdTicker
    | KrakenDepth
    | BybitDepth
    | SimulatedDepth(priceOffset: real, volatility: real, depthLevels: int)

  /** A feed as built: its class, exchange name and symbol. */
  datatype Feed = Feed(kind: FeedKind, name: string, symbol: string)

  /** The feed one configuration entry yields: none when it is disabled or
      its kind is not one of the five known ones. */
  function FeedFor(cfg: FeedConfig, symbol: string): (r: Option<Feed>)
    ensures r.Some? ==> cfg.enabled && r.value.name == cfg.name && r.value.symbol == symbol
    ensures r.None? <==>
      !cfg.enabled || cfg.kind !in {"binance_ws", "uphold_ticker", "kraken_ws", "bybit_ws", "simulated"}
  {
    if !cfg.enabled then None
    else if cfg.kind == "binance_ws" then Some(Feed(BinanceDepth, cfg.name, symbol))
    else if cfg.kind == "uphold_ticker" then Some(Feed(UpholdTicker, cfg.name, symbol))
    else if cfg.kind == "kraken_ws" then Some(Feed(KrakenDepth, cfg.name, symbol))
    else if cfg.kind == "bybit_ws" then Some(Feed(BybitDepth, cfg.name, symbol))
    else if cfg.kind == "simulated" then
      Some(Feed(SimulatedDepth(cfg.priceOffset, cfg.volatility, cfg.depthLevels), cfg.name, symbol))
    else None
  }

  /** `_build_feeds` as a value: the feeds of the entries, in configuration
      order. */
  function FeedsFor(cfgs: seq<FeedConfig>, symbol: string): (r: seq<Feed>)
    ensures |r| <= |cfgs|
  {
    if cfgs == [] then []
    else
      var last := FeedFor(cfgs[|cfgs| - 1], symbol);
      FeedsFor(cfgs[..|cfgs| - 1], symbol) + (if last.Some? then [last.value] else [])
  }

  /** A feed is built exactly when some entry yields it. */
  lemma {:induction false} FeedsForMembers(cfgs: seq<FeedConfig>, symbol: string)
    ensures forall f :: f in FeedsFor(cfgs, symbol) <==>
      exists k :: 0 <= k < |cfgs| && FeedFor(cfgs[k], symbol) == Some(f)
  {
    if cfgs != [] {
      var init := cfgs[..|cfgs| - 1];
      var last := FeedFor(cfgs[|cfgs| - 1], symbol);
      var tail := if last.Some? then [last.value] else [];
      FeedsForMembers(init, symbol);
      assert FeedsFor(cfgs, symbol) == FeedsFor(init, symbol) + tail;
      forall f ensures f in FeedsFor(cfgs, symbol) <==>
        exists k :: 0 <= k < |cfgs| && FeedFor(cfgs[k], symbol) == Some(f)
      {
        assert f in FeedsFor(cfgs, symbol) <==> f in FeedsFor(init, symbol) || f in tail;
        if f in FeedsFor(init, symbol) {
          var k :| 0 <= k < |init| && FeedFor(init[k], symbol) == Some(f);
          assert cfgs[k] == init[k];
        }
        if f in tail {
          assert FeedFor(cfgs[|cfgs| - 1], symbol) == Some(f);
        }
        if exists k :: 0 <= k < |cfgs| && FeedFor(cfgs[k], symbol) == Some(f) {
          var k :| 0 <= k < |cfgs| && FeedFor(cfgs[k], symbol) == Some(f);
          if k < |init| {
            assert init[k] == cfgs[k];
          }
        }
      }
    }
  }

  /** At most one feed per entry; a feed is built exactly when some entry
      yields it, and every feed runs the given symbol. */
  lemma FeedsForSpec(cfgs: seq<FeedConfig>, symbol: string)
    ensures |FeedsFor(cfgs, symbol)| <= |cfgs|
    ensures forall f :: f in FeedsFor(cfgs, symbol) <==>
      exists k :: 0 <= k < |cfgs| && FeedFor(cfgs[k], symbol) == Some(f)
    ensures forall f :: f in FeedsFor(cfgs, symbol) ==> f.symbol == symbol && f.name in FeedNames(cfgs)
  {
    FeedsForMembers(cfgs, symbol);
    forall f | f in FeedsFor(cfgs, symbol) ensures f.symbol == symbol && f.name in FeedNames(cfgs) {
      var k :| 0 <= k < |cfgs| && FeedFor(cfgs[k], symbol) == Some(f);
      FeedNamesHas(cfgs, k);
    }
  }

  /** Every entry's name is among the configured names. */
  lemma {:induction false} FeedNamesHas(cfgs: seq<FeedConfig>, k: nat)
    requires k < |cfgs|
    ensures cfgs[k].name in FeedNames(cfgs)
  {
    if k < |cfgs| - 1 {
      FeedNamesHas(cfgs[..|cfgs| - 1], k);
    }
  }

  /** Building preserves configuration order: the feeds of two runs of
      entries are the feeds of the first run followed by those of the
      second. */
  lemma {:induction false} FeedsForAppend(a: seq<FeedConfig>, b: seq<FeedConfig>, symbol: string)
    ensures FeedsFor(a + b, symbol) == FeedsFor(a, symbol) + FeedsFor(b, symbol)
  {
    if b == [] {
      assert a + b == a;
    } else {
      var bInit := b[..|b| - 1];
      assert (a + b)[..|a + b| - 1] == a + bInit;
      FeedsForAppend(a, bInit, symbol);
    }
  }

  /** Disabling one entry drops its feed and keeps every other entry's. */
  lemma FeedsForDisabled(cfgs: seq<FeedConfig>, i: nat, symbol: string)
    requires i < |cfgs|
    ensures var after := cfgs[i := cfgs[i].(enabled := false)];
      forall f :: f in FeedsFor(after, symbol) <==>
        exists k :: 0 <= k < |cfgs| && k != i && FeedFor(cfgs[k], symbol) == Some(f)
  {
    var after := cfgs[i := cfgs[i].(enabled := false)];
    FeedsForSpec(after, symbol);
    forall f ensures f in FeedsFor(after, symbol) <==>
      exists k :: 0 <= k < |cfgs| && k != i && FeedFor(cfgs[k], symbol) == Some(f)
    {
      if exists k :: 0 <= k < |cfgs| && k != i && FeedFor(cfgs[k], symbol) == Some(f) {
        var k :| 0 <= k < |cfgs| && k != i && FeedFor(cfgs[k], symbol) == Some(f);
        assert after[k] == cfgs[k];
      }
    }
  }

  /** The entry the `for ... else` loop of `set_exchange_enabled` stops
      at: the first whose lower-cased name is `target`. */
  function FirstNamed(cfgs: seq<FeedConfig>, target: string): (r: Option<nat>)
    ensures r.Some? ==>
      && r.value < |cfgs| && Lower(cfgs[r.value].name) == target
      && forall k :: 0 <= k < r.value ==> Lower(cfgs[k].name) != target
    ensures r.None? ==> forall k :: 0 <= k < |cfgs| ==> Lower(cfgs[k].name) != target
  {
    if cfgs == [] then None
    else if Lower(cfgs[0].name) == target then Some(0)
    else
      match FirstNamed(cfgs[1..], target)
      case None => None
      case Some(k) => Some(k + 1)
  }

  /** One row of `exchange_states`. */
  datatype ExchangeState = ExchangeState(exchange: string, enabled: bool)

  class ArbitrageService {
    const config: AppConfig
    const engine: ArbitrageEngine
    var feeds: seq<Feed>
    /** `_started`. */
    var started: bool

    /** The engine works on the service's configuration, and while the
        service runs its feeds are exactly those the configuration calls
        for. */
    ghost predicate Valid()
      reads this, engine, config
    {
      && engine.config == config
      && engine.Valid()
      && (started ==> feeds == FeedsFor(config.feeds, config.symbol))
    }

    /** A stopped service with no feeds around a new engine on `config`. */
    constructor(config: AppConfig)
      ensures this.config == config && engine.config == config && fresh(engine)
      ensures feeds == [] && !started
      ensures engine.books == [] && engine.opportunities == [] && engine.trades == []
      ensures Valid()
    {
      this.config := config;
      engine := new ArbitrageEngine(config);
      feeds := [];
      started := false;
    }

    /** `_build_feeds`. */
    method BuildFeeds() returns (r: seq<Feed>)
      ensures r == FeedsFor(config.feeds, config.symbol)
    {
      var cfgs := config.feeds;
      var symbol := config.symbol;
      r := [];
      var i := 0;
      while i < |cfgs|
        invariant 0 <= i <= |cfgs|
        invariant r == FeedsFor(cfgs[..i], symbol)
      {
        assert cfgs[..i + 1][..i] == cfgs[..i];
        var feed := FeedFor(cfgs[i], symbol);
        if feed.Some? {
          r := r + [feed.value];
        }
        i := i + 1;
      }
      assert cfgs[..i] == cfgs;
    }

    /** `start`: a running service is left alone; otherwise the feeds are
        built and the service is running. */
    method Start()
      modifies this`feeds, this`started
      requires Valid()
      ensures Valid() && started
      ensures old(started) ==> feeds == old(feeds)
      ensures !old(started) ==> feeds == FeedsFor(config.feeds, config.symbol)
    {
      if started {
        return;
      }
      feeds := BuildFeeds();
      started := true;
    }

    /** `stop`: a stopped service is left alone; otherwise the feeds are
        dropped and the service is stopped. */
    method Stop()
      modifies this`feeds, this`started
      requires Valid()
      ensures Valid() && !started
      ensures old(started) ==> feeds == []
      ensures !old(started) ==> feeds == old(feeds)
    {
      if !started {
        return;
      }
      feeds := [];
      started := false;
    }

    /** `set_symbol`: a blank symbol or the current one changes nothing;
        otherwise the engine switches to the normalised symbol and the feeds
        are rebuilt for it. */
    method SetSymbol(symbol: string)
      modifies this`feeds, engine, config`symbol
      requires Valid()
      ensures Valid() && started == old(started)
      ensures var next := Normalize(symbol);
        && ((next == [] || next == old(config.symbol)) ==>
              && config.symbol == old(config.symbol) && feeds == old(feeds)
              && engine.State() == old(engine.State())
              && engine.fees == old(engine.fees) && engine.enabled == old(engine.enabled)
              && engine.baseAsset == old(engine.baseAsset) && engine.quoteAsset == old(engine.quoteAsset))
        && ((next != [] && next != old(config.symbol)) ==>
              && config.symbol == next
              && feeds == FeedsFor(config.feeds, next)
              && (engine.baseAsset, engine.quoteAsset) == SplitSymbol(next)
              && engine.books == [] && engine.metrics == []
              && engine.balances == InitialBalances(config.feeds, config.startingBalanceUsd, next, engine.baseAsset, engine.quoteAsset)
              && engine.opportunities == old(engine.opportunities) && engine.trades == old(engine.trades)
              && engine.totalPnlUsd == old(engine.totalPnlUsd) && engine.balanceUsd == old(engine.balanceUsd)
              && engine.fees == old(engine.fees) && engine.enabled == old(engine.enabled))
    {
      var next := Normalize(symbol);
      if next == [] || next == config.symbol {
        return;
      }
      if started {
        feeds := [];
      }
      UpperStripIsIdempotent(symbol);
      engine.SetSymbol(next);
      feeds := BuildFeeds();
    }

    /** `set_exchange_enabled`: the first feed entry whose lower-cased name
        is the stripped, lower-cased `exchange` gets the flag, and so does
        the engine; a running service rebuilds its feeds. A blank name or
        one no entry has changes nothing. */
    method SetExchangeEnabled(exchange: string, flag: bool)
      modifies this`feeds, config`feeds, engine`enabled, engine`books
      requires Valid()
      ensures Valid() && started == old(started)
      ensures var target := Lower(Strip(exchange));
        var at := FirstNamed(old(config.feeds), target);
        && ((target == [] || at.None?) ==>
              && config.feeds == old(config.feeds) && feeds == old(feeds)
              && engine.enabled == old(engine.enabled) && engine.books == old(engine.books))
        && ((target != [] && at.Some?) ==>
              && config.feeds == old(config.feeds)[at.value := old(config.feeds)[at.value].(enabled := flag)]
              && engine.enabled == old(engine.enabled)[target := flag]
              && (flag ==> engine.books == old(engine.books))
              && (!flag ==> engine.books == RemoveExchange(old(engine.books), target))
              && (!started ==> feeds == old(feeds)))
    {
      var target := Lower(Strip(exchange));
      if target == [] {
        return;
      }
      var at := FindFeed(target);
      if at.None? {
        return;
      }
      LowerStripIsIdempotent(exchange);
      ApplyExchangeFlag(at.value, target, flag);
    }

    /** The `for ... else` search of `set_exchange_enabled`. */
    method FindFeed(target: string) returns (at: Option<nat>)
      ensures at == FirstNamed(config.feeds, target)
    {
      var cfgs := config.feeds;
      var i := 0;
      while i < |cfgs| && Lower(cfgs[i].name) != target
        invariant 0 <= i <= |cfgs|
        invariant forall k :: 0 <= k < i ==> Lower(cfgs[k].name) != target
      {
        i := i + 1;
      }
      if i == |cfgs| {
        return None;
      }
      return Some(i);
    }

    /** The found entry and the engine take the flag; a running service
        rebuilds its feeds. */
    method ApplyExchangeFlag(i: nat, target: string, flag: bool)
      modifies this`feeds, config`feeds, engine`enabled, engine`books
      requires Valid() && i < |config.feeds| && target != [] && Lower(Strip(target)) == target
      ensures Valid() && started == old(started)
      ensures config.feeds == old(config.feeds)[i := old(config.feeds)[i].(enabled := flag)]
      ensures engine.enabled == old(engine.enabled)[target := flag]
      ensures flag ==> engine.books == old(engine.books)
      ensures !flag ==> engine.books == RemoveExchange(old(engine.books), target)
      ensures !started ==> feeds == old(feeds)
    {
      var cfgs := config.feeds;
      config.feeds := cfgs[i := cfgs[i].(enabled := flag)];
      engine.SetExchangeEnabled(target, flag);
      if started {
        feeds := [];
        feeds := BuildFeeds();
      }
    }

    /** `set_simulation_volume_usd`: the volume, at least 1, for the
        configuration and the engine alike. */
    method SetSimulationVolumeUsd(volumeUsd: real)
      modifies config`simulationVolumeUsd
      requires Valid()
      ensures Valid()
      ensures config.simulationVolumeUsd == Max(volumeUsd, 1.0)
    {
      config.simulationVolumeUsd := Max(volumeUsd, 1.0);
      engine.SetSimulationVolumeUsd(config.simulationVolumeUsd);
    }

    /** `exchange_states`: every configured exchange with its flag, in
        configuration order. */
    function ExchangeStates(): (r: seq<ExchangeState>)
      reads config
      ensures |r| == |config.feeds|
      ensures forall k :: 0 <= k < |r| ==>
        r[k].exchange == config.feeds[k].name && r[k].enabled == config.feeds[k].enabled
    {
      seq(|config.feeds|, k requires 0 <= k < |config.feeds| reads config =>
        ExchangeState(config.feeds[k].name, config.feeds[k].enabled))
    }
  }
}
