/** The value-level pieces of `ArbitrageEngine` in `backend/app/engine.py`:
    the book store keyed by exchange, the maps built from the feed
    configuration, the initial inventory and the in-memory listings. */
module EngineStore {
  import opened Strings
  import opened Models
  import opened Symbols
  import opened PairEvaluation
  import opened ArbitragePass
  import opened AppConfigs

  // ---------------------------------------------------------------------
  // The book store (`order_books`, a dict keyed by exchange, in insertion
  // order)

  /** No two stored books belong to the same exchange. */
  predicate DistinctExchanges(books: seq<Book>) {
    forall a, b :: 0 <= a < b < |books| ==> books[a].exchange != books[b].exchange
  }

  /** Some stored book belongs to `exchange`. */
  predicate HasExchange(books: seq<Book>, exchange: string) {
    exists k :: 0 <= k < |books| && books[k].exchange == exchange
  }

  /** The position of `exchange`'s book, or `|books|` when it has none. */
  function IndexOf(books: seq<Book>, exchange: string): (k: nat)
    ensures k <= |books|
    ensures k < |books| ==> books[k].exchange == exchange
    ensures forall m :: 0 <= m < k ==> books[m].exchange != exchange
  {
    if books == [] then 0
    else if books[0].exchange == exchange then 0
    else 1 + IndexOf(books[1..], exchange)
  }

  /** `order_books[book.exchange] = book`: a stored book of that exchange is
      replaced where it stands, otherwise the book goes to the end. */
  function StoreBook(books: seq<Book>, book: Book): (r: seq<Book>)
    ensures |r| == |books| || |r| == |books| + 1
    ensures book in r
  {
    var k := IndexOf(books, book.exchange);
    if k < |books| then
      assert books[k := book][k] == book;
      books[k := book]
    else
      assert (books + [book])[|books|] == book;
      books + [book]
  }

  /** Storing keeps the exchanges distinct; afterwards `book` is the one book
      of its exchange, every other exchange keeps its book at its position,
      and the store grows only when the exchange was new. */
  lemma StoreBookSpec(books: seq<Book>, book: Book)
    requires DistinctExchanges(books)
    ensures var r := StoreBook(books, book);
      && DistinctExchanges(r)
      && book in r
      && (forall k :: 0 <= k < |r| && r[k].exchange == book.exchange ==> r[k] == book)
      && (forall k :: 0 <= k < |books| && books[k].exchange != book.exchange ==> r[k] == books[k])
      && (forall k :: 0 <= k < |r| ==> r[k] == book || (k < |books| && r[k] == books[k]))
      && |r| == if HasExchange(books, book.exchange) then |books| else |books| + 1
  {
    var k := IndexOf(books, book.exchange);
    var r := StoreBook(books, book);
    if k == |books| {
      assert !HasExchange(books, book.exchange);
      assert r[|books|] == book;
    } else {
      assert r[k] == book;
    }
  }

  /** `order_books.pop(exchange, None)`. */
  function RemoveExchange(books: seq<Book>, exchange: string): (r: seq<Book>)
    ensures |r| <= |books|
  {
    if books == [] then []
    else if books[0].exchange == exchange then RemoveExchange(books[1..], exchange)
    else [books[0]] + RemoveExchange(books[1..], exchange)
  }

  /** Removing an exchange drops its book and keeps every other book, and the
      store keeps its exchanges distinct. */
  lemma {:induction false} RemoveExchangeSpec(books: seq<Book>, exchange: string)
    requires DistinctExchanges(books)
    ensures var r := RemoveExchange(books, exchange);
      && DistinctExchanges(r)
      && !HasExchange(r, exchange)
      && (forall b :: b in r <==> b in books && b.exchange != exchange)
  {
    if books != [] {
      var rest := RemoveExchange(books[1..], exchange);
      RemoveExchangeSpec(books[1..], exchange);
      if books[0].exchange != exchange {
        var r := [books[0]] + rest;
        forall a, b | 0 <= a < b < |r| ensures r[a].exchange != r[b].exchange {
          if a == 0 {
            assert r[b] in books[1..];
          }
        }
      }
    }
  }

  /** Two listings of the same exchanges: one has distinct exchanges exactly
      when the other has. */
  lemma SameListingDistinct(books: seq<Book>, books': seq<Book>)
    requires SameListing(books, books') && DistinctExchanges(books)
    ensures DistinctExchanges(books')
  {
    forall a, b | 0 <= a < b < |books'| ensures books'[a].exchange != books'[b].exchange {
      assert books[a].exchange != books[b].exchange;
    }
  }

  // ---------------------------------------------------------------------
  // The engine's invariant, stated on values

  /** Every stored book belongs to an enabled exchange. */
  predicate AllEnabled(books: seq<Book>, enabled: map<string, bool>) {
    forall k :: 0 <= k < |books| ==> IsEnabled(enabled, books[k].exchange)
  }

  /** What holds of the engine's state between two calls: the logs within
      their capacities, at most one stored book per exchange, only enabled
      exchanges stored, the balance equal to the starting balance plus the
      P&L, and no wallet negative when the starting balance is not. */
  predicate Consistent(s: EngineState, enabled: map<string, bool>, startingBalanceUsd: real) {
    && |s.opportunities| <= OpportunityCapacity
    && |s.trades| <= TradeCapacity
    && |s.metrics| <= MetricCapacity
    && DistinctExchanges(s.books)
    && AllEnabled(s.books, enabled)
    && s.balanceUsd == startingBalanceUsd + s.totalPnlUsd
    && (startingBalanceUsd >= 0.0 ==> NonNegativeHoldings(s.balances))
  }

  /** A new engine, with nothing stored and the initial inventory, keeps
      the invariant whatever its flags. */
  lemma InitialStateConsistent(feeds: seq<FeedConfig>, startingBalanceUsd: real, symbol: string,
                               base: string, quote: string, enabled: map<string, bool>)
    ensures Consistent(EngineState([], InitialBalances(feeds, startingBalanceUsd, symbol, base, quote),
                                   0.0, startingBalanceUsd, [], [], []), enabled, startingBalanceUsd)
  {
    InitialBalancesSpec(feeds, startingBalanceUsd, symbol, base, quote);
  }

  /** Setting an exchange's flag keeps the invariant once the book of an
      exchange that is switched off is dropped. */
  lemma SetEnabledKeepsConsistent(s: EngineState, enabled: map<string, bool>, key: string, flag: bool, startingBalanceUsd: real)
    requires Consistent(s, enabled, startingBalanceUsd)
    ensures Consistent(if flag then s else s.(books := RemoveExchange(s.books, key)), enabled[key := flag], startingBalanceUsd)
  {
    if !flag {
      RemoveExchangeSpec(s.books, key);
      var r := RemoveExchange(s.books, key);
      forall k | 0 <= k < |r| ensures IsEnabled(enabled[key := false], r[k].exchange) {
        assert r[k] in s.books;
      }
    }
  }

  /** One pair step keeps the invariant. */
  lemma PairStepKeepsConsistent(ctx: Context, s: EngineState, i: nat, j: nat, startingBalanceUsd: real)
    requires i < |s.books| && j < |s.books|
    requires Consistent(s, ctx.enabled, startingBalanceUsd)
    ensures Consistent(PairStep(ctx, s, i, j), ctx.enabled, startingBalanceUsd)
  {
    var r := PairStep(ctx, s, i, j);
    PairStepLedger(ctx, s, i, j);
    PairStepLogs(ctx, s, i, j);
    PairStepListing(ctx, s, i, j);
    SameListingDistinct(s.books, r.books);
    var o := StepOpportunity(ctx, s, i, j);
    if Eligible(ctx, s.books, i, j) && Executes(ctx, o) && startingBalanceUsd >= 0.0 {
      SettleKeepsNonNegative(ctx, s.balances, o);
    }
    assert AllEnabled(r.books, ctx.enabled) by {
      forall k | 0 <= k < |r.books| ensures IsEnabled(ctx.enabled, r.books[k].exchange) {
        assert r.books[k].exchange == s.books[k].exchange;
      }
    }
  }

  /** A whole pass keeps the invariant. */
  lemma {:induction false} PassKeepsConsistent(ctx: Context, s: EngineState, pairs: seq<(nat, nat)>, startingBalanceUsd: real)
    requires InRange(pairs, |s.books|)
    requires Consistent(s, ctx.enabled, startingBalanceUsd)
    ensures Consistent(PassOver(ctx, s, pairs), ctx.enabled, startingBalanceUsd)
    decreases |pairs|
  {
    if pairs != [] {
      PairStepKeepsConsistent(ctx, s, pairs[0].0, pairs[0].1, startingBalanceUsd);
      PassKeepsConsistent(ctx, PairStep(ctx, s, pairs[0].0, pairs[0].1), pairs[1..], startingBalanceUsd);
    }
  }

  /** With fewer than two stored books a pass changes nothing. */
  lemma PassWithFewBooks(ctx: Context, s: EngineState)
    requires |s.books| < 2
    ensures Pass(ctx, s) == s
  {
    if |s.books| == 1 {
      assert PairsFrom(1, 0, 0) == [(0, 0)] + PairsFrom(1, 0, 1);
      assert PairsFrom(1, 0, 1) == PairsFrom(1, 1, 0) == [];
      assert PassOver(ctx, s, [(0, 0)]) == PassOver(ctx, PairStep(ctx, s, 0, 0), []);
    }
  }

  // ---------------------------------------------------------------------
  // Maps built from the feed configuration

  /** `{feed.name: value(feed) for feed in feeds if keep(feed)}`: a later feed
      of the same name overwrites an earlier one. */
  function FeedMap<T>(feeds: seq<FeedConfig>, keep: FeedConfig -> bool, value: FeedConfig -> T): map<string, T> {
    if feeds == [] then map[]
    else
      var m := FeedMap(feeds[..|feeds| - 1], keep, value);
      var f := feeds[|feeds| - 1];
      if keep(f) then m[f.name := value(f)] else m
  }

  /** A name is in the map exactly when some kept feed has it, and then it
      maps to the value of the last kept feed with that name. */
  lemma FeedMapLookup<T>(feeds: seq<FeedConfig>, keep: FeedConfig -> bool, value: FeedConfig -> T, name: string)
    ensures var m := FeedMap(feeds, keep, value);
      && (name in m <==> exists k :: 0 <= k < |feeds| && keep(feeds[k]) && feeds[k].name == name)
      && (name in m ==> exists k :: && 0 <= k < |feeds| && keep(feeds[k]) && feeds[k].name == name
                                    && m[name] == value(feeds[k])
                                    && forall k' :: k < k' < |feeds| ==> !(keep(feeds[k']) && feeds[k'].name == name))
  {
    FeedMapHas(feeds, keep, value, name);
    if name in FeedMap(feeds, keep, value) {
      var k := FeedMapLast(feeds, keep, value, name);
    }
  }

  /** A name is in the map exactly when some kept feed has it. */
  lemma {:induction false} FeedMapHas<T>(feeds: seq<FeedConfig>, keep: FeedConfig -> bool, value: FeedConfig -> T, name: string)
    ensures name in FeedMap(feeds, keep, value) <==> exists k :: 0 <= k < |feeds| && keep(feeds[k]) && feeds[k].name == name
  {
    if feeds != [] {
      var init := feeds[..|feeds| - 1];
      var f := feeds[|feeds| - 1];
      FeedMapHas(init, keep, value, name);
      if exists k :: 0 <= k < |feeds| && keep(feeds[k]) && feeds[k].name == name {
        var k :| 0 <= k < |feeds| && keep(feeds[k]) && feeds[k].name == name;
        if k < |init| {
          assert init[k] == feeds[k];
        }
      }
      if name in FeedMap(init, keep, value) {
        var k :| 0 <= k < |init| && keep(init[k]) && init[k].name == name;
        assert feeds[k] == init[k];
      }
    }
  }

  /** The last kept feed with a name that is in the map gives its value. */
  lemma {:induction false} FeedMapLast<T>(feeds: seq<FeedConfig>, keep: FeedConfig -> bool, value: FeedConfig -> T, name: string)
    returns (k: nat)
    requires name in FeedMap(feeds, keep, value)
    ensures k < |feeds| && keep(feeds[k]) && feeds[k].name == name && FeedMap(feeds, keep, value)[name] == value(feeds[k])
    ensures forall k' :: k < k' < |feeds| ==> !(keep(feeds[k']) && feeds[k'].name == name)
  {
    var init := feeds[..|feeds| - 1];
    var f := feeds[|feeds| - 1];
    if keep(f) && f.name == name {
      k := |feeds| - 1;
    } else {
      k := FeedMapLast(init, keep, value, name);
      assert feeds[k] == init[k];
      forall k' | k < k' < |feeds| ensures !(keep(feeds[k']) && feeds[k'].name == name) {
        if k' < |init| {
          assert feeds[k'] == init[k'];
        }
      }
    }
  }

  /** `fees`: the fee of each enabled feed. */
  function FeesOf(feeds: seq<FeedConfig>): map<string, real> {
    FeedMap(feeds, (f: FeedConfig) => f.enabled, (f: FeedConfig) => f.fee)
  }

  /** `exchange_enabled`: the enabled flag of every configured feed. */
  function EnabledOf(feeds: seq<FeedConfig>): map<string, bool> {
    FeedMap(feeds, (f: FeedConfig) => true, (f: FeedConfig) => f.enabled)
  }

  /** A configured exchange has a fee exactly when one of its feeds is
      enabled, the fee of its last enabled feed; a disabled feed's fee is
      never used. */
  lemma FeesOfLookup(feeds: seq<FeedConfig>, name: string)
    ensures name in FeesOf(feeds) <==> exists k :: 0 <= k < |feeds| && feeds[k].enabled && feeds[k].name == name
    ensures name in FeesOf(feeds) ==>
      exists k :: 0 <= k < |feeds| && feeds[k].enabled && feeds[k].name == name && FeesOf(feeds)[name] == feeds[k].fee
  {
    FeedMapLookup(feeds, (f: FeedConfig) => f.enabled, (f: FeedConfig) => f.fee, name);
  }

  /** Every configured exchange has an enabled flag, that of its last feed,
      and an exchange that is not configured has none (and counts as
      enabled). */
  lemma EnabledOfLookup(feeds: seq<FeedConfig>, name: string)
    ensures name in EnabledOf(feeds) <==> exists k :: 0 <= k < |feeds| && feeds[k].name == name
    ensures name in EnabledOf(feeds) ==>
      exists k :: && 0 <= k < |feeds| && feeds[k].name == name && EnabledOf(feeds)[name] == feeds[k].enabled
                  && forall k' :: k < k' < |feeds| ==> feeds[k'].name != name
  {
    FeedMapLookup(feeds, (f: FeedConfig) => true, (f: FeedConfig) => f.enabled, name);
  }

  // ---------------------------------------------------------------------
  // The initial inventory (`_reset_inventory`)

  /** `DEFAULT_INITIAL_CRYPTO_ALLOCATION`. */
  const DefaultInitialCryptoAllocation: real := 0.5

  /** The starting balance split evenly over the configured feeds (duplicate
      names included); 0 without feeds. */
  function PerExchangeQuote(startingBalanceUsd: real, feeds: seq<FeedConfig>): real {
    if |feeds| > 0 then Over(startingBalanceUsd, |feeds| as real) else 0.0
  }

  /** The base asset an exchange starts with: its crypto allocation valued at
      the bootstrap price. */
  function InitialBase(perExchange: real, symbol: string): real {
    Over(Times(perExchange, DefaultInitialCryptoAllocation), BootstrapPrice(symbol))
  }

  /** The quote asset an exchange starts with: the rest of its share. */
  function InitialQuote(perExchange: real): real {
    Times(perExchange, 1.0 - DefaultInitialCryptoAllocation)
  }

  function FeedNames(feeds: seq<FeedConfig>): set<string> {
    set k | 0 <= k < |feeds| :: feeds[k].name
  }

  /** `_reset_inventory`: every configured exchange gets the same wallet; the
      quote entry is written last, so it wins when base and quote coincide. */
  function InitialBalances(feeds: seq<FeedConfig>, startingBalanceUsd: real, symbol: string,
                           base: string, quote: string): (r: Balances)
    ensures r.Keys == FeedNames(feeds)
  {
    var per := PerExchangeQuote(startingBalanceUsd, feeds);
    var wallet := map[base := InitialBase(per, symbol)][quote := InitialQuote(per)];
    map name | name in FeedNames(feeds) :: wallet
  }

  /** The initial inventory has a wallet for exactly the configured exchanges;
      with distinct assets each holds half its share in the base asset,
      valued at the bootstrap price, and half in the quote asset, so each
      wallet is worth the starting balance divided by the number of feeds;
      and nothing is negative when the starting balance is not. */
  lemma InitialBalancesSpec(feeds: seq<FeedConfig>, startingBalanceUsd: real, symbol: string, base: string, quote: string)
    ensures var r := InitialBalances(feeds, startingBalanceUsd, symbol, base, quote);
      var per := PerExchangeQuote(startingBalanceUsd, feeds);
      && r.Keys == FeedNames(feeds)
      && (|feeds| > 0 ==> Times(per, |feeds| as real) == startingBalanceUsd)
      && (base != quote ==> forall name :: name in r ==>
            Times(Holding(r, name, base), BootstrapPrice(symbol)) + Holding(r, name, quote) == per)
      && (startingBalanceUsd >= 0.0 ==> NonNegativeHoldings(r))
  {
    var per := PerExchangeQuote(startingBalanceUsd, feeds);
    var price := BootstrapPrice(symbol);
    InitialShares(startingBalanceUsd, |feeds|, per, price);
  }

  /** The arithmetic of the split: the shares add back up to the starting
      balance and the base allocation is worth half a share. */
  lemma InitialShares(startingBalanceUsd: real, count: nat, per: real, price: real)
    requires per == (if count > 0 then Over(startingBalanceUsd, count as real) else 0.0)
    requires price > 0.0
    ensures count > 0 ==> Times(per, count as real) == startingBalanceUsd
    ensures Times(Over(Times(per, DefaultInitialCryptoAllocation), price), price) + Times(per, 1.0 - DefaultInitialCryptoAllocation) == per
    ensures startingBalanceUsd >= 0.0 ==> Over(Times(per, DefaultInitialCryptoAllocation), price) >= 0.0
    ensures startingBalanceUsd >= 0.0 ==> Times(per, 1.0 - DefaultInitialCryptoAllocation) >= 0.0
  {
  }

  // ---------------------------------------------------------------------
  // The in-memory listings

  /** `xs[-limit:]` with Python's slice rules: a positive limit keeps the last
      `limit` items (or all), 0 keeps everything, and a negative limit drops
      the first `-limit` items. */
  function PyTail<T>(xs: seq<T>, limit: int): seq<T> {
    var start := -limit;
    var from := if start < 0 then (if |xs| + start < 0 then 0 else |xs| + start)
                else (if start > |xs| then |xs| else start);
    xs[from..]
  }

  /** The three readings of `[-limit:]`. */
  lemma PyTailCases<T>(xs: seq<T>, limit: int)
    ensures limit > 0 ==> PyTail(xs, limit) == Last(xs, limit)
    ensures limit == 0 ==> PyTail(xs, limit) == xs
    ensures limit < 0 && -limit <= |xs| ==> PyTail(xs, limit) == xs[-limit..]
    ensures limit < 0 && -limit > |xs| ==> PyTail(xs, limit) == []
  {
  }

  /** The upper-cased requested symbols. */
  function UpperSymbols(symbols: seq<string>): set<string> {
    set k | 0 <= k < |symbols| :: Upper(symbols[k])
  }

  /** The items whose upper-cased symbol is among the upper-cased requested
      symbols, in order; an empty request keeps everything. */
  function FilterBySymbols<T>(items: seq<T>, symbolOf: T -> string, symbols: seq<string>): seq<T> {
    if symbols == [] || items == [] then items
    else
      var rest := FilterBySymbols(items[1..], symbolOf, symbols);
      if Upper(symbolOf(items[0])) in UpperSymbols(symbols) then [items[0]] + rest else rest
  }

  /** An item is listed exactly when it is in the input and its symbol
      matches a requested one, ignoring case, or when nothing was requested;
      the listing is never longer than the input. */
  lemma {:induction false} FilterBySymbolsSpec<T>(items: seq<T>, symbolOf: T -> string, symbols: seq<string>)
    ensures var r := FilterBySymbols(items, symbolOf, symbols);
      && |r| <= |items|
      && forall x :: x in r <==> x in items && (symbols == [] || Upper(symbolOf(x)) in UpperSymbols(symbols))
  {
    if symbols != [] && items != [] {
      FilterBySymbolsSpec(items[1..], symbolOf, symbols);
      assert items == [items[0]] + items[1..];
    }
  }

  /** Filtering commutes with concatenation: the listed items keep the order
      of the log, each listed once per occurrence. */
  lemma {:induction false} FilterBySymbolsOfAppend<T>(a: seq<T>, b: seq<T>, symbolOf: T -> string, symbols: seq<string>)
    ensures FilterBySymbols(a + b, symbolOf, symbols) == FilterBySymbols(a, symbolOf, symbols) + FilterBySymbols(b, symbolOf, symbols)
  {
    if symbols != [] && a != [] {
      assert (a + b)[0] == a[0];
      assert (a + b)[1..] == a[1..] + b;
      FilterBySymbolsOfAppend(a[1..], b, symbolOf, symbols);
    } else if a == [] {
      assert a + b == b;
    }
  }

  /** One item is listed exactly when nothing was requested or its symbol
      matches a requested one, ignoring case. */
  lemma FilterBySymbolsSingle<T>(x: T, symbolOf: T -> string, symbols: seq<string>)
    ensures FilterBySymbols([x], symbolOf, symbols) ==
      if symbols == [] || Upper(symbolOf(x)) in UpperSymbols(symbols) then [x] else []
  {
    assert [x][1..] == [];
  }

  function OpportunitySymbol(o: Opportunity): string { o.symbol }
  function TradeSymbol(t: SimulatedTrade): string { t.symbol }
}
