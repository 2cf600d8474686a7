/** The record types shared by the feeds, the engine and the API layer
    (`backend/app/models.py`), and their projections to JSON-like dictionaries.
    Timestamps are integers (milliseconds); ISO formatting is not modelled, so a
    timestamp is projected as an integer. */
module Models {
  import opened Wrappers

  /** One price level of one side of a book. */
  datatype Level = Level(price: real, quantity: real)

  /** A book as a feed delivers it: bids best (highest) first, asks best
      (lowest) first. */
  datatype Book = Book(
    exchange: string,
    symbol: string,
    bids: seq<Level>,
    asks: seq<Level>,
    exchangeTimestamp: int,
    receivedTimestamp: int)

  /** The closed set of opportunity statuses the record type admits. */
  datatype Status = Accepted | Discarded | NoFunds | InsufficientLiquidity

  datatype Opportunity = Opportunity(
    timestamp: int,
    status: Status,
    reason: string,
    symbol: string,
    buyExchange: string,
    sellExchange: string,
    tradeSize: real,
    grossSpreadPct: real,
    netSpreadPct: real,
    expectedProfitUsd: real,
    latencyMs: real,
    buyVwap: real,
    sellVwap: real,
    buyBookUpdatedAt: Option<int>,
    sellBookUpdatedAt: Option<int>)

  datatype SimulatedTrade = SimulatedTrade(
    timestamp: int,
    symbol: string,
    buyExchange: string,
    sellExchange: string,
    size: real,
    pnlUsd: real,
    latencyMs: real)

  /** `book.best_bid`: absent exactly when there are no bids, else the price
      of the first bid level. */
  function BestBid(book: Book): (r: Option<real>)
    ensures r.None? <==> book.bids == []
    ensures r.Some? ==> r.value == book.bids[0].price
  {
    if book.bids == [] then None else Some(book.bids[0].price)
  }

  /** `book.best_ask`: absent exactly when there are no asks, else the price
      of the first ask level. */
  function BestAsk(book: Book): (r: Option<real>)
    ensures r.None? <==> book.asks == []
    ensures r.Some? ==> r.value == book.asks[0].price
  {
    if book.asks == [] then None else Some(book.asks[0].price)
  }

  // ---------------------------------------------------------------------
  // Status names

  /** The string a status is stored and served as. */
  function StatusName(s: Status): string {
    match s
    case Accepted => "accepted"
    case Discarded => "discarded"
    case NoFunds => "no_funds"
    case InsufficientLiquidity => "insufficient_liquidity"
  }

  function StatusFromName(name: string): Option<Status> {
    if name == "accepted" then Some(Accepted)
    else if name == "discarded" then Some(Discarded)
    else if name == "no_funds" then Some(NoFunds)
    else if name == "insufficient_liquidity" then Some(InsufficientLiquidity)
    else None
  }

  /** The four statuses and the four names are in one-to-one correspondence:
      a name parses exactly when it is the name of a status. */
  lemma StatusNamesCorrespond(s: Status, name: string)
    ensures StatusFromName(StatusName(s)) == Some(s)
    ensures StatusFromName(name) == Some(s) <==> StatusName(s) == name
  {
  }

  // ---------------------------------------------------------------------
  // Dictionary projections

  /** The shape of the dictionaries the API layer serialises. */
  datatype Json =
    | JNull
    | JInt(i: int)
    | JNum(n: real)
    | JStr(s: string)
    | JArr(items: seq<Json>)
    | JObj(fields: seq<(string, Json)>)

  /** `d[key]` on an object: the first field with that key. */
  function Field(j: Json, key: string): Option<Json> {
    if !j.JObj? then None else Lookup(j.fields, key)
  }

  function Lookup(fields: seq<(string, Json)>, key: string): Option<Json> {
    if fields == [] then None
    else if fields[0].0 == key then Some(fields[0].1)
    else Lookup(fields[1..], key)
  }

  predicate DistinctKeys(fields: seq<(string, Json)>) {
    forall a, b :: 0 <= a < b < |fields| ==> fields[a].0 != fields[b].0
  }

  /** With distinct keys every field is found under its own key. */
  lemma {:induction false} LookupDistinct(fields: seq<(string, Json)>)
    requires DistinctKeys(fields)
    ensures forall i :: 0 <= i < |fields| ==> Lookup(fields, fields[i].0) == Some(fields[i].1)
  {
    if fields != [] {
      LookupDistinct(fields[1..]);
      forall i | 0 < i < |fields|
        ensures Lookup(fields, fields[i].0) == Some(fields[i].1)
      {
        assert fields[1..][i - 1] == fields[i];
      }
    }
  }

  /** Every field of an object with distinct keys is found under its key. */
  lemma FieldsFound(j: Json)
    requires j.JObj? && DistinctKeys(j.fields)
    ensures forall i :: 0 <= i < |j.fields| ==> Field(j, j.fields[i].0) == Some(j.fields[i].1)
  {
    LookupDistinct(j.fields);
  }

  function AsNum(j: Json): Option<real> { if j.JNum? then Some(j.n) else None }
  function AsInt(j: Json): Option<int> { if j.JInt? then Some(j.i) else None }
  function AsStr(j: Json): Option<string> { if j.JStr? then Some(j.s) else None }

  function AsOptInt(j: Json): Option<Option<int>> {
    if j.JNull? then Some(None) else if j.JInt? then Some(Some(j.i)) else None
  }

  function OptNum(x: Option<real>): Json {
    match x
    case None => JNull
    case Some(v) => JNum(v)
  }

  function OptInt(x: Option<int>): Json {
    match x
    case None => JNull
    case Some(v) => JInt(v)
  }

  function NumField(j: Json, key: string): Option<real> {
    var v :- Field(j, key); AsNum(v)
  }

  function IntField(j: Json, key: string): Option<int> {
    var v :- Field(j, key); AsInt(v)
  }

  function StrField(j: Json, key: string): Option<string> {
    var v :- Field(j, key); AsStr(v)
  }

  function OptIntField(j: Json, key: string): Option<Option<int>> {
    var v :- Field(j, key); AsOptInt(v)
  }

  /** `level_to_dict`. */
  function LevelToDict(level: Level): Json {
    JObj([("price", JNum(level.price)), ("quantity", JNum(level.quantity))])
  }

  function LevelFromDict(j: Json): Option<Level> {
    var price :- NumField(j, "price");
    var quantity :- NumField(j, "quantity");
    Some(Level(price, quantity))
  }

  /** A level dictionary holds the level's price and quantity unchanged. */
  lemma LevelDictRoundTrip(level: Level)
    ensures LevelFromDict(LevelToDict(level)) == Some(level)
  {
    var d := LevelToDict(level);
    FieldsFound(d);
    assert Field(d, d.fields[0].0) == Some(d.fields[0].1);
    assert Field(d, d.fields[1].0) == Some(d.fields[1].1);
  }

  /** The list comprehension `[level_to_dict(level) for level in levels]`:
      one dictionary per level, in the same order. */
  function LevelsToDicts(levels: seq<Level>): (r: seq<Json>)
    ensures |r| == |levels|
    ensures forall i :: 0 <= i < |levels| ==> r[i] == LevelToDict(levels[i])
  {
    seq(|levels|, i requires 0 <= i < |levels| => LevelToDict(levels[i]))
  }

  function LevelsFromDicts(items: seq<Json>): Option<seq<Level>> {
    if items == [] then Some([])
    else
      var first :- LevelFromDict(items[0]);
      var rest :- LevelsFromDicts(items[1..]);
      Some([first] + rest)
  }

  lemma {:induction false} LevelsDictRoundTrip(levels: seq<Level>)
    ensures LevelsFromDicts(LevelsToDicts(levels)) == Some(levels)
  {
    if levels != [] {
      LevelDictRoundTrip(levels[0]);
      assert LevelsToDicts(levels)[1..] == LevelsToDicts(levels[1..]);
      LevelsDictRoundTrip(levels[1..]);
      assert [levels[0]] + levels[1..] == levels;
    }
  }

  /** `order_book_to_dict`. */
  function OrderBookToDict(book: Book): Json {
    JObj([
      ("exchange", JStr(book.exchange)),
      ("symbol", JStr(book.symbol)),
      ("bids", JArr(LevelsToDicts(book.bids))),
      ("asks", JArr(LevelsToDicts(book.asks))),
      ("best_bid", OptNum(BestBid(book))),
      ("best_ask", OptNum(BestAsk(book))),
      ("exchange_timestamp", JInt(book.exchangeTimestamp)),
      ("received_timestamp", JInt(book.receivedTimestamp))
    ])
  }

  function ArrField(j: Json, key: string): Option<seq<Json>> {
    var v :- Field(j, key);
    if v.JArr? then Some(v.items) else None
  }

  function OrderBookFromDict(j: Json): Option<Book> {
    var exchange :- StrField(j, "exchange");
    var symbol :- StrField(j, "symbol");
    var bidItems :- ArrField(j, "bids");
    var askItems :- ArrField(j, "asks");
    var bids :- LevelsFromDicts(bidItems);
    var asks :- LevelsFromDicts(askItems);
    var exchangeTimestamp :- IntField(j, "exchange_timestamp");
    var receivedTimestamp :- IntField(j, "received_timestamp");
    Some(Book(exchange, symbol, bids, asks, exchangeTimestamp, receivedTimestamp))
  }

  /** A book dictionary keeps both sides level for level, in order, and its
      `best_bid`/`best_ask` entries agree with the first level of each side:
      null for an empty side, else that level's price. */
  lemma OrderBookDictShape(book: Book)
    ensures Field(OrderBookToDict(book), "bids") == Some(JArr(LevelsToDicts(book.bids)))
    ensures Field(OrderBookToDict(book), "asks") == Some(JArr(LevelsToDicts(book.asks)))
    ensures Field(OrderBookToDict(book), "best_bid")
      == Some(if book.bids == [] then JNull else JNum(book.bids[0].price))
    ensures Field(OrderBookToDict(book), "best_ask")
      == Some(if book.asks == [] then JNull else JNum(book.asks[0].price))
    ensures book.bids != [] ==>
      NumField(OrderBookToDict(book), "best_bid") == NumField(LevelsToDicts(book.bids)[0], "price")
    ensures book.asks != [] ==>
      NumField(OrderBookToDict(book), "best_ask") == NumField(LevelsToDicts(book.asks)[0], "price")
  {
    var d := OrderBookToDict(book);
    FieldsFound(d);
    assert Field(d, d.fields[0].0) == Some(d.fields[0].1);
    assert Field(d, d.fields[1].0) == Some(d.fields[1].1);
    assert Field(d, d.fields[2].0) == Some(d.fields[2].1);
    assert Field(d, d.fields[3].0) == Some(d.fields[3].1);
    assert Field(d, d.fields[4].0) == Some(d.fields[4].1);
    assert Field(d, d.fields[5].0) == Some(d.fields[5].1);
    assert Field(d, d.fields[6].0) == Some(d.fields[6].1);
    assert Field(d, d.fields[7].0) == Some(d.fields[7].1);
  }

  /** Nothing of a book is lost in its dictionary: it can be read back. */
  lemma OrderBookDictRoundTrip(book: Book)
    ensures OrderBookFromDict(OrderBookToDict(book)) == Some(book)
  {
    var d := OrderBookToDict(book);
    FieldsFound(d);
    assert Field(d, d.fields[0].0) == Some(d.fields[0].1);
    assert Field(d, d.fields[1].0) == Some(d.fields[1].1);
    assert Field(d, d.fields[2].0) == Some(d.fields[2].1);
    assert Field(d, d.fields[3].0) == Some(d.fields[3].1);
    assert Field(d, d.fields[4].0) == Some(d.fields[4].1);
    assert Field(d, d.fields[5].0) == Some(d.fields[5].1);
    assert Field(d, d.fields[6].0) == Some(d.fields[6].1);
    assert Field(d, d.fields[7].0) == Some(d.fields[7].1);
    LevelsDictRoundTrip(book.bids);
    LevelsDictRoundTrip(book.asks);
  }

  /** `opportunity_to_dict`; an absent book-update time becomes null. */
  function OpportunityToDict(item: Opportunity): Json {
    JObj([
      ("timestamp", JInt(item.timestamp)),
      ("status", JStr(StatusName(item.status))),
      ("reason", JStr(item.reason)),
      ("symbol", JStr(item.symbol)),
      ("buy_exchange", JStr(item.buyExchange)),
      ("sell_exchange", JStr(item.sellExchange)),
      ("trade_size", JNum(item.tradeSize)),
      ("gross_spread_pct", JNum(item.grossSpreadPct)),
      ("net_spread_pct", JNum(item.netSpreadPct)),
      ("expected_profit_usd", JNum(item.expectedProfitUsd)),
      ("latency_ms", JNum(item.latencyMs)),
      ("buy_vwap", JNum(item.buyVwap)),
      ("sell_vwap", JNum(item.sellVwap)),
      ("buy_book_updated_at", OptInt(item.buyBookUpdatedAt)),
      ("sell_book_updated_at", OptInt(item.sellBookUpdatedAt))
    ])
  }

  function OpportunityFromDict(j: Json): Option<Opportunity> {
    var timestamp :- IntField(j, "timestamp");
    var statusName :- StrField(j, "status");
    var status :- StatusFromName(statusName);
    var reason :- StrField(j, "reason");
    var symbol :- StrField(j, "symbol");
    var buyExchange :- StrField(j, "buy_exchange");
    var sellExchange :- StrField(j, "sell_exchange");
    var tradeSize :- NumField(j, "trade_size");
    var grossSpreadPct :- NumField(j, "gross_spread_pct");
    var netSpreadPct :- NumField(j, "net_spread_pct");
    var expectedProfitUsd :- NumField(j, "expected_profit_usd");
    var latencyMs :- NumField(j, "latency_ms");
    var buyVwap :- NumField(j, "buy_vwap");
    var sellVwap :- NumField(j, "sell_vwap");
    var buyUpdated :- OptIntField(j, "buy_book_updated_at");
    var sellUpdated :- OptIntField(j, "sell_book_updated_at");
    Some(Opportunity(timestamp, status, reason, symbol, buyExchange, sellExchange,
      tradeSize, grossSpreadPct, netSpreadPct, expectedProfitUsd, latencyMs,
      buyVwap, sellVwap, buyUpdated, sellUpdated))
  }

  /** The keys of an opportunity dictionary, in order. */
  const OpportunityKeys: seq<string> := [
    "timestamp", "status", "reason", "symbol", "buy_exchange", "sell_exchange",
    "trade_size", "gross_spread_pct", "net_spread_pct", "expected_profit_usd",
    "latency_ms", "buy_vwap", "sell_vwap", "buy_book_updated_at", "sell_book_updated_at"]

  lemma OpportunityKeysDistinct()
    ensures forall a, b :: 0 <= a < b < |OpportunityKeys| ==> OpportunityKeys[a] != OpportunityKeys[b]
  {
  }

  /** An opportunity dictionary carries every field unchanged (the status by
      its name), and each absent book-update time as null. */
  lemma OpportunityDictFields(item: Opportunity)
    ensures IntField(OpportunityToDict(item), "timestamp") == Some(item.timestamp)
    ensures StrField(OpportunityToDict(item), "status") == Some(StatusName(item.status))
    ensures StrField(OpportunityToDict(item), "reason") == Some(item.reason)
    ensures StrField(OpportunityToDict(item), "symbol") == Some(item.symbol)
    ensures StrField(OpportunityToDict(item), "buy_exchange") == Some(item.buyExchange)
    ensures StrField(OpportunityToDict(item), "sell_exchange") == Some(item.sellExchange)
    ensures NumField(OpportunityToDict(item), "trade_size") == Some(item.tradeSize)
    ensures NumField(OpportunityToDict(item), "gross_spread_pct") == Some(item.grossSpreadPct)
    ensures NumField(OpportunityToDict(item), "net_spread_pct") == Some(item.netSpreadPct)
    ensures NumField(OpportunityToDict(item), "expected_profit_usd") == Some(item.expectedProfitUsd)
    ensures NumField(OpportunityToDict(item), "latency_ms") == Some(item.latencyMs)
    ensures NumField(OpportunityToDict(item), "buy_vwap") == Some(item.buyVwap)
    ensures NumField(OpportunityToDict(item), "sell_vwap") == Some(item.sellVwap)
    ensures Field(OpportunityToDict(item), "buy_book_updated_at") == Some(OptInt(item.buyBookUpdatedAt))
    ensures Field(OpportunityToDict(item), "sell_book_updated_at") == Some(OptInt(item.sellBookUpdatedAt))
  {
    var d := OpportunityToDict(item);
    assert forall k :: 0 <= k < |d.fields| ==> d.fields[k].0 == OpportunityKeys[k];
    OpportunityKeysDistinct();
    FieldsFound(d);
    assert Field(d, d.fields[0].0) == Some(d.fields[0].1);
    assert Field(d, d.fields[1].0) == Some(d.fields[1].1);
    assert Field(d, d.fields[2].0) == Some(d.fields[2].1);
    assert Field(d, d.fields[3].0) == Some(d.fields[3].1);
    assert Field(d, d.fields[4].0) == Some(d.fields[4].1);
    assert Field(d, d.fields[5].0) == Some(d.fields[5].1);
    assert Field(d, d.fields[6].0) == Some(d.fields[6].1);
    assert Field(d, d.fields[7].0) == Some(d.fields[7].1);
    assert Field(d, d.fields[8].0) == Some(d.fields[8].1);
    assert Field(d, d.fields[9].0) == Some(d.fields[9].1);
    assert Field(d, d.fields[10].0) == Some(d.fields[10].1);
    assert Field(d, d.fields[11].0) == Some(d.fields[11].1);
    assert Field(d, d.fields[12].0) == Some(d.fields[12].1);
    assert Field(d, d.fields[13].0) == Some(d.fields[13].1);
    assert Field(d, d.fields[14].0) == Some(d.fields[14].1);
  }

  /** An opportunity dictionary carries every field unchanged (the status by
      its name), with null exactly for an absent book-update time. */
  lemma OpportunityDictRoundTrip(item: Opportunity)
    ensures OpportunityFromDict(OpportunityToDict(item)) == Some(item)
    ensures Field(OpportunityToDict(item), "buy_book_updated_at") == Some(JNull)
      <==> item.buyBookUpdatedAt.None?
    ensures Field(OpportunityToDict(item), "sell_book_updated_at") == Some(JNull)
      <==> item.sellBookUpdatedAt.None?
  {
    OpportunityDictFields(item);
    StatusNamesCorrespond(item.status, StatusName(item.status));
  }

  /** `simulated_trade_to_dict`. */
  function SimulatedTradeToDict(item: SimulatedTrade): Json {
    JObj([
      ("timestamp", JInt(item.timestamp)),
      ("symbol", JStr(item.symbol)),
      ("buy_exchange", JStr(item.buyExchange)),
      ("sell_exchange", JStr(item.sellExchange)),
      ("size", JNum(item.size)),
      ("pnl_usd", JNum(item.pnlUsd)),
      ("latency_ms", JNum(item.latencyMs))
    ])
  }

  function SimulatedTradeFromDict(j: Json): Option<SimulatedTrade> {
    var timestamp :- IntField(j, "timestamp");
    var symbol :- StrField(j, "symbol");
    var buyExchange :- StrField(j, "buy_exchange");
    var sellExchange :- StrField(j, "sell_exchange");
    var size :- NumField(j, "size");
    var pnlUsd :- NumField(j, "pnl_usd");
    var latencyMs :- NumField(j, "latency_ms");
    Some(SimulatedTrade(timestamp, symbol, buyExchange, sellExchange, size, pnlUsd, latencyMs))
  }

  /** A trade dictionary preserves all seven trade fields. */
  lemma SimulatedTradeDictRoundTrip(item: SimulatedTrade)
    ensures SimulatedTradeFromDict(SimulatedTradeToDict(item)) == Some(item)
  {
    var d := SimulatedTradeToDict(item);
    FieldsFound(d);
    assert Field(d, d.fields[0].0) == Some(d.fields[0].1);
    assert Field(d, d.fields[1].0) == Some(d.fields[1].1);
    assert Field(d, d.fields[2].0) == Some(d.fields[2].1);
    assert Field(d, d.fields[3].0) == Some(d.fields[3].1);
    assert Field(d, d.fields[4].0) == Some(d.fields[4].1);
    assert Field(d, d.fields[5].0) == Some(d.fields[5].1);
    assert Field(d, d.fields[6].0) == Some(d.fields[6].1);
  }
}
