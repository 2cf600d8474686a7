/** The pure steps of the exchange feeds in `backend/app/market_data.py`:
    the Uphold pair name, and the checks that turn one decoded Binance depth
    message or one Uphold ticker into a book, or into nothing. The socket
    and HTTP loops around them are not modelled; the clock reading they take
    is the parameter `now`. */
module MarketData {
  import opened Wrappers
  import opened Strings
  import opened Models

  // ---------------------------------------------------------------------
  // Uphold pair names

  /** `uphold_pair_from_symbol`: a symbol quoted in `USDT` is asked for in
      `USD`; any other symbol is used as it is. */
  function UpholdPairFromSymbol(symbol: string): (r: string)
    ensures EndsWith(symbol, "USDT") ==> r == symbol[..|symbol| - 4] + "USD"
    ensures !EndsWith(symbol, "USDT") ==> r == symbol
  {
    if EndsWith(symbol, "USDT") then symbol[..|symbol| - 4] + "USD" else symbol
  }

  /** A `USDT` symbol becomes the same base quoted in `USD`, one character
      shorter, and the rewritten name is left alone by a second rewrite. */
  lemma UpholdPairSpec(symbol: string)
    ensures EndsWith(symbol, "USDT") ==>
      && EndsWith(UpholdPairFromSymbol(symbol), "USD")
      && |UpholdPairFromSymbol(symbol)| == |symbol| - 1
      && UpholdPairFromSymbol(symbol)[..|symbol| - 4] == symbol[..|symbol| - 4]
    ensures UpholdPairFromSymbol(UpholdPairFromSymbol(symbol)) == UpholdPairFromSymbol(symbol)
  {
    var r := UpholdPairFromSymbol(symbol);
    if EndsWith(symbol, "USDT") {
      assert r[|r| - 3..] == "USD";
      if |r| >= 4 {
        assert r[|r| - 1] == 'D';
        assert !EndsWith(r, "USDT") by {
          assert "USDT"[3] == 'T';
        }
      }
    }
  }

  /** `BTCUSDT` is fetched from Uphold as `BTCUSD`. */
  lemma UpholdPairExample()
    ensures UpholdPairFromSymbol("BTCUSDT") == "BTCUSD"
    ensures UpholdPairFromSymbol("ETHBTC") == "ETHBTC"
  {
    assert EndsWith("BTCUSDT", "USDT");
    assert "BTCUSDT"[..3] == "BTC";
    assert !EndsWith("ETHBTC", "USDT") by {
      assert "ETHBTC"[2..] != "USDT" by { assert "ETHBTC"[2..][0] == 'H'; }
    }
  }

  // ---------------------------------------------------------------------
  // Binance depth messages

  /** A decoded depth message: each side present or not, and the event time
      `E` in milliseconds when present. */
  datatype DepthMessage = DepthMessage(
    bids: Option<seq<Level>>,
    asks: Option<seq<Level>>,
    eventTime: Option<int>)

  /** The levels of one side whose quantity is positive, in order. */
  function PositiveLevels(levels: seq<Level>): (r: seq<Level>)
    ensures |r| <= |levels|
  {
    if levels == [] then []
    else (if levels[0].quantity > 0.0 then [levels[0]] else []) + PositiveLevels(levels[1..])
  }

  /** A level is kept exactly when it is in the input with a positive
      quantity. */
  lemma {:induction false} PositiveLevelsMembers(levels: seq<Level>)
    ensures forall l :: l in PositiveLevels(levels) <==> l in levels && l.quantity > 0.0
  {
    if levels != [] {
      PositiveLevelsMembers(levels[1..]);
      assert levels == [levels[0]] + levels[1..];
    }
  }

  /** Filtering commutes with concatenation, so the kept levels keep their
      relative order. */
  lemma {:induction false} PositiveLevelsOfAppend(a: seq<Level>, b: seq<Level>)
    ensures PositiveLevels(a + b) == PositiveLevels(a) + PositiveLevels(b)
  {
    if a != [] {
      assert (a + b)[1..] == a[1..] + b;
      PositiveLevelsOfAppend(a[1..], b);
    } else {
      assert a + b == b;
    }
  }

  /** The book a depth message yields, if any: both sides must be present
      and keep at least one level once the empty levels are dropped; the
      exchange time is the event time when there is a non-zero one, and the
      receive time otherwise. */
  function BinanceBook(name: string, symbol: string, message: DepthMessage, now: int): (r: Option<Book>)
    ensures r.Some? ==> r.value.exchange == name && r.value.symbol == symbol && r.value.receivedTimestamp == now
    ensures r.Some? ==> message.bids.Some? && message.asks.Some? && r.value.bids != [] && r.value.asks != []
  {
    if message.bids.None? || message.asks.None? then None
    else
      var bids := PositiveLevels(message.bids.value);
      var asks := PositiveLevels(message.asks.value);
      if bids == [] || asks == [] then None
      else
        var exchangeTime := if message.eventTime.Some? && message.eventTime.value != 0 then message.eventTime.value else now;
        Some(Book(name, symbol, bids, asks, exchangeTime, now))
  }

  /** A depth message yields a book exactly when both sides are present and
      each has a level with a positive quantity; the book then holds exactly
      those levels, in the message's order, for the feed's exchange and
      symbol, stamped with the non-zero event time or else the receive
      time. */
  lemma BinanceBookSpec(name: string, symbol: string, message: DepthMessage, now: int)
    ensures var r := BinanceBook(name, symbol, message, now);
      && (r.Some? <==>
            && message.bids.Some? && message.asks.Some?
            && (exists l :: l in message.bids.value && l.quantity > 0.0)
            && (exists l :: l in message.asks.value && l.quantity > 0.0))
      && (r.Some? ==>
            && r.value.exchange == name && r.value.symbol == symbol
            && r.value.receivedTimestamp == now
            && r.value.exchangeTimestamp ==
                 (if message.eventTime.Some? && message.eventTime.value != 0 then message.eventTime.value else now)
            && r.value.bids == PositiveLevels(message.bids.value)
            && r.value.asks == PositiveLevels(message.asks.value)
            && r.value.bids != [] && r.value.asks != []
            && (forall l :: l in r.value.bids <==> l in message.bids.value && l.quantity > 0.0)
            && (forall l :: l in r.value.asks <==> l in message.asks.value && l.quantity > 0.0))
  {
    if message.bids.Some? && message.asks.Some? {
      PositiveLevelsMembers(message.bids.value);
      PositiveLevelsMembers(message.asks.value);
      var bids := PositiveLevels(message.bids.value);
      var asks := PositiveLevels(message.asks.value);
      if bids != [] {
        assert bids[0] in bids;
      }
      if asks != [] {
        assert asks[0] in asks;
      }
    }
  }

  // ---------------------------------------------------------------------
  // Uphold tickers

  /** The book an Uphold ticker yields, if any: both prices present and
      positive and the bid below the ask; each side is one level of
      quantity 100. */
  function UpholdBook(name: string, symbol: string, bid: Option<real>, ask: Option<real>, now: int): (r: Option<Book>)
    ensures r.Some? <==> bid.Some? && ask.Some? && 0.0 < bid.value < ask.value
    ensures r.Some? ==> r.value.exchange == name && r.value.symbol == symbol && r.value.receivedTimestamp == now
  {
    if bid.None? || ask.None? then None
    else if bid.value <= 0.0 || ask.value <= 0.0 || bid.value >= ask.value then None
    else Some(Book(name, symbol, [Level(bid.value, 100.0)], [Level(ask.value, 100.0)], now, now))
  }

  /** A ticker yields a book exactly when both prices are present, positive
      and not crossed; the book's best bid is below its best ask. */
  lemma UpholdBookSpec(name: string, symbol: string, bid: Option<real>, ask: Option<real>, now: int)
    ensures var r := UpholdBook(name, symbol, bid, ask, now);
      && (r.Some? <==> bid.Some? && ask.Some? && 0.0 < bid.value < ask.value)
      && (r.Some? ==>
            && r.value.exchange == name && r.value.symbol == symbol
            && r.value.bids == [Level(bid.value, 100.0)] && r.value.asks == [Level(ask.value, 100.0)]
            && BestBid(r.value).Some? && BestAsk(r.value).Some?
            && BestBid(r.value).value < BestAsk(r.value).value)
  {
  }
}
