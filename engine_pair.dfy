/** The evaluation of one ordered pair of exchanges in `backend/app/engine.py`
    (`_max_size_by_funds` and `_evaluate_pair`): how large a trade the books,
    the simulated volume and the wallets allow, and whether buying on one
    exchange and selling on the other is profitable after fees and the
    transfer cost. */
module PairEvaluation {
  import opened Wrappers
  import opened Models
  import opened BookDepth

  /** One exchange's holdings, asset name to amount. */
  type Wallet = map<string, real>

  /** Every exchange's wallet. */
  type Balances = map<string, Wallet>

  /** `d.get(key, 0.0)`. */
  function Get(m: map<string, real>, key: string): real {
    if key in m then m[key] else 0.0
  }

  /** `balances.get(exchange, {})`. */
  function WalletOf(balances: Balances, exchange: string): Wallet {
    if exchange in balances then balances[exchange] else map[]
  }

  /** `a * b`. */
  function Times(a: real, b: real): real { a * b }

  /** `a / b`. */
  function Over(a: real, b: real): real
    requires b != 0.0
  {
    a / b
  }

  /** A unit bought at `price` with a fee of `fee`: `price * (1 + fee)`. */
  function WithFee(price: real, fee: real): real { price * (1.0 + fee) }

  /** A unit sold at `price` with a fee of `fee`: `price * (1 - fee)`. */
  function AfterFee(price: real, fee: real): real { price * (1.0 - fee) }

  /** `MIN_DYNAMIC_TRADE_SIZE_FACTOR`. */
  const MinDynamicTradeSizeFactor: real := 0.1

  /** The smallest trade size ever considered, whatever the volume. */
  const MinTradeSize: real := 0.0001

  /** What the evaluation reads from the engine besides the two books. */
  datatype Pricing = Pricing(
    simulationVolumeUsd: real,
    transferCostUsd: real,
    fees: map<string, real>,
    balances: Balances,
    baseAsset: string,
    quoteAsset: string)

  /** The quote asset the buyer holds, negative holdings counted as none. */
  function AvailableQuote(p: Pricing, buyExchange: string): real {
    Max(Get(WalletOf(p.balances, buyExchange), p.quoteAsset), 0.0)
  }

  /** The base asset the seller holds, negative holdings counted as none. */
  function AvailableBase(p: Pricing, sellExchange: string): real {
    Max(Get(WalletOf(p.balances, sellExchange), p.baseAsset), 0.0)
  }

  /** The cost of one unit on the buying exchange, fee included. */
  function BuyUnitCost(p: Pricing, buyExchange: string, referenceBuyPrice: real): real {
    WithFee(referenceBuyPrice, Get(p.fees, buyExchange))
  }

  /** `_max_size_by_funds`: the largest size the buyer's quote asset pays for
      and the seller's base asset covers; 0 when a unit costs nothing or less. */
  function MaxSizeByFunds(p: Pricing, buyExchange: string, sellExchange: string, referenceBuyPrice: real): (r: real)
    ensures 0.0 <= r <= AvailableBase(p, sellExchange)
  {
    var unit := BuyUnitCost(p, buyExchange, referenceBuyPrice);
    if unit <= 0.0 then 0.0
    else
      QuotientBounds(AvailableQuote(p, buyExchange), unit);
      Min(Over(AvailableQuote(p, buyExchange), unit), AvailableBase(p, sellExchange))
  }

  /** The size `_max_size_by_funds` allows is never negative, is covered by
      the seller's base asset and paid for by the buyer's quote asset, and is
      the largest such size: one of the two limits is reached exactly. */
  lemma MaxSizeByFundsBounds(p: Pricing, buyExchange: string, sellExchange: string, referenceBuyPrice: real)
    ensures var r := MaxSizeByFunds(p, buyExchange, sellExchange, referenceBuyPrice);
      var unit := BuyUnitCost(p, buyExchange, referenceBuyPrice);
      && r >= 0.0
      && (unit <= 0.0 ==> r == 0.0)
      && r <= AvailableBase(p, sellExchange)
      && (unit > 0.0 ==> Times(r, unit) <= AvailableQuote(p, buyExchange))
      && (unit > 0.0 ==> r == AvailableBase(p, sellExchange) || Times(r, unit) == AvailableQuote(p, buyExchange))
  {
    var unit := BuyUnitCost(p, buyExchange, referenceBuyPrice);
    if unit > 0.0 {
      var q := AvailableQuote(p, buyExchange);
      var b := AvailableBase(p, sellExchange);
      QuotientBounds(q, unit);
      var r := Min(Over(q, unit), b);
      if r < Over(q, unit) {
        ScaleBelow(r, Over(q, unit), unit);
      }
    }
  }

  /** A non-negative amount divided by a positive unit is non-negative and
      buys exactly the amount back. */
  lemma QuotientBounds(q: real, unit: real)
    requires q >= 0.0 && unit > 0.0
    ensures Over(q, unit) >= 0.0 && Times(Over(q, unit), unit) == q
  {
  }

  lemma ScaleBelow(a: real, b: real, unit: real)
    requires a < b && unit > 0.0
    ensures Times(a, unit) < Times(b, unit)
  {
  }

  /** `buy_book.best_ask or 0.0`. */
  function ReferenceBuyPrice(buy: Book): real {
    BestAsk(buy).GetOr(0.0)
  }

  /** The size the simulated volume buys at the best ask; 0 without a
      positive best ask. */
  function DesiredSize(p: Pricing, buy: Book): real {
    var reference := ReferenceBuyPrice(buy);
    if reference > 0.0 then Over(p.simulationVolumeUsd, reference) else 0.0
  }

  /** The size both books can fill: the smaller of the ask and bid depths. */
  function MaxDepthSize(buy: Book, sell: Book): real {
    Min(Depth(buy.asks), Depth(sell.bids))
  }

  /** The size the wallets allow. */
  function FundsSize(p: Pricing, buy: Book, sell: Book): real {
    MaxSizeByFunds(p, buy.exchange, sell.exchange, ReferenceBuyPrice(buy))
  }

  /** `min(desired, depth, funds)`. */
  function TargetSize(p: Pricing, buy: Book, sell: Book): real {
    Min(Min(DesiredSize(p, buy), MaxDepthSize(buy, sell)), FundsSize(p, buy, sell))
  }

  /** A tenth of the desired size, but never below 0.0001. */
  function MinDynamicSize(p: Pricing, buy: Book): real {
    Max(Times(DesiredSize(p, buy), MinDynamicTradeSizeFactor), MinTradeSize)
  }

  /** `(sell_vwap * (1 - sell_fee) - buy_vwap * (1 + buy_fee)) * size - transfer_cost`. */
  function NetProfit(p: Pricing, buy: Book, sell: Book, size: real): real {
    var buyUnit := WithFee(AveragePrice(buy.asks, size), Get(p.fees, buy.exchange));
    var sellUnit := AfterFee(AveragePrice(sell.bids, size), Get(p.fees, sell.exchange));
    Times(sellUnit - buyUnit, size) - p.transferCostUsd
  }

  /** `((sell_vwap - buy_vwap) / buy_vwap) * 100`, 0 without a positive buy price. */
  function GrossSpreadPct(buyVwap: real, sellVwap: real): real {
    if buyVwap > 0.0 then Times(Over(sellVwap - buyVwap, buyVwap), 100.0) else 0.0
  }

  /** The net profit as a percentage of what the buy costs with its fee, 0
      when that cost is not positive. */
  function NetSpreadPct(p: Pricing, buy: Book, size: real, net: real): real {
    var buyTotal := Times(WithFee(AveragePrice(buy.asks, size), Get(p.fees, buy.exchange)), size);
    if buyTotal > 0.0 then Times(Over(net, buyTotal), 100.0) else 0.0
  }

  /** `_evaluate_pair`: buy on `buy`'s asks, sell on `sell`'s bids. */
  function EvaluatePair(p: Pricing, buy: Book, sell: Book, latencyMs: real, timestamp: int): (r: Opportunity)
    ensures r.symbol == buy.symbol && r.buyExchange == buy.exchange && r.sellExchange == sell.exchange
    ensures r.status == Accepted ==> r.expectedProfitUsd > 0.0 && r.tradeSize >= MinDynamicSize(p, buy)
  {
    var target := TargetSize(p, buy, sell);
    if target < MinDynamicSize(p, buy) then
      Opportunity(timestamp, NoFunds, "No Funds", buy.symbol, buy.exchange, sell.exchange,
                  0.0, 0.0, 0.0, 0.0, latencyMs, ReferenceBuyPrice(buy), BestBid(sell).GetOr(0.0), None, None)
    else
      var size := target;
      var buyVwap := AveragePrice(buy.asks, size);
      var sellVwap := AveragePrice(sell.bids, size);
      if Min(Filled(buy.asks, size), Filled(sell.bids, size)) < size then
        Opportunity(timestamp, Discarded, "insufficient_depth", buy.symbol, buy.exchange, sell.exchange,
                    size, 0.0, 0.0, 0.0, latencyMs, buyVwap, sellVwap, None, None)
      else
        var net := NetProfit(p, buy, sell, size);
        var gross := GrossSpreadPct(buyVwap, sellVwap);
        var netPct := NetSpreadPct(p, buy, size, net);
        if net <= 0.0 then
          Opportunity(timestamp, Discarded, "fees_and_transfer_filtered", buy.symbol, buy.exchange, sell.exchange,
                      size, gross, netPct, net, latencyMs, buyVwap, sellVwap, None, None)
        else
          Opportunity(timestamp, Accepted, "profitable", buy.symbol, buy.exchange, sell.exchange,
                      size, gross, netPct, net, latencyMs, buyVwap, sellVwap, None, None)
  }

  /** Whatever the outcome, the opportunity names the buy book's symbol, the
      two exchanges in order, the given latency and time, and no book
      update times. */
  lemma EvaluatePairIdentity(p: Pricing, buy: Book, sell: Book, latencyMs: real, timestamp: int)
    ensures var r := EvaluatePair(p, buy, sell, latencyMs, timestamp);
      && r.symbol == buy.symbol && r.buyExchange == buy.exchange && r.sellExchange == sell.exchange
      && r.latencyMs == latencyMs && r.timestamp == timestamp
      && r.buyBookUpdatedAt == None && r.sellBookUpdatedAt == None
  {
  }

  /** Every size past the size check is positive and fits in both books, so
      both walks fill it completely. */
  lemma SizeFitsBooks(p: Pricing, buy: Book, sell: Book)
    requires TargetSize(p, buy, sell) >= MinDynamicSize(p, buy)
    ensures var size := TargetSize(p, buy, sell);
      && 0.0 < size <= Depth(buy.asks) && size <= Depth(sell.bids)
      && Filled(buy.asks, size) == size && Filled(sell.bids, size) == size
  {
    var size := TargetSize(p, buy, sell);
    FilledIsMinOfDepth(buy.asks, size);
    FilledIsMinOfDepth(sell.bids, size);
  }

  /** The `insufficient_depth` branch cannot be taken: the target size never
      exceeds either book's depth, so both walks always fill it. */
  lemma InsufficientDepthUnreachable(p: Pricing, buy: Book, sell: Book, latencyMs: real, timestamp: int)
    ensures EvaluatePair(p, buy, sell, latencyMs, timestamp).reason != "insufficient_depth"
  {
    if TargetSize(p, buy, sell) >= MinDynamicSize(p, buy) {
      SizeFitsBooks(p, buy, sell);
    }
  }

  /** The outcome of an evaluation, in both directions: `no_funds` exactly
      when the target size falls below the minimum, and then every amount is
      0 and the prices are the best ask and best bid; otherwise the target is
      traded, priced at both books' average prices, and it is `accepted` as
      `profitable` exactly when the net profit is positive and `discarded` as
      `fees_and_transfer_filtered` exactly when it is not.
      `insufficient_liquidity` is never produced. */
  lemma EvaluatePairOutcome(p: Pricing, buy: Book, sell: Book, latencyMs: real, timestamp: int)
    ensures var r := EvaluatePair(p, buy, sell, latencyMs, timestamp);
      var target := TargetSize(p, buy, sell);
      && (r.status == NoFunds <==> target < MinDynamicSize(p, buy))
      && (r.status == NoFunds ==>
            && r.reason == "No Funds" && r.tradeSize == 0.0 && r.expectedProfitUsd == 0.0
            && r.grossSpreadPct == 0.0 && r.netSpreadPct == 0.0
            && r.buyVwap == ReferenceBuyPrice(buy) && r.sellVwap == BestBid(sell).GetOr(0.0))
      && (r.status != NoFunds ==>
            && r.tradeSize == target && r.expectedProfitUsd == NetProfit(p, buy, sell, target)
            && r.buyVwap == AveragePrice(buy.asks, target) && r.sellVwap == AveragePrice(sell.bids, target)
            && r.grossSpreadPct == GrossSpreadPct(r.buyVwap, r.sellVwap)
            && r.netSpreadPct == NetSpreadPct(p, buy, target, r.expectedProfitUsd))
      && (r.status == Accepted <==> r.status != NoFunds && r.expectedProfitUsd > 0.0)
      && (r.status == Accepted <==> r.reason == "profitable")
      && (r.status == Discarded <==> r.status != NoFunds && r.expectedProfitUsd <= 0.0)
      && (r.status == Discarded <==> r.reason == "fees_and_transfer_filtered")
      && r.status != InsufficientLiquidity
  {
    if TargetSize(p, buy, sell) >= MinDynamicSize(p, buy) {
      SizeFitsBooks(p, buy, sell);
    }
  }

  /** An accepted opportunity is one the simulator can carry out: a positive
      size no larger than the simulated volume asks for, than either book's
      depth or than the wallets cover, with a positive expected profit. */
  lemma AcceptedIsFeasible(p: Pricing, buy: Book, sell: Book, latencyMs: real, timestamp: int)
    requires EvaluatePair(p, buy, sell, latencyMs, timestamp).status == Accepted
    ensures var r := EvaluatePair(p, buy, sell, latencyMs, timestamp);
      var unit := BuyUnitCost(p, buy.exchange, ReferenceBuyPrice(buy));
      && 0.0 < r.tradeSize <= DesiredSize(p, buy)
      && r.tradeSize <= Depth(buy.asks) && r.tradeSize <= Depth(sell.bids)
      && r.tradeSize <= AvailableBase(p, sell.exchange)
      && unit > 0.0 && Times(r.tradeSize, unit) <= AvailableQuote(p, buy.exchange)
      && r.expectedProfitUsd > 0.0
  {
    EvaluatePairOutcome(p, buy, sell, latencyMs, timestamp);
    SizeFitsBooks(p, buy, sell);
    MaxSizeByFundsBounds(p, buy.exchange, sell.exchange, ReferenceBuyPrice(buy));
    var size := TargetSize(p, buy, sell);
    var funds := FundsSize(p, buy, sell);
    var unit := BuyUnitCost(p, buy.exchange, ReferenceBuyPrice(buy));
    assert size <= funds;
    if unit > 0.0 && size < funds {
      ScaleBelow(size, funds, unit);
    }
  }

  /** `_evaluate_pair` as the source runs it, walking both books with the
      vwap walkers; it yields the opportunity `EvaluatePair` describes. */
  method EvaluatePairByWalks(p: Pricing, buy: Book, sell: Book, latencyMs: real, timestamp: int)
    returns (o: Opportunity)
    ensures o == EvaluatePair(p, buy, sell, latencyMs, timestamp)
  {
    var maxDepthSize := Min(Depth(buy.asks), Depth(sell.bids));
    var referenceBuyPrice := BestAsk(buy).GetOr(0.0);
    var desiredSize := if referenceBuyPrice > 0.0 then Over(p.simulationVolumeUsd, referenceBuyPrice) else 0.0;
    var maxFundsSize := MaxSizeByFunds(p, buy.exchange, sell.exchange, referenceBuyPrice);
    var targetSize := Min(Min(desiredSize, maxDepthSize), maxFundsSize);
    var minDynamicSize := Max(Times(desiredSize, MinDynamicTradeSizeFactor), MinTradeSize);
    if targetSize < minDynamicSize {
      return Opportunity(timestamp, NoFunds, "No Funds", buy.symbol, buy.exchange, sell.exchange,
                         0.0, 0.0, 0.0, 0.0, latencyMs, referenceBuyPrice, BestBid(sell).GetOr(0.0), None, None);
    }
    var size := targetSize;
    var buyVwap, buyFilled := ComputeVwapForBuy(buy.asks, size);
    var sellVwap, sellFilled := ComputeVwapForSell(sell.bids, size);
    var filled := Min(buyFilled, sellFilled);
    if filled < size {
      return Opportunity(timestamp, Discarded, "insufficient_depth", buy.symbol, buy.exchange, sell.exchange,
                         size, 0.0, 0.0, 0.0, latencyMs, buyVwap, sellVwap, None, None);
    }
    var buyFee := Get(p.fees, buy.exchange);
    var sellFee := Get(p.fees, sell.exchange);
    var buyUnitWithFee := WithFee(buyVwap, buyFee);
    var sellUnitAfterFee := AfterFee(sellVwap, sellFee);
    var netProfit := Times(sellUnitAfterFee - buyUnitWithFee, size) - p.transferCostUsd;
    var grossSpreadPct := if buyVwap > 0.0 then Times(Over(sellVwap - buyVwap, buyVwap), 100.0) else 0.0;
    var buyTotalWithFee := Times(buyUnitWithFee, size);
    var netSpreadPct := if buyTotalWithFee > 0.0 then Times(Over(netProfit, buyTotalWithFee), 100.0) else 0.0;
    if netProfit <= 0.0 {
      return Opportunity(timestamp, Discarded, "fees_and_transfer_filtered", buy.symbol, buy.exchange, sell.exchange,
                         size, grossSpreadPct, netSpreadPct, netProfit, latencyMs, buyVwap, sellVwap, None, None);
    }
    return Opportunity(timestamp, Accepted, "profitable", buy.symbol, buy.exchange, sell.exchange,
                       size, grossSpreadPct, netSpreadPct, netProfit, latencyMs, buyVwap, sellVwap, None, None);
  }
}
