/** One evaluation pass of `backend/app/engine.py` (`_evaluate_all_pairs`
    and `_simulate_execution`) stated on values: the engine's mutable state
    is an `EngineState`, and a pass visits every ordered pair of stored books
    in `permutations` order, records an opportunity and a metric for each
    eligible pair and, when automatic simulation is on, executes the
    accepted opportunities that reach the profit threshold. */
module ArbitragePass {
  import opened Wrappers
  import opened Models
  import opened BookDepth
  import opened PairEvaluation

  /** `deque(maxlen=600)` for opportunities and metrics, 300 for trades. */
  const OpportunityCapacity: nat := 600
  const TradeCapacity: nat := 300
  const MetricCapacity: nat := 600

  /** The last `cap` items of `xs`. */
  function Last<T>(xs: seq<T>, cap: nat): seq<T> {
    if |xs| > cap then xs[|xs| - cap..] else xs
  }

  /** `deque.append` on a deque with `maxlen=cap`: when the deque is full the
      oldest item is dropped to make room. */
  function BoundedAppend<T>(xs: seq<T>, x: T, cap: nat): (r: seq<T>)
    ensures |r| <= cap
    ensures |xs| < cap ==> r == xs + [x]
    ensures cap > 0 ==> |r| > 0 && r[|r| - 1] == x
  {
    if |xs| < cap then xs + [x] else (xs + [x])[|xs| + 1 - cap..]
  }

  /** A bounded deque holds the last `cap` items ever appended to it. */
  lemma BoundedAppendIsLast<T>(xs: seq<T>, x: T, cap: nat)
    ensures BoundedAppend(xs, x, cap) == Last(xs + [x], cap)
  {
  }

  /** Keeping the last `cap` items and then appending more keeps the same
      items as appending everything first. */
  lemma LastOfLast<T>(xs: seq<T>, ys: seq<T>, cap: nat)
    ensures Last(Last(xs, cap) + ys, cap) == Last(xs + ys, cap)
  {
    if |xs| > cap {
      var d := |xs| - cap;
      assert xs[d..] + ys == (xs + ys)[d..];
      LastOfSuffix(xs + ys, d, cap);
    }
  }

  /** Dropping items from the front leaves the last `cap` alone while at
      least `cap` are left. */
  lemma LastOfSuffix<T>(s: seq<T>, d: nat, cap: nat)
    requires d <= |s| && |s| - d >= cap
    ensures Last(s[d..], cap) == Last(s, cap)
  {
    if |s| - d > cap {
      assert s[d..][|s| - d - cap..] == s[|s| - cap..];
    } else if d == 0 {
      assert s[d..] == s;
    }
  }

  /** One entry of `metrics_log`. */
  datatype Metric = Metric(
    timestamp: int,
    spreadGrossPct: real,
    spreadNetPct: real,
    expectedProfitUsd: real,
    status: Status,
    reason: string,
    pair: string,
    triggerExchange: string,
    latencyMs: real)

  /** The metric recorded beside an opportunity; the pair reads `buy->sell`. */
  function MetricOf(o: Opportunity, triggerExchange: string): Metric {
    Metric(o.timestamp, o.grossSpreadPct, o.netSpreadPct, o.expectedProfitUsd, o.status, o.reason,
           o.buyExchange + "->" + o.sellExchange, triggerExchange, o.latencyMs)
  }

  /** The simulated trade recorded when an opportunity is executed. */
  function TradeOf(o: Opportunity): SimulatedTrade {
    SimulatedTrade(o.timestamp, o.symbol, o.buyExchange, o.sellExchange, o.tradeSize, o.expectedProfitUsd, o.latencyMs)
  }

  /** What a pass changes: the stored books in insertion order, the wallets,
      the running P&L and balance, and the three bounded logs. */
  datatype EngineState = EngineState(
    books: seq<Book>,
    balances: Balances,
    totalPnlUsd: real,
    balanceUsd: real,
    opportunities: seq<Opportunity>,
    trades: seq<SimulatedTrade>,
    metrics: seq<Metric>)

  /** What a pass reads and does not change. */
  datatype Context = Context(
    simulationVolumeUsd: real,
    transferCostUsd: real,
    autoSimulateExecution: bool,
    opportunityThresholdUsd: real,
    fees: map<string, real>,
    enabled: map<string, bool>,
    baseAsset: string,
    quoteAsset: string,
    now: int,
    lastExchange: string)

  /** `exchange_enabled.get(exchange, True)`. */
  function IsEnabled(enabled: map<string, bool>, exchange: string): bool {
    if exchange in enabled then enabled[exchange] else true
  }

  function PricingOf(ctx: Context, balances: Balances): Pricing {
    Pricing(ctx.simulationVolumeUsd, ctx.transferCostUsd, ctx.fees, balances, ctx.baseAsset, ctx.quoteAsset)
  }

  /** Milliseconds from the later of the two receive times to `now`, never
      negative. */
  function LatencyMs(now: int, buy: Book, sell: Book): (r: real)
    ensures r >= 0.0
  {
    var received := if buy.receivedTimestamp >= sell.receivedTimestamp then buy.receivedTimestamp else sell.receivedTimestamp;
    Max((now - received) as real, 0.0)
  }

  /** The pair `(i, j)` of stored books is evaluated: two different books,
      both exchanges enabled, the same symbol. */
  predicate Eligible(ctx: Context, books: seq<Book>, i: nat, j: nat)
    requires i < |books| && j < |books|
  {
    && i != j
    && IsEnabled(ctx.enabled, books[i].exchange)
    && IsEnabled(ctx.enabled, books[j].exchange)
    && books[i].symbol == books[j].symbol
  }

  /** The opportunity recorded for the pair `(i, j)`. */
  function StepOpportunity(ctx: Context, s: EngineState, i: nat, j: nat): Opportunity
    requires i < |s.books| && j < |s.books|
  {
    EvaluatePair(PricingOf(ctx, s.balances), s.books[i], s.books[j],
                 LatencyMs(ctx.now, s.books[i], s.books[j]), ctx.now)
  }

  /** The opportunity is executed: automatic simulation is on, it was
      accepted and its expected profit reaches the threshold. */
  predicate Executes(ctx: Context, o: Opportunity) {
    ctx.autoSimulateExecution && o.status == Accepted && o.expectedProfitUsd >= ctx.opportunityThresholdUsd
  }

  /** Two lists of books list the same exchanges and symbols in the same order. */
  predicate SameListing(books: seq<Book>, books': seq<Book>) {
    && |books'| == |books|
    && forall k :: 0 <= k < |books| ==>
         books'[k].exchange == books[k].exchange && books'[k].symbol == books[k].symbol
  }

  /** The buy book's asks and then the sell book's bids lose what the trade
      takes from them. */
  function ReserveBooks(books: seq<Book>, bi: nat, si: nat, size: real): (r: seq<Book>)
    requires bi < |books| && si < |books|
    ensures SameListing(books, r)
  {
    var b1 := books[bi := books[bi].(asks := Reserved(books[bi].asks, size))];
    b1[si := b1[si].(bids := Reserved(b1[si].bids, size))]
  }

  /** The amount of `asset` held on `exchange`, 0 when there is none. */
  function Holding(balances: Balances, exchange: string, asset: string): real {
    Get(WalletOf(balances, exchange), asset)
  }

  /** `exchange_balances.setdefault(exchange, {base: 0.0, quote: 0.0})`. */
  function WithWallet(balances: Balances, exchange: string, base: string, quote: string): Balances {
    if exchange in balances then balances else balances[exchange := map[base := 0.0][quote := 0.0]]
  }

  /** `exchange_balances[exchange][asset] = amount`. */
  function SetHolding(balances: Balances, exchange: string, asset: string, amount: real): Balances {
    balances[exchange := WalletOf(balances, exchange)[asset := amount]]
  }

  /** `buy_vwap * trade_size * (1 + buy_fee)`. */
  function BuyCostWithFee(ctx: Context, o: Opportunity): real {
    Times(Times(o.buyVwap, o.tradeSize), 1.0 + Get(ctx.fees, o.buyExchange))
  }

  /** `sell_vwap * trade_size * (1 - sell_fee)`. */
  function SellProceedsAfterFee(ctx: Context, o: Opportunity): real {
    Times(Times(o.sellVwap, o.tradeSize), 1.0 - Get(ctx.fees, o.sellExchange))
  }

  /** `setdefault` of the buyer's and then the seller's wallet. */
  function OpenWallets(ctx: Context, balances: Balances, o: Opportunity): Balances {
    WithWallet(WithWallet(balances, o.buyExchange, ctx.baseAsset, ctx.quoteAsset), o.sellExchange, ctx.baseAsset, ctx.quoteAsset)
  }

  /** The buyer pays the cost with its fee out of its quote asset (never
      going below 0) and receives the size in the base asset. */
  function BuyerPays(ctx: Context, balances: Balances, o: Opportunity): Balances {
    var b1 := SetHolding(balances, o.buyExchange, ctx.quoteAsset,
                         Max(0.0, Holding(balances, o.buyExchange, ctx.quoteAsset) - BuyCostWithFee(ctx, o)));
    SetHolding(b1, o.buyExchange, ctx.baseAsset, Holding(b1, o.buyExchange, ctx.baseAsset) + o.tradeSize)
  }

  /** The seller gives up the size of its base asset (never going below 0)
      and receives the proceeds after its fee less the transfer cost, if
      positive, in the quote asset. */
  function SellerDelivers(ctx: Context, balances: Balances, o: Opportunity): Balances {
    var b3 := SetHolding(balances, o.sellExchange, ctx.baseAsset,
                         Max(0.0, Holding(balances, o.sellExchange, ctx.baseAsset) - o.tradeSize));
    SetHolding(b3, o.sellExchange, ctx.quoteAsset,
               Holding(b3, o.sellExchange, ctx.quoteAsset) + Max(0.0, SellProceedsAfterFee(ctx, o) - ctx.transferCostUsd))
  }

  /** The wallet updates of `_simulate_execution`, in the source's order. */
  function SettleWallets(ctx: Context, balances: Balances, o: Opportunity): Balances {
    SellerDelivers(ctx, BuyerPays(ctx, OpenWallets(ctx, balances, o), o), o)
  }

  /** `_simulate_execution` of `o` between the books at `bi` and `si`. */
  function Execute(ctx: Context, s: EngineState, o: Opportunity, bi: nat, si: nat): EngineState
    requires bi < |s.books| && si < |s.books|
  {
    s.(books := ReserveBooks(s.books, bi, si, o.tradeSize),
       balances := SettleWallets(ctx, s.balances, o),
       totalPnlUsd := s.totalPnlUsd + o.expectedProfitUsd,
       balanceUsd := s.balanceUsd + o.expectedProfitUsd,
       trades := BoundedAppend(s.trades, TradeOf(o), TradeCapacity))
  }

  /** One iteration of the pair loop. */
  function PairStep(ctx: Context, s: EngineState, i: nat, j: nat): (r: EngineState)
    requires i < |s.books| && j < |s.books|
    ensures |r.books| == |s.books|
  {
    if Eligible(ctx, s.books, i, j) then EligibleStep(ctx, s, i, j) else s
  }

  /** A pair step keeps the exchanges and symbols of the books, in order. */
  lemma PairStepListing(ctx: Context, s: EngineState, i: nat, j: nat)
    requires i < |s.books| && j < |s.books|
    ensures SameListing(s.books, PairStep(ctx, s, i, j).books)
  {
  }

  /** The evaluation of an eligible pair: its opportunity and metric are
      recorded, and it is executed when it qualifies. */
  function EligibleStep(ctx: Context, s: EngineState, i: nat, j: nat): (r: EngineState)
    requires i < |s.books| && j < |s.books|
    ensures SameListing(s.books, r.books)
  {
    var o := StepOpportunity(ctx, s, i, j);
    var s1 := s.(opportunities := BoundedAppend(s.opportunities, o, OpportunityCapacity),
                 metrics := BoundedAppend(s.metrics, MetricOf(o, ctx.lastExchange), MetricCapacity));
    if Executes(ctx, o) then Execute(ctx, s1, o, i, j) else s1
  }

  /** Every pair indexes one of `n` books. */
  predicate InRange(pairs: seq<(nat, nat)>, n: nat) {
    forall k :: 0 <= k < |pairs| ==> pairs[k].0 < n && pairs[k].1 < n
  }

  /** The index pairs from `(i, j)` on in the order `permutations(keys, 2)`
      visits them: `i` the buy book, `j` the sell book, `j` running fastest.
      Pairs with `i == j` are listed too; `Eligible` skips them. */
  function PairsFrom(n: nat, i: nat, j: nat): (r: seq<(nat, nat)>)
    requires i <= n && j <= n
    decreases n - i, n - j
  {
    if i == n then []
    else if j == n then PairsFrom(n, i + 1, 0)
    else [(i, j)] + PairsFrom(n, i, j + 1)
  }

  /** The pairs from `(i, j)` on: the pair `(i, j)` and then the rest of its
      row, or the next row once the row is done, or nothing after the last
      row. */
  lemma PairsFromSteps(n: nat, i: nat, j: nat)
    requires i <= n && j <= n
    ensures i < n && j < n ==> PairsFrom(n, i, j) == [(i, j)] + PairsFrom(n, i, j + 1)
    ensures i < n ==> PairsFrom(n, i, n) == PairsFrom(n, i + 1, 0)
    ensures PairsFrom(n, n, j) == []
  {
  }

  /** Every pair listed indexes one of the `n` books. */
  lemma {:induction false} PairsFromInRange(n: nat, i: nat, j: nat)
    requires i <= n && j <= n
    ensures InRange(PairsFrom(n, i, j), n)
    decreases n - i, n - j
  {
    PairsFromSteps(n, i, j);
    if i < n && j == n {
      PairsFromInRange(n, i + 1, 0);
    } else if i < n {
      var rest := PairsFrom(n, i, j + 1);
      PairsFromInRange(n, i, j + 1);
      var r := [(i, j)] + rest;
      forall k | 0 <= k < |r| ensures r[k].0 < n && r[k].1 < n {
        if k > 0 {
          assert r[k] == rest[k - 1];
        }
      }
    }
  }

  /** From `(i, j)` on, the pairs listed are exactly the rest of row `i` and
      every pair of the later rows; from `(0, 0)` that is every ordered pair
      of indices below `n`. */
  lemma PairsFromCovers(n: nat, i: nat, j: nat, a: nat, b: nat)
    requires i < n && j <= n
    ensures (a, b) in PairsFrom(n, i, j) <==> (i < a < n && b < n) || (a == i && j <= b < n)
  {
    var r := PairsFrom(n, i, j);
    if (a, b) in r {
      PairsFromAfter(n, i, j, (a, b));
      PairsFromInRange(n, i, j);
      var k :| 0 <= k < |r| && r[k] == (a, b);
    }
    if (i < a < n && b < n) || (a == i && j <= b < n) {
      PairsFromComplete(n, i, j, a, b);
    }
  }

  /** Every later position of row `i`, and every position of a later row,
      is listed from `(i, j)` on. */
  lemma {:induction false} PairsFromComplete(n: nat, i: nat, j: nat, a: nat, b: nat)
    requires i < n && j <= n
    requires (i < a < n && b < n) || (a == i && j <= b < n)
    ensures (a, b) in PairsFrom(n, i, j)
    decreases n - i, n - j
  {
    PairsFromSteps(n, i, j);
    if j == n {
      PairsFromComplete(n, i + 1, 0, a, b);
    } else if (a, b) != (i, j) {
      PairsFromComplete(n, i, j + 1, a, b);
    }
  }

  /** `(a, b)` comes before `(c, d)` in row-major order. */
  predicate Before(p: (nat, nat), q: (nat, nat)) {
    p.0 < q.0 || (p.0 == q.0 && p.1 < q.1)
  }

  /** Every pair of `s` comes before each pair listed after it. */
  predicate Increasing(s: seq<(nat, nat)>) {
    forall k, l :: 0 <= k < l < |s| ==> Before(s[k], s[l])
  }

  /** A pair that comes before every pair of an increasing list may be put
      in front of it. */
  lemma IncreasingCons(x: (nat, nat), rest: seq<(nat, nat)>)
    requires Increasing(rest)
    requires forall q :: q in rest ==> Before(x, q)
    ensures Increasing([x] + rest)
  {
    var s := [x] + rest;
    forall k, l | 0 <= k < l < |s| ensures Before(s[k], s[l]) {
      assert s[l] == rest[l - 1];
      assert rest[l - 1] in rest;
      if k > 0 {
        assert s[k] == rest[k - 1];
      }
    }
  }

  /** Every pair listed from `(i, j)` on is `(i, j)` itself or comes after
      it. */
  lemma {:induction false} PairsFromAfter(n: nat, i: nat, j: nat, q: (nat, nat))
    requires i <= n && j <= n && q in PairsFrom(n, i, j)
    ensures i < q.0 || (i == q.0 && j <= q.1)
    decreases n - i, n - j
  {
    PairsFromSteps(n, i, j);
    if i < n && j == n {
      PairsFromAfter(n, i + 1, 0, q);
    } else if i < n && q != (i, j) {
      PairsFromAfter(n, i, j + 1, q);
    }
  }

  /** The pairs listed after `(i, j)` all come after it. */
  lemma PairsFromAfterHead(n: nat, i: nat, j: nat)
    requires i < n && j < n
    ensures forall q :: q in PairsFrom(n, i, j + 1) ==> Before((i, j), q)
  {
    forall q | q in PairsFrom(n, i, j + 1) ensures Before((i, j), q) {
      PairsFromAfter(n, i, j + 1, q);
    }
  }

  /** The pairs come in strictly increasing row-major order, so none of them
      is visited twice. */
  lemma {:induction false} PairsFromOrdered(n: nat, i: nat, j: nat)
    requires i <= n && j <= n
    ensures Increasing(PairsFrom(n, i, j))
    decreases n - i, n - j
  {
    PairsFromSteps(n, i, j);
    if i < n && j == n {
      PairsFromOrdered(n, i + 1, 0);
    } else if i < n {
      PairsFromOrdered(n, i, j + 1);
      PairsFromAfterHead(n, i, j);
      IncreasingCons((i, j), PairsFrom(n, i, j + 1));
    }
  }

  /** The pass over `pairs`, one pair step after the other. */
  function PassOver(ctx: Context, s: EngineState, pairs: seq<(nat, nat)>): (r: EngineState)
    requires InRange(pairs, |s.books|)
    ensures |r.books| == |s.books|
    decreases |pairs|
  {
    if pairs == [] then s
    else PassOver(ctx, PairStep(ctx, s, pairs[0].0, pairs[0].1), pairs[1..])
  }

  /** `_evaluate_all_pairs`: the pass over every ordered pair of stored books. */
  function Pass(ctx: Context, s: EngineState): (r: EngineState)
    ensures |r.books| == |s.books|
  {
    PairsFromInRange(|s.books|, 0, 0);
    PassOver(ctx, s, PairsFrom(|s.books|, 0, 0))
  }

  /** The pair loop's iterations with the buy book at `i`, from the sell
      book at `j` to the last one. */
  function RowPass(ctx: Context, s: EngineState, i: nat, j: nat): (r: EngineState)
    requires i < |s.books| && j <= |s.books|
    ensures |r.books| == |s.books|
    decreases |s.books| - j
  {
    if j == |s.books| then s else RowPass(ctx, PairStep(ctx, s, i, j), i, j + 1)
  }

  /** One turn of the row: the pair step at `(i, j)`, then the rest. */
  lemma RowPassStep(ctx: Context, s: EngineState, i: nat, j: nat)
    requires i < |s.books| && j < |s.books|
    ensures RowPass(ctx, s, i, j) == RowPass(ctx, PairStep(ctx, s, i, j), i, j + 1)
  {
  }

  /** The pass from `(i, j)` on is the rest of row `i` followed by the pass
      from the next row on. */
  lemma {:induction false} PassOverRow(ctx: Context, s: EngineState, n: nat, i: nat, j: nat)
    requires n == |s.books| && i < n && j <= n
    ensures InRange(PairsFrom(n, i, j), n) && InRange(PairsFrom(n, i + 1, 0), n)
    ensures PassOver(ctx, s, PairsFrom(n, i, j)) == PassOver(ctx, RowPass(ctx, s, i, j), PairsFrom(n, i + 1, 0))
    decreases n - j
  {
    PairsFromInRange(n, i, j);
    PairsFromInRange(n, i + 1, 0);
    if j < n {
      PassOverRow(ctx, PairStep(ctx, s, i, j), n, i, j + 1);
      PassOverRowCons(ctx, s, n, i, j);
    } else {
      PairsFromSteps(n, i, j);
    }
  }

  /** The step of `PassOverRow`: the claim for the state after `(i, j)`
      from `j + 1` on gives the claim for `s` from `j` on. */
  lemma PassOverRowCons(ctx: Context, s: EngineState, n: nat, i: nat, j: nat)
    requires n == |s.books| && i < n && j < n
    requires InRange(PairsFrom(n, i, j + 1), n) && InRange(PairsFrom(n, i + 1, 0), n)
    requires PassOver(ctx, PairStep(ctx, s, i, j), PairsFrom(n, i, j + 1))
          == PassOver(ctx, RowPass(ctx, PairStep(ctx, s, i, j), i, j + 1), PairsFrom(n, i + 1, 0))
    ensures InRange(PairsFrom(n, i, j), n)
    ensures PassOver(ctx, s, PairsFrom(n, i, j)) == PassOver(ctx, RowPass(ctx, s, i, j), PairsFrom(n, i + 1, 0))
  {
    PairsFromInRange(n, i, j);
    PairsFromSteps(n, i, j);
    PassOverHead(ctx, s, PairsFrom(n, i, j), i, j, PairsFrom(n, i, j + 1));
    RowPassStep(ctx, s, i, j);
  }

  /** The pass over a list that starts with `(i, j)`: the pair step at
      `(i, j)`, then the pass over the rest. */
  lemma PassOverHead(ctx: Context, s: EngineState, pairs: seq<(nat, nat)>, i: nat, j: nat, rest: seq<(nat, nat)>)
    requires InRange(pairs, |s.books|) && pairs == [(i, j)] + rest
    ensures i < |s.books| && j < |s.books| && InRange(rest, |s.books|)
    ensures PassOver(ctx, s, pairs) == PassOver(ctx, PairStep(ctx, s, i, j), rest)
  {
    assert pairs[0] == (i, j) && pairs[1..] == rest;
    forall k | 0 <= k < |rest| ensures rest[k].0 < |s.books| && rest[k].1 < |s.books| {
      assert rest[k] == pairs[k + 1];
    }
  }


  /** The opportunities the pass over `pairs` records, oldest first. */
  function PassLog(ctx: Context, s: EngineState, pairs: seq<(nat, nat)>): seq<Opportunity>
    requires InRange(pairs, |s.books|)
    decreases |pairs|
  {
    if pairs == [] then []
    else
      var (i, j) := pairs[0];
      var rest := PassLog(ctx, PairStep(ctx, s, i, j), pairs[1..]);
      if Eligible(ctx, s.books, i, j) then [StepOpportunity(ctx, s, i, j)] + rest else rest
  }

  /** The eligible pairs among `pairs`, as exchange names, in order. */
  function EligiblePairs(ctx: Context, books: seq<Book>, pairs: seq<(nat, nat)>): seq<(string, string)>
    requires InRange(pairs, |books|)
  {
    if pairs == [] then []
    else
      var (i, j) := pairs[0];
      var rest := EligiblePairs(ctx, books, pairs[1..]);
      if Eligible(ctx, books, i, j) then [(books[i].exchange, books[j].exchange)] + rest else rest
  }

  /** The buy and sell exchanges of each opportunity of a log. */
  function Exchanges(log: seq<Opportunity>): (r: seq<(string, string)>)
    ensures |r| == |log|
  {
    seq(|log|, k requires 0 <= k < |log| => (log[k].buyExchange, log[k].sellExchange))
  }

  /** The metrics recorded for a list of opportunities. */
  function Metrics(log: seq<Opportunity>, triggerExchange: string): (r: seq<Metric>)
    ensures |r| == |log|
  {
    seq(|log|, k requires 0 <= k < |log| => MetricOf(log[k], triggerExchange))
  }

  /** Only the exchanges and symbols of the books decide which pairs are
      eligible, and a pair step does not change those. */
  lemma {:induction false} EligiblePairsOfListing(ctx: Context, books: seq<Book>, books': seq<Book>, pairs: seq<(nat, nat)>)
    requires SameListing(books, books') && InRange(pairs, |books|)
    ensures EligiblePairs(ctx, books', pairs) == EligiblePairs(ctx, books, pairs)
    decreases |pairs|
  {
    if pairs != [] {
      EligiblePairsOfListing(ctx, books, books', pairs[1..]);
    }
  }

  /** One pair step: when the pair is eligible, its opportunity, which names
      the pair's exchanges, and its metric are appended to the logs; when it
      is not, nothing changes. */
  lemma PairStepLogs(ctx: Context, s: EngineState, i: nat, j: nat)
    requires i < |s.books| && j < |s.books|
    ensures var r := PairStep(ctx, s, i, j);
      && (Eligible(ctx, s.books, i, j) ==>
            var o := StepOpportunity(ctx, s, i, j);
            && (o.buyExchange, o.sellExchange) == (s.books[i].exchange, s.books[j].exchange)
            && r.opportunities == BoundedAppend(s.opportunities, o, OpportunityCapacity)
            && r.metrics == BoundedAppend(s.metrics, MetricOf(o, ctx.lastExchange), MetricCapacity))
      && (!Eligible(ctx, s.books, i, j) ==> r == s)
  {
    EvaluatePairIdentity(PricingOf(ctx, s.balances), s.books[i], s.books[j],
                         LatencyMs(ctx.now, s.books[i], s.books[j]), ctx.now);
  }

  /** The pass records exactly one opportunity per eligible ordered pair of
      stored books, in `permutations` order, each naming that pair's buy and
      sell exchanges. */
  lemma {:induction false} PassLogFollowsPairs(ctx: Context, s: EngineState, pairs: seq<(nat, nat)>)
    requires InRange(pairs, |s.books|)
    ensures Exchanges(PassLog(ctx, s, pairs)) == EligiblePairs(ctx, s.books, pairs)
    decreases |pairs|
  {
    if pairs != [] {
      var (i, j) := pairs[0];
      var s' := PairStep(ctx, s, i, j);
      PairStepListing(ctx, s, i, j);
      PassLogFollowsPairs(ctx, s', pairs[1..]);
      EligiblePairsOfListing(ctx, s.books, s'.books, pairs[1..]);
      PairStepLogs(ctx, s, i, j);
      var rest := PassLog(ctx, s', pairs[1..]);
      if Eligible(ctx, s.books, i, j) {
        var o := StepOpportunity(ctx, s, i, j);
        assert Exchanges([o] + rest) == [(o.buyExchange, o.sellExchange)] + Exchanges(rest);
      }
    }
  }

  /** After a pass the opportunity log holds the last 600 of what it held
      before followed by what the pass recorded. */
  lemma {:induction false} PassAppendsOpportunities(ctx: Context, s: EngineState, pairs: seq<(nat, nat)>)
    requires InRange(pairs, |s.books|)
    requires |s.opportunities| <= OpportunityCapacity
    ensures PassOver(ctx, s, pairs).opportunities == Last(s.opportunities + PassLog(ctx, s, pairs), OpportunityCapacity)
    decreases |pairs|
  {
    if pairs == [] {
      assert s.opportunities + [] == s.opportunities;
      LastIsIdentity(s.opportunities, OpportunityCapacity);
    } else {
      var (i, j) := pairs[0];
      var s' := PairStep(ctx, s, i, j);
      PairStepLogs(ctx, s, i, j);
      PassAppendsOpportunities(ctx, s', pairs[1..]);
      if Eligible(ctx, s.books, i, j) {
        AppendThenExtend(s.opportunities, StepOpportunity(ctx, s, i, j), PassLog(ctx, s', pairs[1..]), OpportunityCapacity);
      }
    }
  }

  /** After a pass the metrics log holds the last 600 of its old entries
      followed by one metric per opportunity the pass recorded, naming the
      exchange whose book triggered the pass. */
  lemma {:induction false} PassAppendsMetrics(ctx: Context, s: EngineState, pairs: seq<(nat, nat)>)
    requires InRange(pairs, |s.books|)
    requires |s.metrics| <= MetricCapacity
    ensures PassOver(ctx, s, pairs).metrics == Last(s.metrics + Metrics(PassLog(ctx, s, pairs), ctx.lastExchange), MetricCapacity)
    decreases |pairs|
  {
    if pairs == [] {
      assert s.metrics + [] == s.metrics;
      LastIsIdentity(s.metrics, MetricCapacity);
    } else {
      var (i, j) := pairs[0];
      var s' := PairStep(ctx, s, i, j);
      PairStepLogs(ctx, s, i, j);
      PassAppendsMetrics(ctx, s', pairs[1..]);
      if Eligible(ctx, s.books, i, j) {
        MetricsStep(s.metrics, StepOpportunity(ctx, s, i, j), PassLog(ctx, s', pairs[1..]), ctx.lastExchange);
      }
    }
  }

  lemma LastIsIdentity<T>(xs: seq<T>, cap: nat)
    requires |xs| <= cap
    ensures Last(xs, cap) == xs
  {
  }

  /** Appending one item to a bounded log and then the rest gives the last
      `cap` items of everything. */
  lemma AppendThenExtend<T>(xs: seq<T>, x: T, rest: seq<T>, cap: nat)
    ensures Last(BoundedAppend(xs, x, cap) + rest, cap) == Last(xs + ([x] + rest), cap)
  {
    BoundedAppendIsLast(xs, x, cap);
    LastOfLast(xs + [x], rest, cap);
    assert xs + [x] + rest == xs + ([x] + rest);
  }

  /** No wallet holds a negative amount of anything. */
  predicate NonNegativeHoldings(balances: Balances) {
    forall exchange, asset :: exchange in balances && asset in balances[exchange] ==> balances[exchange][asset] >= 0.0
  }

  lemma SetHoldingKeepsNonNegative(balances: Balances, exchange: string, asset: string, amount: real)
    requires NonNegativeHoldings(balances) && amount >= 0.0
    ensures NonNegativeHoldings(SetHolding(balances, exchange, asset, amount))
  {
  }

  lemma HoldingNonNegative(balances: Balances, exchange: string, asset: string)
    requires NonNegativeHoldings(balances)
    ensures Holding(balances, exchange, asset) >= 0.0
  {
  }

  lemma WithWalletKeepsNonNegative(balances: Balances, exchange: string, base: string, quote: string)
    requires NonNegativeHoldings(balances)
    ensures NonNegativeHoldings(WithWallet(balances, exchange, base, quote))
  {
  }

  /** Settling a trade of non-negative size leaves no holding negative: the
      amounts taken away are clamped at 0 and the amounts added are not
      negative. */
  lemma SettleKeepsNonNegative(ctx: Context, balances: Balances, o: Opportunity)
    requires NonNegativeHoldings(balances) && o.tradeSize >= 0.0
    ensures NonNegativeHoldings(SettleWallets(ctx, balances, o))
  {
    var b0 := OpenWallets(ctx, balances, o);
    WithWalletKeepsNonNegative(balances, o.buyExchange, ctx.baseAsset, ctx.quoteAsset);
    WithWalletKeepsNonNegative(WithWallet(balances, o.buyExchange, ctx.baseAsset, ctx.quoteAsset),
                               o.sellExchange, ctx.baseAsset, ctx.quoteAsset);
    BuyerPaysKeepsNonNegative(ctx, b0, o);
    SellerDeliversKeepsNonNegative(ctx, BuyerPays(ctx, b0, o), o);
  }

  lemma BuyerPaysKeepsNonNegative(ctx: Context, balances: Balances, o: Opportunity)
    requires NonNegativeHoldings(balances) && o.tradeSize >= 0.0
    ensures NonNegativeHoldings(BuyerPays(ctx, balances, o))
  {
    var a1 := Max(0.0, Holding(balances, o.buyExchange, ctx.quoteAsset) - BuyCostWithFee(ctx, o));
    var b1 := SetHolding(balances, o.buyExchange, ctx.quoteAsset, a1);
    SetHoldingKeepsNonNegative(balances, o.buyExchange, ctx.quoteAsset, a1);
    HoldingNonNegative(b1, o.buyExchange, ctx.baseAsset);
    SetHoldingKeepsNonNegative(b1, o.buyExchange, ctx.baseAsset, Holding(b1, o.buyExchange, ctx.baseAsset) + o.tradeSize);
  }

  lemma SellerDeliversKeepsNonNegative(ctx: Context, balances: Balances, o: Opportunity)
    requires NonNegativeHoldings(balances)
    ensures NonNegativeHoldings(SellerDelivers(ctx, balances, o))
  {
    var a3 := Max(0.0, Holding(balances, o.sellExchange, ctx.baseAsset) - o.tradeSize);
    var b3 := SetHolding(balances, o.sellExchange, ctx.baseAsset, a3);
    SetHoldingKeepsNonNegative(balances, o.sellExchange, ctx.baseAsset, a3);
    HoldingNonNegative(b3, o.sellExchange, ctx.quoteAsset);
    SetHoldingKeepsNonNegative(b3, o.sellExchange, ctx.quoteAsset,
      Holding(b3, o.sellExchange, ctx.quoteAsset) + Max(0.0, SellProceedsAfterFee(ctx, o) - ctx.transferCostUsd));
  }

  /** What the buyer's side of settling moves, for distinct base and quote
      assets: its quote falls by the cost with fee (not below 0) and its base
      rises by the size; no other wallet changes. */
  lemma BuyerPaysEffect(ctx: Context, balances: Balances, o: Opportunity)
    requires ctx.baseAsset != ctx.quoteAsset
    ensures var r := BuyerPays(ctx, balances, o);
      && o.buyExchange in r
      && Holding(r, o.buyExchange, ctx.quoteAsset) == Max(0.0, Holding(balances, o.buyExchange, ctx.quoteAsset) - BuyCostWithFee(ctx, o))
      && Holding(r, o.buyExchange, ctx.baseAsset) == Holding(balances, o.buyExchange, ctx.baseAsset) + o.tradeSize
      && forall exchange :: exchange != o.buyExchange ==> WalletOf(r, exchange) == WalletOf(balances, exchange)
  {
  }

  /** What the seller's side of settling moves, for distinct base and quote
      assets: its base falls by the size (not below 0) and its quote rises by
      the proceeds after fee less the transfer cost, if positive; no other
      wallet changes. */
  lemma SellerDeliversEffect(ctx: Context, balances: Balances, o: Opportunity)
    requires ctx.baseAsset != ctx.quoteAsset
    ensures var r := SellerDelivers(ctx, balances, o);
      && o.sellExchange in r
      && Holding(r, o.sellExchange, ctx.baseAsset) == Max(0.0, Holding(balances, o.sellExchange, ctx.baseAsset) - o.tradeSize)
      && Holding(r, o.sellExchange, ctx.quoteAsset)
           == Holding(balances, o.sellExchange, ctx.quoteAsset) + Max(0.0, SellProceedsAfterFee(ctx, o) - ctx.transferCostUsd)
      && forall exchange :: exchange != o.sellExchange ==> WalletOf(r, exchange) == WalletOf(balances, exchange)
  {
  }

  /** Opening the wallets changes no holding. */
  lemma OpenWalletsKeepsHoldings(ctx: Context, balances: Balances, o: Opportunity)
    ensures var r := OpenWallets(ctx, balances, o);
      && o.buyExchange in r && o.sellExchange in r
      && forall exchange, asset :: Holding(r, exchange, asset) == Holding(balances, exchange, asset)
  {
  }

  /** What settling moves, for distinct base and quote assets and distinct
      exchanges: the buyer's quote falls by the cost with fee (not below 0)
      and its base rises by the size; the seller's base falls by the size (not
      below 0) and its quote rises by the proceeds less the transfer cost (if
      positive); no other holding changes, and both wallets exist
      afterwards. */
  lemma SettleWalletsEffect(ctx: Context, balances: Balances, o: Opportunity)
    requires ctx.baseAsset != ctx.quoteAsset && o.buyExchange != o.sellExchange
    ensures var r := SettleWallets(ctx, balances, o);
      var base := ctx.baseAsset;
      var quote := ctx.quoteAsset;
      && o.buyExchange in r && o.sellExchange in r
      && Holding(r, o.buyExchange, quote) == Max(0.0, Holding(balances, o.buyExchange, quote) - BuyCostWithFee(ctx, o))
      && Holding(r, o.buyExchange, base) == Holding(balances, o.buyExchange, base) + o.tradeSize
      && Holding(r, o.sellExchange, base) == Max(0.0, Holding(balances, o.sellExchange, base) - o.tradeSize)
      && Holding(r, o.sellExchange, quote)
           == Holding(balances, o.sellExchange, quote) + Max(0.0, SellProceedsAfterFee(ctx, o) - ctx.transferCostUsd)
      && forall exchange, asset :: exchange != o.buyExchange && exchange != o.sellExchange ==>
           Holding(r, exchange, asset) == Holding(balances, exchange, asset)
  {
    var b0 := OpenWallets(ctx, balances, o);
    var b1 := BuyerPays(ctx, b0, o);
    OpenWalletsKeepsHoldings(ctx, balances, o);
    BuyerPaysEffect(ctx, b0, o);
    SellerDeliversEffect(ctx, b1, o);
    assert WalletOf(b1, o.sellExchange) == WalletOf(b0, o.sellExchange);
  }

  /** The opportunities of a log that are executed, in order. */
  function ExecutedOf(ctx: Context, log: seq<Opportunity>): seq<Opportunity> {
    if log == [] then []
    else (if Executes(ctx, log[0]) then [log[0]] else []) + ExecutedOf(ctx, log[1..])
  }

  /** The trades recorded for executed opportunities. */
  function Trades(executed: seq<Opportunity>): (r: seq<SimulatedTrade>)
    ensures |r| == |executed|
  {
    seq(|executed|, k requires 0 <= k < |executed| => TradeOf(executed[k]))
  }

  /** The sum of the expected profits of `executed`. */
  function TotalProfit(executed: seq<Opportunity>): real {
    if executed == [] then 0.0 else executed[0].expectedProfitUsd + TotalProfit(executed[1..])
  }

  /** One pair step executes the pair's opportunity exactly when the pair is
      eligible and the opportunity qualifies; an executed opportunity has a
      positive size, adds its expected profit to the P&L and the balance,
      settles the wallets and is logged as a trade. Otherwise the ledger is
      untouched. */
  lemma PairStepLedger(ctx: Context, s: EngineState, i: nat, j: nat)
    requires i < |s.books| && j < |s.books|
    ensures var r := PairStep(ctx, s, i, j);
      var o := StepOpportunity(ctx, s, i, j);
      && (Eligible(ctx, s.books, i, j) && Executes(ctx, o) ==>
            && o.tradeSize > 0.0
            && r.totalPnlUsd == s.totalPnlUsd + o.expectedProfitUsd
            && r.balanceUsd == s.balanceUsd + o.expectedProfitUsd
            && r.balances == SettleWallets(ctx, s.balances, o)
            && r.trades == BoundedAppend(s.trades, TradeOf(o), TradeCapacity))
      && (!(Eligible(ctx, s.books, i, j) && Executes(ctx, o)) ==>
            && r.totalPnlUsd == s.totalPnlUsd && r.balanceUsd == s.balanceUsd
            && r.balances == s.balances && r.trades == s.trades)
  {
    var o := StepOpportunity(ctx, s, i, j);
    if Eligible(ctx, s.books, i, j) && Executes(ctx, o) {
      AcceptedIsFeasible(PricingOf(ctx, s.balances), s.books[i], s.books[j],
                         LatencyMs(ctx.now, s.books[i], s.books[j]), ctx.now);
    }
  }

  /** Over a pass, the P&L and the balance both grow by the expected profits
      of the executed opportunities, so the balance stays the starting
      balance plus the P&L. */
  lemma {:induction false} PassProfit(ctx: Context, s: EngineState, pairs: seq<(nat, nat)>)
    requires InRange(pairs, |s.books|)
    ensures var r := PassOver(ctx, s, pairs);
      var executed := ExecutedOf(ctx, PassLog(ctx, s, pairs));
      && r.totalPnlUsd == s.totalPnlUsd + TotalProfit(executed)
      && r.balanceUsd == s.balanceUsd + TotalProfit(executed)
    decreases |pairs|
  {
    if pairs != [] {
      var (i, j) := pairs[0];
      var s' := PairStep(ctx, s, i, j);
      PairStepLedger(ctx, s, i, j);
      PassProfit(ctx, s', pairs[1..]);
      PassLogStep(ctx, s, i, j, pairs);
      var rest := PassLog(ctx, s', pairs[1..]);
      var o := StepOpportunity(ctx, s, i, j);
      if Eligible(ctx, s.books, i, j) {
        ExecutedOfCons(ctx, o, rest);
        if Executes(ctx, o) {
          var ex := ExecutedOf(ctx, rest);
          assert ([o] + ex)[1..] == ex;
          assert TotalProfit([o] + ex) == o.expectedProfitUsd + TotalProfit(ex);
          assert ExecutedOf(ctx, PassLog(ctx, s, pairs)) == [o] + ex;
          assert s'.totalPnlUsd == s.totalPnlUsd + o.expectedProfitUsd;
        } else {
          assert ExecutedOf(ctx, PassLog(ctx, s, pairs)) == ExecutedOf(ctx, rest);
        }
      }
    }
  }

  /** Over a pass the trade log holds the last 300 of its old trades
      followed by one trade per executed opportunity, in order. */
  lemma {:induction false} PassTrades(ctx: Context, s: EngineState, pairs: seq<(nat, nat)>)
    requires InRange(pairs, |s.books|)
    requires |s.trades| <= TradeCapacity
    ensures PassOver(ctx, s, pairs).trades
              == Last(s.trades + Trades(ExecutedOf(ctx, PassLog(ctx, s, pairs))), TradeCapacity)
    decreases |pairs|
  {
    if pairs == [] {
      assert s.trades + [] == s.trades;
      LastIsIdentity(s.trades, TradeCapacity);
    } else {
      var (i, j) := pairs[0];
      var s' := PairStep(ctx, s, i, j);
      PairStepLedger(ctx, s, i, j);
      PassTrades(ctx, s', pairs[1..]);
      PassLogStep(ctx, s, i, j, pairs);
      var rest := PassLog(ctx, s', pairs[1..]);
      var o := StepOpportunity(ctx, s, i, j);
      if Eligible(ctx, s.books, i, j) {
        ExecutedOfCons(ctx, o, rest);
        if Executes(ctx, o) {
          TradesStep(s.trades, o, ExecutedOf(ctx, rest));
        } else {
          assert ExecutedOf(ctx, PassLog(ctx, s, pairs)) == ExecutedOf(ctx, rest);
        }
      }
    }
  }

  /** Logging one more metric and then the rest keeps the last 600 of all. */
  lemma MetricsStep(metrics: seq<Metric>, o: Opportunity, rest: seq<Opportunity>, trigger: string)
    ensures Last(BoundedAppend(metrics, MetricOf(o, trigger), MetricCapacity) + Metrics(rest, trigger), MetricCapacity)
              == Last(metrics + Metrics([o] + rest, trigger), MetricCapacity)
  {
    AppendThenExtend(metrics, MetricOf(o, trigger), Metrics(rest, trigger), MetricCapacity);
    assert Metrics([o] + rest, trigger) == [MetricOf(o, trigger)] + Metrics(rest, trigger);
  }

  /** Logging one more trade and then the rest keeps the last 300 of all. */
  lemma TradesStep(trades: seq<SimulatedTrade>, o: Opportunity, executed: seq<Opportunity>)
    ensures Last(BoundedAppend(trades, TradeOf(o), TradeCapacity) + Trades(executed), TradeCapacity)
              == Last(trades + Trades([o] + executed), TradeCapacity)
  {
    AppendThenExtend(trades, TradeOf(o), Trades(executed), TradeCapacity);
    assert Trades([o] + executed) == [TradeOf(o)] + Trades(executed);
  }

  lemma ExecutedOfCons(ctx: Context, o: Opportunity, rest: seq<Opportunity>)
    ensures ExecutedOf(ctx, [o] + rest) == (if Executes(ctx, o) then [o] else []) + ExecutedOf(ctx, rest)
  {
    assert ([o] + rest)[1..] == rest;
  }

  /** `PassLog` over a non-empty list of pairs, one step unfolded. */
  lemma PassLogStep(ctx: Context, s: EngineState, i: nat, j: nat, pairs: seq<(nat, nat)>)
    requires InRange(pairs, |s.books|) && pairs != [] && pairs[0] == (i, j)
    ensures var rest := PassLog(ctx, PairStep(ctx, s, i, j), pairs[1..]);
      PassLog(ctx, s, pairs) == if Eligible(ctx, s.books, i, j) then [StepOpportunity(ctx, s, i, j)] + rest else rest
  {
  }

  /** A pass leaves no holding negative if none was. */
  lemma {:induction false} PassKeepsHoldingsNonNegative(ctx: Context, s: EngineState, pairs: seq<(nat, nat)>)
    requires InRange(pairs, |s.books|)
    requires NonNegativeHoldings(s.balances)
    ensures NonNegativeHoldings(PassOver(ctx, s, pairs).balances)
    decreases |pairs|
  {
    if pairs != [] {
      var (i, j) := pairs[0];
      PairStepLedger(ctx, s, i, j);
      var o := StepOpportunity(ctx, s, i, j);
      if Eligible(ctx, s.books, i, j) && Executes(ctx, o) {
        SettleKeepsNonNegative(ctx, s.balances, o);
      }
      PassKeepsHoldingsNonNegative(ctx, PairStep(ctx, s, i, j), pairs[1..]);
    }
  }
}
