/** Walking the levels of one side of a book (`backend/app/engine.py`,
    `_compute_vwap_for_buy`, `_compute_vwap_for_sell`, `_reserve_from_levels`,
    `_depth_available`).

    The three walkers share one rule for how much they take from a level; it is
    stated once, as `Take`, and `Takes` lists what a whole walk takes from each
    level. What the walkers compute is read off that list: the quantity filled
    is its sum, the cost its dot product with the prices, and the side after a
    reservation has each level lowered by its entry. The loops are methods
    proved against these functions. */
module BookDepth {
  import opened Models

  function Min(a: real, b: real): real { if a <= b then a else b }
  function Max(a: real, b: real): real { if a >= b then a else b }

  /** `_depth_available`: the sum of the non-negative parts of the quantities. */
  function Depth(levels: seq<Level>): (d: real)
    ensures d >= 0.0
  {
    if levels == [] then 0.0 else Max(levels[0].quantity, 0.0) + Depth(levels[1..])
  }

  /** What a walk takes from `level` with `remaining` still to fill: nothing
      once the order is filled or from a level without quantity, else as much
      as the level holds, up to `remaining`. */
  function Take(level: Level, remaining: real): (t: real)
    ensures 0.0 <= t
    ensures t <= Max(level.quantity, 0.0) && t <= Max(remaining, 0.0)
  {
    if remaining <= 0.0 || level.quantity <= 0.0 then 0.0 else Min(level.quantity, remaining)
  }

  /** What a walk for `quantity` takes from each level, front to back. */
  function Takes(levels: seq<Level>, quantity: real): (ts: seq<real>)
    ensures |ts| == |levels|
  {
    if levels == [] then []
    else
      var t := Take(levels[0], quantity);
      [t] + Takes(levels[1..], quantity - t)
  }

  function Sum(ts: seq<real>): real {
    if ts == [] then 0.0 else ts[0] + Sum(ts[1..])
  }

  /** What `amount` taken at `level` costs. */
  function Value(level: Level, amount: real): real {
    level.price * amount
  }

  /** The price of taking `ts[i]` at level `i`, summed over the side. */
  function Dot(levels: seq<Level>, ts: seq<real>): real
    requires |ts| == |levels|
  {
    if levels == [] then 0.0 else Value(levels[0], ts[0]) + Dot(levels[1..], ts[1..])
  }

  /** The quantity a walk for `quantity` fills. */
  function Filled(levels: seq<Level>, quantity: real): real {
    Sum(Takes(levels, quantity))
  }

  /** The total price paid (or received) by a walk for `quantity`. */
  function Cost(levels: seq<Level>, quantity: real): real {
    Dot(levels, Takes(levels, quantity))
  }

  /** The average price of a fill: total over quantity, 0 when nothing was
      filled. */
  function Vwap(total: real, filled: real): real {
    if filled > 0.0 then total / filled else 0.0
  }

  /** The volume-weighted average price of a walk. */
  function AveragePrice(levels: seq<Level>, quantity: real): real {
    Vwap(Cost(levels, quantity), Filled(levels, quantity))
  }

  /** The side after a reservation of `quantity`: each level loses what the
      walk takes from it. */
  function Reserved(levels: seq<Level>, quantity: real): (r: seq<Level>)
    ensures |r| == |levels|
  {
    var ts := Takes(levels, quantity);
    seq(|levels|, i requires 0 <= i < |levels| => levels[i].(quantity := levels[i].quantity - ts[i]))
  }

  /** The index of the level at which a walk for `quantity` stops. */
  function FillPoint(levels: seq<Level>, quantity: real): (k: nat)
    ensures k <= |levels|
  {
    if levels == [] || quantity <= 0.0 then 0
    else if levels[0].quantity <= 0.0 then 1 + FillPoint(levels[1..], quantity)
    else if levels[0].quantity >= quantity then 0
    else 1 + FillPoint(levels[1..], quantity - levels[0].quantity)
  }

  // ---------------------------------------------------------------------
  // What a walk takes

  /** A walk with nothing left to fill takes nothing. */
  lemma {:induction false} NothingToFill(levels: seq<Level>, quantity: real)
    requires quantity <= 0.0
    ensures forall i :: 0 <= i < |levels| ==> Takes(levels, quantity)[i] == 0.0
    ensures Filled(levels, quantity) == 0.0
    ensures Cost(levels, quantity) == 0.0
    ensures Reserved(levels, quantity) == levels
  {
    if levels != [] {
      NothingToFill(levels[1..], quantity);
      var ts := Takes(levels, quantity);
      assert ts[1..] == Takes(levels[1..], quantity);
      forall i | 0 <= i < |levels| ensures ts[i] == 0.0 {
        if i > 0 { assert ts[i] == ts[1..][i - 1]; }
      }
    }
  }

  /** A walk takes from no level more than the level holds, and nothing
      negative. */
  lemma {:induction false} TakesBounds(levels: seq<Level>, quantity: real)
    ensures forall i :: 0 <= i < |levels| ==> 0.0 <= Takes(levels, quantity)[i] <= Max(levels[i].quantity, 0.0)
  {
    if levels != [] {
      var t := Take(levels[0], quantity);
      TakesBounds(levels[1..], quantity - t);
      var ts := Takes(levels, quantity);
      assert ts[1..] == Takes(levels[1..], quantity - t);
      forall i | 1 <= i < |levels| ensures 0.0 <= ts[i] <= Max(levels[i].quantity, 0.0) {
        assert ts[i] == ts[1..][i - 1];
      }
    }
  }

  /** A walk fills the requested quantity if the side is deep enough, and the
      whole depth otherwise: `min(quantity, depth)` for a non-negative
      quantity, and nothing for a negative one. */
  lemma {:induction false} FilledIsMinOfDepth(levels: seq<Level>, quantity: real)
    ensures Filled(levels, quantity) == Min(Max(quantity, 0.0), Depth(levels))
  {
    if levels == [] {
    } else if quantity <= 0.0 {
      NothingToFill(levels, quantity);
    } else {
      var t := Take(levels[0], quantity);
      FilledIsMinOfDepth(levels[1..], quantity - t);
      assert Takes(levels, quantity)[1..] == Takes(levels[1..], quantity - t);
    }
  }

  /** The walk never fills more than requested nor more than the side holds,
      and fills everything requested exactly when the side is deep enough. */
  lemma FilledBounds(levels: seq<Level>, quantity: real)
    requires quantity >= 0.0
    ensures 0.0 <= Filled(levels, quantity) <= quantity
    ensures Filled(levels, quantity) <= Depth(levels)
    ensures Filled(levels, quantity) == quantity <==> quantity <= Depth(levels)
  {
    FilledIsMinOfDepth(levels, quantity);
  }

  /** Levels are consumed front to back: before the fill point the walk
      empties every level that has quantity, and after it takes nothing. */
  lemma TakesFrontToBack(levels: seq<Level>, quantity: real)
    ensures forall i :: 0 <= i < FillPoint(levels, quantity) && levels[i].quantity > 0.0 ==>
      Takes(levels, quantity)[i] == levels[i].quantity
    ensures forall i :: FillPoint(levels, quantity) < i < |levels| ==> Takes(levels, quantity)[i] == 0.0
  {
    TakesBeforeFillPoint(levels, quantity);
    TakesAfterFillPoint(levels, quantity);
  }

  /** Before the fill point every level that has quantity is emptied. */
  lemma {:induction false} TakesBeforeFillPoint(levels: seq<Level>, quantity: real)
    ensures forall i :: 0 <= i < FillPoint(levels, quantity) && levels[i].quantity > 0.0 ==>
      Takes(levels, quantity)[i] == levels[i].quantity
  {
    if levels != [] && quantity > 0.0 && levels[0].quantity < quantity {
      var t := Take(levels[0], quantity);
      var ts := Takes(levels, quantity);
      var rest := Takes(levels[1..], quantity - t);
      assert ts[1..] == rest;
      TakesBeforeFillPoint(levels[1..], quantity - t);
      var k := FillPoint(levels[1..], quantity - t);
      assert FillPoint(levels, quantity) == 1 + k;
      forall i | 0 <= i < 1 + k && levels[i].quantity > 0.0 ensures ts[i] == levels[i].quantity {
        if i > 0 { assert ts[i] == rest[i - 1] && levels[1..][i - 1] == levels[i]; }
      }
    }
  }

  /** After the fill point nothing is taken. */
  lemma {:induction false} TakesAfterFillPoint(levels: seq<Level>, quantity: real)
    ensures forall i :: FillPoint(levels, quantity) < i < |levels| ==> Takes(levels, quantity)[i] == 0.0
  {
    if levels == [] {
    } else if quantity <= 0.0 {
      NothingToFill(levels, quantity);
    } else {
      var t := Take(levels[0], quantity);
      var ts := Takes(levels, quantity);
      var rest := Takes(levels[1..], quantity - t);
      assert ts[1..] == rest;
      if levels[0].quantity >= quantity {
        NothingToFill(levels[1..], quantity - t);
        forall i | 1 <= i < |levels| ensures ts[i] == 0.0 { assert ts[i] == rest[i - 1]; }
      } else {
        TakesAfterFillPoint(levels[1..], quantity - t);
        var k := FillPoint(levels[1..], quantity - t);
        assert FillPoint(levels, quantity) == 1 + k;
        forall i | 1 + k < i < |levels| ensures ts[i] == 0.0 { assert ts[i] == rest[i - 1]; }
      }
    }
  }

  // ---------------------------------------------------------------------
  // The average price

  lemma ScaleMonotone(a: real, b: real, t: real)
    requires a <= b && t >= 0.0
    ensures a * t <= b * t
  {
    assert b * t - a * t == (b - a) * t;
  }

  lemma AddBounds(lo: real, hi: real, p: real, t: real, s: real, d: real, sum: real, dot: real)
    requires lo <= p <= hi && t >= 0.0
    requires lo * s <= d <= hi * s
    requires sum == t + s && dot == p * t + d
    ensures lo * sum <= dot <= hi * sum
  {
    ScaleMonotone(lo, p, t);
    ScaleMonotone(p, hi, t);
    assert lo * sum == lo * t + lo * s;
    assert hi * sum == hi * t + hi * s;
  }

  /** When every price lies in `[lo, hi]` and nothing taken is negative, the
      price of the takes lies between `lo` and `hi` times their total. */
  lemma {:induction false} DotBetweenPrices(levels: seq<Level>, ts: seq<real>, lo: real, hi: real)
    requires |ts| == |levels|
    requires forall i :: 0 <= i < |levels| ==> lo <= levels[i].price <= hi && ts[i] >= 0.0
    ensures lo * Sum(ts) <= Dot(levels, ts) <= hi * Sum(ts)
  {
    if levels != [] {
      DotBetweenPrices(levels[1..], ts[1..], lo, hi);
      AddBounds(lo, hi, levels[0].price, ts[0], Sum(ts[1..]), Dot(levels[1..], ts[1..]),
        Sum(ts), Dot(levels, ts));
    }
  }

  lemma DivideBounds(lo: real, hi: real, f: real, c: real)
    requires f > 0.0 && lo * f <= c <= hi * f
    ensures lo <= c / f <= hi
  {
    assert (c / f) * f == c;
    if c / f < lo {
      ScaleMonotone(c / f, lo, f);
    }
    if c / f > hi {
      ScaleMonotone(hi, c / f, f);
    }
  }

  /** The average price of a walk that fills anything lies between the lowest
      and the highest price on the side; with nothing filled it is 0. */
  lemma AveragePriceBetweenPrices(levels: seq<Level>, quantity: real, lo: real, hi: real)
    requires forall i :: 0 <= i < |levels| ==> lo <= levels[i].price <= hi
    ensures Filled(levels, quantity) == 0.0 ==> AveragePrice(levels, quantity) == 0.0
    ensures Filled(levels, quantity) > 0.0 ==> lo <= AveragePrice(levels, quantity) <= hi
  {
    TakesBounds(levels, quantity);
    DotBetweenPrices(levels, Takes(levels, quantity), lo, hi);
    if Filled(levels, quantity) > 0.0 {
      DivideBounds(lo, hi, Filled(levels, quantity), Cost(levels, quantity));
    }
  }

  /** When every price is positive, takes that add up to something cost
      something. */
  lemma {:induction false} DotPositive(levels: seq<Level>, ts: seq<real>)
    requires |ts| == |levels|
    requires forall i :: 0 <= i < |levels| ==> levels[i].price > 0.0 && ts[i] >= 0.0
    ensures Dot(levels, ts) >= 0.0
    ensures Sum(ts) > 0.0 ==> Dot(levels, ts) > 0.0
  {
    if levels != [] {
      DotPositive(levels[1..], ts[1..]);
      assert Value(levels[0], ts[0]) >= 0.0;
      assert ts[0] > 0.0 ==> Value(levels[0], ts[0]) > 0.0;
    }
  }

  /** On a side whose prices are all positive, the average price is 0 exactly
      when nothing was filled. */
  lemma AveragePriceZeroIffNothingFilled(levels: seq<Level>, quantity: real)
    requires forall i :: 0 <= i < |levels| ==> levels[i].price > 0.0
    ensures AveragePrice(levels, quantity) == 0.0 <==> Filled(levels, quantity) == 0.0
  {
    TakesBounds(levels, quantity);
    DotPositive(levels, Takes(levels, quantity));
    FilledIsMinOfDepth(levels, quantity);
    var f := Filled(levels, quantity);
    if f > 0.0 {
      var c := Cost(levels, quantity);
      assert (c / f) * f == c;
      if c / f <= 0.0 {
        ScaleMonotone(c / f, 0.0, f);
      }
    }
  }

  /** A buy of 4 against asks 100 x 2 and 101 x 3 fills 4 at an average of
      (100 x 2 + 101 x 2) / 4. */
  lemma VwapExample()
    ensures Filled([Level(100.0, 2.0), Level(101.0, 3.0)], 4.0) == 4.0
    ensures AveragePrice([Level(100.0, 2.0), Level(101.0, 3.0)], 4.0) == 100.5
  {
    var levels := [Level(100.0, 2.0), Level(101.0, 3.0)];
    assert levels[1..] == [Level(101.0, 3.0)];
    assert Takes(levels[1..], 2.0) == [2.0];
    assert Takes(levels, 4.0) == [2.0, 2.0];
  }

  // ---------------------------------------------------------------------
  // What a reservation leaves

  /** A reservation keeps the number of levels and every price, never raises
      a level, never drives a non-negative level below 0, and leaves alone
      both the levels without quantity and the levels past the fill point;
      the levels before it that had quantity are emptied. */
  lemma ReservedLevels(levels: seq<Level>, quantity: real)
    ensures |Reserved(levels, quantity)| == |levels|
    ensures forall i :: 0 <= i < |levels| ==>
      && Reserved(levels, quantity)[i].price == levels[i].price
      && Reserved(levels, quantity)[i].quantity <= levels[i].quantity
      && (levels[i].quantity >= 0.0 ==> Reserved(levels, quantity)[i].quantity >= 0.0)
      && (levels[i].quantity <= 0.0 ==> Reserved(levels, quantity)[i] == levels[i])
    ensures forall i :: 0 <= i < FillPoint(levels, quantity) && levels[i].quantity > 0.0 ==>
      Reserved(levels, quantity)[i].quantity == 0.0
    ensures forall i :: FillPoint(levels, quantity) < i < |levels| ==>
      Reserved(levels, quantity)[i] == levels[i]
  {
    TakesBounds(levels, quantity);
    TakesFrontToBack(levels, quantity);
  }

  /** A reservation lowers the depth of the side by exactly what a walk for
      the same quantity fills: `min(quantity, depth)` for a non-negative
      quantity. */
  lemma {:induction false} ReservedLowersDepth(levels: seq<Level>, quantity: real)
    ensures Depth(Reserved(levels, quantity)) == Depth(levels) - Filled(levels, quantity)
  {
    if levels != [] {
      var t := Take(levels[0], quantity);
      ReservedLowersDepth(levels[1..], quantity - t);
      var r := Reserved(levels, quantity);
      var ts := Takes(levels, quantity);
      assert ts[1..] == Takes(levels[1..], quantity - t);
      assert r[1..] == Reserved(levels[1..], quantity - t);
    }
  }

  // ---------------------------------------------------------------------
  // The loops
  //
  // Each loop is proved through a function that finishes the loop from any
  // iteration: the loop keeps that function's value fixed, and a lemma
  // equates it with the walk above.

  /** One level of a walk: taking `Take(levels[i], remaining)` there leaves
      the walk of the levels after it. */
  lemma WalkUnfold(levels: seq<Level>, i: nat, remaining: real)
    requires i < |levels|
    ensures var t := Take(levels[i], remaining);
      && Filled(levels[i..], remaining) == t + Filled(levels[i + 1..], remaining - t)
      && Cost(levels[i..], remaining) == Value(levels[i], t) + Cost(levels[i + 1..], remaining - t)
      && Reserved(levels[i..], remaining)
         == [levels[i].(quantity := levels[i].quantity - t)] + Reserved(levels[i + 1..], remaining - t)
  {
    var t := Take(levels[i], remaining);
    assert levels[i..][1..] == levels[i + 1..];
    var ts := Takes(levels[i..], remaining);
    assert ts[1..] == Takes(levels[i + 1..], remaining - t);
  }

  /** The filled quantity and the cost the vwap loop ends with, when it is at
      level `i` with `remaining` still to fill and `filled` and `cost` so far. */
  function VwapLoop(levels: seq<Level>, i: nat, remaining: real, filled: real, cost: real): (real, real)
    requires i <= |levels|
    decreases |levels| - i
  {
    if i == |levels| || remaining <= 0.0 then (filled, cost)
    else
      var take := Min(levels[i].quantity, remaining);
      if take <= 0.0 then VwapLoop(levels, i + 1, remaining, filled, cost)
      else VwapLoop(levels, i + 1, remaining - take, filled + take, cost + Value(levels[i], take))
  }

  /** One iteration of the vwap loop, from the state before it to the state
      after it. */
  lemma VwapLoopStep(levels: seq<Level>, i: nat, remaining: real, filled: real, cost: real,
                     take: real, remaining': real, filled': real, cost': real)
    requires i < |levels| && remaining > 0.0
    requires take == Min(levels[i].quantity, remaining)
    requires take <= 0.0 ==> remaining' == remaining && filled' == filled && cost' == cost
    requires take > 0.0 ==>
      remaining' == remaining - take && filled' == filled + take && cost' == cost + Value(levels[i], take)
    ensures VwapLoop(levels, i, remaining, filled, cost) == VwapLoop(levels, i + 1, remaining', filled', cost')
  {
    if take > 0.0 {
      assert VwapLoop(levels, i, remaining, filled, cost)
          == VwapLoop(levels, i + 1, remaining - take, filled + take, cost + Value(levels[i], take));
    }
  }

  /** Finishing the vwap loop from level `i` adds to what it has so far the
      walk of the levels from `i` on. */
  lemma {:induction false} VwapLoopIsWalk(levels: seq<Level>, i: nat, remaining: real, filled: real, cost: real)
    requires i <= |levels|
    ensures VwapLoop(levels, i, remaining, filled, cost)
         == (filled + Filled(levels[i..], remaining), cost + Cost(levels[i..], remaining))
    decreases |levels| - i
  {
    if i == |levels| {
      assert levels[i..] == [];
    } else if remaining <= 0.0 {
      NothingToFill(levels[i..], remaining);
    } else {
      var t := Take(levels[i], remaining);
      VwapLoopIsWalk(levels, i + 1, remaining - t, filled + t, cost + Value(levels[i], t));
      VwapLoopIsWalkStep(levels, i, remaining, filled, cost);
    }
  }

  /** The step of `VwapLoopIsWalk`: one iteration of the loop against one
      level of the walk. */
  lemma VwapLoopIsWalkStep(levels: seq<Level>, i: nat, remaining: real, filled: real, cost: real)
    requires i < |levels| && remaining > 0.0
    requires var t := Take(levels[i], remaining);
      VwapLoop(levels, i + 1, remaining - t, filled + t, cost + Value(levels[i], t))
      == (filled + t + Filled(levels[i + 1..], remaining - t), cost + Value(levels[i], t) + Cost(levels[i + 1..], remaining - t))
    ensures VwapLoop(levels, i, remaining, filled, cost)
         == (filled + Filled(levels[i..], remaining), cost + Cost(levels[i..], remaining))
  {
    WalkUnfold(levels, i, remaining);
    var t := Take(levels[i], remaining);
    var take := Min(levels[i].quantity, remaining);
    if take <= 0.0 {
      assert t == 0.0 && Value(levels[i], t) == 0.0;
    }
    VwapLoopStep(levels, i, remaining, filled, cost, take, remaining - t, filled + t, cost + Value(levels[i], t));
    Regroup(filled, cost, t, Value(levels[i], t),
      Filled(levels[i..], remaining), Filled(levels[i + 1..], remaining - t),
      Cost(levels[i..], remaining), Cost(levels[i + 1..], remaining - t),
      VwapLoop(levels, i, remaining, filled, cost),
      VwapLoop(levels, i + 1, remaining - t, filled + t, cost + Value(levels[i], t)));
  }

  lemma Regroup(filled: real, cost: real, t: real, value: real, f: real, f': real, c: real, c': real,
                v: (real, real), v': (real, real))
    requires f == t + f' && c == value + c'
    requires v == v' && v' == (filled + t + f', cost + value + c')
    ensures v == (filled + f, cost + c)
  {
  }

  /** When the vwap loop stops, with the value it started from unchanged,
      it has filled what the walk of the whole side fills, at the walk's
      average price. */
  lemma VwapLoopDone(levels: seq<Level>, quantity: real, i: nat, remaining: real, filled: real, cost: real)
    requires i <= |levels| && (i == |levels| || remaining <= 0.0)
    requires VwapLoop(levels, i, remaining, filled, cost) == VwapLoop(levels, 0, quantity, 0.0, 0.0)
    ensures filled == Filled(levels, quantity)
    ensures Vwap(cost, filled) == AveragePrice(levels, quantity)
  {
    VwapLoopIsWalk(levels, 0, quantity, 0.0, 0.0);
    assert levels[0..] == levels;
  }

  /** `_compute_vwap_for_buy`: walks the asks, returning the average price
      paid and the quantity filled. */
  method ComputeVwapForBuy(levels: seq<Level>, quantity: real) returns (avgPrice: real, filled: real)
    ensures filled == Filled(levels, quantity)
    ensures avgPrice == AveragePrice(levels, quantity)
  {
    var remaining := quantity;
    var totalCost := 0.0;
    filled := 0.0;
    var i := 0;
    while i < |levels|
      invariant 0 <= i <= |levels|
      invariant VwapLoop(levels, i, remaining, filled, totalCost) == VwapLoop(levels, 0, quantity, 0.0, 0.0)
    {
      if remaining <= 0.0 {
        break;
      }
      ghost var remaining0, filled0, totalCost0 := remaining, filled, totalCost;
      var level := levels[i];
      var take := Min(level.quantity, remaining);
      if take <= 0.0 {
        VwapLoopStep(levels, i, remaining0, filled0, totalCost0, take, remaining, filled, totalCost);
        i := i + 1;
        continue;
      }
      totalCost := totalCost + level.price * take;
      remaining := remaining - take;
      filled := filled + take;
      VwapLoopStep(levels, i, remaining0, filled0, totalCost0, take, remaining, filled, totalCost);
      i := i + 1;
    }
    VwapLoopDone(levels, quantity, i, remaining, filled, totalCost);
    avgPrice := Vwap(totalCost, filled);
  }

  /** `_compute_vwap_for_sell`: walks the bids, returning the average price
      received and the quantity filled; it computes what the buy walker
      computes. */
  method ComputeVwapForSell(levels: seq<Level>, quantity: real) returns (avgPrice: real, filled: real)
    ensures filled == Filled(levels, quantity)
    ensures avgPrice == AveragePrice(levels, quantity)
  {
    var remaining := quantity;
    var totalValue := 0.0;
    filled := 0.0;
    var i := 0;
    while i < |levels|
      invariant 0 <= i <= |levels|
      invariant VwapLoop(levels, i, remaining, filled, totalValue) == VwapLoop(levels, 0, quantity, 0.0, 0.0)
    {
      if remaining <= 0.0 {
        break;
      }
      ghost var remaining0, filled0, totalValue0 := remaining, filled, totalValue;
      var level := levels[i];
      var take := Min(level.quantity, remaining);
      if take <= 0.0 {
        VwapLoopStep(levels, i, remaining0, filled0, totalValue0, take, remaining, filled, totalValue);
        i := i + 1;
        continue;
      }
      totalValue := totalValue + level.price * take;
      remaining := remaining - take;
      filled := filled + take;
      VwapLoopStep(levels, i, remaining0, filled0, totalValue0, take, remaining, filled, totalValue);
      i := i + 1;
    }
    VwapLoopDone(levels, quantity, i, remaining, filled, totalValue);
    avgPrice := Vwap(totalValue, filled);
  }

  /** The side the reservation loop leaves, when it is at level `i` of
      `levels` with `remaining` still to consume. */
  function ReserveLoop(levels: seq<Level>, i: nat, remaining: real): seq<Level>
    requires i <= |levels|
    decreases |levels| - i
  {
    if i == |levels| || remaining <= 0.0 then levels
    else if levels[i].quantity <= 0.0 then ReserveLoop(levels, i + 1, remaining)
    else
      var consume := Min(levels[i].quantity, remaining);
      ReserveLoop(levels[i := levels[i].(quantity := levels[i].quantity - consume)], i + 1, remaining - consume)
  }

  /** Finishing the reservation loop from level `i` keeps the levels before
      `i` and reserves from the rest. */
  lemma {:induction false} ReserveLoopIsReserved(levels: seq<Level>, i: nat, remaining: real)
    requires i <= |levels|
    ensures ReserveLoop(levels, i, remaining) == levels[..i] + Reserved(levels[i..], remaining)
    decreases |levels| - i
  {
    if i == |levels| {
      assert levels[..i] == levels;
    } else if remaining <= 0.0 {
      NothingToFill(levels[i..], remaining);
      assert levels == levels[..i] + levels[i..];
    } else {
      var t := Take(levels[i], remaining);
      var next := levels[i := levels[i].(quantity := levels[i].quantity - t)];
      ReserveLoopStep(levels, i, remaining);
      ReserveLoopIsReserved(next, i + 1, remaining - t);
      ReservedSplice(levels, i, remaining);
    }
  }

  /** One iteration of the reservation loop lowers level `i` by what the
      walk takes there (nothing from a level without quantity). */
  lemma ReserveLoopStep(levels: seq<Level>, i: nat, remaining: real)
    requires i < |levels| && remaining > 0.0
    ensures var t := Take(levels[i], remaining);
      ReserveLoop(levels, i, remaining)
      == ReserveLoop(levels[i := levels[i].(quantity := levels[i].quantity - t)], i + 1, remaining - t)
  {
    if levels[i].quantity <= 0.0 {
      assert levels[i := levels[i].(quantity := levels[i].quantity - 0.0)] == levels;
    }
  }

  /** Lowering level `i` and reserving from the levels after it is reserving
      from the levels from `i` on. */
  lemma ReservedSplice(levels: seq<Level>, i: nat, remaining: real)
    requires i < |levels|
    ensures var t := Take(levels[i], remaining);
      var next := levels[i := levels[i].(quantity := levels[i].quantity - t)];
      next[..i + 1] + Reserved(next[i + 1..], remaining - t) == levels[..i] + Reserved(levels[i..], remaining)
  {
    WalkUnfold(levels, i, remaining);
    var t := Take(levels[i], remaining);
    var next := levels[i := levels[i].(quantity := levels[i].quantity - t)];
    assert next[..i + 1] == levels[..i] + [next[i]];
    assert next[i + 1..] == levels[i + 1..];
  }

  /** `_reserve_from_levels`: consumes `quantity` from the side in place,
      front to back. */
  method ReserveFromLevels(levels: array<Level>, quantity: real)
    modifies levels
    ensures levels[..] == Reserved(old(levels[..]), quantity)
  {
    var remaining := quantity;
    var i := 0;
    while i < levels.Length
      invariant 0 <= i <= levels.Length
      invariant ReserveLoop(levels[..], i, remaining) == ReserveLoop(old(levels[..]), 0, quantity)
    {
      if remaining <= 0.0 {
        break;
      }
      if levels[i].quantity <= 0.0 {
        i := i + 1;
        continue;
      }
      var consume := Min(levels[i].quantity, remaining);
      levels[i] := levels[i].(quantity := levels[i].quantity - consume);
      remaining := remaining - consume;
      i := i + 1;
    }
    ReserveLoopIsReserved(old(levels[..]), 0, quantity);
    assert old(levels[..])[0..] == old(levels[..]);
  }
}
