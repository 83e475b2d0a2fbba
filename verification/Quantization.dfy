/** Price and size quantization of the execution worker. */
module Quantization {
  import opened Outcomes
  import opened Enums
  import opened Decimals
  import Sizing

  /** At most five significant figures; zero stays zero. */
  function FiveSignificantFigures(price: real): real {
    if price == 0.0 then 0.0 else RoundTo(price, Quantum(price))
  }

  /** One unit of the fifth significant figure. */
  function Quantum(price: real): (q: real)
    requires price != 0.0
    ensures q > 0.0
  {
    Pow10(Adjusted(if price < 0.0 then -price else price) - 4)
  }

  /** None is QuantizeReject. */
  function QuantizeOrderPrice(price: real, tick: real): Option<real> {
    if tick <= 0.0 then None
    else
      var quantized := RoundTo(FiveSignificantFigures(price), tick);
      if quantized <= 0.0 then None else Some(quantized)
  }

  function QuantizeOrderSize(quantity: real, step: real): Option<real> {
    if step <= 0.0 || quantity <= 0.0 then None
    else Some((quantity / step).Floor as real * step)
  }

  // ---------------------------------------------------------------- five figures

  /** Rounding to five figures stays in the closed decade of its argument. */
  lemma FiveFiguresStayInDecade(x: real)
    requires x > 0.0
    ensures var e := Adjusted(x); Pow10(e) <= FiveSignificantFigures(x) <= Pow10(e + 1)
    ensures IsMultiple(FiveSignificantFigures(x), Pow10(Adjusted(x) - 4))
  {
    var e := Adjusted(x);
    var q := Pow10(e - 4);
    AdjustedBounds(x);
    RoundToError(x, q);
    var n := Pow10Divides(e, e - 4);
    var m := Pow10Divides(e + 1, e - 4);
    assert IsMultiple(Pow10(e), q) && IsMultiple(Pow10(e + 1), q);
    RoundToFixes(Pow10(e), q);
    RoundToFixes(Pow10(e + 1), q);
    RoundToMonotone(Pow10(e), x, q);
    RoundToMonotone(x, Pow10(e + 1), q);
  }

  /** Monotone even where the quantum jumps, that is across decades. */
  lemma FiveFiguresMonotone(x: real, y: real)
    requires 0.0 < x <= y
    ensures FiveSignificantFigures(x) <= FiveSignificantFigures(y)
  {
    AdjustedBounds(x);
    AdjustedBounds(y);
    FiveFiguresStayInDecade(x);
    FiveFiguresStayInDecade(y);
    if Adjusted(x) == Adjusted(y) {
      RoundToMonotone(x, y, Quantum(x));
    } else if Adjusted(x) < Adjusted(y) {
      Pow10Monotone(Adjusted(x) + 1, Adjusted(y));
    } else {
      Pow10Monotone(Adjusted(y) + 1, Adjusted(x));
    }
  }

  /** A number in a closed decade that is a multiple of that decade's quantum has five figures. */
  lemma FiveFiguresFix(x: real, e: int)
    requires Pow10(e) <= x <= Pow10(e + 1) && IsMultiple(x, Pow10(e - 4))
    ensures FiveSignificantFigures(x) == x
  {
    if x < Pow10(e + 1) {
      AdjustedUnique(x, e);
      RoundToFixes(x, Pow10(e - 4));
    } else {
      Pow10Step(e + 1);
      AdjustedUnique(x, e + 1);
      var n := Pow10Divides(e + 1, e - 3);
      assert IsMultiple(x, Pow10(e - 3));
      RoundToFixes(x, Pow10(e - 3));
    }
  }

  // ---------------------------------------------------------------- prices

  /** The price grid for a power-of-ten tick: positive, five figures, on a tick. */
  ghost predicate OnGrid(x: real, t: int) {
    x > 0.0 && FiveSignificantFigures(x) == x && IsMultiple(x, Pow10(t))
  }

  lemma NonPositiveIsRejected(price: real, tick: real)
    requires price <= 0.0
    ensures QuantizeOrderPrice(price, tick) == None
  {
    if tick > 0.0 {
      if price < 0.0 { RoundToError(price, Quantum(price)); }
      RoundToError(FiveSignificantFigures(price), tick);
    }
  }

  /** Exactly the prices that reach half a tick after the five-figure step are accepted. */
  lemma AcceptedIff(price: real, t: int)
    ensures QuantizeOrderPrice(price, Pow10(t)).Some? <==>
            price > 0.0 && FiveSignificantFigures(price) >= Pow10(t) / 2.0
  {
    var tick := Pow10(t);
    if price <= 0.0 {
      NonPositiveIsRejected(price, tick);
    } else {
      FiveFiguresStayInDecade(price);
      AdjustedBounds(price);
      RoundToPositiveIff(FiveSignificantFigures(price), tick);
    }
  }

  lemma QuantizedIsOnGrid(price: real, t: int)
    requires QuantizeOrderPrice(price, Pow10(t)).Some?
    ensures OnGrid(QuantizeOrderPrice(price, Pow10(t)).value, t)
  {
    var tick := Pow10(t);
    if price <= 0.0 { NonPositiveIsRejected(price, tick); }
    var f := FiveSignificantFigures(price);
    var e := Adjusted(price);
    var a := QuantizeOrderPrice(price, tick).value;
    FiveFiguresStayInDecade(price);
    RoundToError(f, tick);
    if t <= e - 4 {
      // the tick is finer than the fifth figure: tick rounding changes nothing
      MultipleOfCoarserIsMultipleOfFiner(f, e - 4, t);
      RoundToFixes(f, tick);
      FiveFiguresFix(a, e);
    } else {
      // the tick is coarser: the result is a positive multiple of it, at most the next power of ten
      CoarseTickStaysInDecade(price, t);
      var d := Adjusted(a);
      AdjustedBounds(a);
      if d <= e {
        MultipleOfCoarserIsMultipleOfFiner(a, t, d - 4);
        FiveFiguresFix(a, d);
      } else {
        Pow10Monotone(e + 1, d);
        assert a == Pow10(e + 1);
        var n := Pow10Divides(e + 1, e - 4);
        assert IsMultiple(a, Pow10(e - 4));
        Pow10Monotone(e, e + 1);
        FiveFiguresFix(a, e);
      }
    }
  }

  lemma CoarseTickStaysInDecade(price: real, t: int)
    requires price > 0.0 && Adjusted(price) - 4 < t && QuantizeOrderPrice(price, Pow10(t)).Some?
    ensures QuantizeOrderPrice(price, Pow10(t)).value <= Pow10(Adjusted(price) + 1)
  {
    var e := Adjusted(price);
    FiveFiguresStayInDecade(price);
    if t <= e + 1 {
      var n := Pow10Divides(e + 1, t);
      assert IsMultiple(Pow10(e + 1), Pow10(t));
      RoundToFixes(Pow10(e + 1), Pow10(t));
      RoundToMonotone(FiveSignificantFigures(price), Pow10(e + 1), Pow10(t));
    } else {
      // a tick of ten times the decade's end would have rejected the price
      Pow10Step(e + 1);
      Pow10Monotone(e + 2, t);
      AcceptedIff(price, t);
    }
  }

  /** Quantizing twice is quantizing once; the fixed points are exactly the grid. */
  lemma FixedPointsAreTheGrid(x: real, t: int)
    ensures QuantizeOrderPrice(x, Pow10(t)) == Some(x) <==> OnGrid(x, t)
  {
    if QuantizeOrderPrice(x, Pow10(t)) == Some(x) {
      QuantizedIsOnGrid(x, t);
    }
    if OnGrid(x, t) {
      RoundToFixes(x, Pow10(t));
    }
  }

  /** The adapter quantizes an IOC price and then quantizes the result again. */
  lemma DoubleQuantizationIsIdentity(price: real, t: int)
    requires QuantizeOrderPrice(price, Pow10(t)).Some?
    ensures QuantizeOrderPrice(QuantizeOrderPrice(price, Pow10(t)).value, Pow10(t)) == QuantizeOrderPrice(price, Pow10(t))
  {
    QuantizedIsOnGrid(price, t);
    FixedPointsAreTheGrid(QuantizeOrderPrice(price, Pow10(t)).value, t);
  }

  /** A higher price is accepted whenever a lower one is, and never becomes the lower one. */
  lemma PriceQuantizationMonotone(x: real, y: real, t: int)
    requires x <= y && QuantizeOrderPrice(x, Pow10(t)).Some?
    ensures QuantizeOrderPrice(y, Pow10(t)).Some?
    ensures QuantizeOrderPrice(x, Pow10(t)).value <= QuantizeOrderPrice(y, Pow10(t)).value
  {
    if x <= 0.0 { NonPositiveIsRejected(x, Pow10(t)); }
    FiveFiguresMonotone(x, y);
    RoundToMonotone(FiveSignificantFigures(x), FiveSignificantFigures(y), Pow10(t));
  }

  /** The two roundings together move a price by at most half a tick and half a fifth figure. */
  lemma PriceQuantizationError(x: real, t: int)
    requires QuantizeOrderPrice(x, Pow10(t)).Some?
    ensures x > 0.0
    ensures -(Pow10(t) + Quantum(x)) / 2.0 <= QuantizeOrderPrice(x, Pow10(t)).value - x <= (Pow10(t) + Quantum(x)) / 2.0
  {
    if x <= 0.0 { NonPositiveIsRejected(x, Pow10(t)); }
    RoundToError(x, Quantum(x));
    RoundToError(FiveSignificantFigures(x), Pow10(t));
  }

  // ---------------------------------------------------------------- sizes

  lemma RestIsBelowOneStep(x: real, q: real, y: real, n: real, m: real)
    requires m > 0.0 && x == y * m && q == n * m && 0.0 <= n <= y < n + 1.0
    ensures 0.0 <= q <= x < q + m
  {
    var d := y - n;
    assert x - q == d * m;
    Scale(0.0, n, m);
    Scale(0.0, d, m);
    assert (1.0 - d) * m > 0.0;
  }

  lemma QuotientOrder(x: real, w: real, y: real, k: real, m: real)
    requires m > 0.0 && x == y * m && w == k * m
    ensures w <= x <==> k <= y
  {
    ScaleIff(y, k, m);
  }

  lemma SizeQuotient(quantity: real, step: real) returns (y: real, n: int)
    requires QuantizeOrderSize(quantity, step).Some?
    ensures step > 0.0 && quantity == y * step && 0.0 <= n as real <= y < n as real + 1.0
    ensures IsTimes(QuantizeOrderSize(quantity, step).value, n, step)
  {
    y := quantity / step;
    n := y.Floor;
    assert y >= 0.0;
  }

  /** Rounding down to the largest multiple that fits. */
  lemma SizeIsLargestFittingMultiple(quantity: real, step: real, k: int, multiple: real)
    requires QuantizeOrderSize(quantity, step).Some? && IsTimes(multiple, k, step)
    ensures IsMultiple(QuantizeOrderSize(quantity, step).value, step)
    ensures 0.0 <= QuantizeOrderSize(quantity, step).value <= quantity < QuantizeOrderSize(quantity, step).value + step
    ensures multiple <= quantity ==> multiple <= QuantizeOrderSize(quantity, step).value
  {
    hide QuantizeOrderSize;
    var y, n := SizeQuotient(quantity, step);
    var size := QuantizeOrderSize(quantity, step).value;
    RestIsBelowOneStep(quantity, size, y, n as real, step);
    QuotientOrder(quantity, multiple, y, k as real, step);
    QuotientOrder(size, multiple, n as real, k as real, step);
    assert k as real <= y ==> k <= n;
  }

  lemma SizeAcceptedIff(quantity: real, step: real)
    ensures QuantizeOrderSize(quantity, step).Some? <==> step > 0.0 && quantity > 0.0
    ensures QuantizeOrderSize(quantity, step).Some? ==> (QuantizeOrderSize(quantity, step).value > 0.0 <==> quantity >= step)
  {
    hide QuantizeOrderSize;
    SizeSomeIff(quantity, step);
    if step > 0.0 && quantity > 0.0 {
      assert IsTimes(step, 1, step);
      SizeIsLargestFittingMultiple(quantity, step, 1, step);
      var y, n := SizeQuotient(quantity, step);
      var size := QuantizeOrderSize(quantity, step).value;
      if size > 0.0 {
        QuotientOrder(size, 0.0, n as real, 0.0, step);
        QuotientOrder(0.0, size, 0.0, n as real, step);
        assert n >= 1;
        QuotientOrder(size, step, n as real, 1.0, step);
      }
    }
  }

  lemma SizeSomeIff(quantity: real, step: real)
    ensures QuantizeOrderSize(quantity, step).Some? <==> step > 0.0 && quantity > 0.0
  {
  }

  // ---------------------------------------------------------------- requests

  /** Trading rules; `minNotional` 0 or less stands for the default of 10. */
  datatype InstrumentMeta = InstrumentMeta(step: real, tick: real, minOrderSize: real, minNotional: real)

  datatype Normalized = Normalized(quantity: real, price: real)

  function MinNotional(meta: InstrumentMeta): real {
    if meta.minNotional > 0.0 then meta.minNotional else 10.0
  }

  function NormalizeOrderRequest(quantity: real, reduceOnly: bool, meta: InstrumentMeta, price: real): Option<Normalized> {
    var qty := QuantizeOrderSize(quantity, meta.step);
    if qty.None? || qty.value <= 0.0 || qty.value < meta.minOrderSize then None
    else
      var px := QuantizeOrderPrice(price, meta.tick);
      if px.None? then None
      else if !reduceOnly && qty.value * px.value < MinNotional(meta) then None
      else Some(Normalized(qty.value, px.value))
  }

  /** The protective limit used as a market order; None where the source raises. */
  function IocRawPrice(side: OrderSide, mid: real, slippage: real): Option<real> {
    if mid <= 0.0 || slippage < 0.0 then None
    else
      var raw := if side == Buy then mid * (1.0 + slippage) else mid * (1.0 - slippage);
      if raw <= 0.0 then None else Some(raw)
  }

  function IocLimitPrice(side: OrderSide, mid: real, slippage: real, tick: real): Option<real> {
    var raw := IocRawPrice(side, mid, slippage);
    if raw.None? then None else QuantizeOrderPrice(raw.value, tick)
  }

  /** What a protective limit aims at: the mid, moved against the order by the slippage. */
  function Aim(side: OrderSide, mid: real, slippage: real): real {
    if side == Buy then mid + mid * slippage else mid - mid * slippage
  }

  /** A limit exists exactly when mid and slippage are usable and the aim is positive and reaches half a
      tick; it then lies within half a tick and half a fifth figure of the aim. */
  lemma LimitIsNearItsAim(side: OrderSide, mid: real, slippage: real, t: int)
    ensures var limit, aim := IocLimitPrice(side, mid, slippage, Pow10(t)), Aim(side, mid, slippage);
            && (limit.Some? <==>
                mid > 0.0 && slippage >= 0.0 && aim > 0.0 && FiveSignificantFigures(aim) >= Pow10(t) / 2.0)
            && (limit.Some? ==>
                -(Pow10(t) + Quantum(aim)) / 2.0 <= limit.value - aim <= (Pow10(t) + Quantum(aim)) / 2.0)
  {
    hide QuantizeOrderPrice, FiveSignificantFigures, Quantum, Pow10;
    RawIsTheAim(side, mid, slippage);
    AcceptedIff(Aim(side, mid, slippage), t);
    if IocLimitPrice(side, mid, slippage, Pow10(t)).Some? {
      PriceQuantizationError(Aim(side, mid, slippage), t);
    }
  }

  lemma RawIsTheAim(side: OrderSide, mid: real, slippage: real)
    ensures IocRawPrice(side, mid, slippage).Some? <==> mid > 0.0 && slippage >= 0.0 && Aim(side, mid, slippage) > 0.0
    ensures IocRawPrice(side, mid, slippage).Some? ==> IocRawPrice(side, mid, slippage).value == Aim(side, mid, slippage)
  {
    assert mid * (1.0 + slippage) == mid + mid * slippage;
    assert mid * (1.0 - slippage) == mid - mid * slippage;
  }

  /** A request is accepted exactly when it holds at least one step, reaches the minimum size, has an
      acceptable price and, unless it only reduces, the minimum notional. */
  lemma NormalizedIff(quantity: real, reduceOnly: bool, meta: InstrumentMeta, price: real)
    ensures NormalizeOrderRequest(quantity, reduceOnly, meta, price).Some? <==>
            && meta.step > 0.0 && quantity > 0.0 && quantity >= meta.step
            && var size, limit := QuantizeOrderSize(quantity, meta.step), QuantizeOrderPrice(price, meta.tick);
            && size.Some? && limit.Some? && size.value >= meta.minOrderSize
            && (reduceOnly ||
                size.value * limit.value >= (if meta.minNotional > 0.0 then meta.minNotional else 10.0))
    ensures var n := NormalizeOrderRequest(quantity, reduceOnly, meta, price);
            n.Some? ==> Some(n.value.quantity) == QuantizeOrderSize(quantity, meta.step) &&
                        Some(n.value.price) == QuantizeOrderPrice(price, meta.tick)
  {
    SizeAcceptedIff(quantity, meta.step);
    hide QuantizeOrderSize, QuantizeOrderPrice;
  }

  /** With the mid on the grid, rounding never turns a protective limit against its order. */
  lemma LimitsBracketTheMid(mid: real, slippage: real, t: int)
    requires OnGrid(mid, t)
    ensures var sell := IocLimitPrice(Sell, mid, slippage, Pow10(t)); sell.Some? ==> sell.value <= mid
    ensures var buy := IocLimitPrice(Buy, mid, slippage, Pow10(t));
            slippage >= 0.0 ==> buy.Some? && mid <= buy.value
  {
    FixedPointsAreTheGrid(mid, t);
    if slippage >= 0.0 {
      assert mid * slippage >= 0.0;
      assert mid * (1.0 + slippage) == mid + mid * slippage;
      assert mid * (1.0 - slippage) == mid - mid * slippage;
      PriceQuantizationMonotone(mid, mid * (1.0 + slippage), t);
      var sell := IocLimitPrice(Sell, mid, slippage, Pow10(t));
      if sell.Some? {
        PriceQuantizationMonotone(mid * (1.0 - slippage), mid, t);
      }
    }
  }

  /** Settings to wire: an accepted opening order spends at most its share of the equity at the mid,
      and at most the slippage plus half a tick and half a fifth figure per unit more at its limit. */
  lemma AcceptedOpeningIsWithinBudget(equity: real, percentage: real, mid: real, side: OrderSide, slippage: real,
                                      meta: InstrumentMeta, t: int)
    requires meta.tick == Pow10(t)
    requires Sizing.SizeFromSettings(equity, percentage, mid).Some? && IocLimitPrice(side, mid, slippage, meta.tick).Some?
    requires var limit := IocLimitPrice(side, mid, slippage, meta.tick).value;
             NormalizeOrderRequest(Sizing.SizeFromSettings(equity, percentage, mid).value, false, meta, limit).Some?
    ensures var raw := IocRawPrice(side, mid, slippage).value;
            var limit := IocLimitPrice(side, mid, slippage, meta.tick).value;
            var sent := NormalizeOrderRequest(Sizing.SizeFromSettings(equity, percentage, mid).value, false, meta, limit).value;
            var budget := equity * (percentage / 100.0);
            && sent.price == limit
            && IsMultiple(sent.quantity, meta.step) && sent.quantity > 0.0 && sent.quantity >= meta.minOrderSize
            && sent.quantity * mid <= budget
            && sent.quantity * sent.price <= budget * (1.0 + slippage) + sent.quantity * ((meta.tick + Quantum(raw)) / 2.0)
            && sent.quantity * sent.price >= MinNotional(meta)
  {
    hide NormalizeOrderRequest, QuantizeOrderPrice, QuantizeOrderSize, Sizing.SizeFromSettings, IocRawPrice;
    hide Pow10, RoundTo, Quantum, MinNotional;
    var size := Sizing.SizeFromSettings(equity, percentage, mid).value;
    var raw := IocRawPrice(side, mid, slippage).value;
    var limit := IocLimitPrice(side, mid, slippage, meta.tick).value;
    var sent := NormalizeOrderRequest(size, false, meta, limit).value;
    DoubleQuantizationIsIdentity(raw, t);
    PriceQuantizationError(raw, t);
    NormalizedParts(size, false, meta, limit);
    SizeIsLargestFittingMultiple(size, meta.step, 0, 0.0);
    RawWithinSlippage(side, mid, slippage);
    SizeSpendsTheBudget(equity, percentage, mid);
    BudgetArithmetic(sent.quantity, size, mid, equity * (percentage / 100.0), slippage,
                     (meta.tick + Quantum(raw)) / 2.0, limit);
  }

  lemma NormalizedParts(quantity: real, reduceOnly: bool, meta: InstrumentMeta, price: real)
    requires NormalizeOrderRequest(quantity, reduceOnly, meta, price).Some?
    ensures var n := NormalizeOrderRequest(quantity, reduceOnly, meta, price).value;
            && QuantizeOrderSize(quantity, meta.step) == Some(n.quantity)
            && QuantizeOrderPrice(price, meta.tick) == Some(n.price)
            && n.quantity > 0.0 && n.quantity >= meta.minOrderSize
            && (!reduceOnly ==> n.quantity * n.price >= MinNotional(meta))
  {
  }

  /** There is a size exactly for a positive mid and something to spend, and at the mid it spends it all. */
  lemma SizeSpendsTheBudget(equity: real, percentage: real, mid: real)
    ensures Sizing.SizeFromSettings(equity, percentage, mid).Some? <==> mid > 0.0 && equity * (percentage / 100.0) > 0.0
    ensures Sizing.SizeFromSettings(equity, percentage, mid).Some? ==>
              mid > 0.0 && Sizing.SizeFromSettings(equity, percentage, mid).value * mid == equity * (percentage / 100.0)
  {
  }

  lemma BudgetArithmetic(quantity: real, size: real, mid: real, budget: real, slippage: real, slack: real, limit: real)
    requires 0.0 <= quantity <= size && mid > 0.0 && size * mid == budget && slippage >= 0.0
    requires limit <= mid * (1.0 + slippage) + slack
    ensures quantity * mid <= budget
    ensures quantity * limit <= budget * (1.0 + slippage) + quantity * slack
  {
    Scale(quantity, size, mid);
    Scale(limit, mid * (1.0 + slippage) + slack, quantity);
    Scale(quantity * mid, budget, 1.0 + slippage);
    calc {
      (mid * (1.0 + slippage) + slack) * quantity;
      (mid * (1.0 + slippage)) * quantity + slack * quantity;
      (quantity * mid) * (1.0 + slippage) + quantity * slack;
    }
  }

  lemma RawWithinSlippage(side: OrderSide, mid: real, slippage: real)
    requires IocRawPrice(side, mid, slippage).Some?
    ensures slippage >= 0.0 && IocRawPrice(side, mid, slippage).value <= mid * (1.0 + slippage)
  {
    assert mid * slippage >= 0.0;
    assert mid * (1.0 + slippage) == mid + mid * slippage;
    assert mid * (1.0 - slippage) == mid - mid * slippage;
  }
}
