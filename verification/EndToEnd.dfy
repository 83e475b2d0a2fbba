/** From the signal to the wire: what the controller records as sent, and what the worker then gives to
    the connector for it. */
module EndToEnd {
  import opened Enums
  import opened Outcomes
  import opened Decimals
  import opened Quantization
  import opened Invariants
  import Sizing
  import Worker

  /** The worker was asked for exactly the market order behind the placement. */
  predicate Requests(w: Worker.Wire, p: Placement) {
    && p.cloid in p.disk.orders && !p.reduceOnly
    && w.request.cloid == p.cloid && !w.request.reduceOnly && w.request.price == None
    && w.request.side == p.disk.orders[p.cloid].side
    && w.request.quantity == p.disk.orders[p.cloid].quantity
  }

  function Budget(p: Placement): real {
    p.heard.numbers.1 * (p.disk.settings.positionPercentage / 100.0)
  }

  /** Every opening order that reaches the connector is a step multiple of at least the minimum size and
      notional, spends the settings' share of the equity at the mid it was sized with up to less than a
      step, goes out at
      the protective limit for its side, and, with the same mid at both ends, costs at its limit at most
      the slippage plus half a tick and half a fifth figure per unit more. */
  lemma OpeningWireIsWithinBudget(p: Placement, signal: SignalType, w: Worker.Wire, rule: InstrumentMeta, t: int)
    requires SentFor(p, signal) && Requests(w, p) && Worker.GatePassed(w, rule) && rule.tick == Pow10(t)
    ensures w.sent.quantity > 0.0 && IsMultiple(w.sent.quantity, rule.step) && w.sent.quantity >= rule.minOrderSize
    ensures w.sent.quantity * w.sent.price >= rule.minNotional
    ensures w.sent.quantity * p.heard.numbers.0 <= Budget(p) < (w.sent.quantity + rule.step) * p.heard.numbers.0
    ensures var side := if signal == LongSignal then Buy else Sell;
            && IocLimitPrice(side, w.mid, w.config.slippage, rule.tick) == Some(w.sent.price)
            && NearAim(w.sent.price, if side == Buy then w.mid + w.mid * w.config.slippage else w.mid - w.mid * w.config.slippage,
                       rule.tick)
            && (w.mid == p.heard.numbers.0 ==>
                  w.sent.quantity * w.sent.price
                    <= Budget(p) * (1.0 + w.config.slippage) + w.sent.quantity * Slack(Aim(side, w.mid, w.config.slippage), rule.tick))
  {
    hide Sizing.SizeFromSettings, IocRawPrice, QuantizeOrderPrice, QuantizeOrderSize, Pow10, Quantum, RoundTo;
    hide Worker.OnlyPair, Budget, NearAim, Slack, Aim;
    var size, mid, slippage := w.request.quantity, p.heard.numbers.0, w.config.slippage;
    var aim := Aim(w.request.side, w.mid, slippage);
    Worker.MarketPriceIsTheIocLimit(w.request, w.mid, slippage, rule, t);
    PriceIsNearItsAim(w, rule, t);
    SizeIsLargestFittingMultiple(size, rule.step, 0, 0.0);
    SizeSpendsTheBudget(p.heard.numbers.1, p.disk.settings.positionPercentage, mid);
    BudgetIs(p);
    Scale(w.sent.quantity, size, mid);
    assert (w.sent.quantity + rule.step - size) * mid > 0.0;
    if w.mid == mid {
      BudgetArithmetic(w.sent.quantity, size, mid, Budget(p), slippage, Slack(aim, rule.tick), w.sent.price);
    }
  }

  lemma BudgetIs(p: Placement)
    ensures Budget(p) == p.heard.numbers.1 * (p.disk.settings.positionPercentage / 100.0)
  {
  }

  function Slack(aim: real, tick: real): real
    requires aim != 0.0
  {
    (tick + Quantum(aim)) / 2.0
  }

  /** Within half a tick and half a fifth figure of a positive aim. */
  predicate NearAim(price: real, aim: real, tick: real) {
    aim > 0.0 && -(tick + Quantum(aim)) / 2.0 <= price - aim <= (tick + Quantum(aim)) / 2.0
  }

  /** The price of every market wire lies by its aim: the worker's mid moved against the order by the slippage. */
  lemma PriceIsNearItsAim(w: Worker.Wire, rule: InstrumentMeta, t: int)
    requires Worker.GatePassed(w, rule) && rule.tick == Pow10(t) && w.request.price == None
    ensures var aim := if w.request.side == Buy then w.mid + w.mid * w.config.slippage else w.mid - w.mid * w.config.slippage;
            && aim == Aim(w.request.side, w.mid, w.config.slippage)
            && aim > 0.0 && w.mid > 0.0 && w.config.slippage >= 0.0 && NearAim(w.sent.price, aim, rule.tick)
            && w.sent.price <= w.mid * (1.0 + w.config.slippage) + Slack(aim, rule.tick)
  {
    hide Worker.OnlyPair, Worker.Normalize, IocLimitPrice, QuantizeOrderPrice, Quantum, FiveSignificantFigures, Pow10;
    Worker.MarketPriceIsTheIocLimit(w.request, w.mid, w.config.slippage, rule, t);
    LimitIsNearItsAim(w.request.side, w.mid, w.config.slippage, t);
    AimWithinSlippage(w.request.side, w.mid, w.config.slippage);
  }

  lemma AimWithinSlippage(side: OrderSide, mid: real, slippage: real)
    requires mid > 0.0 && slippage >= 0.0
    ensures Aim(side, mid, slippage) <= mid * (1.0 + slippage)
  {
    assert mid * slippage >= 0.0;
    assert mid * (1.0 + slippage) == mid + mid * slippage;
  }
}
