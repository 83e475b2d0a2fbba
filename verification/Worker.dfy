/** The execution worker: the Hyperliquid adapter and the runtime gate in front of it. */
module Worker {
  import opened Enums
  import opened Outcomes
  import opened Mapping
  import opened Quantization
  import Decimals

  type Cloid = nat

  datatype WorkerState = NotReady | Recovering | WorkerReady | Degraded

  datatype WorkerConfig = WorkerConfig(
    tradingPair: string, executionEnabled: bool, slippage: real, expectedLeverage: int, heartbeatTimeout: real)

  datatype PlaceRequest = PlaceRequest(
    cloid: Cloid, symbol: string, side: OrderSide, quantity: real, reduceOnly: bool, price: Option<real>)

  datatype PlaceResult = Refused | Placed(status: OrderStatus)

  datatype RestSnapshot = RestSnapshot(rows: seq<RawRow>, accountReadFailed: bool, mid: Option<real>)

  datatype RecoveryReason = OneWay | ForeignSymbol | AccountStateUnknown | AccountReadUnavailable | NetworkStart

  // ---------------------------------------------------------------- request normalization

  function IocPrice(request: PlaceRequest, mid: real, slippage: real, rule: InstrumentMeta): Option<real> {
    if request.price.Some? then request.price else IocLimitPrice(request.side, mid, slippage, rule.tick)
  }

  function Normalize(request: PlaceRequest, price: real, rule: InstrumentMeta): Option<Normalized> {
    var qty := QuantizeOrderSize(request.quantity, rule.step);
    var px := QuantizeOrderPrice(price, rule.tick);
    if qty.None? || px.None? || qty.value <= 0.0 || qty.value < rule.minOrderSize then None
    else if !request.reduceOnly && qty.value * px.value < rule.minNotional then None
    else Some(Normalized(qty.value, px.value))
  }

  /** What the adapter sends for a request, if anything. */
  function WireOf(request: PlaceRequest, mid: real, slippage: real, rule: InstrumentMeta): Option<Normalized> {
    var price := IocPrice(request, mid, slippage, rule);
    if price.None? then None else Normalize(request, price.value, rule)
  }

  /** The adapter's own normalization and the quantization module's answer alike exactly when the rule
      carries a minimum notional, or the adapter refuses anyway, or the order is exempt or large enough:
      without a configured minimum the adapter applies none where the other falls back to 10. */
  lemma NormalizationsAgreeIff(request: PlaceRequest, price: real, rule: InstrumentMeta)
    ensures Normalize(request, price, rule) == NormalizeOrderRequest(request.quantity, request.reduceOnly, rule, price) <==>
            var wire := Normalize(request, price, rule);
            rule.minNotional > 0.0 || wire.None? || request.reduceOnly || wire.value.quantity * wire.value.price >= 10.0
  {
  }

  /** The input: one unit at price 1 under a rule without a minimum. */
  lemma NormalizationsDisagree()
    ensures var request := PlaceRequest(0, "BTC-USD", Buy, 1.0, false, Some(1.0));
            var rule := InstrumentMeta(1.0, 1.0, 0.0, 0.0);
            && Normalize(request, 1.0, rule) == Some(Normalized(1.0, 1.0))
            && NormalizeOrderRequest(request.quantity, request.reduceOnly, rule, 1.0) == None
  {
    hide QuantizeOrderPrice, QuantizeOrderSize;
    OneIsOnGrid();
    OneIsAStep();
  }

  lemma OneIsOnGrid()
    ensures QuantizeOrderPrice(1.0, 1.0) == Some(1.0)
  {
    hide FiveSignificantFigures, QuantizeOrderPrice;
    Decimals.Pow10OfZero();
    Decimals.Pow10Step(0);
    assert Decimals.IsTimes(1.0, 1, 1.0);
    var n := Decimals.Pow10Divides(0, -4);
    FiveFiguresFix(1.0, 0);
    FixedPointsAreTheGrid(1.0, 0);
  }

  lemma OneIsAStep()
    ensures QuantizeOrderSize(1.0, 1.0) == Some(1.0)
  {
    assert 1.0 / 1.0 == 1.0;
  }

  /** A market request is sent at exactly the once-quantized IOC limit. */
  lemma MarketPriceIsTheIocLimit(request: PlaceRequest, mid: real, slippage: real, rule: InstrumentMeta, t: int)
    requires rule.tick == Decimals.Pow10(t) && request.price == None
    requires IocPrice(request, mid, slippage, rule).Some?
    requires Normalize(request, IocPrice(request, mid, slippage, rule).value, rule).Some?
    ensures Some(Normalize(request, IocPrice(request, mid, slippage, rule).value, rule).value.price)
         == IocLimitPrice(request.side, mid, slippage, rule.tick)
  {
    DoubleQuantizationIsIdentity(IocRawPrice(request.side, mid, slippage).value, t);
  }

  // ---------------------------------------------------------------- connector

  /** One call to the connector's place, and what it replied. */
  datatype Call = Call(cloid: Cloid, side: OrderSide, reduceOnly: bool, wire: Normalized, reply: Reply<PlaceResult>)

  /** What the adapter makes of the connector's reply: a refusal is REJECTED, anything else is passed on. */
  predicate Answers(r: Reply<OrderStatus>, reply: Reply<PlaceResult>) {
    && (r.Raised? <==> reply.Raised?)
    && (reply.Got? && reply.value.Placed? ==> r.value == reply.value.status)
    && (reply.Got? && reply.value.Refused? ==> r.value == Rejected)
  }

  /** The exchange connector: an outside object whose flags may change whenever it is awaited. */
  class Connector {
    const rule: InstrumentMeta
    var wsConnected: bool
    var readOnly: bool
    var authenticated: bool
    var armed: bool
    var accountReadFailed: bool
    var hasUserStream: bool
    ghost var calls: seq<Call>                                       // every order given to place
    ghost var views: seq<(Cloid, Reply<Option<OrderStatus>>)>        // every order query and its answer
    ghost var snapshots: seq<RestSnapshot>                           // every snapshot that was answered

    constructor (rule: InstrumentMeta)
      ensures calls == [] && views == [] && snapshots == [] && this.rule == rule
    {
      this.rule := rule;
      calls, views, snapshots := [], [], [];
      wsConnected, readOnly, authenticated, armed := false, *, *, *;
      accountReadFailed, hasUserStream := *, *;
    }

    method Drift()
      modifies this
      ensures calls == old(calls) && views == old(views) && snapshots == old(snapshots)
    {
      wsConnected, readOnly, authenticated, armed := *, *, *, *;
      accountReadFailed, hasUserStream := *, *;
    }

    method StartNetwork() returns (r: Reply<()>)
      modifies this
      ensures calls == old(calls) && views == old(views) && snapshots == old(snapshots)
    {
      Drift();
      if * { return Raised; }
      wsConnected := true;
      return Got(());
    }

    method Snapshot() returns (r: Reply<RestSnapshot>)
      modifies this
      ensures calls == old(calls) && views == old(views)
      ensures snapshots == if r.Got? then old(snapshots) + [r.value] else old(snapshots)
    {
      Drift();
      if * { return Raised; }
      var snap: RestSnapshot := *;
      snapshots := snapshots + [snap];
      return Got(snap);
    }

    method GetOrder(cloid: Cloid) returns (r: Reply<Option<OrderStatus>>)
      modifies this
      ensures calls == old(calls) && views == old(views) + [(cloid, r)] && snapshots == old(snapshots)
    {
      Drift();
      r := *;
      views := views + [(cloid, r)];
    }

    method Place(cloid: Cloid, side: OrderSide, reduceOnly: bool, wire: Normalized) returns (r: Reply<PlaceResult>)
      modifies this
      ensures calls == old(calls) + [Call(cloid, side, reduceOnly, wire, r)]
      ensures views == old(views) && snapshots == old(snapshots)
    {
      Drift();
      r := *;
      calls := calls + [Call(cloid, side, reduceOnly, wire, r)];
    }
  }

  // ---------------------------------------------------------------- adapter

  /** `one_way_ok` and `foreign_symbols` against the snapshot they came from. */
  ghost predicate FlagsMean(oneWayOk: bool, foreign: seq<string>, rows: seq<RawRow>, pair: string) {
    && (oneWayOk <==> !TwoSided(NonFlat(rows, pair)))
    && (oneWayOk ==> foreign == Foreign(NonFlat(rows, pair), pair))
  }

  ghost predicate AtMostOnce(calls: seq<Call>, submitted: set<Cloid>) {
    && (forall k :: 0 <= k < |calls| ==> calls[k].cloid in submitted)
    && (forall j, k :: 0 <= j < k < |calls| ==> calls[j].cloid != calls[k].cloid)
  }

  /** No symbol is two-sided and no nonzero row is of another symbol. */
  ghost predicate OnlyPair(rows: seq<RawRow>, pair: string) {
    !TwoSided(NonFlat(rows, pair)) && forall p :: p in NonFlat(rows, pair) ==> p.symbol == pair
  }

  lemma FlagsSayOnlyPair(oneWayOk: bool, foreign: seq<string>, rows: seq<RawRow>, pair: string)
    requires FlagsMean(oneWayOk, foreign, rows, pair)
    ensures oneWayOk && foreign == [] <==> OnlyPair(rows, pair)
  {
  }

  /** The rows of the last snapshot answered, none before the first. */
  function LastRows(snapshots: seq<RestSnapshot>): seq<RawRow> {
    if snapshots == [] then [] else snapshots[|snapshots|-1].rows
  }

  class HyperliquidExecutionAdapter {
    const connector: Connector
    var config: WorkerConfig
    var connected: bool
    var recoveryReason: Option<RecoveryReason>
    var foreignSymbols: seq<string>
    var oneWayOk: bool
    var submitted: set<Cloid>
    var mid: real
    var observedLeverage: Option<int>
    var leverageMismatch: bool
    ghost var lastPair: string        // the pair the last snapshot was mapped for

    /** What the flags mean, and the at-most-once record. */
    ghost predicate Valid()
      reads this, connector
    {
      FlagsMean(oneWayOk, foreignSymbols, LastRows(connector.snapshots), lastPair) && AtMostOnce(connector.calls, submitted)
    }

    constructor (config: WorkerConfig, connector: Connector)
      requires connector.calls == [] && connector.snapshots == []
      ensures Valid() && this.config == config && this.connector == connector && submitted == {}
      ensures !connected && mid == 100.0
    {
      this.config := config;
      this.connector := connector;
      connected, recoveryReason, foreignSymbols, oneWayOk := false, None, [], true;
      submitted, mid, observedLeverage, leverageMismatch := {}, 100.0, None, false;
      lastPair := config.tradingPair;
    }

    function AccountPositionsTrusted(): bool
      reads this, connector
    {
      !(connector.readOnly && !connector.authenticated) && !connector.accountReadFailed
    }

    function State(): WorkerState
      reads this, connector
    {
      if !connected then NotReady
      else if !connector.wsConnected then Degraded
      else if !oneWayOk || foreignSymbols != [] then Recovering
      else if !AccountPositionsTrusted() then Recovering
      else if recoveryReason == Some(AccountStateUnknown) then Recovering
      else if connector.authenticated && !connector.hasUserStream then Recovering
      else WorkerReady
    }

    /** What READY means: connected, streaming, trusted, and nothing but the pair in the last snapshot.
        Without a connection the state is NOT_READY, without a stream DEGRADED, else RECOVERING. */
    lemma ReadyIff()
      requires Valid()
      ensures State() == WorkerReady <==>
              && connected && connector.wsConnected && OnlyPair(LastRows(connector.snapshots), lastPair)
              && (connector.readOnly ==> connector.authenticated) && !connector.accountReadFailed
              && recoveryReason != Some(AccountStateUnknown)
              && (connector.authenticated ==> connector.hasUserStream)
      ensures State() == NotReady <==> !connected
      ensures State() == Degraded <==> connected && !connector.wsConnected
    {
      FlagsSayOnlyPair(oneWayOk, foreignSymbols, LastRows(connector.snapshots), lastPair);
    }

    /** The loop over the mapped positions: foreign symbols, and the last leverage that was reported. */
    static method Scan(positions: seq<ExchangePosition>, pair: string, before: Option<int>)
      returns (foreign: seq<string>, leverage: Option<int>)
      ensures foreign == Foreign(positions, pair)
      ensures IsLastLeverage(leverage, positions, before)
    {
      hide IsLastLeverage;
      LastLeverageFirst(positions, before);
      foreign, leverage := [], before;
      for k := 0 to |positions|
        invariant foreign == Foreign(positions[..k], pair)
        invariant IsLastLeverage(leverage, positions[..k], before)
      {
        assert positions[..k+1][..k] == positions[..k];
        LastLeverageNext(leverage, positions, k, before);
        if positions[k].symbol != pair {
          foreign := foreign + [positions[k].symbol];
        }
        if positions[k].leverage.Some? {
          leverage := positions[k].leverage;
        }
      }
      assert positions[..|positions|] == positions;
    }

    /** `_refresh_from_connector`: a two-sided account maps to no positions at all, so an empty answer
        alone proves nothing. */
    method Refresh() returns (r: Reply<seq<ExchangePosition>>)
      requires Valid()
      modifies this`mid, this`foreignSymbols, this`oneWayOk, this`recoveryReason, this`observedLeverage,
               this`leverageMismatch, this`lastPair, connector
      ensures Valid() && connector.calls == old(connector.calls) && connector.views == old(connector.views)
      ensures r.Raised? <==> connector.snapshots == old(connector.snapshots)
      ensures r.Raised? ==> lastPair == old(lastPair)
      ensures r.Got? ==>
                && |connector.snapshots| == |old(connector.snapshots)| + 1
                && lastPair == config.tradingPair
                && var snap := connector.snapshots[|old(connector.snapshots)|];
                && mid == (if snap.mid.Some? then snap.mid.value else old(mid))
                && r.value == (if oneWayOk then NonFlat(snap.rows, lastPair) else [])
                && (snap.accountReadFailed ==> HeldBack(oneWayOk, foreignSymbols, recoveryReason))
                && IsLastLeverage(observedLeverage, r.value, old(observedLeverage))
                && (leverageMismatch <==> observedLeverage.Some? && observedLeverage.value != config.expectedLeverage)
    {
      hide NonFlat, TwoSided, Foreign, AtMostOnce, IsLastLeverage, AccountPositionsTrusted, State;
      var reply := connector.Snapshot();
      if reply.Raised? { return Raised; }
      var positions := Apply(reply.value);
      return Got(positions);
    }

    /** What a snapshot does to the flags, the mid and the leverage. */
    method Apply(snap: RestSnapshot) returns (positions: seq<ExchangePosition>)
      modifies this`mid, this`foreignSymbols, this`oneWayOk, this`recoveryReason, this`observedLeverage,
               this`leverageMismatch, this`lastPair
      ensures FlagsMean(oneWayOk, foreignSymbols, snap.rows, lastPair) && lastPair == config.tradingPair
      ensures mid == if snap.mid.Some? then snap.mid.value else old(mid)
      ensures positions == if oneWayOk then NonFlat(snap.rows, lastPair) else []
      ensures snap.accountReadFailed ==> HeldBack(oneWayOk, foreignSymbols, recoveryReason)
      ensures IsLastLeverage(observedLeverage, positions, old(observedLeverage))
      ensures leverageMismatch <==> observedLeverage.Some? && observedLeverage.value != config.expectedLeverage
    {
      hide NonFlat, TwoSided, Foreign, IsLastLeverage, AccountPositionsTrusted;
      if snap.mid.Some? { mid := snap.mid.value; }
      var mapping := MapClearinghousePositions(snap.rows, config.tradingPair);
      positions := if mapping.None? then [] else mapping.value;
      var foreign, leverage := Scan(positions, config.tradingPair, observedLeverage);
      foreignSymbols, oneWayOk := foreign, mapping.Some?;
      lastPair := config.tradingPair;
      recoveryReason := FirstReason(mapping.None?, foreign != [], snap.accountReadFailed || connector.accountReadFailed,
                                    !AccountPositionsTrusted());
      observedLeverage := leverage;
      leverageMismatch := leverage.Some? && leverage.value != config.expectedLeverage;
    }

    /** The first reason found is kept. */
    static function FirstReason(twoSided: bool, foreign: bool, accountFailed: bool, untrusted: bool): Option<RecoveryReason> {
      if twoSided then Some(OneWay)
      else if foreign then Some(ForeignSymbol)
      else if accountFailed then Some(AccountStateUnknown)
      else if untrusted then Some(AccountReadUnavailable)
      else None
    }

    /** `get_position`: side and size.  FLAT is believable only together with READY: then the snapshot held
        no position on any symbol. */
    method GetPosition(symbol: string) returns (r: Reply<(PositionSide, real)>)
      requires Valid()
      modifies this`mid, this`foreignSymbols, this`oneWayOk, this`recoveryReason, this`observedLeverage,
               this`leverageMismatch, this`lastPair, connector
      ensures Valid() && connector.calls == old(connector.calls)
      ensures r.Raised? <==> connector.snapshots == old(connector.snapshots) || !AccountPositionsTrusted()
      ensures r.Got? && r.value.0 == Flat && symbol == config.tradingPair && State() == WorkerReady ==>
                forall row :: row in LastRows(connector.snapshots) ==> row.szi == 0.0
      ensures r.Got? && r.value.0 != Flat ==>
                exists row :: row in LastRows(connector.snapshots) && ToPairSymbol(row.coin, lastPair) == symbol
                              && (if row.szi > 0.0 then r.value == (Long, row.szi)
                                  else row.szi < 0.0 && r.value == (Short, -row.szi))
      ensures r.Got? && r.value.0 == Flat && oneWayOk ==>
                r.value.1 == 0.0 && forall p :: p in NonFlat(LastRows(connector.snapshots), lastPair) ==> p.symbol != symbol
    {
      hide NonFlat, TwoSided, Foreign, AtMostOnce, IsLastLeverage, ToPairSymbol;
      var rows := Refresh();
      if rows.Raised? || !AccountPositionsTrusted() { return Raised; }
      for k := 0 to |rows.value|
        invariant forall j :: 0 <= j < k ==> rows.value[j].symbol != symbol
      {
        if rows.value[k].symbol == symbol {
          KeptRowComesFrom(LastRows(connector.snapshots), lastPair, k);
          return Got((rows.value[k].side, rows.value[k].size));
        }
      }
      if oneWayOk && foreignSymbols == [] && symbol == config.tradingPair {
        assert forall p :: p in NonFlat(LastRows(connector.snapshots), lastPair) ==> p.symbol != symbol;
        FlatEverywhere(LastRows(connector.snapshots), lastPair);
      }
      return Got((Flat, 0.0));
    }

    /** A failed start of the network is only noted; the refresh decides. */
    method Connect() returns (r: Reply<()>)
      requires Valid()
      modifies this`mid, this`foreignSymbols, this`oneWayOk, this`recoveryReason, this`observedLeverage,
               this`leverageMismatch, this`lastPair, this`connected, connector
      ensures Valid() && connector.calls == old(connector.calls)
      ensures r.Raised? <==> connector.snapshots == old(connector.snapshots)
      ensures connected == (old(connected) || r.Got?)
      ensures r.Got? && (connector.accountReadFailed || LastSnapshotFailed(connector.snapshots)) ==> State() != WorkerReady
    {
      hide FlagsMean, AtMostOnce, NonFlat, IsLastLeverage;
      var liveReadOnly := connector.readOnly;
      var started := connector.StartNetwork();
      var refreshed := Refresh();
      if refreshed.Raised? { return Raised; }
      connected := true;
      if started.Raised? && recoveryReason.None? { recoveryReason := Some(NetworkStart); }
      if connector.accountReadFailed && recoveryReason.None? { recoveryReason := Some(AccountStateUnknown); }
      if liveReadOnly && !connector.authenticated && recoveryReason.None? {
        recoveryReason := Some(AccountReadUnavailable);
      }
      return Got(());
    }

    /** A request that may go out: fresh, priced and normalized, with execution enabled and the connector
        writable. */
    ghost predicate Sendable(request: PlaceRequest)
      reads this, connector
    {
      && request.cloid !in submitted
      && WireOf(request, mid, config.slippage, connector.rule).Some?
      && config.executionEnabled && (connector.readOnly ==> connector.armed)
    }

    /** `place_order`.  The connector sees a cloid at most once in the life of the adapter, and exactly when
        the request may go out; its reply is passed on.  A repeated request is answered with the
        connector's view of the order, or UNKNOWN. */
    method PlaceOrder(request: PlaceRequest) returns (r: Reply<OrderStatus>)
      requires Valid()
      modifies this`submitted, connector
      ensures Valid()
      ensures old(connector.calls) <= connector.calls && |connector.calls| <= |old(connector.calls)| + 1
      ensures connector.calls != old(connector.calls) <==> old(Sendable(request))
      ensures connector.calls != old(connector.calls) ==>
                var call := connector.calls[|old(connector.calls)|];
                && call.cloid == request.cloid && call.side == request.side && call.reduceOnly == request.reduceOnly
                && WireOf(request, mid, config.slippage, connector.rule) == Some(call.wire)
                && Answers(r, call.reply)
      ensures request.cloid in old(submitted) ==>
                && submitted == old(submitted) && |connector.views| == |old(connector.views)| + 1
                && var view := connector.views[|old(connector.views)|];
                && view.0 == request.cloid
                && r == (if view.1.Raised? then Raised else if view.1.value.Some? then Got(view.1.value.value) else Got(Unknown))
      ensures request.cloid !in old(submitted) && connector.calls == old(connector.calls) ==>
                r == Got(Rejected) && submitted == old(submitted)
      ensures connector.snapshots == old(connector.snapshots)
    {
      if request.cloid in submitted {
        var existing := connector.GetOrder(request.cloid);
        if existing.Raised? { return Raised; }
        return Got(if existing.value.Some? then existing.value.value else Unknown);
      }
      var price := IocPrice(request, mid, config.slippage, connector.rule);
      if price.None? { return Got(Rejected); }
      var normalized := Normalize(request, price.value, connector.rule);
      if normalized.None? { return Got(Rejected); }
      if !config.executionEnabled { return Got(Rejected); }
      if connector.readOnly && !connector.armed { return Got(Rejected); }
      submitted := submitted + {request.cloid};
      var result := connector.Place(request.cloid, request.side, request.reduceOnly, normalized.value);
      if result.Raised? { return Raised; }
      return Got(if result.value.Refused? then Rejected else result.value.status);
    }
  }

  /** The flags alone keep the adapter from READY. */
  predicate HeldBack(oneWayOk: bool, foreign: seq<string>, reason: Option<RecoveryReason>) {
    !oneWayOk || foreign != [] || reason == Some(AccountStateUnknown)
  }

  predicate LastSnapshotFailed(snapshots: seq<RestSnapshot>) {
    snapshots != [] && snapshots[|snapshots|-1].accountReadFailed
  }

  /** The leverage of the last position that reports one, else the one known before. */
  ghost predicate IsLastLeverage(leverage: Option<int>, positions: seq<ExchangePosition>, before: Option<int>) {
    || (leverage == before && forall k :: 0 <= k < |positions| ==> positions[k].leverage.None?)
    || exists k :: 0 <= k < |positions| && positions[k].leverage == leverage && leverage.Some?
                   && forall j :: k < j < |positions| ==> positions[j].leverage.None?
  }

  lemma LastLeverageFirst(positions: seq<ExchangePosition>, before: Option<int>)
    ensures IsLastLeverage(before, positions[..0], before)
  {
  }

  lemma LastLeverageNext(leverage: Option<int>, positions: seq<ExchangePosition>, k: nat, before: Option<int>)
    requires k < |positions| && IsLastLeverage(leverage, positions[..k], before)
    ensures IsLastLeverage(if positions[k].leverage.Some? then positions[k].leverage else leverage, positions[..k+1], before)
  {
    var upTo := positions[..k+1];
    assert upTo == positions[..k] + [positions[k]];
    assert upTo[k] == positions[k];
    if positions[k].leverage.None? && leverage != before {
      assert forall j :: 0 <= j < k ==> upTo[j] == positions[..k][j];
    }
  }

  // ---------------------------------------------------------------- runtime

  /** The worker as it was when the connector was called, the snapshot its flags came from, and the
      order it was given. */
  datatype Wire = Wire(
    request: PlaceRequest, config: WorkerConfig, state: WorkerState, now: real, heartbeat: Option<real>, writable: bool,
    mid: real, rows: seq<RawRow>, pair: string, sent: Normalized)

  ghost predicate GatePassed(w: Wire, rule: InstrumentMeta) {
    && w.request.symbol == w.config.tradingPair
    && w.state == WorkerReady && OnlyPair(w.rows, w.pair)
    && w.config.executionEnabled && w.writable
    && (!w.request.reduceOnly ==> HeardWithin(w.heartbeat, w.now, w.config.heartbeatTimeout))
    && WireOf(w.request, w.mid, w.config.slippage, rule) == Some(w.sent)
  }

  /** The backend was heard at most `timeout` ago. */
  predicate HeardWithin(heartbeat: Option<real>, now: real, timeout: real) {
    heartbeat.Some? && now <= heartbeat.value + timeout
  }

  /** `configure` does not refresh.  For pairs quoted alike, a snapshot that held only the old pair holds
      only the new one exactly when the pair is the same or the account was empty. */
  lemma StalePairIff(rows: seq<RawRow>, pair: string, newPair: string)
    requires OnlyPair(rows, pair) && EndsWith(pair, "-USD") && EndsWith(newPair, "-USD")
    ensures OnlyPair(rows, newPair) <==> newPair == pair || forall row :: row in rows ==> row.szi == 0.0
  {
    SamePositions(rows, pair, newPair);
    var ps := NonFlat(rows, pair);
    assert ps != [] ==> ps[0] in ps;
  }

  lemma {:induction false} SamePositions(rows: seq<RawRow>, pair: string, newPair: string)
    requires EndsWith(pair, "-USD") && EndsWith(newPair, "-USD")
    ensures NonFlat(rows, pair) == NonFlat(rows, newPair)
  {
    if rows != [] { SamePositions(rows[..|rows|-1], pair, newPair); }
  }

  /** The input: a BTC position, and the worker reconfigured to ETH. */
  lemma StalePairHidesAPosition()
    ensures var rows := [RawRow("BTC", 1.0, None)]; OnlyPair(rows, "BTC-USD") && !OnlyPair(rows, "ETH-USD")
  {
    var rows := [RawRow("BTC", 1.0, None)];
    assert rows[..0] == [];
    assert NonFlat(rows, "BTC-USD") == [MapPosition(rows[0], "BTC-USD")];
    assert NonFlat(rows, "ETH-USD") == [MapPosition(rows[0], "ETH-USD")];
    assert EndsWith("BTC-USD", "-USD") && EndsWith("ETH-USD", "-USD");
    assert MapPosition(rows[0], "BTC-USD").symbol == "BTC-USD";
    assert MapPosition(rows[0], "ETH-USD").symbol == "BTC-USD" != "ETH-USD";
    assert MapPosition(rows[0], "ETH-USD") in NonFlat(rows, "ETH-USD");
  }

  datatype WorkerOp =
    | Place(request: PlaceRequest) | Heartbeat | WsDown | Resync | ConnectOp | DisconnectOp
    | ConfigureOp(pair: string, slippage: Option<real>, leverage: Option<int>)

  class WorkerRuntime {
    const inner: HyperliquidExecutionAdapter
    var config: WorkerConfig
    var state: WorkerState
    var forceDegraded: bool
    var lastBackendHeartbeat: Option<real>
    ghost var wires: seq<Wire>

    /** Everything the connector was ever asked to place went through the gate. */
    ghost predicate Valid()
      reads this, inner, inner.connector
    {
      && inner.Valid() && inner.config == config
      && |wires| == |inner.connector.calls|
      && (forall k :: 0 <= k < |wires| ==> WiredAs(wires[k], inner.connector.calls[k]) && GatePassed(wires[k], inner.connector.rule))
    }

    constructor (inner: HyperliquidExecutionAdapter, config: WorkerConfig)
      requires inner.Valid() && inner.config == config && inner.connector.calls == []
      ensures Valid() && wires == [] && this.inner == inner && this.config == config
      ensures !forceDegraded && lastBackendHeartbeat == None && state == NotReady
    {
      this.inner, this.config := inner, config;
      state, forceDegraded, lastBackendHeartbeat, wires := NotReady, false, None, [];
    }

    method RefreshState()
      modifies this`state
      ensures state == if forceDegraded then Degraded else inner.State()
      ensures state == WorkerReady ==> !forceDegraded && inner.connected && inner.connector.wsConnected
      ensures inner.Valid() && state == WorkerReady ==> OnlyPair(LastRows(inner.connector.snapshots), inner.lastPair)
    {
      if inner.Valid() { inner.ReadyIff(); }
      if forceDegraded {
        state := Degraded;
      } else {
        state := inner.State();
      }
    }

    function BackendHeartbeatOk(now: real): (ok: bool)
      reads this
      ensures ok <==> !config.executionEnabled || HeardWithin(lastBackendHeartbeat, now, config.heartbeatTimeout)
    {
      if !config.executionEnabled then true
      else if lastBackendHeartbeat.None? then false
      else now - lastBackendHeartbeat.value <= config.heartbeatTimeout
    }

    method Configure(pair: string, slippage: Option<real>, leverage: Option<int>)
      requires Valid()
      modifies this`config, inner`config
      ensures Valid()
      ensures config == old(config).(tradingPair := pair,
                                     slippage := if slippage.Some? then slippage.value else old(config).slippage,
                                     expectedLeverage := if leverage.Some? then leverage.value else old(config).expectedLeverage)
    {
      config := config.(tradingPair := pair);
      if slippage.Some? { config := config.(slippage := slippage.value); }
      if leverage.Some? { config := config.(expectedLeverage := leverage.value); }
      inner.config := config;
    }

    /** The request passes the runtime's own gate. */
    ghost predicate Admitted(request: PlaceRequest, now: real)
      reads this, inner, inner.connector
    {
      && request.symbol == config.tradingPair && !forceDegraded && inner.State() == WorkerReady
      && (request.reduceOnly || !config.executionEnabled ||
          HeardWithin(lastBackendHeartbeat, now, config.heartbeatTimeout))
    }

    /** Pair, readiness and, for opens, the heartbeat; then the adapter's own gate.  The connector is called
        exactly when both admit the request, and REJECTED means that it refused or was never called. */
    method PlaceOrder(request: PlaceRequest, now: real) returns (r: Reply<OrderStatus>)
      requires Valid()
      modifies this`state, this`wires, inner`submitted, inner.connector
      ensures Valid()
      ensures old(wires) <= wires && |wires| <= |old(wires)| + 1
      ensures wires != old(wires) <==> old(Admitted(request, now)) && old(inner.Sendable(request))
      ensures wires != old(wires) ==>
                && wires[|old(wires)|].request == request && wires[|old(wires)|].now == now
                && Answers(r, inner.connector.calls[|old(wires)|].reply)
      ensures !old(Admitted(request, now)) ==> r == Got(Rejected) && inner.submitted == old(inner.submitted)
      ensures old(Admitted(request, now)) && wires == old(wires) && request.cloid !in old(inner.submitted) ==> r == Got(Rejected)
      ensures old(Admitted(request, now)) && request.cloid in old(inner.submitted) ==>
                && |inner.connector.views| == |old(inner.connector.views)| + 1
                && var view := inner.connector.views[|old(inner.connector.views)|];
                && view.0 == request.cloid
                && r == (if view.1.Raised? then Raised else if view.1.value.Some? then Got(view.1.value.value) else Got(Unknown))
    {
      hide OnlyPair, FlagsMean, WireOf, AtMostOnce;
      if request.symbol != config.tradingPair {
        return Got(Rejected);
      }
      RefreshState();
      if state != WorkerReady {
        return Got(Rejected);
      }
      if !request.reduceOnly && !BackendHeartbeatOk(now) {
        return Got(Rejected);
      }
      ghost var writable, calls := !(inner.connector.readOnly && !inner.connector.armed), inner.connector.calls;
      r := inner.PlaceOrder(request);
      if inner.connector.calls != calls {
        wires := wires + [Wire(request, config, state, now, lastBackendHeartbeat, writable, inner.mid,
                               LastRows(inner.connector.snapshots), inner.lastPair, inner.connector.calls[|calls|].wire)];
      }
    }

    method MarkWsDown()
      requires Valid()
      modifies this`state, this`forceDegraded, inner.connector`wsConnected
      ensures Valid() && forceDegraded && state == Degraded && !inner.connector.wsConnected
    {
      forceDegraded := true;
      inner.connector.wsConnected := false;
      RefreshState();
    }

    method RestResync() returns (r: Reply<()>)
      requires Valid()
      modifies this`state, this`forceDegraded, inner`mid, inner`foreignSymbols, inner`oneWayOk, inner`recoveryReason,
               inner`observedLeverage, inner`leverageMismatch, inner`lastPair, inner.connector
      ensures Valid() && !forceDegraded
      ensures r.Got? ==> state == inner.State() && |inner.connector.snapshots| == |old(inner.connector.snapshots)| + 1
      ensures r.Raised? ==> inner.connector.snapshots == old(inner.connector.snapshots)
    {
      forceDegraded := false;
      var started := inner.connector.StartNetwork();
      if started.Raised? { return Raised; }
      var refreshed := inner.Refresh();
      if refreshed.Raised? { return Raised; }
      RefreshState();
      return Got(());
    }

    /** Each call does its own thing and nothing else: only a place reaches the connector, only a heartbeat
        moves the heartbeat, only a configure the configuration, only connect and disconnect the connection. */
    method Perform(op: WorkerOp, now: real)
      requires Valid()
      modifies this, inner, inner.connector
      ensures Valid() && old(wires) <= wires
      ensures wires != old(wires) <==> op.Place? && old(Admitted(op.request, now)) && old(inner.Sendable(op.request))
      ensures lastBackendHeartbeat == if op.Heartbeat? then Some(now) else old(lastBackendHeartbeat)
      ensures op.ConfigureOp? ==> config.tradingPair == op.pair
      ensures !op.ConfigureOp? ==> config == old(config)
      ensures forceDegraded == (op.WsDown? || (!op.Resync? && old(forceDegraded)))
      ensures op.WsDown? ==> state == Degraded
      ensures op.DisconnectOp? ==> !inner.connected && state == if forceDegraded then Degraded else NotReady
      ensures op.ConnectOp? && inner.connector.snapshots != old(inner.connector.snapshots) ==> inner.connected
      ensures !op.ConnectOp? && !op.DisconnectOp? ==> inner.connected == old(inner.connected)
      ensures !op.Place? ==> inner.submitted == old(inner.submitted)
    {
      hide GatePassed, OnlyPair, FlagsMean, WiredAs, AtMostOnce, WireOf;
      match op {
        case Place(request) =>
          var _ := PlaceOrder(request, now);
        case Heartbeat =>
          lastBackendHeartbeat := Some(now);
        case WsDown =>
          MarkWsDown();
        case Resync =>
          var _ := RestResync();
        case ConnectOp =>
          var connected := inner.Connect();
          if connected.Got? { RefreshState(); }
        case DisconnectOp =>
          inner.connector.wsConnected := false;
          inner.connected := false;
          RefreshState();
        case ConfigureOp(pair, slippage, leverage) =>
          Configure(pair, slippage, leverage);
      }
    }

    /** Any sequence of worker calls at any times: `Valid` says that everything the connector saw had
        passed every gate, and that it saw no cloid twice. */
    method Run(ops: seq<(WorkerOp, real)>)
      requires Valid()
      modifies this, inner, inner.connector
      ensures Valid() && old(wires) <= wires
      ensures forall j, k :: 0 <= j < k < |wires| ==> wires[j].request.cloid != wires[k].request.cloid
    {
      hide GatePassed, OnlyPair, FlagsMean;
      for k := 0 to |ops|
        invariant Valid() && old(wires) <= wires
      {
        Perform(ops[k].0, ops[k].1);
      }
    }
  }

  /** The connector was given the order of the wire: cloid, side, reduce-only flag, quantity and price. */
  predicate WiredAs(w: Wire, call: Call) {
    && call.cloid == w.request.cloid && call.side == w.request.side && call.reduceOnly == w.request.reduceOnly
    && call.wire == w.sent
  }
}
