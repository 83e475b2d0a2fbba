/** The ema5break signal over exact reals. */
module Ema5Break {
  import opened Enums
  import opened Outcomes

  datatype Bar = Bar(open: real, high: real, low: real, close: real)

  datatype Params = Params(emaPeriod: int, atrPeriod: int, atrStopMult: real, tpRr: real)

  datatype Snapshot = Snapshot(params: Params, bars: seq<Bar>, side: PositionSide, entry: Option<real>)

  // ---------------------------------------------------------------- indicators

  function Sum(xs: seq<real>): real {
    if xs == [] then 0.0 else Sum(xs[..|xs|-1]) + xs[|xs|-1]
  }

  /** One step of the moving average. */
  function Blend(value: real, price: real, k: real): real {
    price * k + value * (1.0 - k)
  }

  function EmaFold(prices: seq<real>, value: real, k: real): real {
    if prices == [] then value
    else Blend(EmaFold(prices[..|prices|-1], value, k), prices[|prices|-1], k)
  }

  function Ema(closes: seq<real>, period: int): Option<real> {
    if period < 1 || |closes| < period then None
    else Some(EmaFold(closes[period..], Sum(closes[..period]) / period as real, 2.0 / (period + 1) as real))
  }

  /** The accumulating loops of `_ema`. */
  method ComputeEma(closes: seq<real>, period: int) returns (r: Option<real>)
    ensures r == Ema(closes, period)
  {
    if period < 1 || |closes| < period {
      return None;
    }
    var k := 2.0 / (period + 1) as real;
    var total := 0.0;
    for i := 0 to period
      invariant total == Sum(closes[..i])
    {
      assert closes[..i+1][..i] == closes[..i];
      total := total + closes[i];
    }
    var value := total / period as real;
    var rest := closes[period..];
    for i := 0 to |rest|
      invariant value == EmaFold(rest[..i], Sum(closes[..period]) / period as real, k)
    {
      assert rest[..i+1][..i] == rest[..i];
      value := rest[i] * k + value * (1.0 - k);
    }
    assert rest[..|rest|] == rest;
    return Some(value);
  }

  function Max(x: real, y: real): real {
    if x < y then y else x
  }

  function Min(x: real, y: real): real {
    if x < y then x else y
  }

  function Abs(x: real): real {
    if x < 0.0 then -x else x
  }

  function Max3(x: real, y: real, z: real): real {
    Max(x, Max(y, z))
  }

  function TrueRange(prevClose: real, bar: Bar): real {
    Max3(bar.high - bar.low, Abs(bar.high - prevClose), Abs(bar.low - prevClose))
  }

  function TrueRanges(bars: seq<Bar>): (trs: seq<real>)
    requires |bars| >= 1
    ensures |trs| == |bars| - 1
  {
    seq(|bars| - 1, i requires 0 <= i < |bars| - 1 => TrueRange(bars[i].close, bars[i+1]))
  }

  function Atr(bars: seq<Bar>, period: int): Option<real> {
    if period < 1 || |bars| < period + 1 then None
    else
      var trs := TrueRanges(bars);
      Some(Sum(trs[|trs|-period..]) / period as real)
  }

  function Closes(bars: seq<Bar>): (xs: seq<real>)
    ensures |xs| == |bars|
  {
    seq(|bars|, i requires 0 <= i < |bars| => bars[i].close)
  }

  // ---------------------------------------------------------------- the signal

  function BodyHigh(b: Bar): real {
    Max(b.open, b.close)
  }

  function BodyLow(b: Bar): real {
    Min(b.open, b.close)
  }

  predicate Bull(b: Bar) {
    b.close > b.open
  }

  predicate Bear(b: Bar) {
    b.close < b.open
  }

  predicate Covers(prev: Bar, curr: Bar) {
    BodyLow(curr) <= BodyLow(prev) && BodyHigh(curr) >= BodyHigh(prev)
  }

  predicate BullishEngulfing(prev: Bar, curr: Bar) {
    Bear(prev) && Bull(curr) && Covers(prev, curr)
  }

  predicate BearishEngulfing(prev: Bar, curr: Bar) {
    Bull(prev) && Bear(curr) && Covers(prev, curr)
  }

  /** Any side that is neither LONG nor SHORT is treated as flat. */
  function OnBar(s: Snapshot): SignalType {
    if |s.bars| < 2 then HoldSignal
    else
      var ema := Ema(Closes(s.bars), s.params.emaPeriod);
      var atr := Atr(s.bars, s.params.atrPeriod);
      if ema.None? || atr.None? || atr.value <= 0.0 then HoldSignal
      else Respond(s.params, s.side, s.entry, s.bars[|s.bars|-2], s.bars[|s.bars|-1], ema.value, atr.value)
  }

  function Respond(params: Params, side: PositionSide, entry: Option<real>, prev: Bar, curr: Bar, ema: real, atr: real): SignalType {
    var stop := params.atrStopMult * atr;
    var target := params.tpRr * stop;
    Decide(side, entry, prev, curr, ema, stop, target)
  }

  function Decide(side: PositionSide, entry: Option<real>, prev: Bar, curr: Bar, ema: real, stop: real, target: real): SignalType {
    if side == Long then
      if entry.None? then HoldSignal
      else if curr.close <= entry.value - stop || curr.close >= entry.value + target then CloseSignal
      else HoldSignal
    else if side == Short then
      if entry.None? then HoldSignal
      else if curr.close >= entry.value + stop || curr.close <= entry.value - target then CloseSignal
      else HoldSignal
    else
      var wantLong := BullishEngulfing(prev, curr) && curr.close > ema;
      var wantShort := BearishEngulfing(prev, curr) && curr.close < ema;
      if wantLong && !wantShort then LongSignal
      else if wantShort && !wantLong then ShortSignal
      else HoldSignal
  }

  /** In a position the strategy can only close or hold; out of one it can only open or hold. */
  lemma NeverReverses(s: Snapshot)
    ensures s.side in {Long, Short} ==> OnBar(s) in {CloseSignal, HoldSignal}
    ensures s.side !in {Long, Short} ==> OnBar(s) in {LongSignal, ShortSignal, HoldSignal}
  {
  }

  // ---------------------------------------------------------------- affine change of prices

  /** x becomes c*x + d.  A negative c turns the chart upside down, so high and low change places. */
  function Moved(x: real, c: real, d: real): real {
    c * x + d
  }

  function MovedBar(b: Bar, c: real, d: real): Bar {
    if c > 0.0 then Bar(Moved(b.open, c, d), Moved(b.high, c, d), Moved(b.low, c, d), Moved(b.close, c, d))
    else Bar(Moved(b.open, c, d), Moved(b.low, c, d), Moved(b.high, c, d), Moved(b.close, c, d))
  }

  function MovedBars(bars: seq<Bar>, c: real, d: real): (moved: seq<Bar>)
    ensures |moved| == |bars|
  {
    seq(|bars|, i requires 0 <= i < |bars| => MovedBar(bars[i], c, d))
  }

  function MovedAll(xs: seq<real>, c: real, d: real): (ys: seq<real>)
    ensures |ys| == |xs|
  {
    seq(|xs|, i requires 0 <= i < |xs| => Moved(xs[i], c, d))
  }

  function MovedSide(side: PositionSide, c: real): PositionSide {
    if c > 0.0 then side else if side == Long then Short else if side == Short then Long else side
  }

  function MovedSignal(signal: SignalType, c: real): SignalType {
    if c > 0.0 then signal
    else if signal == LongSignal then ShortSignal
    else if signal == ShortSignal then LongSignal
    else signal
  }

  function MovedSnapshot(s: Snapshot, c: real, d: real): Snapshot {
    Snapshot(s.params, MovedBars(s.bars, c, d), MovedSide(s.side, c), MovedEntry(s.entry, c, d))
  }

  lemma {:induction false} SumMoves(xs: seq<real>, c: real, d: real)
    ensures Sum(MovedAll(xs, c, d)) == c * Sum(xs) + d * |xs| as real
  {
    if xs != [] {
      var n := |xs| - 1;
      SumMoves(xs[..n], c, d);
      assert MovedAll(xs, c, d)[..n] == MovedAll(xs[..n], c, d);
      SumStep(Sum(xs[..n]), xs[n], c, d, n);
    }
  }

  lemma SumStep(total: real, x: real, c: real, d: real, n: int)
    ensures (c * total + d * n as real) + (c * x + d) == c * (total + x) + d * (n + 1) as real
  {
  }

  /** The weights of a moving average add up to one, so an affine change passes straight through. */
  lemma {:induction false} EmaFoldMoves(prices: seq<real>, value: real, k: real, c: real, d: real)
    ensures EmaFold(MovedAll(prices, c, d), Moved(value, c, d), k) == Moved(EmaFold(prices, value, k), c, d)
  {
    hide Moved, Blend;
    if prices != [] {
      var n := |prices| - 1;
      EmaFoldMoves(prices[..n], value, k, c, d);
      assert MovedAll(prices, c, d)[..n] == MovedAll(prices[..n], c, d);
      BlendMoves(EmaFold(prices[..n], value, k), prices[n], k, c, d);
    }
  }

  lemma BlendMoves(value: real, price: real, k: real, c: real, d: real)
    ensures Blend(Moved(value, c, d), Moved(price, c, d), k) == Moved(Blend(value, price, k), c, d)
  {
    calc {
      Blend(Moved(value, c, d), Moved(price, c, d), k);
      c * price * k + c * value * (1.0 - k) + d;
      c * (price * k) + c * (value * (1.0 - k)) + d;
      c * (price * k + value * (1.0 - k)) + d;
    }
  }

  lemma MeanMoves(xs: seq<real>, n: real, c: real, d: real)
    requires n == |xs| as real && n > 0.0
    ensures Sum(MovedAll(xs, c, d)) / n == Moved(Sum(xs) / n, c, d)
  {
    hide Sum, Moved;
    SumMoves(xs, c, d);
    AverageMoves(Sum(MovedAll(xs, c, d)), Sum(xs), n, c, d);
  }

  lemma EmaMoves(closes: seq<real>, period: int, c: real, d: real)
    requires Ema(closes, period).Some?
    ensures Ema(MovedAll(closes, c, d), period) == Some(Moved(Ema(closes, period).value, c, d))
  {
    hide Moved, Sum, EmaFold;
    var first, rest := closes[..period], closes[period..];
    var n := period as real;
    assert MovedAll(closes, c, d)[..period] == MovedAll(first, c, d);
    assert MovedAll(closes, c, d)[period..] == MovedAll(rest, c, d);
    MeanMoves(first, n, c, d);
    EmaFoldMoves(rest, Sum(first) / n, 2.0 / (period + 1) as real, c, d);
  }

  lemma AverageMoves(moved: real, total: real, n: real, c: real, d: real)
    requires n > 0.0 && moved == c * total + d * n
    ensures moved / n == Moved(total / n, c, d)
  {
    var a := total / n;
    assert a * n == total;
    assert c * total == (c * a) * n;
    assert (c * a + d) * n == c * total + d * n;
  }

  lemma TrueRangeMoves(prevClose: real, bar: Bar, c: real, d: real)
    requires c != 0.0
    ensures TrueRange(Moved(prevClose, c, d), MovedBar(bar, c, d)) == Abs(c) * TrueRange(prevClose, bar)
  {
    hide Moved, Abs, Max3;
    AbsPositive(c);
    DistanceMoves(bar.high, bar.low, c, d);
    DistanceMoves(bar.high, prevClose, c, d);
    DistanceMoves(bar.low, prevClose, c, d);
    var a, prev, moved := Abs(c), Moved(prevClose, c, d), MovedBar(bar, c, d);
    var x, y, z := bar.high - bar.low, Abs(bar.high - prevClose), Abs(bar.low - prevClose);
    var x', y', z' := moved.high - moved.low, Abs(moved.high - prev), Abs(moved.low - prev);
    if c > 0.0 {
      Max3Scales(x, y, z, x', y', z', a);
    } else {
      Max3Scales(x, z, y, x', y', z', a);
      Max3Swaps(x, y, z);
    }
  }

  lemma Max3Scales(x: real, y: real, z: real, x': real, y': real, z': real, a: real)
    requires a >= 0.0 && x' == a * x && y' == a * y && z' == a * z
    ensures Max3(x', y', z') == a * Max3(x, y, z)
  {
    MaxScales(y, z, y', z', a);
    MaxScales(x, Max(y, z), x', Max(y', z'), a);
  }

  lemma Max3Swaps(x: real, y: real, z: real)
    ensures Max3(x, y, z) == Max3(x, z, y)
  {
  }

  lemma AbsPositive(c: real)
    ensures Abs(c) >= 0.0 && (c != 0.0 ==> Abs(c) > 0.0)
  {
  }

  lemma DistanceMoves(x: real, y: real, c: real, d: real)
    ensures Moved(x, c, d) - Moved(y, c, d) == c * (x - y)
    ensures Abs(Moved(x, c, d) - Moved(y, c, d)) == Abs(c) * Abs(x - y)
    ensures c < 0.0 ==> Moved(y, c, d) - Moved(x, c, d) == Abs(c) * (x - y)
    ensures c > 0.0 ==> Moved(x, c, d) - Moved(y, c, d) == Abs(c) * (x - y)
  {
    var t := x - y;
    assert c * x - c * y == c * t;
    if t < 0.0 {
      assert c > 0.0 ==> c * t < 0.0;
      assert c < 0.0 ==> c * t > 0.0;
    } else {
      assert c > 0.0 ==> c * t >= 0.0;
      assert c < 0.0 ==> c * t <= 0.0;
    }
  }

  lemma MaxScales(x: real, y: real, x': real, y': real, a: real)
    requires a >= 0.0 && x' == a * x && y' == a * y
    ensures Max(x', y') == a * Max(x, y)
  {
    if x < y { assert a * x <= a * y; } else { assert a * y <= a * x; }
  }

  lemma WindowMoves(trs: seq<real>, moved: seq<real>, period: int, a: real, mean: real, mean': real)
    requires 1 <= period <= |trs| == |moved|
    requires mean == Sum(trs[|trs|-period..]) / period as real
    requires mean' == Sum(moved[|moved|-period..]) / period as real
    requires forall i :: 0 <= i < |trs| ==> moved[i] == Moved(trs[i], a, 0.0)
    ensures mean' == a * mean
  {
    hide Moved, Sum;
    var window := trs[|trs|-period..];
    assert moved[|moved|-period..] == MovedAll(window, a, 0.0);
    MeanMoves(window, period as real, a, 0.0);
    MovedByScale(mean, a);
  }

  lemma AtrMoves(bars: seq<Bar>, period: int, c: real, d: real)
    requires c != 0.0 && Atr(bars, period).Some?
    ensures Atr(MovedBars(bars, c, d), period) == Some(Abs(c) * Atr(bars, period).value)
  {
    hide TrueRange, Moved, MovedBar, Sum, Abs;
    AbsPositive(c);
    var trs := TrueRanges(bars);
    var moved := TrueRanges(MovedBars(bars, c, d));
    forall i | 0 <= i < |trs|
      ensures moved[i] == Moved(trs[i], Abs(c), 0.0)
    {
      TrueRangeMoves(bars[i].close, bars[i+1], c, d);
      CloseMoves(bars[i], c, d);
      MovedByScale(trs[i], Abs(c));
    }
    WindowMoves(trs, moved, period, Abs(c), Atr(bars, period).value, Atr(MovedBars(bars, c, d), period).value);
    assert Atr(MovedBars(bars, c, d), period).Some?;
    assert Atr(MovedBars(bars, c, d), period).value == Abs(c) * Atr(bars, period).value;
  }

  lemma CloseMoves(bar: Bar, c: real, d: real)
    ensures MovedBar(bar, c, d).close == Moved(bar.close, c, d)
  {
  }

  lemma MovedByScale(x: real, a: real)
    ensures Moved(x, a, 0.0) == a * x
  {
  }

  lemma OrderMoves(x: real, y: real, c: real, d: real)
    requires c != 0.0
    ensures Moved(x, c, d) <= Moved(y, c, d) <==> if c > 0.0 then x <= y else y <= x
    ensures Moved(x, c, d) < Moved(y, c, d) <==> if c > 0.0 then x < y else y < x
  {
    DistanceMoves(x, y, c, d);
    var t := x - y;
    if t < 0.0 {
      assert c > 0.0 ==> c * t < 0.0;
      assert c < 0.0 ==> c * t > 0.0;
    } else if t > 0.0 {
      assert c > 0.0 ==> c * t > 0.0;
      assert c < 0.0 ==> c * t < 0.0;
    }
  }

  lemma EngulfingMoves(prev: Bar, curr: Bar, c: real, d: real)
    requires c != 0.0
    ensures BullishEngulfing(MovedBar(prev, c, d), MovedBar(curr, c, d)) <==>
            if c > 0.0 then BullishEngulfing(prev, curr) else BearishEngulfing(prev, curr)
    ensures BearishEngulfing(MovedBar(prev, c, d), MovedBar(curr, c, d)) <==>
            if c > 0.0 then BearishEngulfing(prev, curr) else BullishEngulfing(prev, curr)
  {
    OrderMoves(prev.open, prev.close, c, d);
    OrderMoves(prev.close, prev.open, c, d);
    OrderMoves(curr.open, curr.close, c, d);
    OrderMoves(curr.close, curr.open, c, d);
    OrderMoves(BodyLow(curr), BodyLow(prev), c, d);
    OrderMoves(BodyHigh(prev), BodyHigh(curr), c, d);
    OrderMoves(BodyHigh(curr), BodyHigh(prev), c, d);
    OrderMoves(BodyLow(prev), BodyLow(curr), c, d);
  }

  lemma ThresholdMoves(close: real, entry: real, distance: real, c: real, d: real)
    requires c != 0.0
    ensures Moved(close, c, d) <= Moved(entry, c, d) - Abs(c) * distance <==>
            if c > 0.0 then close <= entry - distance else close >= entry + distance
    ensures Moved(close, c, d) >= Moved(entry, c, d) + Abs(c) * distance <==>
            if c > 0.0 then close >= entry + distance else close <= entry - distance
  {
    OrderMoves(close, entry - distance, c, d);
    OrderMoves(entry + distance, close, c, d);
    OrderMoves(close, entry + distance, c, d);
    OrderMoves(entry - distance, close, c, d);
    assert c * (entry - distance) == c * entry - c * distance;
    assert c * (entry + distance) == c * entry + c * distance;
  }

  function MovedEntry(entry: Option<real>, c: real, d: real): Option<real> {
    if entry.Some? then Some(Moved(entry.value, c, d)) else None
  }

  lemma DecideMoves(side: PositionSide, entry: Option<real>, prev: Bar, curr: Bar, ema: real, stop: real, target: real,
                    stop': real, target': real, c: real, d: real)
    requires c != 0.0 && stop' == Abs(c) * stop && target' == Abs(c) * target
    ensures Decide(MovedSide(side, c), MovedEntry(entry, c, d), MovedBar(prev, c, d), MovedBar(curr, c, d),
                   Moved(ema, c, d), stop', target')
         == MovedSignal(Decide(side, entry, prev, curr, ema, stop, target), c)
  {
    EngulfingMoves(prev, curr, c, d);
    OrderMoves(ema, curr.close, c, d);
    OrderMoves(curr.close, ema, c, d);
    if entry.Some? {
      ThresholdMoves(curr.close, entry.value, stop, c, d);
      ThresholdMoves(curr.close, entry.value, target, c, d);
    }
  }

  lemma RespondMoves(params: Params, side: PositionSide, entry: Option<real>, prev: Bar, curr: Bar, ema: real,
                     atr: real, atr': real, c: real, d: real)
    requires c != 0.0 && atr' == Abs(c) * atr
    ensures Respond(params, MovedSide(side, c), MovedEntry(entry, c, d), MovedBar(prev, c, d), MovedBar(curr, c, d),
                    Moved(ema, c, d), atr')
         == MovedSignal(Respond(params, side, entry, prev, curr, ema, atr), c)
  {
    hide Decide, Moved, MovedBar, MovedSide, MovedSignal, MovedEntry, Abs;
    var stop, stop' := params.atrStopMult * atr, params.atrStopMult * atr';
    var target, target' := params.tpRr * stop, params.tpRr * stop';
    ProductMoves(params.atrStopMult, atr, atr', Abs(c));
    ProductMoves(params.tpRr, stop, stop', Abs(c));
    RespondIs(params, side, entry, prev, curr, ema, atr, stop, target);
    RespondIs(params, MovedSide(side, c), MovedEntry(entry, c, d), MovedBar(prev, c, d), MovedBar(curr, c, d),
              Moved(ema, c, d), atr', stop', target');
    DecideMoves(side, entry, prev, curr, ema, stop, target, stop', target', c, d);
  }

  lemma RespondIs(params: Params, side: PositionSide, entry: Option<real>, prev: Bar, curr: Bar, ema: real,
                  atr: real, stop: real, target: real)
    requires stop == params.atrStopMult * atr && target == params.tpRr * stop
    ensures Respond(params, side, entry, prev, curr, ema, atr) == Decide(side, entry, prev, curr, ema, stop, target)
  {
  }

  lemma ProductMoves(m: real, x: real, x': real, a: real)
    requires x' == a * x
    ensures m * x' == a * (m * x)
  {
  }

  /** The signal depends on the shape of the chart alone: any change of unit or origin leaves it as
      it is, and turning the chart upside down swaps LONG and SHORT and nothing else. */
  lemma SignalMovesWithTheChart(s: Snapshot, c: real, d: real)
    requires c != 0.0
    ensures OnBar(MovedSnapshot(s, c, d)) == MovedSignal(OnBar(s), c)
  {
    hide Moved, MovedBar, MovedSide, MovedSignal, MovedEntry, Respond, Ema, Atr, Abs;
    AbsPositive(c);
    var bars := s.bars;
    var moved := MovedBars(bars, c, d);
    HoldIsFixed(c);
    if |bars| >= 2 {
      ClosesMove(bars, c, d);
      EmaDefined(Closes(bars), Closes(moved), s.params.emaPeriod);
      AtrDefined(bars, moved, s.params.atrPeriod);
      var ema, atr := Ema(Closes(bars), s.params.emaPeriod), Atr(bars, s.params.atrPeriod);
      if ema.Some? && atr.Some? {
        EmaMoves(Closes(bars), s.params.emaPeriod, c, d);
        AtrMoves(bars, s.params.atrPeriod, c, d);
        var a, a' := atr.value, Atr(moved, s.params.atrPeriod).value;
        ScaleKeepsSign(a, a', Abs(c));
        RespondMoves(s.params, s.side, s.entry, bars[|bars|-2], bars[|bars|-1], ema.value, a, a', c, d);
      }
    }
  }

  lemma ClosesMove(bars: seq<Bar>, c: real, d: real)
    ensures Closes(MovedBars(bars, c, d)) == MovedAll(Closes(bars), c, d)
  {
  }

  lemma HoldIsFixed(c: real)
    ensures MovedSignal(HoldSignal, c) == HoldSignal
  {
  }

  lemma EmaDefined(xs: seq<real>, ys: seq<real>, period: int)
    requires |xs| == |ys|
    ensures Ema(xs, period).None? <==> Ema(ys, period).None?
  {
  }

  lemma AtrDefined(xs: seq<Bar>, ys: seq<Bar>, period: int)
    requires |xs| == |ys|
    ensures Atr(xs, period).None? <==> Atr(ys, period).None?
  {
  }

  lemma ScaleKeepsSign(x: real, y: real, a: real)
    requires a > 0.0 && y == a * x
    ensures y <= 0.0 <==> x <= 0.0
  {
    if x > 0.0 { assert a * x > 0.0; } else { assert a * x <= 0.0; }
  }
}
