/** What the strategy's answers and indicators are, said without the functions that compute them. */
module Ema5BreakLaws {
  import opened Enums
  import opened Outcomes
  import opened Ema5Break

  // ---------------------------------------------------------------- the signal

  /** Enough bars for a last and a last but one, both averages defined, and a range above zero. */
  predicate Measured(s: Snapshot, closes: seq<real>) {
    && |s.bars| >= 2 && AreCloses(closes, s.bars)
    && Ema(closes, s.params.emaPeriod).Some?
    && Atr(s.bars, s.params.atrPeriod).Some? && Atr(s.bars, s.params.atrPeriod).value > 0.0
  }

  predicate AreCloses(closes: seq<real>, bars: seq<Bar>) {
    |closes| == |bars| && forall k :: 0 <= k < |bars| ==> closes[k] == bars[k].close
  }

  lemma ClosesAre(closes: seq<real>, bars: seq<Bar>)
    requires AreCloses(closes, bars)
    ensures closes == Closes(bars)
  {
    assert forall k :: 0 <= k < |bars| ==> closes[k] == Closes(bars)[k];
  }

  /** LONG exactly when, out of a position, a falling bar is followed by a rising one whose body covers it
      and whose close is above the moving average. */
  lemma LongIff(s: Snapshot, closes: seq<real>)
    requires AreCloses(closes, s.bars)
    ensures OnBar(s) == LongSignal <==>
            && Measured(s, closes) && s.side !in {Long, Short}
            && var prev, curr := s.bars[|s.bars|-2], s.bars[|s.bars|-1];
            && prev.close < prev.open && curr.close > curr.open
            && curr.open <= prev.close && curr.close >= prev.open
            && curr.close > Ema(closes, s.params.emaPeriod).value
  {
    ClosesAre(closes, s.bars);
    hide Ema, Atr;
  }

  /** SHORT exactly when a rising bar is followed by a falling one that covers it, closing below. */
  lemma ShortIff(s: Snapshot, closes: seq<real>)
    requires AreCloses(closes, s.bars)
    ensures OnBar(s) == ShortSignal <==>
            && Measured(s, closes) && s.side !in {Long, Short}
            && var prev, curr := s.bars[|s.bars|-2], s.bars[|s.bars|-1];
            && prev.close > prev.open && curr.close < curr.open
            && curr.open >= prev.close && curr.close <= prev.open
            && curr.close < Ema(closes, s.params.emaPeriod).value
  {
    ClosesAre(closes, s.bars);
    hide Ema, Atr;
  }

  /** CLOSE exactly when the last close has reached the stop or the target: the stop lies `atrStopMult`
      ranges against the position, the target `tpRr` times as far with it. */
  lemma CloseIff(s: Snapshot, closes: seq<real>)
    requires AreCloses(closes, s.bars)
    ensures OnBar(s) == CloseSignal <==>
            && Measured(s, closes) && s.entry.Some?
            && var close, entry := s.bars[|s.bars|-1].close, s.entry.value;
               var range := Atr(s.bars, s.params.atrPeriod).value;
               var stop := s.params.atrStopMult * range;
            && ((s.side == Long && (close <= entry - stop || close >= entry + s.params.tpRr * stop)) ||
                (s.side == Short && (close >= entry + stop || close <= entry - s.params.tpRr * stop)))
  {
    ClosesAre(closes, s.bars);
    hide Ema, Atr, Decide;
    if Measured(s, closes) {
      var n, stop := |s.bars|, s.params.atrStopMult * Atr(s.bars, s.params.atrPeriod).value;
      CloseAt(s.side, s.entry, s.bars[n-2], s.bars[n-1], Ema(closes, s.params.emaPeriod).value, stop, s.params.tpRr * stop);
    }
  }

  lemma CloseAt(side: PositionSide, entry: Option<real>, prev: Bar, curr: Bar, ema: real, stop: real, target: real)
    ensures Decide(side, entry, prev, curr, ema, stop, target) == CloseSignal <==>
            && entry.Some?
            && ((side == Long && (curr.close <= entry.value - stop || curr.close >= entry.value + target)) ||
                (side == Short && (curr.close >= entry.value + stop || curr.close <= entry.value - target)))
  {
  }

  // ---------------------------------------------------------------- the moving average

  lemma DefinedIff(bars: seq<Bar>, closes: seq<real>, period: int)
    ensures Ema(closes, period).Some? <==> 1 <= period <= |closes|
    ensures Atr(bars, period).Some? <==> 1 <= period < |bars|
  {
  }

  /** It starts as the plain mean of the first `period` closes. */
  lemma EmaStarts(closes: seq<real>, period: int)
    requires 1 <= period == |closes|
    ensures Ema(closes, period).value * period as real == Sum(closes)
  {
    assert closes[..period] == closes && closes[period..] == [];
    MeanTimes(Sum(closes), period as real);
  }

  lemma MeanTimes(total: real, n: real)
    requires n > 0.0
    ensures (total / n) * n == total
  {
  }

  /** From then on the newest close has weight 2/(period+1). */
  lemma EmaNext(closes: seq<real>, close: real, period: int, before: real)
    requires 1 <= period && Ema(closes, period) == Some(before)
    ensures Ema(closes + [close], period).Some?
    ensures Ema(closes + [close], period).value == Weight(period) * close + (1.0 - Weight(period)) * before
  {
    hide Ema, EmaFold, Weight;
    DefinedIff([], closes, period);
    var value := FoldOf(closes, close, period);
    var w := Weight(period);
    FoldNext(closes[period..], close, value, w, before);
  }

  /** The weight of the newest close. */
  function Weight(period: int): real
    requires period >= 1
  {
    2.0 / (period + 1) as real
  }

  lemma WeightIs(period: int)
    requires period >= 1
    ensures Weight(period) * (period + 1) as real == 2.0
  {
  }

  lemma FoldOf(closes: seq<real>, close: real, period: int) returns (value: real)
    requires 1 <= period <= |closes|
    ensures Ema(closes, period) == Some(EmaFold(closes[period..], value, Weight(period)))
    ensures Ema(closes + [close], period) == Some(EmaFold(closes[period..] + [close], value, Weight(period)))
  {
    hide Sum, EmaFold;
    var longer := closes + [close];
    assert longer[..period] == closes[..period];
    assert longer[period..] == closes[period..] + [close];
    value := Sum(closes[..period]) / period as real;
  }

  lemma FoldNext(prices: seq<real>, price: real, value: real, w: real, before: real)
    requires EmaFold(prices, value, w) == before
    ensures EmaFold(prices + [price], value, w) == w * price + (1.0 - w) * before
  {
    hide Blend;
    assert (prices + [price])[..|prices|] == prices;
    Commutes(before, price, w);
  }

  lemma Commutes(value: real, price: real, w: real)
    ensures Blend(value, price, w) == w * price + (1.0 - w) * value
  {
  }

  lemma {:induction false} SumOfConstant(xs: seq<real>, c: real)
    requires forall k :: 0 <= k < |xs| ==> xs[k] == c
    ensures Sum(xs) == c * |xs| as real
  {
    if xs != [] {
      SumOfConstant(xs[..|xs|-1], c);
    }
  }

  lemma {:induction false} FoldOfConstant(xs: seq<real>, c: real, w: real)
    requires forall k :: 0 <= k < |xs| ==> xs[k] == c
    ensures EmaFold(xs, c, w) == c
  {
    if xs != [] {
      FoldOfConstant(xs[..|xs|-1], c, w);
      Commutes(c, c, w);
    }
  }

  /** The averages of a constant series are that constant. */
  lemma EmaOfConstant(closes: seq<real>, period: int, c: real)
    requires 1 <= period <= |closes| && forall k :: 0 <= k < |closes| ==> closes[k] == c
    ensures Ema(closes, period) == Some(c)
  {
    hide Sum, EmaFold;
    SumOfConstant(closes[..period], c);
    MeanOfConstant(Sum(closes[..period]), period as real, c);
    FoldOfConstant(closes[period..], c, 2.0 / (period + 1) as real);
  }

  lemma MeanOfConstant(total: real, n: real, c: real)
    requires n > 0.0 && total == c * n
    ensures total / n == c
  {
  }

  // ---------------------------------------------------------------- the range

  /** The largest of the three distances. */
  lemma TrueRangeIs(prevClose: real, bar: Bar)
    ensures var r := TrueRange(prevClose, bar);
            && r >= bar.high - bar.low
            && r >= bar.high - prevClose && r >= prevClose - bar.high
            && r >= bar.low - prevClose && r >= prevClose - bar.low
            && r in {bar.high - bar.low, bar.high - prevClose, prevClose - bar.high, bar.low - prevClose, prevClose - bar.low}
  {
  }

  /** Where every one of the last `period` bars has range r, the average range is r. */
  lemma AtrOfConstant(bars: seq<Bar>, period: int, r: real)
    requires 1 <= period < |bars|
    requires forall k :: |bars| - period <= k < |bars| ==> TrueRange(bars[k-1].close, bars[k]) == r
    ensures Atr(bars, period) == Some(r)
  {
    hide TrueRange, Sum;
    var trs := TrueRanges(bars);
    var window := trs[|trs|-period..];
    assert forall k :: 0 <= k < |window| ==>
        window[k] == TrueRange(bars[|bars|-period+k-1].close, bars[|bars|-period+k]);
    SumOfConstant(window, r);
    MeanOfConstant(Sum(window), period as real, r);
  }

  lemma {:induction false} SumSlides(xs: seq<real>, y: real)
    requires xs != []
    ensures Sum(xs[1..] + [y]) == Sum(xs) - xs[0] + y
  {
    var n := |xs| - 1;
    assert (xs[1..] + [y])[..n] == xs[1..];
    if n > 0 {
      SumSlides(xs[..n], xs[n]);
      assert xs[..n][1..] + [xs[n]] == xs[1..];
    } else {
      assert xs[1..] == [] && xs[..0] == [];
    }
  }

  /** A new bar brings its own range in and lets the oldest one of the window out, each with weight 1/period. */
  lemma AtrNext(bars: seq<Bar>, bar: Bar, period: int)
    requires 1 <= period < |bars|
    ensures var n := |bars|;
            && Atr(bars + [bar], period).Some?
            && Atr(bars + [bar], period).value * period as real
               == Atr(bars, period).value * period as real
                  + TrueRange(bars[n-1].close, bar) - TrueRange(bars[n-period-1].close, bars[n-period])
  {
    hide TrueRange, Sum, Atr;
    var n, longer := |bars|, bars + [bar];
    var before, after := TrueRanges(bars), TrueRanges(longer);
    var window := before[n-1-period..];
    assert after[n-period..] == window[1..] + [TrueRange(bars[n-1].close, bar)];
    assert window[0] == TrueRange(bars[n-period-1].close, bars[n-period]);
    hide TrueRanges;
    SumSlides(window, TrueRange(bars[n-1].close, bar));
    AtrTimes(bars, period);
    AtrTimes(longer, period);
  }

  lemma AtrTimes(bars: seq<Bar>, period: int)
    requires 1 <= period < |bars|
    ensures Atr(bars, period).Some?
    ensures Atr(bars, period).value * period as real == Sum(TrueRanges(bars)[|bars|-1-period..])
  {
    hide TrueRanges, Sum;
    MeanTimes(Sum(TrueRanges(bars)[|bars|-1-period..]), period as real);
  }
}
