/** The supervised strategy loop: when a candle may become a signal. */
module StrategyLoops {
  import opened Outcomes

  /** What one tick meets before it can evaluate: an exit, nothing to do, or a last candle. */
  datatype Observation =
    | Exits
    | Nothing
    | Candle(timestamp: nat, positionKnown: bool, evaluates: bool)

  datatype Event =
    | Start | Stop | ProcessRestart
    | Tick(seen: Observation)

  /** A candle seen first after a start, with the number of evaluations made before it. */
  datatype Warmup = Warmup(timestamp: nat, evaluatedBefore: nat)

  /** Candle timestamps are positive and never go back. */
  predicate Chronological(events: seq<Event>, clock: nat)
    decreases |events|
  {
    events == [] ||
    (if events[0].Tick? && events[0].seen.Candle?
     then 0 < events[0].seen.timestamp && clock <= events[0].seen.timestamp &&
          Chronological(events[1..], events[0].seen.timestamp)
     else Chronological(events[1..], clock))
  }

  ghost predicate Increasing(xs: seq<nat>) {
    forall j, k :: 0 <= j < k < |xs| ==> xs[j] < xs[k]
  }

  class StrategyLoop {
    var running: bool
    var lastCandleTimestamp: Option<nat>
    var awaitNewCandle: bool
    ghost var evaluated: seq<nat>      // timestamps whose candle became a signal, across processes
    ghost var warmups: seq<Warmup>
    ghost var clock: nat               // the newest candle any process has seen

    ghost predicate Valid()
      reads this
    {
      && Increasing(evaluated)
      && (forall k :: 0 <= k < |evaluated| ==> evaluated[k] <= clock)
      && (running && !awaitNewCandle ==> lastCandleTimestamp == Some(clock))
      && (forall w :: w in warmups ==> w.timestamp <= clock && w.evaluatedBefore <= |evaluated|)
      && (forall w, k :: w in warmups && w.evaluatedBefore <= k < |evaluated| ==> w.timestamp < evaluated[k])
    }

    constructor ()
      ensures Valid() && !running && evaluated == [] && warmups == [] && clock == 0
    {
      running := false;
      lastCandleTimestamp := None;
      awaitNewCandle := false;
      evaluated, warmups, clock := [], [], 0;
    }

    /** A second start of a running loop changes nothing. */
    method StartLoop()
      requires Valid()
      modifies this
      ensures Valid() && running
      ensures evaluated == old(evaluated) && warmups == old(warmups) && clock == old(clock)
      ensures lastCandleTimestamp == old(lastCandleTimestamp)
      ensures awaitNewCandle == (if old(running) then old(awaitNewCandle) else true)
    {
      if running { return; }
      awaitNewCandle := true;
      running := true;
    }

    method StopLoop()
      requires Valid()
      modifies this`running
      ensures Valid() && !running
    {
      running := false;
    }

    /** A new process holds a fresh loop, not yet started. */
    method NewProcess()
      requires Valid()
      modifies this`running, this`lastCandleTimestamp, this`awaitNewCandle
      ensures Valid() && !running && lastCandleTimestamp == None
    {
      running := false;
      lastCandleTimestamp := None;
      awaitNewCandle := false;
    }

    /** `_tick`.  The candle gate: the first candle after a start is only remembered, a candle already
        seen is skipped, and a candle is marked as seen before anything about it can fail. */
    method TickOnce(seen: Observation) returns (keepRunning: bool)
      requires Valid() && running
      requires seen.Candle? ==> 0 < seen.timestamp && clock <= seen.timestamp
      modifies this
      ensures Valid()
      ensures clock == if seen.Candle? then seen.timestamp else old(clock)
      ensures running == keepRunning
      ensures awaitNewCandle <==> old(awaitNewCandle) && !seen.Candle?
      ensures keepRunning <==>
              !(seen.Exits? || (seen.Candle? && !old(awaitNewCandle) && old(clock) < seen.timestamp &&
                                !(seen.positionKnown && seen.evaluates)))
      ensures evaluated ==
              if seen.Candle? && !old(awaitNewCandle) && old(clock) < seen.timestamp && seen.positionKnown && seen.evaluates
              then old(evaluated) + [seen.timestamp] else old(evaluated)
      ensures warmups == if seen.Candle? && old(awaitNewCandle)
                         then old(warmups) + [Warmup(seen.timestamp, |old(evaluated)|)] else old(warmups)
    {
      if seen.Exits? {
        running := false;
        return false;
      }
      if seen.Nothing? {
        return true;
      }
      var timestamp := seen.timestamp;
      clock := timestamp;
      if awaitNewCandle {
        lastCandleTimestamp := if timestamp == 0 then None else Some(timestamp);
        awaitNewCandle := false;
        warmups := warmups + [Warmup(timestamp, |evaluated|)];
        return true;
      }
      if timestamp != 0 && Some(timestamp) == lastCandleTimestamp {
        return true;
      }
      lastCandleTimestamp := if timestamp == 0 then None else Some(timestamp);
      if !seen.positionKnown || !seen.evaluates {
        running := false;
        return false;
      }
      evaluated := evaluated + [timestamp];
      return true;
    }

    /** Any history of ticks, loop stops and starts, and process restarts: the evaluated timestamps are
        strictly increasing, and the candle a start finds is not evaluated by that start or later. */
    method Run(events: seq<Event>)
      requires Valid() && Chronological(events, clock)
      modifies this
      ensures Valid() && old(evaluated) <= evaluated
    {
      for k := 0 to |events|
        invariant Valid() && old(evaluated) <= evaluated
        invariant Chronological(events[k..], clock)
      {
        assert events[k..][1..] == events[k+1..];
        match events[k] {
          case Start =>
            StartLoop();
          case Stop =>
            StopLoop();
          case ProcessRestart =>
            NewProcess();
          case Tick(seen) =>
            if running {
              var _ := TickOnce(seen);
            } else {
              EarlierClock(events[k+1..], clock, if seen.Candle? then seen.timestamp else clock);
            }
        }
      }
    }
  }

  lemma {:induction false} EarlierClock(events: seq<Event>, clock: nat, later: nat)
    requires clock <= later && Chronological(events, later)
    ensures Chronological(events, clock)
    decreases |events|
  {
    if events != [] && !(events[0].Tick? && events[0].seen.Candle?) {
      EarlierClock(events[1..], clock, later);
    }
  }
}
