/** Promises the operations make and do not keep: for each an input at which it fails and the exact
    condition under which it holds. */
module Shortfalls {
  import opened Enums
  import opened Outcomes
  import opened ExchangeModel
  import opened Repositories
  import opened Recovery
  import opened Invariants
  import opened Snapshots

  /** Rows and exchange as the protocol leaves them between two operations. */
  ghost predicate Settled(d: Db, minted: Id, released: seq<Id>, placed: seq<Placement>, st: ExState) {
    && Linked(d, d, minted, released, st) && PlacedOk(placed, d)
    && SlotNamesARow(d) && Latched(d.settings) && Boundary(d.settings) && SinglePosition(st)
  }

  /** One resting BUY order of size 1, nothing filled yet. */
  function Resting(): ExState {
    ExState(map[0 := ExOrder(Buy, false, 1.0, 0.0, true)], 0.0, {})
  }

  /** Its row in the given status, the slot still held. */
  function RestingRow(status: OrderStatus, settings: Settings): Db {
    Db(map[0 := Order(Buy, false, 1.0, true, status)], Some(0), settings, Some(Flat))
  }

  const RUNNING_SETTINGS := Settings(true, false, false, Running, true, 10.0)

  const LATCHED_SETTINGS := Settings(false, true, false, Stopped, true, 10.0)

  const STOPPED_SETTINGS := Settings(false, false, false, Stopped, true, 10.0)

  /** FLAT, mid 100 and equity 1000: ten per cent buy a size of 1. */
  function RestingHeard(): Heard {
    Heard(Flat, 0.0, [PositionView(Flat, 0.0)], Got(PositionView(Flat, 0.0)), (100.0, 1000.0), Got(1000.0), Got(false),
          Got(false), (0, Raised), Raised, PlaceCall(0, Buy, false, 0.0, Raised), Evidence(0, Raised, Raised, Raised), [])
  }

  function RestingPlacement(): Placement {
    Placement(0, false, ExState(map[], 0.0, {}), RestingRow(Submitting, RUNNING_SETTINGS), RestingHeard())
  }

  lemma RestingIsSettled(status: OrderStatus, settings: Settings)
    requires status in {Ack, Open, Partial, Canceled, Unknown}
    requires Latched(settings) && Boundary(settings)
    ensures Settled(RestingRow(status, settings), 1, [], [RestingPlacement()], Resting())
  {
    assert forall c :: LiveOpening(Resting(), c) ==> c == 0;
  }

  // ---------------------------------------------------------------- clear_estop and start

  /** The rows on which `clear_estop` goes on to ask the exchange. */
  predicate RowsAllowClearing(d: Db) {
    d.settings.estop && !HasUnresolved(d) && !exists i | i in d.orders :: ListedOpen(d.orders[i].status)
  }

  /** The rows on which `start` goes on to ask the exchange. */
  predicate RowsAllowStarting(d: Db) {
    !d.settings.estop && !HasUnresolved(d)
  }

  /** The latch can fall on an exchange that is not clean: `clear_estop` asks for the position first. */
  ghost predicate ClearsUnclean(d: Db, st: ExState) {
    RowsAllowClearing(d) && MayMislead(st)
  }

  /** A start can succeed with a FLAT mirror on an exchange that is not clean: it mirrors the position first. */
  ghost predicate StartsUnclean(d: Db, st: ExState) {
    RowsAllowStarting(d) && MayMislead(st)
  }

  /** For both, on rows that let them go on: exactly when an opening order can still fill and FLAT can be
      answered first. */
  lemma UncleanIff(d: Db, st: ExState, n: Id)
    requires SinglePosition(st) && IdsBelow(st, n)
    ensures RowsAllowClearing(d) ==>
              (ClearsUnclean(d, st) <==> !NoneFillable(st) && TotalRoom(st, n) >= Abs(st.position))
    ensures RowsAllowStarting(d) ==>
              (StartsUnclean(d, st) <==> !NoneFillable(st) && TotalRoom(st, n) >= Abs(st.position))
  {
    MisleadsIff(st, n);
  }

  /** With the position FLAT at the call the condition is that some opening order can still fill, which a
      caller sees by asking for open orders first. */
  lemma UncleanFromFlatIff(d: Db, st: ExState, n: Id)
    requires SinglePosition(st) && IdsBelow(st, n) && st.position == 0.0
    ensures RowsAllowClearing(d) ==> (ClearsUnclean(d, st) <==> !NoneFillable(st))
    ensures RowsAllowStarting(d) ==> (StartsUnclean(d, st) <==> !NoneFillable(st))
  {
    MisleadsFromFlatIff(st, n);
  }

  /** An order acknowledged but not listed as open, or canceled in the row alone, is such an input. */
  lemma ClearEstopMisleads(status: OrderStatus)
    requires status in {Ack, Canceled}
    ensures var d := RestingRow(status, LATCHED_SETTINGS);
            Settled(d, 1, [], [RestingPlacement()], Resting()) && ClearsUnclean(d, Resting())
  {
    RestingMisleads(status, LATCHED_SETTINGS);
  }

  /** For a start, so is any resting order whose row is not unresolved. */
  lemma StartMisleads(status: OrderStatus)
    requires status in {Ack, Open, Partial, Canceled}
    ensures var d := RestingRow(status, STOPPED_SETTINGS);
            Settled(d, 1, [], [RestingPlacement()], Resting()) && StartsUnclean(d, Resting())
  {
    RestingMisleads(status, STOPPED_SETTINGS);
  }

  lemma RestingMisleads(status: OrderStatus, settings: Settings)
    requires status in {Ack, Open, Partial, Canceled} && Latched(settings) && Boundary(settings)
    ensures Settled(RestingRow(status, settings), 1, [], [RestingPlacement()], Resting()) && MayMislead(Resting())
  {
    RestingIsSettled(status, settings);
    assert Fillable(Resting(), 0);
    MisleadsFromFlatIff(Resting(), 1);
  }

  /** What the two queries then see: FLAT, no open order, and a LONG position behind them. */
  lemma PositionThenOrdersIsNot() returns (t: ExState)
    ensures Settled(RestingRow(Ack, LATCHED_SETTINGS), 1, [], [RestingPlacement()], Resting())
    ensures RowsAllowClearing(RestingRow(Ack, LATCHED_SETTINGS)) && SideOf(Resting().position) == Flat
    ensures MisleadsAt(Resting(), Resting(), t) && SideOf(t.position) == Long
  {
    RestingIsSettled(Ack, LATCHED_SETTINGS);
    t := Fill(Resting(), 0, 1.0);
    ReachesItself(Resting());
    ReachesItself(t);
    ReachesAfter(Resting(), Fills(0, 1.0), t);
  }

  // ---------------------------------------------------------------- terminalizing stale rows

  /** Some stale opening row names an order that is live. */
  ghost predicate StaleIsLive(d: Db, st: ExState) {
    exists i :: i in d.orders && Stale(d.orders[i]) && Live(st, i)
  }

  /** Every status written by terminalizing is one the exchange vouches for. */
  ghost predicate CancelsTruthfully(d: Db, st: ExState) {
    forall i :: i in d.orders && Terminalized(d).orders[i] != d.orders[i] ==>
      Truthful(st, i, Terminalized(d).orders[i].status)
  }

  lemma TerminalizedTruthfullyIff(d: Db, st: ExState)
    ensures CancelsTruthfully(d, st) <==> !StaleIsLive(d, st)
  {
  }

  lemma DeadRowsCancelTruthfully(d: Db, s: ExState, t: ExState)
    requires Passes(s, t) && !StaleIsLive(d, s)
    ensures CancelsTruthfully(d, t)
  {
    hide Truthful;
    assert forall i :: Live(t, i) ==> Live(s, i);
    TerminalizedTruthfullyIff(d, t);
  }

  lemma TerminalizedByRows(d: Db, e: Db)
    requires d.orders == e.orders
    ensures Terminalized(d).orders == Terminalized(e).orders
    ensures forall i :: i in Terminalized(d).orders ==> !Stale(Terminalized(d).orders[i])
  {
  }

  /** FLAT is answered at m, where terminalizing writes CANCELED over a live order. */
  ghost predicate MisCancelsAt(d: Db, st: ExState, m: ExState) {
    Reaches(st, m) && m.position == 0.0 && !CancelsTruthfully(d, m)
  }

  /** A close that asks only for the position cancels a live order's row exactly when such a row is
      live at the call and FLAT can be answered. */
  lemma MisCancelsIff(d: Db, st: ExState, n: Id)
    requires SinglePosition(st) && IdsBelow(st, n) && Recorded(d, st)
    ensures (exists m :: MisCancelsAt(d, st, m)) <==> StaleIsLive(d, st) && TotalRoom(st, n) >= Abs(st.position)
  {
    hide SinglePosition, TotalRoom, Abs, CancelsTruthfully;
    if m :| MisCancelsAt(d, st, m) {
      FlatIsReachableIff(st, n);
      TerminalizedTruthfullyIff(d, m);
      var i :| i in d.orders && Stale(d.orders[i]) && Live(m, i);
      var steps :| CanRun(st, steps) && RunAll(st, steps) == m;
      RunKeeps(st, steps);
      assert Live(st, i);
    }
    if StaleIsLive(d, st) && TotalRoom(st, n) >= Abs(st.position) {
      var m := RoomReachesFlat(st, n);
      var i :| i in d.orders && Stale(d.orders[i]) && Live(st, i);
      assert Live(m, i);
      TerminalizedTruthfullyIff(d, m);
      assert MisCancelsAt(d, st, m);
    }
  }

  /** The input: a resting opening order whose row is OPEN, the position FLAT. */
  lemma TerminalizingALiveOrder()
    ensures var d := RestingRow(Open, RUNNING_SETTINGS);
            && Settled(d, 1, [], [RestingPlacement()], Resting()) && SideOf(Resting().position) == Flat
            && MisCancelsAt(d, Resting(), Resting())
            && Terminalized(d).orders[0].status == Canceled && Live(Resting(), 0)
  {
    var d := RestingRow(Open, RUNNING_SETTINGS);
    RestingIsSettled(Open, RUNNING_SETTINGS);
    ReachesItself(Resting());
    assert Stale(d.orders[0]) && Live(Resting(), 0);
    TerminalizedTruthfullyIff(d, Resting());
  }

  // ---------------------------------------------------------------- crashes inside stop and emergency_stop

  /** The settings that the cancel loop of `stop` commits: off, the state not yet moved. */
  function SwitchedOff(s: Settings): Settings {
    s.(tradingEnabled := false)
  }

  /** and those that the cancel loop of `emergency_stop` commits. */
  function LatchedOff(s: Settings): Settings {
    s.(estop := true, tradingEnabled := false)
  }

  /** A crash right after that commit breaks "RUNNING implies switch on" exactly when the system was
      running, and every boot from there repairs it. */
  lemma CrashAfterCancelLoopIff(d: Db, health: Reply<bool>)
    ensures Boundary(SwitchedOff(d.settings)) <==> d.settings.state != Running
    ensures Boundary(LatchedOff(d.settings)) <==> d.settings.state != Running
    ensures Boundary(InState(d, BootState(d, health)).settings)
  {
  }

  /** The input: a running system, stopped, with nothing to cancel. */
  lemma RunningWithTheSwitchOff()
    ensures var d := RestingRow(Ack, RUNNING_SETTINGS);
            && Settled(d, 1, [], [RestingPlacement()], Resting())
            && !Boundary(SwitchedOff(d.settings)) && !Boundary(LatchedOff(d.settings))
  {
    RestingIsSettled(Ack, RUNNING_SETTINGS);
  }

  /** The input: the emergency stop of a running system with one open order crashes while the cancel
      is out.  The next boot finds the switch on and the latch off, and resumes RUNNING. */
  lemma EmergencyStopLost()
    ensures var d := RestingRow(Open, RUNNING_SETTINGS);
            && Settled(d, 1, [], [RestingPlacement()], Resting())
            && !d.settings.estop && BootState(d, Got(true)) == Running
  {
    RestingIsSettled(Open, RUNNING_SETTINGS);
  }
}
