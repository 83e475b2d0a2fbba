/** What every run of the trading protocol keeps, stated on values. */
module Invariants {
  import opened Enums
  import opened Outcomes
  import opened ExchangeModel
  import opened Repositories
  import Sizing

  /** A call to place_order, with the exchange and the committed rows as they were when it was made and
      what the exchange had been heard to say. */
  datatype Placement = Placement(cloid: Id, reduceOnly: bool, before: ExState, disk: Db, heard: Heard)

  ghost predicate DbOk(d: Db, minted: Id, st: ExState) {
    && (forall i :: i in d.orders ==> i < minted)
    && IndexOk(d)
    && (forall i :: i in d.orders && d.orders[i].status == Rejected ==> Harmless(st, i))
  }

  /** Everything the exchange ever accepted was first durable as a row past PENDING_SUBMISSION. */
  ghost predicate Recorded(disk: Db, st: ExState) {
    forall c :: c in st.orders ==>
                  && c in disk.orders && disk.orders[c].status != PendingSubmission
                  && disk.orders[c].reduceOnly == st.orders[c].reduceOnly
                  && disk.orders[c].side == st.orders[c].side
  }

  ghost predicate ReleasedAreHarmless(released: seq<Id>, disk: Db, st: ExState) {
    forall i :: i in released ==> i in disk.orders && Harmless(st, i)
  }

  /** The circumstances in which an opening order was sent. */
  ghost predicate SafeOpening(p: Placement) {
    && Clean(p.before)
    && p.disk.settings.state == Running && p.disk.settings.tradingEnabled
    && !p.disk.settings.estop && !p.disk.settings.closing
    && p.disk.slot == Some(p.cloid)
    && (forall i :: i in p.disk.orders && Unresolved(p.disk.orders[i].status) ==> i == p.cloid)
  }

  /** The committed row behind a placement, at the moment it was made. */
  predicate Sent(p: Placement, side: OrderSide, quantity: real) {
    && p.cloid in p.disk.orders
    && p.disk.orders[p.cloid] == Order(side, p.reduceOnly, quantity, p.disk.settings.market, Submitting)
  }

  /** The side that reduces a position. */
  function ClosingSide(side: PositionSide): OrderSide {
    if side == Long then Sell else Buy
  }

  /** A reduce-only order takes off exactly the position answered last: SELL against LONG, BUY against
      SHORT, of the answered size. */
  predicate ClosesWhatWasSeen(p: Placement) {
    && p.cloid in p.disk.orders && p.reduceOnly
    && var row := p.disk.orders[p.cloid];
    && ((p.heard.side == Long && row.side == Sell) || (p.heard.side == Short && row.side == Buy))
    && row.quantity == p.heard.size && row.status == Submitting
  }

  /** An opening order has the size that the settings give for the mid and the equity answered just before. */
  predicate OpensAsSized(p: Placement) {
    && p.cloid in p.disk.orders && !p.reduceOnly
    && var row := p.disk.orders[p.cloid];
    && row.status == Submitting
    && Sizing.SizeFromSettings(p.heard.numbers.1, p.disk.settings.positionPercentage, p.heard.numbers.0) == Some(row.quantity)
  }

  /** An opening order sent for a signal. */
  predicate SentFor(p: Placement, signal: SignalType) {
    OpensAsSized(p) && p.disk.orders[p.cloid].side == (if signal == LongSignal then Buy else Sell)
  }

  /** No placement heard more positions than have been answered. */
  predicate AnswersOk(placed: seq<Placement>, views: seq<PositionView>) {
    forall k :: 0 <= k < |placed| ==> |placed[k].heard.views| <= |views|
  }

  ghost predicate PlacedOk(placed: seq<Placement>, disk: Db) {
    && (forall k :: 0 <= k < |placed| ==>
                      && placed[k].cloid in disk.orders && disk.orders[placed[k].cloid].status != PendingSubmission
                      && (if placed[k].reduceOnly then ClosesWhatWasSeen(placed[k])
                          else SafeOpening(placed[k]) && OpensAsSized(placed[k])))
    && (forall j, k :: 0 <= j < k < |placed| ==> placed[j].cloid != placed[k].cloid)
  }

  /** A placement of a fresh cloid, durable as SUBMITTING, extends the record. */
  lemma PlacementKeepsPlaced(placed: seq<Placement>, disk: Db, p: Placement, views: seq<PositionView>)
    requires PlacedOk(placed, disk) && AnswersOk(placed, views)
    requires p.cloid in disk.orders && disk.orders[p.cloid].status != PendingSubmission && p.heard.views == views
    requires forall k :: 0 <= k < |placed| ==> placed[k].cloid != p.cloid
    requires if p.reduceOnly then ClosesWhatWasSeen(p) else SafeOpening(p) && OpensAsSized(p)
    ensures PlacedOk(placed + [p], disk) && AnswersOk(placed + [p], views)
  {
    hide SafeOpening, ClosesWhatWasSeen, OpensAsSized;
  }

  /** The invariant of every moment at which the process may die. */
  ghost predicate Linked(db: Db, disk: Db, minted: Id, released: seq<Id>, st: ExState) {
    && DbOk(db, minted, st) && DbOk(disk, minted, st)
    && Evolves(disk, db)
    && Recorded(disk, st)
    && ReleasedAreHarmless(released, disk, st)
  }

  lemma CrashKeepsLinked(db: Db, disk: Db, minted: Id, released: seq<Id>, st: ExState)
    requires Linked(db, disk, minted, released, st)
    ensures Linked(disk, disk, minted, released, st)
  {
  }

  lemma TimeKeepsLinked(db: Db, disk: Db, minted: Id, released: seq<Id>, s: ExState, t: ExState)
    requires Linked(db, disk, minted, released, s) && Passes(s, t)
    ensures Linked(db, disk, minted, released, t)
  {
    assert forall i :: Harmless(s, i) ==> Harmless(t, i);
  }

  /** The exchange accepting a freshly recorded order disturbs nothing that was proven absent. */
  lemma AcceptKeepsLinked(db: Db, disk: Db, minted: Id, released: seq<Id>, s: ExState, c: Id, q: real)
    requires Linked(db, disk, minted, released, s)
    requires c in disk.orders && disk.orders[c].status == Submitting && c in db.orders && db.orders[c].status == Submitting
    requires c !in released
    ensures Linked(db, disk, minted, released, Accept(s, c, disk.orders[c].side, disk.orders[c].reduceOnly, q))
  {
    var t := Accept(s, c, disk.orders[c].side, disk.orders[c].reduceOnly, q);
    assert forall i :: i != c && Harmless(s, i) ==> Harmless(t, i);
  }

  lemma CommitKeepsLinked(db: Db, disk: Db, minted: Id, released: seq<Id>, st: ExState,
                          placed: seq<Placement>, trail: seq<Db>)
    requires Linked(db, disk, minted, released, st) && PlacedOk(placed, disk) && Lineage(trail, disk)
    ensures Linked(db, db, minted, released, st) && PlacedOk(placed, db) && Lineage(trail + [db], db)
  {
  }

  lemma StatusWriteKeepsLinked(db: Db, disk: Db, minted: Id, released: seq<Id>, st: ExState, i: Id, s: OrderStatus)
    requires Linked(db, disk, minted, released, st)
    requires i in db.orders && StatusStep(db.orders[i].status, s)
    requires s == Rejected ==> Harmless(st, i)
    ensures Linked(WithStatus(db, i, s), disk, minted, released, st)
  {
    StatusWriteKeepsIndex(db, i, s);
    EvolvesTransitive(disk, db, WithStatus(db, i, s));
  }

  /** A freshly minted id is unknown to the rows, the exchange, the releases and the placements. */
  lemma FreshIdIsUnused(db: Db, disk: Db, minted: Id, released: seq<Id>, st: ExState, placed: seq<Placement>, id: Id)
    requires Linked(db, disk, minted, released, st) && PlacedOk(placed, disk)
    requires id !in db.orders
    ensures id !in disk.orders && id !in st.orders && id !in released
    ensures forall k :: 0 <= k < |placed| ==> placed[k].cloid != id
  {
  }

  lemma InsertKeepsLinked(db: Db, disk: Db, minted: Id, released: seq<Id>, st: ExState, id: Id, order: Order)
    requires Linked(db, disk, minted, released, st)
    requires id !in db.orders && id < minted && order.status == PendingSubmission
    requires order.reduceOnly || forall i :: !InflightOpening(db, i)
    ensures Linked(db.(orders := db.orders[id := order]), disk, minted, released, st)
  {
    var e := db.(orders := db.orders[id := order]);
    assert forall i :: InflightOpening(e, i) ==> InflightOpening(db, i) || (i == id && !order.reduceOnly);
  }

  lemma MintKeepsLinked(db: Db, disk: Db, minted: Id, released: seq<Id>, st: ExState)
    requires Linked(db, disk, minted, released, st)
    ensures Linked(db, disk, minted + 1, released, st)
    ensures minted !in db.orders
  {
  }

  /** What the guard of `_open` has established when the intent is about to be persisted. */
  ghost predicate MayOpen(d: Db, st: ExState) {
    && Clean(st)
    && d.settings.state == Running && d.settings.tradingEnabled && !d.settings.estop && !d.settings.closing
    && !HasUnresolved(d)
  }

  /** The guard's facts survive persisting the intent and make the placement a safe one. */
  lemma GuardedOpeningIsSafe(d: Db, id: Id, order: Order, st: ExState, heard: Heard)
    requires MayOpen(d, st) && id !in d.orders && d.slot == Some(id)
    ensures SafeOpening(Placement(id, false, st, d.(orders := d.orders[id := order]), heard))
  {
  }

  /** What a call records when its order is the one asked for. */
  lemma PlacementIsAsAsked(d: Db, id: Id, order: Order, st: ExState, heard: Heard)
    requires id !in d.orders && order.status == Submitting && order.market == d.settings.market
    requires if order.reduceOnly
             then heard.side in {Long, Short} && order.side == ClosingSide(heard.side) && order.quantity == heard.size
             else d.slot == Some(id) && MayOpen(d, st) &&
                  Sizing.SizeFromSettings(heard.numbers.1, d.settings.positionPercentage, heard.numbers.0) == Some(order.quantity)
    ensures var p := Placement(id, order.reduceOnly, st, d.(orders := d.orders[id := order]), heard);
            && Sent(p, order.side, order.quantity)
            && if order.reduceOnly then ClosesWhatWasSeen(p) else Clean(st) && SafeOpening(p) && OpensAsSized(p)
  {
    if !order.reduceOnly {
      GuardedOpeningIsSafe(d, id, order, st, heard);
    }
  }

  /** Settings, slot and mirror writes leave the order rows alone. */
  lemma OtherWriteKeepsLinked(db: Db, e: Db, disk: Db, minted: Id, released: seq<Id>, st: ExState)
    requires Linked(db, disk, minted, released, st)
    requires e.orders == db.orders
    ensures Linked(e, disk, minted, released, st)
  {
    assert forall i :: InflightOpening(e, i) ==> InflightOpening(db, i);
  }

  /** A truthful final status stays truthful. */
  lemma TruthLasts(s: ExState, t: ExState, c: Id, status: OrderStatus)
    requires Truthful(s, c, status) && Passes(s, t)
    ensures Truthful(t, c, status)
  {
  }

  /** Order, fills and position all answered, and none knows the order: it never traded and never will. */
  lemma ProvenAbsent(s: ExState, t: ExState, u: ExState, c: Id, fills: map<Id, real>)
    requires !Live(s, c) && Passes(s, t) && TruthfulFills(t, fills) && c !in fills && Passes(t, u)
    ensures Harmless(u, c)
  {
  }

  // ---------------------------------------------------------------- reconciliation

  /** What `_reconcile_unknown` concludes from its three answers. */
  function Verdict(order: Reply<Option<OrderStatus>>, hasFill: Reply<bool>, position: Reply<PositionSide>): OrderStatus {
    if order.Raised? || hasFill.Raised? || position.Raised? then Unknown
    else if order.value.Some? then order.value.value
    else if hasFill.value || position.value != Flat then Unknown
    else Rejected
  }

  /** With any answer missing nothing is concluded; a known order keeps what the exchange says of it; an
      unknown one is rejected exactly when it has no fill and the side is FLAT. */
  lemma VerdictIs(order: Reply<Option<OrderStatus>>, hasFill: Reply<bool>, position: Reply<PositionSide>, status: OrderStatus)
    ensures order == Raised || hasFill == Raised || position == Raised ==> Verdict(order, hasFill, position) == Unknown
    ensures order == Got(Some(status)) && hasFill.Got? && position.Got? ==> Verdict(order, hasFill, position) == status
    ensures order == Got(None) ==>
              (Verdict(order, hasFill, position) == Rejected <==> hasFill == Got(false) && position == Got(Flat))
    ensures order == Got(None) && Verdict(order, hasFill, position) != Rejected ==> Verdict(order, hasFill, position) == Unknown
  {
  }

  /** The verdict on the recorded evidence. */
  function Concluded(e: Evidence): OrderStatus {
    Verdict(e.order,
            if e.fills.Raised? then Raised else Got(e.id in e.fills.value),
            if e.position.Raised? then Raised else Got(e.position.value.side))
  }

  // ---------------------------------------------------------------- control state

  /** Where RECOVERY goes once nothing is unresolved and the latch is off; otherwise nothing moves. */
  function LeaveRecovery(d: Db): Db {
    if HasUnresolved(d) || d.settings.state != SystemState.Recovery || d.settings.estop then d
    else d.(settings := d.settings.(state := if d.settings.tradingEnabled then Running else Stopped))
  }

  lemma LeaveRecoveryIs(d: Db)
    ensures LeaveRecovery(d).orders == d.orders && LeaveRecovery(d).slot == d.slot && LeaveRecovery(d).mirror == d.mirror
    ensures LeaveRecovery(d).settings == d.settings.(state := LeaveRecovery(d).settings.state)
    ensures LeaveRecovery(d) != d <==> !HasUnresolved(d) && !d.settings.estop && d.settings.state == SystemState.Recovery
    ensures LeaveRecovery(d) != d && d.settings.tradingEnabled ==> LeaveRecovery(d).settings.state == Running
    ensures LeaveRecovery(d) != d && !d.settings.tradingEnabled ==> LeaveRecovery(d).settings.state == Stopped
  {
  }

  /** The slot is held by an order whose row is final. */
  predicate HeldByFinal(d: Db) {
    d.slot.Some? && d.slot.value in d.orders && Terminal(d.orders[d.slot.value].status)
  }

  /** Such a slot stays held by the same order. */
  predicate KeepsHeld(d: Db, e: Db) {
    HeldByFinal(d) ==> e.slot == d.slot && HeldByFinal(e)
  }

  /** Order handling may only move the system into RECOVERY or out of it along the switch. */
  predicate ControlStep(a: Settings, b: Settings) {
    && b.estop == a.estop && b.tradingEnabled == a.tradingEnabled && b.closing == a.closing
    && (b.state == Running ==> a.state == Running || b.tradingEnabled)
  }

  /** The emergency latch: it is never set while the trading switch is on. */
  predicate Latched(s: Settings) {
    s.estop ==> !s.tradingEnabled
  }

  /** Holds whenever no operation is in progress. */
  predicate Boundary(s: Settings) {
    s.state == Running ==> s.tradingEnabled
  }
}
