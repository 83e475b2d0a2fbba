/** The backend's persisted rows, and the session through which they are read and written. */
module Repositories {
  import opened Enums
  import opened Outcomes
  import opened ExchangeModel

  datatype Order = Order(side: OrderSide, reduceOnly: bool, quantity: real, market: bool, status: OrderStatus)

  /** The control fields of the settings row; `closing` is `close_intent == "in_progress"`. */
  datatype Settings = Settings(
    tradingEnabled: bool, estop: bool, closing: bool, state: SystemState,
    market: bool, positionPercentage: real)

  /** `slot` is the open reservation, `mirror` the side of the local position row. */
  datatype Db = Db(orders: map<Id, Order>, slot: Option<Id>, settings: Settings, mirror: Option<PositionSide>)

  // ---------------------------------------------------------------- queries

  predicate HasUnresolved(d: Db) {
    exists i | i in d.orders :: Unresolved(d.orders[i].status)
  }

  /** Ids of the rows a query selects, in order of creation. */
  function Select(d: Db, minted: Id, wanted: Order -> bool): (ids: seq<Id>)
    ensures forall i :: i in ids <==> i < minted && i in d.orders && wanted(d.orders[i])
    ensures forall j, k :: 0 <= j < k < |ids| ==> ids[j] < ids[k]
  {
    if minted == 0 then []
    else
      var earlier := Select(d, minted - 1, wanted);
      assert forall j :: 0 <= j < |earlier| ==> earlier[j] in earlier;
      if minted - 1 in d.orders && wanted(d.orders[minted - 1]) then earlier + [minted - 1] else earlier
  }

  predicate InflightOpening(d: Db, i: Id) {
    i in d.orders && !d.orders[i].reduceOnly && Inflight(d.orders[i].status)
  }

  /** The partial unique index: one in-flight opening row (for the one traded symbol). */
  ghost predicate IndexOk(d: Db) {
    forall i, j :: InflightOpening(d, i) && InflightOpening(d, j) ==> i == j
  }

  /** A held slot names a persisted opening row. */
  ghost predicate SlotNamesARow(d: Db) {
    d.slot.Some? ==> d.slot.value in d.orders && !d.orders[d.slot.value].reduceOnly
  }

  // ---------------------------------------------------------------- row lifecycle

  /** The status changes a row may ever make: final statuses are final, the pre-send status is
      never re-entered, and SUBMITTING is entered only from it. */
  predicate StatusStep(a: OrderStatus, b: OrderStatus) {
    a == b || (!Terminal(a) && b != PendingSubmission && (b == Submitting ==> a == PendingSubmission))
  }

  ghost predicate Evolves(d: Db, e: Db) {
    forall i :: i in d.orders ==>
                  && i in e.orders
                  && e.orders[i] == d.orders[i].(status := e.orders[i].status)
                  && StatusStep(d.orders[i].status, e.orders[i].status)
  }

  lemma EvolvesTransitive(c: Db, d: Db, e: Db)
    requires Evolves(c, d) && Evolves(d, e)
    ensures Evolves(c, e)
  {
  }

  /** The committed states in order, the last one current. */
  ghost predicate Lineage(trail: seq<Db>, disk: Db) {
    && |trail| > 0 && trail[|trail|-1] == disk
    && forall k :: 0 <= k < |trail| - 1 ==> Evolves(trail[k], trail[k+1])
  }

  /** Over a whole run: from any committed state to any later one, rows only move forward, so a
      row once FILLED, REJECTED or CANCELED is the same row in every later state. */
  lemma {:induction false} FinalRowsAreFinal(trail: seq<Db>, disk: Db, j: nat, k: nat)
    requires Lineage(trail, disk) && j <= k < |trail|
    ensures Evolves(trail[j], trail[k])
    ensures forall i :: i in trail[j].orders && Terminal(trail[j].orders[i].status) ==>
                          i in trail[k].orders && trail[k].orders[i] == trail[j].orders[i]
    decreases k - j
  {
    if j < k {
      FinalRowsAreFinal(trail, disk, j + 1, k);
      EvolvesTransitive(trail[j], trail[j+1], trail[k]);
    }
  }

  function WithStatus(d: Db, i: Id, s: OrderStatus): Db
    requires i in d.orders
  {
    d.(orders := d.orders[i := d.orders[i].(status := s)])
  }

  /** A legal status write keeps the unique index without the database having to refuse it. */
  lemma StatusWriteKeepsIndex(d: Db, i: Id, s: OrderStatus)
    requires IndexOk(d) && i in d.orders && StatusStep(d.orders[i].status, s)
    ensures IndexOk(WithStatus(d, i, s)) && Evolves(d, WithStatus(d, i, s))
  {
    assert forall j :: InflightOpening(WithStatus(d, i, s), j) ==> InflightOpening(d, j);
  }

  predicate Stale(o: Order) {
    !o.reduceOnly && Reconcilable(o.status)
  }

  /** Every stale opening row canceled, every other row untouched. */
  function Terminalized(d: Db): (e: Db)
    ensures e == d.(orders := e.orders) && e.orders.Keys == d.orders.Keys
    ensures forall i :: i in e.orders ==> !Stale(e.orders[i])
  {
    d.(orders := map i | i in d.orders ::
                   if Stale(d.orders[i]) then d.orders[i].(status := Canceled) else d.orders[i])
  }

  /** Exactly the ACK, OPEN and PARTIAL rows that are not reduce-only are canceled. */
  lemma TerminalizedRow(d: Db, i: Id)
    requires i in d.orders
    ensures var o := d.orders[i];
            Terminalized(d).orders[i] ==
            if !o.reduceOnly && o.status in {Ack, Open, Partial} then o.(status := Canceled) else o
  {
  }

  /** The writes of the terminalizing loop, one row at a time. */
  function CancelEach(d: Db, ids: seq<Id>): (e: Db)
    requires forall j :: 0 <= j < |ids| ==> ids[j] in d.orders
    ensures e == d.(orders := e.orders) && e.orders.Keys == d.orders.Keys
  {
    if ids == [] then d
    else WithStatus(CancelEach(d, ids[..|ids|-1]), ids[|ids|-1], Canceled)
  }

  lemma {:induction false} CancelEachRow(d: Db, ids: seq<Id>, i: Id)
    requires forall j :: 0 <= j < |ids| ==> ids[j] in d.orders
    requires i in d.orders
    ensures CancelEach(d, ids).orders[i] == if i in ids then d.orders[i].(status := Canceled) else d.orders[i]
  {
    if ids != [] {
      CancelEachRow(d, ids[..|ids|-1], i);
      assert ids == ids[..|ids|-1] + [ids[|ids|-1]];
    }
  }

  /** Looping over the selected rows does exactly what the set-wise description says. */
  lemma CancelEachStaleTerminalizes(d: Db, minted: Id)
    requires forall i :: i in d.orders ==> i < minted
    ensures CancelEach(d, Select(d, minted, Stale)) == Terminalized(d)
  {
    var ids := Select(d, minted, Stale);
    forall i | i in d.orders
      ensures CancelEach(d, ids).orders[i] == Terminalized(d).orders[i]
    {
      CancelEachRow(d, ids, i);
    }
    assert CancelEach(d, ids).orders == Terminalized(d).orders;
  }

  /** One database session.  `db` is what it sees, `disk` what is committed. */
  class Store {
    var db: Db
    var disk: Db
    var minted: Id
    ghost var released: seq<Id>   // orders whose own slot release was executed
    ghost var trail: seq<Db>      // every committed state

    constructor ()
      ensures disk == db == Db(map[], None, Settings(false, false, false, Stopped, true, 10.0), None)
      ensures minted == 0 && released == [] && trail == [disk]
    {
      db := Db(map[], None, Settings(false, false, false, Stopped, true, 10.0), None);
      disk := Db(map[], None, Settings(false, false, false, Stopped, true, 10.0), None);
      minted := 0;
      released := [];
      trail := [Db(map[], None, Settings(false, false, false, Stopped, true, 10.0), None)];
    }

    method NewId() returns (id: Id)
      modifies this`minted
      ensures id == old(minted) && minted == old(minted) + 1
    {
      id := minted;
      minted := minted + 1;
    }

    /** An await on the database or the worker: the process may die here. */
    method MayCrash() returns (r: Await<()>)
      modifies this`db
      ensures db == if r.Crashed? then disk else old(db)
    {
      if * {
        db := disk;
        return Crashed;
      }
      return Done(());
    }

    method Commit() returns (r: Await<()>)
      modifies this`db, this`disk, this`trail
      ensures r.Done? ==> db == disk == old(db)
      ensures r.Crashed? ==> db == disk && (disk == old(disk) || disk == old(db))
      ensures (disk == old(disk) && trail == old(trail)) || (disk == old(db) && trail == old(trail) + [disk])
      ensures r.Done? ==> trail == old(trail) + [disk]
    {
      var _ :- MayCrash();
      disk := db;
      trail := trail + [disk];
      r := MayCrash();
    }

    /** Closing a session drops whatever was not committed. */
    method Rollback()
      modifies this`db
      ensures db == disk
    {
      db := disk;
    }

    // -------------------------------------------------------------- ReservationRepository

    /** Compare-and-set on the singleton slot; flushed, not committed. */
    method TryAcquire(id: Id) returns (acquired: bool)
      modifies this`db
      ensures acquired <==> old(db).slot.None?
      ensures db == if acquired then old(db).(slot := Some(id)) else old(db)
    {
      acquired := db.slot.None?;
      if acquired {
        db := db.(slot := Some(id));
      }
    }

    method Release()
      modifies this`db
      ensures db == old(db).(slot := None)
    {
      db := db.(slot := None);
    }

    /** Frees the slot only if `id` holds it. */
    method ReleaseFor(id: Id)
      modifies this`db, this`released
      ensures db == if old(db).slot == Some(id) then old(db).(slot := None) else old(db)
      ensures released == old(released) + [id]
    {
      if db.slot == Some(id) {
        db := db.(slot := None);
      }
      released := released + [id];
    }

    // -------------------------------------------------------------- OrderRepository

    /** Insert and flush; refused when the unique index would be violated. */
    method AddOrder(id: Id, order: Order) returns (inserted: bool)
      requires id !in db.orders
      modifies this`db
      ensures inserted <==>
              order.reduceOnly || !Inflight(order.status) || forall i :: !InflightOpening(old(db), i)
      ensures db == if inserted then old(db).(orders := old(db).orders[id := order]) else old(db)
    {
      inserted := order.reduceOnly || !Inflight(order.status)
                  || !exists i | i in db.orders :: InflightOpening(db, i);
      if inserted {
        db := db.(orders := db.orders[id := order]);
      }
    }
  }
}
