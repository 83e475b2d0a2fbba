/** The exchange as an adversary, and what its answers may be trusted for. */
module ExchangeModel {
  import opened Enums
  import opened Outcomes

  /** Row id and cloid: both are minted fresh for one intent, so one number stands for both. */
  type Id = nat

  type Amount = x: real | 0.0 <= x

  datatype ExOrder = ExOrder(side: OrderSide, reduceOnly: bool, quantity: real, filled: Amount, live: bool)

  /** `contributors` are the opening orders that filled into the position since it was last flat. */
  datatype ExState = ExState(orders: map<Id, ExOrder>, position: real, contributors: set<Id>)

  datatype PositionView = PositionView(side: PositionSide, size: real)

  function SideOf(position: real): PositionSide {
    if position > 0.0 then Long else if position < 0.0 then Short else Flat
  }

  function Abs(x: real): real {
    if x < 0.0 then -x else x
  }

  function Signed(side: OrderSide, q: real): real {
    if side == Buy then q else -q
  }

  predicate Live(s: ExState, c: Id) {
    c in s.orders && s.orders[c].live
  }

  predicate LiveOpening(s: ExState, c: Id) {
    Live(s, c) && !s.orders[c].reduceOnly
  }

  /** An opening order that can still fill. */
  predicate Fillable(s: ExState, c: Id) {
    LiveOpening(s, c) && s.orders[c].filled < s.orders[c].quantity
  }

  ghost predicate NoneFillable(s: ExState) {
    forall c :: c in s.orders ==> !Fillable(s, c)
  }

  ghost predicate NoLive(s: ExState) {
    forall c :: c in s.orders ==> !s.orders[c].live
  }

  /** The only exchange state in which an opening order may be sent. */
  ghost predicate Clean(s: ExState) {
    s.position == 0.0 && NoLive(s)
  }

  /** The exchange holds neither a live order nor a fill for `c`. */
  predicate Harmless(s: ExState, c: Id) {
    c in s.orders ==> !s.orders[c].live && s.orders[c].filled == 0.0
  }

  // ---------------------------------------------------------------- atomic exchange steps

  predicate CanFill(s: ExState, c: Id, q: real) {
    && Live(s, c)
    && var o := s.orders[c];
    && 0.0 < q <= o.quantity - o.filled
    && (o.reduceOnly ==>
          && q <= Abs(s.position)
          && SideOf(s.position) == (if o.side == Buy then Short else Long))
  }

  function Fill(s: ExState, c: Id, q: real): ExState
    requires CanFill(s, c, q)
  {
    var o := s.orders[c];
    var position := s.position + Signed(o.side, q);
    ExState(
      s.orders[c := o.(filled := o.filled + q, live := o.filled + q < o.quantity)],
      position,
      if position == 0.0 then {}
      else if o.reduceOnly then s.contributors
      else if s.position == 0.0 then {c}
      else s.contributors + {c})
  }

  function Cancel(s: ExState, c: Id): ExState
    requires Live(s, c)
  {
    s.(orders := s.orders[c := s.orders[c].(live := false)])
  }

  function Accept(s: ExState, c: Id, side: OrderSide, reduceOnly: bool, quantity: real): ExState {
    s.(orders := s.orders[c := ExOrder(side, reduceOnly, quantity, 0.0, true)])
  }

  // ---------------------------------------------------------------- the single-position invariant

  /** One opening order at most is live, one at most made the position, and if both exist they
      are the same order and point the same way. */
  ghost predicate SinglePosition(s: ExState) {
    && (forall a, b :: LiveOpening(s, a) && LiveOpening(s, b) ==> a == b)
    && (forall a, b :: a in s.contributors && b in s.contributors ==> a == b)
    && (forall a, b :: LiveOpening(s, a) && b in s.contributors ==> a == b)
    && (s.position == 0.0 <==> s.contributors == {})
    && (forall a :: a in s.contributors ==>
                      a in s.orders && SideOf(s.position) == (if s.orders[a].side == Buy then Long else Short))
  }

  lemma FillKeepsSinglePosition(s: ExState, c: Id, q: real)
    requires SinglePosition(s) && CanFill(s, c, q)
    ensures SinglePosition(Fill(s, c, q))
    ensures SideOf(s.position) == SideOf(Fill(s, c, q).position) || s.position == 0.0 || Fill(s, c, q).position == 0.0
  {
    var t := Fill(s, c, q);
    assert forall a :: LiveOpening(t, a) ==> LiveOpening(s, a);
    if s.position != 0.0 {
      var a :| a in s.contributors;
      if !s.orders[c].reduceOnly {
        assert LiveOpening(s, c);
        assert s.contributors == {c};
      }
    } else {
      assert s.contributors == {};
      assert LiveOpening(s, c);
    }
  }

  lemma CancelKeepsSinglePosition(s: ExState, c: Id)
    requires SinglePosition(s) && Live(s, c)
    ensures SinglePosition(Cancel(s, c))
  {
    assert forall a :: LiveOpening(Cancel(s, c), a) ==> LiveOpening(s, a);
  }

  /** Accepting an opening order is safe when the exchange is clean; a reduce-only one always is. */
  lemma AcceptKeepsSinglePosition(s: ExState, c: Id, side: OrderSide, reduceOnly: bool, quantity: real)
    requires SinglePosition(s) && c !in s.orders
    requires reduceOnly || Clean(s)
    ensures SinglePosition(Accept(s, c, side, reduceOnly, quantity))
  {
    var t := Accept(s, c, side, reduceOnly, quantity);
    assert forall a :: LiveOpening(t, a) ==> LiveOpening(s, a) || (a == c && !reduceOnly);
  }

  // ---------------------------------------------------------------- what any number of steps keeps

  /** Time passing on the exchange: no order appears, orders only fill, dead orders stay exactly as
      they died, when nothing is live nothing changes at all, and only an opening order leaves FLAT. */
  ghost predicate Passes(s: ExState, t: ExState) {
    && t.orders.Keys == s.orders.Keys
    && (forall c :: c in s.orders ==>
                      && t.orders[c].side == s.orders[c].side && t.orders[c].reduceOnly == s.orders[c].reduceOnly
                      && t.orders[c].quantity == s.orders[c].quantity && s.orders[c].filled <= t.orders[c].filled
                      && (!s.orders[c].live ==> t.orders[c] == s.orders[c]))
    && (NoLive(s) ==> t == s)
    && (s.position == 0.0 && NoneFillable(s) ==> t.position == 0.0)
  }

  lemma PassesTransitive(r: ExState, s: ExState, t: ExState)
    requires Passes(r, s) && Passes(s, t)
    ensures Passes(r, t)
  {
    assert forall c :: c in s.orders && Fillable(s, c) ==> Fillable(r, c);
  }

  lemma FillPasses(s: ExState, c: Id, q: real)
    requires CanFill(s, c, q)
    ensures Passes(s, Fill(s, c, q))
  {
  }

  lemma CancelPasses(s: ExState, c: Id)
    requires Live(s, c)
    ensures Passes(s, Cancel(s, c))
  {
  }

  /** Reading open orders first and the position second is a consistent snapshot: once nothing is
      live nothing moves, so FLAT read afterwards is still true at any later moment. */
  lemma OrdersThenPositionIsASnapshot(s: ExState, t: ExState, u: ExState)
    requires NoLive(s) && Passes(s, t) && SideOf(t.position) == Flat && Passes(t, u)
    ensures Clean(u)
  {
  }

  /** FLAT lasts while no opening order can fill. */
  lemma FlatLasts(s: ExState, t: ExState)
    requires Passes(s, t)
    ensures NoLive(s) ==> t == s
    ensures NoneFillable(s) ==> NoneFillable(t) && (s.position == 0.0 ==> t.position == 0.0)
  {
    assert forall c :: c in t.orders && Fillable(t, c) ==> Fillable(s, c);
  }

  /** What two more queries do to a position read before them. */
  lemma SnapshotLasts(s: ExState, t: ExState, u: ExState)
    requires Passes(s, t) && Passes(t, u)
    ensures NoLive(s) ==> u == s
    ensures NoneFillable(s) && s.position == 0.0 ==> NoneFillable(u) && u.position == 0.0
  {
    FlatLasts(s, t);
    FlatLasts(t, u);
  }

  lemma CleanLasts(s: ExState, t: ExState)
    requires Clean(s) && Passes(s, t)
    ensures Clean(t)
  {
  }

  /** A status the exchange may report for `c`.  Only the final statuses are promises. */
  predicate Truthful(s: ExState, c: Id, status: OrderStatus) {
    && status != PendingSubmission && status != Submitting
    && (status == Rejected ==> Harmless(s, c))
    && (status == Filled || status == Canceled ==> !Live(s, c))
  }

  /** Fill reports: none invented, none missing for an order that is no longer live. */
  ghost predicate TruthfulFills(s: ExState, fills: map<Id, real>) {
    && (forall c :: c in fills ==> c in s.orders && 0.0 < fills[c] <= s.orders[c].filled)
    && (forall c :: c in s.orders && !s.orders[c].live && s.orders[c].filled > 0.0 ==> c in fills)
  }

  predicate FilledAtLeast(s: ExState, c: Id, quantity: real) {
    c in s.orders && s.orders[c].filled >= quantity
  }

  ghost predicate NeverFlips(tape: seq<real>) {
    forall i :: 0 <= i < |tape| - 1 ==>
      tape[i] == 0.0 || tape[i+1] == 0.0 || SideOf(tape[i]) == SideOf(tape[i+1])
  }

  /** One call to place_order and its reply. */
  datatype PlaceCall = PlaceCall(id: Id, side: OrderSide, reduceOnly: bool, quantity: real, reply: Reply<OrderStatus>)

  /** What a reconciliation went by. */
  datatype Evidence = Evidence(
    id: Id, order: Reply<Option<OrderStatus>>, fills: Reply<map<Id, real>>, position: Reply<PositionView>)

  /** What the exchange was last heard to say, query by query.  `side` and `size` are the last answered
      position and `views` all of them, `position` and `number` the last replies of their kind, raised or
      not, `numbers` the last two numbers, and `verdicts` everything any reconciliation went by. */
  datatype Heard = Heard(
    side: PositionSide, size: real, views: seq<PositionView>, position: Reply<PositionView>,
    numbers: (real, real), number: Reply<real>, worker: Reply<bool>, open: Reply<bool>,
    order: (Id, Reply<Option<OrderStatus>>), fills: Reply<map<Id, real>>, place: PlaceCall,
    evidence: Evidence, verdicts: seq<Evidence>)

  /** The three answers by which an order is declared absent. */
  predicate HeardAbsent(h: Heard, c: Id) {
    h.order == (c, Got(None)) && h.fills.Got? && c !in h.fills.value && h.side == Flat
  }

  /** The worker and the exchange behind it.  Any call may raise, and any number of fills and
      cancels may happen before it is answered. */
  class Exchange {
    var st: ExState
    ghost var tape: seq<real>           // every value the position has had, in order
    ghost var heard: Heard

    ghost predicate Valid()
      reads this
    {
      SinglePosition(st) && NeverFlips(tape) && |tape| > 0 && tape[|tape|-1] == st.position
    }

    constructor ()
      ensures Valid() && st == ExState(map[], 0.0, {})
    {
      st := ExState(map[], 0.0, {});
      tape := [0.0];
      heard := Heard(UnknownSide, 0.0, [], Raised, (0.0, 0.0), Raised, Raised, Raised, (0, Raised), Raised,
                     PlaceCall(0, Buy, false, 0.0, Raised), Evidence(0, Raised, Raised, Raised), []);
    }

    /** One atomic step of the environment, or nothing. */
    method Step()
      modifies this`st, this`tape
      ensures Passes(old(st), st)
      ensures old(Valid()) ==> Valid()
    {
      hide SinglePosition;
      var c: Id := *;
      var q: real := *;
      if * {
        if Live(st, c) {
          if Valid() { CancelKeepsSinglePosition(st, c); }
          st := Cancel(st, c);
        }
      } else if CanFill(st, c, q) {
        if Valid() { FillKeepsSinglePosition(st, c, q); }
        st := Fill(st, c, q);
        tape := tape + [st.position];
      }
    }

    method Environment()
      modifies this`st, this`tape
      ensures Passes(old(st), st)
      ensures old(Valid()) ==> Valid()
    {
      var steps: int := *;
      while 0 < steps
        invariant Passes(old(st), st)
        invariant old(Valid()) ==> Valid()
      {
        ghost var before := st;
        Step();
        PassesTransitive(old(st), before, st);
        steps := steps - 1;
      }
    }

    /** health, is_ready, connect, configure: no information about orders or positions. */
    method AskWorker() returns (r: Reply<bool>)
      modifies this
      ensures Passes(old(st), st) && heard == old(heard).(worker := r)
      ensures old(Valid()) ==> Valid()
    {
      Environment();
      r := *;
      heard := heard.(worker := r);
    }

    /** get_balance, get_market_data. */
    method AskNumber() returns (r: Reply<real>)
      modifies this
      ensures Passes(old(st), st)
      ensures heard == old(heard).(number := r, numbers := if r.Got? then (old(heard).numbers.1, r.value) else old(heard).numbers)
      ensures old(Valid()) ==> Valid()
    {
      Environment();
      r := *;
      heard := heard.(number := r, numbers := if r.Got? then (heard.numbers.1, r.value) else heard.numbers);
    }

    method GetPosition() returns (r: Reply<PositionView>)
      modifies this
      ensures Passes(old(st), st)
      ensures old(Valid()) ==> Valid()
      ensures heard == if r.Raised? then old(heard).(position := r)
                       else old(heard).(position := r, side := r.value.side, size := r.value.size,
                                        views := old(heard).views + [r.value])
      ensures r.Got? && r.value.side != UnknownSide ==>
                r.value == PositionView(SideOf(st.position), Abs(st.position))
    {
      Environment();
      if * {
        heard := heard.(position := Raised);
        return Raised;
      }
      var unknown: bool := *;
      var view := if unknown then PositionView(UnknownSide, 0.0) else PositionView(SideOf(st.position), Abs(st.position));
      heard := heard.(position := Got(view), side := view.side, size := view.size, views := heard.views + [view]);
      return Got(view);
    }

    /** get_open_orders: is the list nonempty?  An empty answer means nothing is live. */
    method HasOpenOrders() returns (r: Reply<bool>)
      modifies this
      ensures Passes(old(st), st) && heard == old(heard).(open := r)
      ensures old(Valid()) ==> Valid()
      ensures r == Got(false) ==> NoLive(st)
    {
      Environment();
      r := *;
      if r == Got(false) && exists c | c in st.orders :: st.orders[c].live {
        r := Got(true);
      }
      heard := heard.(open := r);
    }

    /** A missing answer proves the order is not live; dead orders may have been forgotten. */
    method GetOrder(c: Id) returns (r: Reply<Option<OrderStatus>>)
      modifies this
      ensures Passes(old(st), st) && heard == old(heard).(order := (c, r))
      ensures old(Valid()) ==> Valid()
      ensures r.Got? && r.value.None? ==> !Live(st, c)
      ensures r.Got? && r.value.Some? ==> Truthful(st, c, r.value.value)
    {
      Environment();
      r := *;
      if r.Got? && (if r.value.Some? then !Truthful(st, c, r.value.value) else Live(st, c)) {
        r := Raised;
      }
      heard := heard.(order := (c, r));
    }

    method GetFills() returns (r: Reply<map<Id, real>>)
      modifies this
      ensures Passes(old(st), st) && heard == old(heard).(fills := r)
      ensures old(Valid()) ==> Valid()
      ensures r.Got? ==> TruthfulFills(st, r.value)
    {
      Environment();
      if * {
        heard := heard.(fills := Raised);
        return Raised;
      }
      var lagging: set<Id> := *;
      var fills := map c | c in st.orders && st.orders[c].filled > 0.0 && !(st.orders[c].live && c in lagging)
                       :: st.orders[c].filled;
      heard := heard.(fills := Got(fills));
      return Got(fills);
    }

    /** cancel_order: may raise before or after taking effect; the view is the order's status. */
    method CancelOrder(c: Id) returns (r: Reply<Option<OrderStatus>>)
      modifies this
      ensures Passes(old(st), st) && heard == old(heard).(order := heard.order)
      ensures old(Valid()) ==> Valid()
      ensures r.Got? && r.value.Some? ==> Truthful(st, c, r.value.value)
    {
      hide Passes, SinglePosition, Truthful;
      Environment();
      ghost var before;
      var cancels: bool := *;
      if cancels && Live(st, c) {
        if old(Valid()) { CancelKeepsSinglePosition(st, c); }
        CancelPasses(st, c);
        PassesTransitive(old(st), st, Cancel(st, c));
        st := Cancel(st, c);
      }
      before := st;
      r := GetOrder(c);
      PassesTransitive(old(st), before, st);
    }

    /** place_order: may raise before or after accepting.  A call that raised has settled.  The worker rounds,
        so the exchange may accept another quantity. */
    method Place(c: Id, side: OrderSide, reduceOnly: bool, quantity: real) returns (r: Reply<OrderStatus>)
      requires c !in st.orders
      modifies this
      ensures heard == old(heard).(place := PlaceCall(c, side, reduceOnly, quantity, r))
      ensures Passes(old(st), st) || exists q :: Passes(Accept(old(st), c, side, reduceOnly, q), st)
      ensures old(Valid()) && (reduceOnly || Clean(old(st))) ==> Valid()
      ensures r.Got? ==> Truthful(st, c, r.value)
    {
      hide Passes, SinglePosition, Truthful, Clean, NeverFlips;
      var accepts: bool := *;
      if accepts {
        var q: real := *;
        if old(Valid()) && (reduceOnly || Clean(st)) {
          AcceptKeepsSinglePosition(st, c, side, reduceOnly, q);
        }
        st := Accept(st, c, side, reduceOnly, q);
      }
      Environment();
      r := *;
      if r.Got? && !Truthful(st, c, r.value) {
        r := Raised;
      }
      heard := heard.(place := PlaceCall(c, side, reduceOnly, quantity, r));
    }
  }
}
