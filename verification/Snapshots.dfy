/** What the exchange may still do between two queries, and exactly when the answers of two queries
    taken in the unsafe order, position before open orders, mislead. */
module Snapshots {
  import opened Enums
  import opened Outcomes
  import opened ExchangeModel
  import opened Repositories
  import opened Invariants

  // ---------------------------------------------------------------- runs of the exchange

  datatype ExStep = Fills(c: Id, q: real) | Cancels(c: Id)

  predicate CanStep(s: ExState, e: ExStep) {
    match e
    case Fills(c, q) => CanFill(s, c, q)
    case Cancels(c) => Live(s, c)
  }

  function After(s: ExState, e: ExStep): ExState
    requires CanStep(s, e)
  {
    match e
    case Fills(c, q) => Fill(s, c, q)
    case Cancels(c) => Cancel(s, c)
  }

  predicate CanRun(s: ExState, steps: seq<ExStep>)
    decreases |steps|
  {
    steps == [] || (CanStep(s, steps[0]) && CanRun(After(s, steps[0]), steps[1..]))
  }

  function RunAll(s: ExState, steps: seq<ExStep>): ExState
    requires CanRun(s, steps)
    decreases |steps|
  {
    if steps == [] then s else RunAll(After(s, steps[0]), steps[1..])
  }

  ghost predicate Reaches(s: ExState, t: ExState) {
    exists steps :: CanRun(s, steps) && RunAll(s, steps) == t
  }

  lemma ReachesItself(s: ExState)
    ensures Reaches(s, s)
  {
    assert CanRun(s, []) && RunAll(s, []) == s;
  }

  lemma ReachesAfter(s: ExState, e: ExStep, t: ExState)
    requires CanStep(s, e) && Reaches(After(s, e), t)
    ensures Reaches(s, t)
  {
    var steps :| CanRun(After(s, e), steps) && RunAll(After(s, e), steps) == t;
    assert ([e] + steps)[1..] == steps;
    assert CanRun(s, [e] + steps) && RunAll(s, [e] + steps) == t;
  }

  lemma StepKeeps(s: ExState, e: ExStep)
    requires CanStep(s, e)
    ensures Passes(s, After(s, e))
    ensures SinglePosition(s) ==> SinglePosition(After(s, e))
  {
    match e
    case Fills(c, q) =>
      FillPasses(s, c, q);
      if SinglePosition(s) { FillKeepsSinglePosition(s, c, q); }
    case Cancels(c) =>
      CancelPasses(s, c);
      if SinglePosition(s) { CancelKeepsSinglePosition(s, c); }
  }

  lemma {:induction false} RunKeeps(s: ExState, steps: seq<ExStep>)
    requires CanRun(s, steps)
    ensures Passes(s, RunAll(s, steps))
    ensures SinglePosition(s) ==> SinglePosition(RunAll(s, steps))
    decreases |steps|
  {
    hide SinglePosition;
    if steps != [] {
      hide Passes;
      StepKeeps(s, steps[0]);
      RunKeeps(After(s, steps[0]), steps[1..]);
      PassesTransitive(s, After(s, steps[0]), RunAll(s, steps));
    }
  }

  // ---------------------------------------------------------------- can the position become FLAT?

  /** How much a live reduce-only order may still take off the position. */
  function Room(s: ExState, c: Id): real {
    if Live(s, c) && s.orders[c].reduceOnly && s.orders[c].filled < s.orders[c].quantity
       && SideOf(s.position) == (if s.orders[c].side == Buy then Short else Long)
    then s.orders[c].quantity - s.orders[c].filled else 0.0
  }

  function TotalRoom(s: ExState, n: Id): (room: real)
    ensures room >= 0.0
  {
    if n == 0 then 0.0 else TotalRoom(s, n - 1) + Room(s, n - 1)
  }

  ghost predicate IdsBelow(s: ExState, n: Id) {
    forall c :: c in s.orders ==> c < n
  }

  lemma {:induction false} RoomChanges(s: ExState, t: ExState, n: Id, c: Id, q: real)
    requires forall i: Id :: i < n && i != c ==> Room(t, i) == Room(s, i)
    requires c < n ==> Room(t, c) == Room(s, c) - q
    ensures TotalRoom(t, n) == TotalRoom(s, n) - (if c < n then q else 0.0)
  {
    if n > 0 {
      RoomChanges(s, t, n - 1, c, q);
    }
  }

  lemma {:induction false} RoomOfOne(s: ExState, n: Id, c: Id)
    requires c < n
    ensures Room(s, c) <= TotalRoom(s, n)
  {
    if c < n - 1 { RoomOfOne(s, n - 1, c); }
  }

  /** No step takes more off the position than it takes off the room. */
  lemma StepSpendsRoom(s: ExState, e: ExStep, n: Id)
    requires SinglePosition(s) && CanStep(s, e) && IdsBelow(s, n)
    requires TotalRoom(After(s, e), n) >= Abs(After(s, e).position)
    ensures TotalRoom(s, n) >= Abs(s.position)
  {
    var t := After(s, e);
    var c := e.c;
    if s.position != 0.0 {
      if t.position == 0.0 {
        ToFlatByReducing(s, c, e.q);
        RoomOfOne(s, n, c);
      } else {
        OtherRooms(s, e);
        RoomChanges(s, t, n, c, Room(s, c) - Room(t, c));
        SpentRoom(s, e);
      }
    }
  }

  /** An opening order points the way of the position, so only a reduce-only fill ends at FLAT. */
  lemma ToFlatByReducing(s: ExState, c: Id, q: real)
    requires SinglePosition(s) && CanFill(s, c, q) && s.position != 0.0 && Fill(s, c, q).position == 0.0
    ensures Room(s, c) >= Abs(s.position)
  {
    var a :| a in s.contributors;
    if !s.orders[c].reduceOnly {
      assert LiveOpening(s, c);
    }
  }

  lemma OtherRooms(s: ExState, e: ExStep)
    requires SinglePosition(s) && CanStep(s, e) && s.position != 0.0 && After(s, e).position != 0.0
    ensures SideOf(After(s, e).position) == SideOf(s.position)
    ensures forall i :: i != e.c ==> Room(After(s, e), i) == Room(s, i)
  {
    if e.Fills? { FillKeepsSinglePosition(s, e.c, e.q); }
  }

  lemma SpentRoom(s: ExState, e: ExStep)
    requires SinglePosition(s) && CanStep(s, e) && s.position != 0.0 && After(s, e).position != 0.0
    ensures Room(s, e.c) - Room(After(s, e), e.c) >= Abs(s.position) - Abs(After(s, e).position)
  {
    OtherRooms(s, e);
    var a :| a in s.contributors;
    if e.Fills? && !s.orders[e.c].reduceOnly {
      assert LiveOpening(s, e.c);
    }
  }

  lemma {:induction false} FlatNeedsRoom(s: ExState, steps: seq<ExStep>, n: Id)
    requires SinglePosition(s) && CanRun(s, steps) && IdsBelow(s, n) && RunAll(s, steps).position == 0.0
    ensures TotalRoom(s, n) >= Abs(s.position)
    decreases |steps|
  {
    if steps != [] {
      var t := After(s, steps[0]);
      StepKeeps(s, steps[0]);
      FlatNeedsRoom(t, steps[1..], n);
      StepSpendsRoom(s, steps[0], n);
    }
  }

  /** The opening orders of s stand in t as they are. */
  ghost predicate OpeningsUntouched(s: ExState, t: ExState) {
    forall c :: c in s.orders && !s.orders[c].reduceOnly ==> c in t.orders && t.orders[c] == s.orders[c]
  }

  /** With enough room, reduce-only fills alone bring the position to FLAT. */
  lemma {:induction false} RoomReachesFlat(s: ExState, k: Id) returns (m: ExState)
    requires TotalRoom(s, k) >= Abs(s.position)
    ensures Reaches(s, m) && m.position == 0.0 && OpeningsUntouched(s, m) && m.orders.Keys == s.orders.Keys
    decreases k
  {
    if s.position == 0.0 {
      ReachesItself(s);
      return s;
    }
    var c := k - 1;
    if Room(s, c) == 0.0 {
      m := RoomReachesFlat(s, c);
      return;
    }
    var q := if Room(s, c) <= Abs(s.position) then Room(s, c) else Abs(s.position);
    var e := Fills(c, q);
    var t := After(s, e);
    if t.position == 0.0 {
      ReachesItself(t);
      m := t;
    } else {
      RoomChanges(s, t, c, c, 0.0);
      m := RoomReachesFlat(t, c);
    }
    ReachesAfter(s, e, m);
  }

  /** A FLAT answer is possible from s exactly when live reduce-only orders can take the whole position off. */
  lemma FlatIsReachableIff(s: ExState, n: Id)
    requires SinglePosition(s) && IdsBelow(s, n)
    ensures (exists m :: Reaches(s, m) && m.position == 0.0) <==> TotalRoom(s, n) >= Abs(s.position)
  {
    if m :| Reaches(s, m) && m.position == 0.0 {
      var steps :| CanRun(s, steps) && RunAll(s, steps) == m;
      FlatNeedsRoom(s, steps, n);
    }
    if TotalRoom(s, n) >= Abs(s.position) {
      var m := RoomReachesFlat(s, n);
    }
  }

  // ---------------------------------------------------------------- position first, open orders second

  /** Every live order canceled, nothing filled. */
  lemma {:induction false} AllCancel(s: ExState, n: Id) returns (t: ExState)
    requires forall c :: c in s.orders && n <= c ==> !s.orders[c].live
    ensures Reaches(s, t) && NoLive(t) && t.position == s.position
    decreases n
  {
    if n == 0 {
      ReachesItself(s);
      t := s;
    } else if Live(s, n - 1) {
      t := AllCancel(Cancel(s, n - 1), n - 1);
      ReachesAfter(s, Cancels(n - 1), t);
    } else {
      t := AllCancel(s, n - 1);
    }
  }

  /** FLAT is answered at m, an empty list of open orders at t, and at t the position is not FLAT. */
  ghost predicate MisleadsAt(s: ExState, m: ExState, t: ExState) {
    Reaches(s, m) && m.position == 0.0 && Reaches(m, t) && NoLive(t) && t.position != 0.0
  }

  ghost predicate MayMislead(s: ExState) {
    exists m, t :: MisleadsAt(s, m, t)
  }

  /** The two favourable answers can be wrong exactly when some opening order can still fill and FLAT
      can be answered first. */
  lemma MisleadsIff(s: ExState, n: Id)
    requires SinglePosition(s) && IdsBelow(s, n)
    ensures MayMislead(s) <==> !NoneFillable(s) && TotalRoom(s, n) >= Abs(s.position)
  {
    hide SinglePosition, TotalRoom, Abs;
    if MayMislead(s) {
      var m, t :| MisleadsAt(s, m, t);
      FlatIsReachableIff(s, n);
      NothingFillableNeverMisleads(s, m, t);
    }
    if !NoneFillable(s) && TotalRoom(s, n) >= Abs(s.position) {
      var c :| c in s.orders && Fillable(s, c);
      var m := RoomReachesFlat(s, n);
      var t := FillThenCancel(m, c, n);
      assert MisleadsAt(s, m, t);
    }
  }

  /** In particular, with the position FLAT at the call: exactly when an opening order can still fill. */
  lemma MisleadsFromFlatIff(s: ExState, n: Id)
    requires SinglePosition(s) && IdsBelow(s, n) && s.position == 0.0
    ensures MayMislead(s) <==> !NoneFillable(s)
  {
    MisleadsIff(s, n);
  }

  lemma NothingFillableNeverMisleads(s: ExState, m: ExState, t: ExState)
    requires MisleadsAt(s, m, t)
    ensures !NoneFillable(s)
  {
    var first :| CanRun(s, first) && RunAll(s, first) == m;
    RunKeeps(s, first);
    var second :| CanRun(m, second) && RunAll(m, second) == t;
    RunKeeps(m, second);
    if NoneFillable(s) {
      FlatLasts(s, m);
      FlatLasts(m, t);
      assert false;
    }
  }

  lemma FillThenCancel(m: ExState, c: Id, n: Id) returns (t: ExState)
    requires m.position == 0.0 && Fillable(m, c) && forall i :: i in m.orders ==> i < n
    ensures Reaches(m, t) && NoLive(t) && t.position != 0.0
  {
    var e := Fills(c, m.orders[c].quantity - m.orders[c].filled);
    t := AllCancel(After(m, e), n);
    ReachesAfter(m, e, t);
  }
}
