/** Any number of opening handlers interleaved at their awaits.

    Each handler runs `_open`, `_submit` and `_reconcile_unknown` against the shared rows, slot and
    exchange; between any two of its steps every other handler, the exchange, or a crash may run.
    The guard input is whatever the handler read, however stale. */
module ConcurrentOpens {
  import opened Enums
  import opened Outcomes
  import opened ExchangeModel
  import opened Repositories
  import opened PositionGuard
  import opened Invariants

  /** Where a handler is.  The later cases carry the answers it has collected. */
  datatype Handler =
    | Idle
    | Guarded
    | Pending(id: Id)
    | Sending(id: Id)
    | Awaiting(id: Id)
    | Replied(id: Id, reply: Reply<OrderStatus>)
    | Releasing(id: Id)
    | Confirming(id: Id)
    | Querying(id: Id)
    | KnowsOrder(id: Id, order: Reply<Option<OrderStatus>>)
    | KnowsFills(id: Id, order: Reply<Option<OrderStatus>>, hasFill: Reply<bool>)

  /** `sent` lists the cloids handed to place_order, in order; `base` separates earlier rows. */
  datatype State = State(db: Db, ex: ExState, handlers: map<nat, Handler>, minted: Id, sent: seq<Id>, base: Id)

  datatype Action =
    | PassGuard(h: nat, inp: GuardInput)
    | ReserveAndPersist(h: nat, side: OrderSide, quantity: real)
    | MarkSubmitting(h: nat)
    | Send(h: nat, accepts: bool, quantity: real)
    | Answer(h: nat, reply: Reply<OrderStatus>)
    | RecordReply(h: nat)
    | ReleaseRejected(h: nat)
    | ConfirmFill(h: nat, filled: bool)
    | AskOrder(h: nat, order: Reply<Option<OrderStatus>>)
    | AskFills(h: nat, hasFill: Reply<bool>)
    | AskPosition(h: nat, position: Reply<PositionSide>)
    | ExchangeFills(c: Id, q: real)
    | ExchangeCancels(c: Id)
    | Crash

  function At(s: State, h: nat): Handler {
    if h in s.handlers then s.handlers[h] else Idle
  }

  function Goto(s: State, h: nat, pc: Handler): State {
    s.(handlers := s.handlers[h := pc])
  }

  function WriteStatus(s: State, id: Id, status: OrderStatus): State {
    if id in s.db.orders then s.(db := WithStatus(s.db, id, status)) else s
  }

  function ReleaseFor(s: State, id: Id): State {
    if s.db.slot == Some(id) then s.(db := s.db.(slot := None)) else s
  }

  function Reserved(s: State, side: OrderSide, quantity: real): State {
    s.(db := s.db.(orders := s.db.orders[s.minted := Order(side, false, quantity, s.db.settings.market, PendingSubmission)],
                   slot := Some(s.minted)),
       minted := s.minted + 1)
  }

  /** The exchange's answers are truthful; everything else may happen in any order. */
  predicate Enabled(s: State, a: Action) {
    match a
    case PassGuard(h, inp) => At(s, h) == Idle && CanOpenPosition(inp) == Allowed
    case ReserveAndPersist(h, _, _) => At(s, h) == Guarded
    case MarkSubmitting(h) => At(s, h).Pending?
    case Send(h, _, _) => At(s, h).Sending?
    case Answer(h, reply) => At(s, h).Awaiting? && (reply.Got? ==> Truthful(s.ex, At(s, h).id, reply.value))
    case RecordReply(h) => At(s, h).Replied?
    case ReleaseRejected(h) => At(s, h).Releasing?
    case ConfirmFill(h, _) => At(s, h).Confirming?
    case AskOrder(h, order) =>
      At(s, h).Querying? &&
      (order.Got? ==> if order.value.Some? then Truthful(s.ex, At(s, h).id, order.value.value)
                      else !Live(s.ex, At(s, h).id))
    case AskFills(h, hasFill) =>
      At(s, h).KnowsOrder? &&
      (hasFill == Got(false) ==> Live(s.ex, At(s, h).id) || Harmless(s.ex, At(s, h).id))
    case AskPosition(h, position) =>
      At(s, h).KnowsFills? &&
      (position.Got? ==> position.value in {UnknownSide, SideOf(s.ex.position)})
    case ExchangeFills(c, q) => CanFill(s.ex, c, q)
    case ExchangeCancels(c) => Live(s.ex, c)
    case Crash => true
  }

  function Next(s: State, a: Action): State
    requires Enabled(s, a)
  {
    match a
    case PassGuard(h, _) => Goto(s, h, Guarded)
    case ReserveAndPersist(h, side, quantity) =>
      // the slot's compare-and-set and the insert become durable in one commit, or neither does
      if s.db.slot.Some? || exists i | i in s.db.orders :: InflightOpening(s.db, i) then Goto(s, h, Idle)
      else Goto(Reserved(s, side, quantity), h, Pending(s.minted))
    case MarkSubmitting(h) =>
      var id := At(s, h).id;
      Goto(WriteStatus(s, id, Submitting), h, Sending(id))
    case Send(h, accepts, quantity) =>
      var id := At(s, h).id;
      var side := if id in s.db.orders then s.db.orders[id].side else Buy;
      Goto(s.(ex := if accepts then Accept(s.ex, id, side, false, quantity) else s.ex, sent := s.sent + [id]),
           h, Awaiting(id))
    case Answer(h, reply) => Goto(s, h, Replied(At(s, h).id, reply))
    case RecordReply(h) =>
      var id := At(s, h).id;
      var reply := At(s, h).reply;
      if reply.Raised? then Goto(WriteStatus(s, id, Unknown), h, Querying(id))
      else
        Goto(WriteStatus(s, id, reply.value), h,
             if reply.value == Rejected then Releasing(id) else if reply.value == Open then Confirming(id) else Idle)
    case ReleaseRejected(h) => Goto(ReleaseFor(s, At(s, h).id), h, Idle)
    case ConfirmFill(h, filled) =>
      var id := At(s, h).id;
      Goto(if filled then WriteStatus(s, id, Filled) else s, h, Idle)
    case AskOrder(h, order) => Goto(s, h, KnowsOrder(At(s, h).id, order))
    case AskFills(h, hasFill) => Goto(s, h, KnowsFills(At(s, h).id, At(s, h).order, hasFill))
    case AskPosition(h, position) =>
      var pc := At(s, h);
      var verdict := Verdict(pc.order, pc.hasFill, position);
      var written := Goto(WriteStatus(s, pc.id, verdict), h, Idle);
      // only the proof of absence frees the slot; an adopted REJECTED view does not
      if pc.order == Got(None) && verdict == Rejected then ReleaseFor(written, pc.id) else written
    case ExchangeFills(c, q) => s.(ex := Fill(s.ex, c, q))
    case ExchangeCancels(c) => s.(ex := ExchangeModel.Cancel(s.ex, c))
    case Crash => s.(handlers := map[])
  }

  // ---------------------------------------------------------------- the invariant

  /** A FLAT exchange, a free slot, nothing in flight; rows of the past may be anything final. */
  ghost predicate Init(s: State) {
    && Clean(s.ex) && SinglePosition(s.ex)
    && s.db.slot == None && (forall i :: !InflightOpening(s.db, i))
    && (forall i :: i in s.db.orders ==> i < s.minted) && (forall c :: c in s.ex.orders ==> c < s.minted)
    && s.handlers == map[] && s.sent == [] && s.base == s.minted
  }

  /** What a handler's position says about its own row and the exchange. */
  predicate Supported(s: State, pc: Handler) {
    match pc
    case Idle | Guarded => true
    case Pending(id) => Owns(s, id, PendingSubmission) && id !in s.sent && id !in s.ex.orders
    case Sending(id) => Owns(s, id, Submitting) && id !in s.sent && id !in s.ex.orders
    case Awaiting(id) => Owns(s, id, Submitting)
    case Replied(id, reply) => Owns(s, id, Submitting) && (reply.Got? ==> Truthful(s.ex, id, reply.value))
    case Releasing(id) => Owns(s, id, Rejected)
    case Confirming(id) => Owns(s, id, Open)
    case Querying(id) => Owns(s, id, Unknown)
    case KnowsOrder(id, order) => Owns(s, id, Unknown) && OrderKnown(s, id, order)
    case KnowsFills(id, order, hasFill) =>
      Owns(s, id, Unknown) && OrderKnown(s, id, order) &&
      (order == Got(None) && hasFill == Got(false) ==> Harmless(s.ex, id))
  }

  predicate Owns(s: State, id: Id, status: OrderStatus) {
    s.base <= id && id in s.db.orders && s.db.orders[id].status == status
  }

  predicate OrderKnown(s: State, id: Id, order: Reply<Option<OrderStatus>>) {
    order.Got? ==> if order.value.Some? then Truthful(s.ex, id, order.value.value) else !Live(s.ex, id)
  }

  ghost predicate RowsOk(s: State) {
    && (forall i :: i in s.db.orders ==> i < s.minted)
    && (forall c :: c in s.ex.orders ==> c < s.minted)
    && (forall i :: i in s.db.orders && s.base <= i ==> !s.db.orders[i].reduceOnly)
    && (forall i :: i in s.db.orders && s.base <= i && s.db.orders[i].status != Rejected ==> s.db.slot == Some(i))
    && (forall i :: i in s.db.orders && i < s.base ==> !InflightOpening(s.db, i))
    && (s.db.slot.Some? ==> s.db.slot.value in s.db.orders && s.base <= s.db.slot.value)
    && s.base <= s.minted
  }

  ghost predicate ExchangeOk(s: State) {
    && SinglePosition(s.ex)
    && (forall a :: a in s.ex.contributors ==> a in s.ex.orders && s.ex.orders[a].filled > 0.0 && s.base <= a)
    && (forall c :: c in s.ex.orders && c < s.base ==> !s.ex.orders[c].live)
    && (forall c :: c in s.ex.orders && s.base <= c ==> c in s.db.orders)
    && (forall c :: c in s.db.orders && s.base <= c && s.db.orders[c].status == Rejected ==> Harmless(s.ex, c))
    && (forall k :: 0 <= k < |s.sent| ==> s.base <= s.sent[k] && s.sent[k] in s.db.orders)
    && (forall j, k :: 0 <= j < k < |s.sent| ==> s.sent[j] != s.sent[k])
  }

  ghost predicate HandlersOk(s: State) {
    && (forall h :: h in s.handlers ==> Supported(s, s.handlers[h]))
    && (forall g, h :: g in s.handlers && h in s.handlers && SameRow(s.handlers[g], s.handlers[h]) ==> g == h)
  }

  predicate Named(pc: Handler) {
    !pc.Idle? && !pc.Guarded?
  }

  predicate SameRow(p: Handler, q: Handler) {
    Named(p) && Named(q) && p.id == q.id
  }

  ghost predicate Inv(s: State) {
    RowsOk(s) && ExchangeOk(s) && HandlersOk(s)
  }

  lemma InitHasInv(s: State)
    requires Init(s)
    ensures Inv(s)
  {
  }

  // ---------------------------------------------------------------- every step keeps it

  /** A handler that owns a row not yet sent sees a clean exchange, although it never looked again. */
  lemma UnsentMeansClean(s: State, id: Id)
    requires RowsOk(s) && ExchangeOk(s)
    requires s.base <= id && id in s.db.orders && s.db.orders[id].status != Rejected && id !in s.ex.orders
    ensures Clean(s.ex)
  {
    assert s.db.slot == Some(id);
    assert forall c :: c in s.ex.orders ==> Harmless(s.ex, c) || c < s.base;
  }

  lemma StatusWriteKeepsRows(s: State, id: Id, status: OrderStatus, handlers: map<nat, Handler>)
    requires RowsOk(s) && ExchangeOk(s)
    requires s.base <= id && id in s.db.orders && s.db.orders[id].status != Rejected
    requires status == Rejected ==> Harmless(s.ex, id)
    ensures RowsOk(WriteStatus(s, id, status).(handlers := handlers))
    ensures ExchangeOk(WriteStatus(s, id, status).(handlers := handlers))
  {
    hide SinglePosition, Harmless;
    var t := WriteStatus(s, id, status);
    assert forall i: Id :: i < s.base ==> (InflightOpening(t.db, i) <==> InflightOpening(s.db, i));
  }

  /** A step that only moves `h` and writes the status of `h`'s own row. */
  lemma OwnWriteKeepsInv(s: State, h: nat, status: OrderStatus, pc: Handler)
    requires Inv(s) && Named(At(s, h))
    requires var id := At(s, h).id; s.base <= id && id in s.db.orders && s.db.orders[id].status != Rejected
    requires status == Rejected ==> Harmless(s.ex, At(s, h).id)
    requires Named(pc) ==> pc.id == At(s, h).id
    requires Supported(WriteStatus(s, At(s, h).id, status), pc)
    ensures Inv(Goto(WriteStatus(s, At(s, h).id, status), h, pc))
  {
    hide RowsOk, ExchangeOk, Truthful;
    var id := At(s, h).id;
    var w := WriteStatus(s, id, status);
    var t := Goto(w, h, pc);
    StatusWriteKeepsRows(s, id, status, t.handlers);
    forall g | g in t.handlers
      ensures Supported(t, t.handlers[g])
    {
      if g != h {
        assert Supported(s, s.handlers[g]);
        assert Named(s.handlers[g]) ==> !SameRow(s.handlers[g], s.handlers[h]);
      } else {
        SupportedIgnoresHandlers(w, t, pc);
      }
    }
  }

  lemma SupportedIgnoresHandlers(s: State, t: State, pc: Handler)
    requires t == s.(handlers := t.handlers) && Supported(s, pc)
    ensures Supported(t, pc)
  {
  }

  /** A step that only moves `h`, keeping its row. */
  lemma MoveKeepsInv(s: State, h: nat, pc: Handler)
    requires Inv(s) && Supported(s, pc)
    requires Named(pc) ==> Named(At(s, h)) && pc.id == At(s, h).id
    ensures Inv(Goto(s, h, pc))
  {
    var t := Goto(s, h, pc);
    forall g | g in t.handlers
      ensures Supported(t, t.handlers[g])
    {
      SupportedIgnoresHandlers(s, t, if g == h then pc else s.handlers[g]);
    }
  }

  lemma ReserveKeepsRows(s: State, side: OrderSide, quantity: real, handlers: map<nat, Handler>)
    requires RowsOk(s) && ExchangeOk(s) && s.db.slot == None
    ensures RowsOk(Reserved(s, side, quantity).(handlers := handlers))
    ensures ExchangeOk(Reserved(s, side, quantity).(handlers := handlers))
  {
    hide SinglePosition, Harmless;
    var t := Reserved(s, side, quantity);
    assert forall i: Id :: i < s.base ==> (InflightOpening(t.db, i) <==> InflightOpening(s.db, i));
  }

  lemma ReserveKeepsInv(s: State, h: nat, side: OrderSide, quantity: real)
    requires Inv(s) && At(s, h) == Guarded
    ensures Inv(Next(s, ReserveAndPersist(h, side, quantity)))
  {
    hide SinglePosition, Truthful;
    if s.db.slot.Some? || exists i | i in s.db.orders :: InflightOpening(s.db, i) {
      MoveKeepsInv(s, h, Idle);
    } else {
      var t := Next(s, ReserveAndPersist(h, side, quantity));
      ReserveKeepsRows(s, side, quantity, t.handlers);
      ReserveKeepsHandlers(s, h, side, quantity);
    }
  }

  lemma ReserveKeepsHandlers(s: State, h: nat, side: OrderSide, quantity: real)
    requires Inv(s) && At(s, h) == Guarded
    ensures HandlersOk(Goto(Reserved(s, side, quantity), h, Pending(s.minted)))
  {
    hide SinglePosition, Truthful, InflightOpening;
    var t := Goto(Reserved(s, side, quantity), h, Pending(s.minted));
    forall g | g in t.handlers
      ensures Supported(t, t.handlers[g])
      ensures g != h && Named(t.handlers[g]) ==> t.handlers[g].id != s.minted
    {
      if g != h {
        assert Supported(s, s.handlers[g]);
      }
    }
  }

  lemma SendKeepsInv(s: State, h: nat, accepts: bool, quantity: real)
    requires Inv(s) && At(s, h).Sending?
    ensures Inv(Next(s, Send(h, accepts, quantity)))
  {
    var id := At(s, h).id;
    var t := Next(s, Send(h, accepts, quantity));
    assert Supported(s, At(s, h));
    UnsentMeansClean(s, id);
    if accepts {
      AcceptKeepsSinglePosition(s.ex, id, s.db.orders[id].side, false, quantity);
    }
    forall g | g in t.handlers
      ensures Supported(t, t.handlers[g])
    {
      if g != h {
        assert Supported(s, s.handlers[g]);
        assert Named(s.handlers[g]) ==> s.handlers[g].id != id;
      }
    }
  }

  /** What a handler knows stays true while the exchange moves. */
  lemma SupportLasts(s: State, e: ExState, pc: Handler)
    requires Supported(s, pc) && Passes(s.ex, e)
    ensures Supported(s.(ex := e), pc)
  {
    match pc
    case Replied(id, reply) =>
      if reply.Got? { TruthLasts(s.ex, e, id, reply.value); }
    case KnowsOrder(id, order) =>
      if order.Got? && order.value.Some? { TruthLasts(s.ex, e, id, order.value.value); }
    case KnowsFills(id, order, hasFill) =>
      if order.Got? && order.value.Some? { TruthLasts(s.ex, e, id, order.value.value); }
    case _ =>
  }

  lemma ExchangeStepKeepsInv(s: State, e: ExState)
    requires Inv(s) && Passes(s.ex, e) && SinglePosition(e)
    requires forall a :: a in e.contributors ==> a in e.orders && e.orders[a].filled > 0.0 && s.base <= a
    ensures Inv(s.(ex := e))
  {
    hide SinglePosition, Truthful;
    forall h | h in s.handlers
      ensures Supported(s.(ex := e), s.handlers[h])
    {
      SupportLasts(s, e, s.handlers[h]);
    }
  }

  lemma VerdictKeepsInv(s: State, h: nat, position: Reply<PositionSide>)
    requires Inv(s) && Enabled(s, AskPosition(h, position))
    ensures Inv(Next(s, AskPosition(h, position)))
  {
    var pc := At(s, h);
    assert Supported(s, pc);
    var verdict := Verdict(pc.order, pc.hasFill, position);
    OwnWriteKeepsInv(s, h, verdict, Idle);
    var written := Goto(WriteStatus(s, pc.id, verdict), h, Idle);
    if pc.order == Got(None) && verdict == Rejected {
      ReleaseKeepsInv(written, pc.id);
    }
  }

  lemma ReleaseKeepsInv(s: State, id: Id)
    requires Inv(s) && id in s.db.orders && s.db.orders[id].status == Rejected
    ensures Inv(ReleaseFor(s, id))
  {
    var t := ReleaseFor(s, id);
    assert forall i :: InflightOpening(t.db, i) <==> InflightOpening(s.db, i);
    forall g | g in t.handlers
      ensures Supported(t, t.handlers[g])
    {
      assert Supported(s, s.handlers[g]);
    }
  }

  lemma HandlerIsSupported(s: State, h: nat)
    requires Inv(s)
    ensures Supported(s, At(s, h))
  {
  }

  lemma OwnRowStepKeepsInv(s: State, a: Action)
    requires Inv(s) && Enabled(s, a) && (a.MarkSubmitting? || a.RecordReply? || a.ConfirmFill? || a.ReleaseRejected?)
    ensures Inv(Next(s, a))
  {
    hide RowsOk, ExchangeOk, HandlersOk;
    HandlerIsSupported(s, a.h);
    var id := At(s, a.h).id;
    match a
    case MarkSubmitting(h) =>
      OwnWriteKeepsInv(s, h, Submitting, Sending(id));
    case RecordReply(h) =>
      var reply := At(s, h).reply;
      if reply.Raised? {
        OwnWriteKeepsInv(s, h, Unknown, Querying(id));
      } else {
        OwnWriteKeepsInv(s, h, reply.value,
                         if reply.value == Rejected then Releasing(id)
                         else if reply.value == Open then Confirming(id) else Idle);
      }
    case ReleaseRejected(h) =>
      ReleaseKeepsInv(s, id);
      MoveKeepsInv(ReleaseFor(s, id), h, Idle);
    case ConfirmFill(h, filled) =>
      if filled { OwnWriteKeepsInv(s, h, Filled, Idle); } else { MoveKeepsInv(s, h, Idle); }
  }

  lemma AnswerStepKeepsInv(s: State, a: Action)
    requires Inv(s) && Enabled(s, a) && (a.PassGuard? || a.Answer? || a.AskOrder? || a.AskFills?)
    ensures Inv(Next(s, a))
  {
    hide RowsOk, ExchangeOk, HandlersOk;
    HandlerIsSupported(s, a.h);
    match a
    case PassGuard(h, _) => MoveKeepsInv(s, h, Guarded);
    case Answer(h, reply) => MoveKeepsInv(s, h, Replied(At(s, h).id, reply));
    case AskOrder(h, order) => MoveKeepsInv(s, h, KnowsOrder(At(s, h).id, order));
    case AskFills(h, hasFill) => MoveKeepsInv(s, h, KnowsFills(At(s, h).id, At(s, h).order, hasFill));
  }

  lemma FillStepKeepsInv(s: State, c: Id, q: real)
    requires Inv(s) && CanFill(s.ex, c, q)
    ensures Inv(s.(ex := Fill(s.ex, c, q)))
  {
    FillKeepsSinglePosition(s.ex, c, q);
    FillPasses(s.ex, c, q);
    ExchangeStepKeepsInv(s, Fill(s.ex, c, q));
  }

  lemma CancelStepKeepsInv(s: State, c: Id)
    requires Inv(s) && Live(s.ex, c)
    ensures Inv(s.(ex := ExchangeModel.Cancel(s.ex, c)))
  {
    CancelKeepsSinglePosition(s.ex, c);
    CancelPasses(s.ex, c);
    ExchangeStepKeepsInv(s, ExchangeModel.Cancel(s.ex, c));
  }

  lemma CrashKeepsInv(s: State)
    requires Inv(s)
    ensures Inv(s.(handlers := map[]))
  {
  }

  lemma NextKeepsInv(s: State, a: Action)
    requires Inv(s) && Enabled(s, a)
    ensures Inv(Next(s, a)) && Next(s, a).base == s.base
  {
    hide RowsOk, ExchangeOk, HandlersOk, Inv;
    match a
    case ReserveAndPersist(h, side, quantity) => ReserveKeepsInv(s, h, side, quantity);
    case Send(h, accepts, quantity) => SendKeepsInv(s, h, accepts, quantity);
    case AskPosition(h, position) => VerdictKeepsInv(s, h, position);
    case ExchangeFills(c, q) => FillStepKeepsInv(s, c, q);
    case ExchangeCancels(c) => CancelStepKeepsInv(s, c);
    case Crash => CrashKeepsInv(s);
    case MarkSubmitting(_) => OwnRowStepKeepsInv(s, a);
    case RecordReply(_) => OwnRowStepKeepsInv(s, a);
    case ReleaseRejected(_) => OwnRowStepKeepsInv(s, a);
    case ConfirmFill(_, _) => OwnRowStepKeepsInv(s, a);
    case _ => AnswerStepKeepsInv(s, a);
  }

  // ---------------------------------------------------------------- runs

  /** A run: consecutive states joined by enabled actions. */
  ghost predicate Run(states: seq<State>, actions: seq<Action>) {
    && |states| == |actions| + 1
    && Init(states[0])
    && forall k :: 0 <= k < |actions| ==> Enabled(states[k], actions[k]) && states[k+1] == Next(states[k], actions[k])
  }

  lemma {:induction false} RunKeepsInv(states: seq<State>, actions: seq<Action>, k: nat)
    requires Run(states, actions) && k < |states|
    ensures Inv(states[k]) && states[k].base == states[0].base
  {
    if k == 0 {
      InitHasInv(states[0]);
    } else {
      RunKeepsInv(states, actions, k - 1);
      NextKeepsInv(states[k-1], actions[k-1]);
    }
  }

  /** From a flat exchange and a free slot, however many handlers run and wherever they are
      interrupted: the opening rows of the run that are not proven REJECTED are at most one, that one
      holds the slot, only it can ever have filled, each cloid was sent at most once, and no position
      mixes two orders. */
  lemma AtMostOneOpening(states: seq<State>, actions: seq<Action>, k: nat, i: Id, j: Id)
    requires Run(states, actions) && k < |states|
    requires states[0].base <= i && i in states[k].db.orders && states[k].db.orders[i].status != Rejected
    ensures states[k].db.slot == Some(i)
    ensures states[0].base <= j && j in states[k].db.orders && states[k].db.orders[j].status != Rejected ==> i == j
    ensures states[0].base <= j && j != i ==> Harmless(states[k].ex, j)
    ensures SinglePosition(states[k].ex)
  {
    RunKeepsInv(states, actions, k);
    if states[0].base <= j && j != i && j in states[k].ex.orders {
      assert j in states[k].db.orders;
      assert states[k].db.orders[j].status == Rejected;
    }
  }

  lemma EachCloidSentAtMostOnce(states: seq<State>, actions: seq<Action>, k: nat, m: nat, n: nat)
    requires Run(states, actions) && k < |states|
    requires m < n < |states[k].sent|
    ensures states[k].sent[m] != states[k].sent[n]
  {
    RunKeepsInv(states, actions, k);
  }

  /** The index is never the thing that stops a second opening: it already holds. */
  lemma IndexHolds(states: seq<State>, actions: seq<Action>, k: nat)
    requires Run(states, actions) && k < |states|
    ensures IndexOk(states[k].db)
  {
    RunKeepsInv(states, actions, k);
    forall i, j | InflightOpening(states[k].db, i) && InflightOpening(states[k].db, j)
      ensures i == j
    {
    }
  }

  // ---------------------------------------------------------------- what the steps are for

  /** A guarded handler takes a free slot when no opening row is in flight, and then holds it with a row of
      its own; otherwise it goes home and nothing changes. */
  lemma ReserveTakesAFreeSlot(s: State, h: nat, side: OrderSide, quantity: real)
    requires At(s, h) == Guarded && forall i :: i in s.db.orders ==> i < s.minted
    ensures var t := Next(s, ReserveAndPersist(h, side, quantity));
            if s.db.slot.None? && forall i :: !InflightOpening(s.db, i)
            then At(t, h) == Pending(s.minted) && t.db.slot == Some(s.minted) && t.minted == s.minted + 1 &&
                 t.db.orders == s.db.orders[s.minted := Order(side, false, quantity, s.db.settings.market, PendingSubmission)] &&
                 t.ex == s.ex && t.sent == s.sent
            else At(t, h) == Idle && t.db == s.db && t.ex == s.ex && t.sent == s.sent && t.minted == s.minted
  {
    assert forall i :: InflightOpening(s.db, i) ==> i in s.db.orders;
  }

  /** A sent order reaches the exchange exactly if the exchange takes it, for the side of its row. */
  lemma SendReachesTheExchange(s: State, h: nat, accepts: bool, quantity: real)
    requires Inv(s) && At(s, h).Sending?
    ensures var id, t := At(s, h).id, Next(s, Send(h, accepts, quantity));
            && t.sent == s.sent + [id] && At(t, h) == Awaiting(id) && t.db == s.db
            && (accepts ==> Live(t.ex, id) && t.ex.orders[id].side == s.db.orders[id].side &&
                            t.ex.orders[id].quantity == quantity && !t.ex.orders[id].reduceOnly)
            && (!accepts ==> t.ex == s.ex)
  {
    assert Supported(s, At(s, h));
  }

  /** After its reply or its three answers a row holds what was said, and a slot is freed exactly by its
      own order's rejection or proof of absence. */
  lemma AnswersAreRecorded(s: State, h: nat, position: Reply<PositionSide>)
    requires Inv(s) && Named(At(s, h))
    ensures At(s, h).Replied? ==>
              var id, reply, t := At(s, h).id, At(s, h).reply, Next(s, RecordReply(h));
              t.db.slot == s.db.slot && t.db.orders[id].status == (if reply.Got? then reply.value else Unknown)
    ensures At(s, h).Releasing? ==>
              var id, t := At(s, h).id, Next(s, ReleaseRejected(h));
              t.db.orders == s.db.orders && t.db.slot == if s.db.slot == Some(id) then None else s.db.slot
    ensures At(s, h).KnowsFills? && Enabled(s, AskPosition(h, position)) ==>
              var pc, t := At(s, h), Next(s, AskPosition(h, position));
              && t.db.orders[pc.id].status == Verdict(pc.order, pc.hasFill, position)
              && t.db.slot == (if s.db.slot == Some(pc.id) && pc.order == Got(None) && pc.hasFill == Got(false) && position == Got(Flat)
                               then None else s.db.slot)
  {
    assert Supported(s, At(s, h));
    if At(s, h).KnowsFills? {
      VerdictIs(At(s, h).order, At(s, h).hasFill, position, Unknown);
    }
  }

  /** A run's first handler on its way, with the row and the order of one BUY of size 1. */
  function Row(status: OrderStatus): Db {
    Db(map[0 := Order(Buy, false, 1.0, true, status)], Some(0), Settings(true, false, false, Running, true, 10.0), Some(Flat))
  }

  function Way(status: OrderStatus, pc: Handler, orders: map<Id, ExOrder>, sent: seq<Id>): State {
    State(Row(status), ExState(orders, 0.0, {}), map[7 := pc], 1, sent, 0)
  }

  function Beginning(): State {
    State(Db(map[], None, Settings(true, false, false, Running, true, 10.0), Some(Flat)), ExState(map[], 0.0, {}), map[], 0, [], 0)
  }

  const FLAT_INPUT := GuardInput(Flat, Flat, false, Running, "BTC-USD", "BTC-USD", true, false, false)

  lemma FirstSteps()
    ensures Init(Beginning()) && Enabled(Beginning(), PassGuard(7, FLAT_INPUT))
    ensures Next(Beginning(), PassGuard(7, FLAT_INPUT)) == Goto(Beginning(), 7, Guarded)
    ensures Enabled(Goto(Beginning(), 7, Guarded), ReserveAndPersist(7, Buy, 1.0))
    ensures Next(Goto(Beginning(), 7, Guarded), ReserveAndPersist(7, Buy, 1.0)) == Way(PendingSubmission, Pending(0), map[], [])
  {
    var s := Goto(Beginning(), 7, Guarded);
    assert map[7 := Guarded][7 := Pending(0)] == map[7 := Pending(0)];
  }

  lemma LastSteps()
    ensures var s := Way(PendingSubmission, Pending(0), map[], []);
            Enabled(s, MarkSubmitting(7)) && Next(s, MarkSubmitting(7)) == Way(Submitting, Sending(0), map[], [])
    ensures var s := Way(Submitting, Sending(0), map[], []);
            Enabled(s, Send(7, true, 1.0)) &&
            Next(s, Send(7, true, 1.0)) == Way(Submitting, Awaiting(0), map[0 := ExOrder(Buy, false, 1.0, 0.0, true)], [0])
    ensures var s := Way(Submitting, Awaiting(0), map[0 := ExOrder(Buy, false, 1.0, 0.0, true)], [0]);
            Enabled(s, ExchangeFills(0, 1.0)) &&
            var t := Next(s, ExchangeFills(0, 1.0)); t.sent == [0] && t.ex.position == 1.0 && t.ex.contributors == {0}
  {
    assert map[7 := Pending(0)][7 := Sending(0)] == map[7 := Sending(0)];
    assert map[7 := Sending(0)][7 := Awaiting(0)] == map[7 := Awaiting(0)];
    assert Row(PendingSubmission).orders[0 := Row(Submitting).orders[0]] == Row(Submitting).orders;
  }

  /** The result is not for want of opens: in some run an order is sent, fills, and is the position. */
  lemma SomeRunOpens() returns (states: seq<State>, actions: seq<Action>)
    ensures Run(states, actions)
    ensures var last := states[|states|-1]; last.sent == [0] && last.ex.position == 1.0 && last.ex.contributors == {0}
  {
    hide Next, Enabled, Init, Way, Beginning, Goto;
    FirstSteps();
    LastSteps();
    states, actions := [Beginning()], [];
    states, actions := Extended(states, actions, PassGuard(7, FLAT_INPUT));
    states, actions := Extended(states, actions, ReserveAndPersist(7, Buy, 1.0));
    states, actions := Extended(states, actions, MarkSubmitting(7));
    states, actions := Extended(states, actions, Send(7, true, 1.0));
    states, actions := Extended(states, actions, ExchangeFills(0, 1.0));
  }

  lemma Extended(states: seq<State>, actions: seq<Action>, a: Action) returns (longer: seq<State>, more: seq<Action>)
    requires Run(states, actions) && Enabled(states[|states|-1], a)
    ensures longer == states + [Next(states[|states|-1], a)] && more == actions + [a] && Run(longer, more)
  {
    hide Init, Enabled, Next;
    longer, more := states + [Next(states[|states|-1], a)], actions + [a];
  }
}
