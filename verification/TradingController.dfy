/** The controller: every operation, await by await, over one session and an adversarial exchange. */
module Trading {
  import opened Enums
  import opened Outcomes
  import opened ExchangeModel
  import opened Repositories
  import opened Recovery
  import opened Invariants
  import opened PositionGuard
  import opened Shortfalls
  import Sizing

  datatype Operation =
    | Signal(signal: SignalType)
    | Start | Stop | CloseAndStop | CloseAndContinue | EmergencyStop | ClearEstop | EnterRecovery
    | Restart

  /** The operations that go through `_close_position`. */
  predicate ClosesPosition(op: Operation) {
    op == Signal(CloseSignal) || op.CloseAndStop? || op.CloseAndContinue? || op.EmergencyStop?
  }

  /** The closes an operator asks for. */
  predicate OperatorCloses(op: Operation) {
    op.CloseAndStop? || op.CloseAndContinue? || op.EmergencyStop?
  }

  /** The evidence on which a MARKET entry acknowledged as OPEN counts as filled: the position on its side,
      and nearly all of it reported filled or, with no fill reported, held. */
  predicate OpenConfirmed(id: Id, o: Order, h: Heard) {
    && o.market && o.status == Open && h.position.Got? && h.fills.Got?
    && var view := h.position.value;
    && view.side == (if o.side == Buy then Long else Short) && view.size > 0.0
    && (if id in h.fills.value then h.fills.value[id] >= o.quantity * 0.99 else view.size >= o.quantity * 0.90)
  }

  /** The same for a close: FLAT, and nearly all of it reported filled. */
  predicate CloseConfirmed(id: Id, o: Order, h: Heard) {
    && o.market && o.status == Open && h.position.Got? && h.fills.Got?
    && h.position.value.side == Flat && h.position.value.size <= 0.0
    && (if id in h.fills.value then h.fills.value[id] else 0.0) >= o.quantity * 0.99
  }

  predicate Confirmed(id: Id, o: Order, h: Heard) {
    if o.reduceOnly then CloseConfirmed(id, o, h) else OpenConfirmed(id, o, h)
  }

  /** The status a row has once its one place call is settled: the one replied, or FILLED for an
      acknowledgement confirmed since; after a raised call the verdict of the reconciliation. */
  predicate Settles(status: OrderStatus, id: Id, reply: Reply<OrderStatus>, h: Heard) {
    if reply.Got? then status == reply.value || (reply.value == Open && status == Filled)
    else h.evidence.id == id && status == Concluded(h.evidence)
  }

  lemma InflightByRows(d: Db, e: Db)
    requires d.orders == e.orders && SomeInflight(d)
    ensures SomeInflight(e)
  {
    var i :| InflightOpening(d, i);
    assert InflightOpening(e, i);
  }

  lemma AskedByRows(calls: seq<CancelCall>, d: Db, e: Db, includeReduceOnly: bool)
    requires d.orders == e.orders
    ensures AskedForAll(calls, d, includeReduceOnly) <==> AskedForAll(calls, e, includeReduceOnly)
  {
  }

  /** The guard on the rows d, the side answered first and whether another symbol has a position. */
  function GuardOn(d: Db, side: PositionSide, foreign: bool): GuardResult {
    CanOpenPosition(GuardInput(
      if d.mirror.None? then UnknownSide else d.mirror.value, side, HasUnresolved(d), d.settings.state,
      TRADING_PAIR, TRADING_PAIR, true, foreign, d.slot.Some?))
  }

  lemma RefusedForAReason(before: Db, d: Db, asked: Answers, answers: Answers, seen: seq<PositionView>, views: seq<PositionView>,
                          side: PositionSide, foreign: bool)
    requires answers == asked + [(Health, Got(true)), (IsReady, Got(true)), (OtherPositions, Got(foreign))]
    requires |views| > |seen| && views[|seen|].side == side
    requires d == before.(mirror := d.mirror) && d.mirror.Some? && GuardOn(d, side, foreign) != Allowed
    ensures GuardHasReason(before, d, asked, answers, seen, views)
  {
    assert HasUnresolved(d) <==> HasUnresolved(before);
    hide HasUnresolved;
  }

  lemma UnresolvedByRows(d: Db, e: Db)
    requires d.orders == e.orders
    ensures HasUnresolved(d) <==> HasUnresolved(e)
  {
  }

  lemma AllowedMeansUnlocked(d: Db, side: PositionSide, foreign: bool)
    requires GuardOn(d, side, foreign) == Allowed
    ensures d.settings.state == Running && d.slot == None && !HasUnresolved(d) && !foreign
  {
  }

  /** What a reconciliation of one row comes to, from rows a (and disk0 on disk) and releases rel to rows d
      and releases rel'.  The row takes the verdict on the evidence; the slot is freed exactly for an opening
      order proven absent; an order not proven keeps everything and sends the system to RECOVERY. */
  ghost predicate ReconcileOutcome(id: Id, r: Await<()>, a: Db, disk0: Db, d: Db, rel: seq<Id>, rel': seq<Id>, e: Evidence)
    requires id in a.orders
  {
    && ControlStep(disk0.settings, d.settings) && (a == disk0 ==> KeepsHeld(disk0, d))
    && (rel' == rel || rel' == rel + [id])
    && (rel' != rel ==> !a.orders[id].reduceOnly && ProvenFrom(e))
    && (r.Done? ==>
          && d.orders == WithStatus(a, id, Concluded(e)).orders && Concluded(e) !in {PendingSubmission, Submitting}
          && (rel' != rel <==> !a.orders[id].reduceOnly && ProvenFrom(e))
          && d.slot == (if rel' != rel && a.slot == Some(id) then None else a.slot)
          && (ProvenFrom(e) ==> d == LeaveRecovery(Absent(a, id)))
          && (e.order == Got(None) || e.order.Raised? || e.fills.Raised? || e.position.Raised? ==>
                ProvenFrom(e) || d == InState(WithStatus(a, id, Unknown), SystemState.Recovery)))
  }

  /** What settling the one place call of a row comes to. */
  ghost predicate SettleOutcome(id: Id, reply: Reply<OrderStatus>, r: Await<()>, a: Db, d: Db, rel: seq<Id>, rel': seq<Id>, h: Heard)
    requires id in a.orders
  {
    && ControlStep(a.settings, d.settings)
    && (rel' == rel || rel' == rel + [id])
    && (rel' != rel ==> !a.orders[id].reduceOnly && (reply == Got(Rejected) || HeardAbsent(h, id)))
    && (r.Done? ==>
          && id in d.orders && d.orders == WithStatus(a, id, d.orders[id].status).orders
          && Settles(d.orders[id].status, id, reply, h) && d.orders[id].status !in {PendingSubmission, Submitting}
          && (rel' != rel <==>
                !a.orders[id].reduceOnly && if reply.Got? then reply.value == Rejected else ProvenFrom(h.evidence))
          && d.slot == (if rel' != rel && a.slot == Some(id) then None else a.slot))
  }

  lemma TruthIsPastSending(st: ExState, id: Id, status: OrderStatus)
    requires Truthful(st, id, status)
    ensures status !in {PendingSubmission, Submitting}
  {
  }

  lemma SettledByReconcile(id: Id, r: Await<()>, a: Db, b: Db, d: Db, rel: seq<Id>, rel': seq<Id>, h: Heard)
    requires id in a.orders && b == WithStatus(a, id, Unknown) && h.evidence.id == id
    requires ReconcileOutcome(id, r, b, b, d, rel, rel', h.evidence)
    requires rel' != rel ==> HeardAbsent(h, id)
    ensures SettleOutcome(id, Raised, r, a, d, rel, rel', h)
  {
    hide Concluded, LeaveRecovery, KeepsHeld, HeardAbsent;
  }

  /** Absence: the order query knew nothing, the fills did not mention it, and the side was FLAT. */
  predicate ProvenFrom(e: Evidence) {
    e.order == Got(None) && e.fills.Got? && e.id !in e.fills.value && e.position.Got? && e.position.value.side == Flat
  }

  lemma ConcludedIs(e: Evidence)
    ensures ProvenFrom(e) <==> e.order == Got(None) && Concluded(e) == Rejected
    ensures e.order == Got(None) && !ProvenFrom(e) ==> Concluded(e) == Unknown
    ensures e.order.Raised? || e.fills.Raised? || e.position.Raised? ==> Concluded(e) == Unknown
    ensures e.order.Got? && e.order.value.Some? && e.fills.Got? && e.position.Got? ==> Concluded(e) == e.order.value.value
  {
  }

  /** A signal that is turned away without asking anyone: a CLOSE in RECOVERY, anything while a close is in
      progress, an open against the mirrored side. */
  predicate TurnedAway(signal: SignalType, a: Db) {
    && signal != HoldSignal
    && ((signal == CloseSignal && a.settings.state == SystemState.Recovery) || a.settings.closing ||
        (signal == ShortSignal && a.mirror == Some(Long)) || (signal == LongSignal && a.mirror == Some(Short)))
  }

  function Bare(r: Await<Reply<bool>>): Await<bool> {
    if r.Done? && r.value.Got? then Done(r.value.value) else Crashed
  }

  /** What a signal comes to: HOLD is acknowledged and changes nothing, a signal turned away is refused and
      changes nothing, CLOSE closes, LONG and SHORT open. */
  ghost predicate SignalOutcome(signal: SignalType, r: Await<Reply<bool>>, a: Db, d: Db, p: seq<Placement>, p': seq<Placement>,
                                q: Answers, q': Answers, calls: seq<CancelCall>, seen: seq<PositionView>, h: Heard) {
    if signal == HoldSignal then p' == p && d == a && (r.Done? ==> r.value.Got? && r.value.value)
    else if TurnedAway(signal, a) then p' == p && d == a && (r.Done? ==> r.value.Got? && !r.value.value)
    else if signal == CloseSignal then (r.Done? ==> r.value.Got?) && CloseOutcome(false, Bare(r), a, d, p, p', calls, seen, h)
    else OpenOutcome(signal, r, a, d, p, p', q, q', seen, h)
  }

  lemma SignalCrashed(signal: SignalType, a: Db, p: seq<Placement>, q: Answers, calls: seq<CancelCall>,
                      seen: seq<PositionView>, h: Heard)
    ensures SignalOutcome(signal, Crashed, a, a, p, p, q, q, calls, seen, h)
  {
    CloseGaveUp(false, Crashed, a, a, p, calls, seen, h);
    OpenGaveUp(signal, Crashed, a, a, p, q, q, seen, h);
  }

  /** A start that succeeded: switch and RUNNING, every preflight answered favourably, nothing unresolved,
      nothing live, a known mirror, and when it is FLAT no stale opening row. */
  ghost predicate StartSucceeded(d: Db, asked: Answers, st: ExState) {
    && d.settings.tradingEnabled && d.settings.state == Running && !d.settings.estop
    && PreflightsPassed(asked) && !HasUnresolved(d) && NoLive(st)
    && d.mirror.Some? && d.mirror != Some(UnknownSide)
    && (d.mirror == Some(Flat) ==> forall i :: i in d.orders ==> !Stale(d.orders[i]))
  }

  /** Why a start that was not latched fails. */
  ghost predicate StartHasReason(d: Db, asked: Answers, h: Heard) {
    || HasUnresolved(d) || EndsBadly(asked)
    || h.position.Raised? || h.number.Raised? || h.side == UnknownSide || h.open != Got(false)
  }

  ghost predicate NoPreSend(d: Db) {
    forall i :: i in d.orders ==> d.orders[i].status !in {PendingSubmission, Submitting}
  }

  /** Rows that were resolved stay as they are, and no row appears. */
  ghost predicate ResolvedKept(a: Db, d: Db) {
    d.orders.Keys == a.orders.Keys && forall i :: i in a.orders && !Unresolved(a.orders[i].status) ==> d.orders[i] == a.orders[i]
  }

  lemma SameRowsNoPreSend(d: Db, e: Db)
    requires d.orders == e.orders
    ensures NoPreSend(d) <==> NoPreSend(e)
  {
  }

  lemma ResolvedKeptAfterOne(a: Db, b: Db, d: Db, id: Id)
    requires ResolvedKept(a, b) && id in b.orders && Unresolved(b.orders[id].status)
    requires d.orders.Keys == b.orders.Keys && d.orders == b.orders[id := d.orders[id]]
    ensures ResolvedKept(a, d)
  {
  }

  /** Why `clear_estop` refuses. */
  predicate ClearHasReason(a: Db, asked: Answers, h: Heard) {
    || !RowsAllowClearing(a) || asked != [(Health, Got(true)), (OtherPositions, Got(false))]
    || h.position.Raised? || h.side != Flat || h.open != Got(false)
  }

  /** What an operation comes to, each in its own terms. */
  ghost predicate OperationOutcome(op: Operation, r: Await<Reply<bool>>, a: Db, d: Db, p: seq<Placement>, p': seq<Placement>,
                                   q: Answers, q': Answers, calls: seq<CancelCall>, seen: seq<PositionView>, h: Heard, st: ExState) {
    match op
    case Signal(signal) => SignalOutcome(signal, r, a, d, p, p', q, q', calls, seen, h)
    case CloseAndStop => CloseOutcome(true, Bare(r), a, d, p, p', calls, seen, h)
    case CloseAndContinue => CloseOutcome(false, Bare(r), a, d, p, p', calls, seen, h)
    case Start =>
      p' == p && q <= q' &&
      (r.Done? ==>
         && r.value.Got?
         && (if r.value.value then StartSucceeded(d, q'[|q|..], st)
             else if a.settings.estop then d == a
             else d.settings.state == SystemState.Recovery && StartHasReason(d, q'[|q|..], h)))
    case Stop =>
      p' == p &&
      (r.Done? ==>
         && r.value.Got? && (r.value.value <==> AllAnswered(calls)) && AskedForAll(calls, a, false)
         && !d.settings.tradingEnabled && d.settings.state == (if r.value.value then Stopped else SystemState.Recovery))
    case EmergencyStop =>
      r.Done? ==>
        && r.value.Got? && AskedForAll(calls, a, true)
        && d.settings.estop && !d.settings.tradingEnabled
        && d.settings.state == (if r.value.value then Stopped else SystemState.Recovery)
        && (if r.value.value then h.side == Flat && d.slot == None
            else !AllAnswered(calls) || CloseHasReason(d, h, p', |p|))
    case ClearEstop =>
      p' == p && q <= q' && d.orders == a.orders &&
      (r.Done? ==>
         && r.value.Got?
         && (if r.value.value then
               a.settings.estop && !d.settings.estop && RowsAllowClearing(a) && h.side == Flat && NoLive(st) &&
               q'[|q|..] == [(Health, Got(true)), (OtherPositions, Got(false))]
             else d.settings.estop == a.settings.estop && ClearHasReason(a, q'[|q|..], h)))
    case EnterRecovery => p' == p && (r.Done? ==> d == InState(a, SystemState.Recovery))
    case Restart =>
      p' == p && q <= q' &&
      (r.Done? ==>
         && r.value.Got? && NoPreSend(d)
         && (if r.value.value then StartSucceeded(d, q'[|q|..], st) else d.settings.state in {Stopped, SystemState.Recovery}))
  }

  /** What confirming a close comes to, from rows a and positions seen to rows d. */
  ghost predicate ConfirmOutcome(stopAfter: bool, r: Await<bool>, a: Db, d: Db, seen: seq<PositionView>, h: Heard) {
    && CloseKeeps(a.settings, d.settings)
    && (r.Done? ==> d.orders.Keys == a.orders.Keys)
    && (r == Done(true) ==> ClosedAs(a, d, stopAfter, h) && |h.views| > |seen| + 1 && d.orders == Terminalized(a).orders)
    && (r == Done(false) ==>
          && (h.position.Raised? || h.side != Flat || h.number.Raised?)
          && d.orders == a.orders && d.settings == a.settings.(state := SystemState.Recovery))
  }

  /** The order of this close was refused, and with it the intent to close. */
  predicate Refused(d: Db, p: seq<Placement>, before: nat) {
    |p| == before + 1 && p[before].cloid in d.orders && d.orders[p[before].cloid].status == Rejected
  }

  /** What the order of a close comes to, from the answers h0 it was sent on. */
  ghost predicate ExchangeOutcome(stopAfter: bool, r: Await<bool>, a: Db, d: Db, p: seq<Placement>, p': seq<Placement>,
                                  h0: Heard, h: Heard) {
    && CloseKeeps(a.settings, d.settings)
    && (p' == p || (|p'| == |p| + 1 && p'[..|p|] == p))
    && (p' != p ==> ClosesWhatWasSeen(p'[|p|]) && p'[|p|].heard == h0)
    && (r.Done? ==> |p'| == |p| + 1 && p'[|p|].cloid in d.orders)
    && (r == Done(true) ==>
          && ClosedAs(a, d, stopAfter, h) && |h.views| > |h0.views|
          && d.orders[p'[|p|].cloid].status !in {Unknown, Rejected}
          && forall i :: i in d.orders ==> !Stale(d.orders[i]))
    && (r == Done(false) ==>
          && d.settings.state == SystemState.Recovery && d.settings.tradingEnabled == a.settings.tradingEnabled
          && (d.settings.closing <==> a.settings.closing && !Refused(d, p', |p|))
          && CloseHasReason(d, h, p', |p|))
  }

  /** What a close comes to.  The one order it may send takes off exactly a position answered in this close,
      after every listed opening row was asked to be canceled; success needs FLAT answered, after the order
      when one was sent; failure is RECOVERY and has a reason, and it stays a close in progress unless its
      order was refused. */
  ghost predicate CloseOutcome(stopAfter: bool, r: Await<bool>, a: Db, d: Db, p: seq<Placement>, p': seq<Placement>,
                               calls: seq<CancelCall>, seen: seq<PositionView>, h: Heard) {
    && CloseKeeps(a.settings, d.settings)
    && (p' == p || (|p'| == |p| + 1 && p'[..|p|] == p))
    && (p' != p ==>
          ClosesWhatWasSeen(p'[|p|]) && |p'[|p|].heard.views| > |seen| && AskedForAll(calls, a, false))
    && (r == Done(true) ==> ClosedAs(a, d, stopAfter, h) && |h.views| > |seen|)
    && (r == Done(true) && p' != p ==>
          && |h.views| > |p'[|p|].heard.views|
          && p'[|p|].cloid in d.orders && d.orders[p'[|p|].cloid].status !in {Unknown, Rejected}
          && forall i :: i in d.orders ==> !Stale(d.orders[i]))
    && (r == Done(false) ==>
          && d.settings.state == SystemState.Recovery && d.settings.tradingEnabled == a.settings.tradingEnabled
          && (d.settings.closing <==> !Refused(d, p', |p|))
          && CloseHasReason(d, h, p', |p|))
  }

  /** The settings while a close is in progress. */
  function Closing(d: Db): Db {
    d.(settings := d.settings.(closing := true))
  }

  /** A close that crashed, or failed for what was heard, with nothing sent. */
  lemma CloseGaveUp(stopAfter: bool, r: Await<bool>, a: Db, d: Db, p: seq<Placement>, calls: seq<CancelCall>,
                    seen: seq<PositionView>, h: Heard)
    requires CloseKeeps(a.settings, d.settings) && r != Done(true)
    requires r == Done(false) ==>
               && d.settings.state == SystemState.Recovery && d.settings.tradingEnabled == a.settings.tradingEnabled
               && d.settings.closing && (h.position.Raised? || h.side != Flat)
    ensures CloseOutcome(stopAfter, r, a, d, p, p, calls, seen, h)
  {
  }

  lemma CloseIsTame(stopAfter: bool, r: Await<bool>, a: Db, d: Db, p: seq<Placement>, p': seq<Placement>,
                    calls: seq<CancelCall>, seen: seq<PositionView>, h: Heard)
    requires CloseOutcome(stopAfter, r, a, d, p, p', calls, seen, h)
    ensures CloseKeeps(a.settings, d.settings)
    ensures r == Done(true) ==> ClosedAs(a, d, stopAfter, h)
    ensures r == Done(false) ==>
              && d.settings.state == SystemState.Recovery && d.settings.tradingEnabled == a.settings.tradingEnabled
              && CloseHasReason(d, h, p', |p|)
  {
  }

  lemma CloseWentOn(stopAfter: bool, r: Await<bool>, a: Db, b: Db, d: Db, p: seq<Placement>, p': seq<Placement>,
                    calls: seq<CancelCall>, seen: seq<PositionView>, h0: Heard, h: Heard)
    requires ExchangeOutcome(stopAfter, r, b, d, p, p', h0, h) && CloseKeeps(a.settings, b.settings)
    requires b.settings.tradingEnabled == a.settings.tradingEnabled && b.settings.closing
    requires |h0.views| > |seen| && AskedForAll(calls, a, false)
    ensures CloseOutcome(stopAfter, r, a, d, p, p', calls, seen, h)
  {
    hide ClosesWhatWasSeen, AskedForAll, Stale;
  }

  lemma ConfirmedOnExchange(stopAfter: bool, r: Await<bool>, a: Db, b: Db, d: Db, p: seq<Placement>, p': seq<Placement>,
                            h0: Heard, seen: seq<PositionView>, h: Heard)
    requires ConfirmOutcome(stopAfter, r, b, d, seen, h) && b.settings.tradingEnabled == a.settings.tradingEnabled
    requires b.settings.closing == a.settings.closing
    requires CloseKeeps(a.settings, b.settings) && |h0.views| <= |seen|
    requires |p'| == |p| + 1 && p'[..|p|] == p && ClosesWhatWasSeen(p'[|p|]) && p'[|p|].heard == h0
    requires p'[|p|].cloid in b.orders && b.orders[p'[|p|].cloid].status !in {Unknown, Rejected} && b.orders[p'[|p|].cloid].reduceOnly
    ensures ExchangeOutcome(stopAfter, r, a, d, p, p', h0, h)
  {
    hide ClosesWhatWasSeen;
  }

  lemma NotConfirmed(stopAfter: bool, r: Await<bool>, a: Db, d: Db, seen: seq<PositionView>, h: Heard)
    requires d.orders == a.orders && (d.settings == a.settings || d.settings == a.settings.(state := SystemState.Recovery))
    requires r != Done(true)
    requires r == Done(false) ==>
               d.settings.state == SystemState.Recovery && (h.position.Raised? || h.side != Flat || h.number.Raised?)
    ensures ConfirmOutcome(stopAfter, r, a, d, seen, h)
  {
  }

  lemma RefusedOnExchange(stopAfter: bool, r: Await<bool>, a: Db, d: Db, p: seq<Placement>, p': seq<Placement>, h0: Heard, h: Heard)
    requires |p'| == |p| + 1 && p'[..|p|] == p && ClosesWhatWasSeen(p'[|p|]) && p'[|p|].heard == h0
    requires p'[|p|].cloid in d.orders && d.orders[p'[|p|].cloid].status in {Unknown, Rejected}
    requires CloseKeeps(a.settings, d.settings) && r != Done(true)
    requires r == Done(false) ==>
               && d.settings.state == SystemState.Recovery && d.settings.tradingEnabled == a.settings.tradingEnabled
               && (d.settings.closing <==> a.settings.closing && d.orders[p'[|p|].cloid].status == Unknown)
    ensures ExchangeOutcome(stopAfter, r, a, d, p, p', h0, h)
  {
  }

  lemma AskedEarlier(all: seq<CancelCall>, calls: seq<CancelCall>, d: Db, includeReduceOnly: bool)
    requires calls <= all
    ensures AskedForAll(calls, d, includeReduceOnly) ==> AskedForAll(all, d, includeReduceOnly)
  {
    assert forall i :: Asked(calls, i) ==> Asked(all, i) by {
      forall i | Asked(calls, i)
        ensures Asked(all, i)
      {
        var k :| 0 <= k < |calls| && calls[k].id == i;
        assert all[k].id == i;
      }
    }
  }

  lemma CanceledMeansAsked(calls: seq<CancelCall>, a: Db, before: Db, d: Db, includeReduceOnly: bool)
    requires a.orders == before.orders && Cancelled(before, d, calls, includeReduceOnly)
    ensures AskedForAll(calls, a, includeReduceOnly)
  {
  }

  /** What an open comes to, from rows a, placements p and questions q to rows d, placements p' and q'. */
  ghost predicate OpenOutcome(signal: SignalType, r: Await<Reply<bool>>, a: Db, d: Db, p: seq<Placement>, p': seq<Placement>,
                              q: Answers, q': Answers, seen: seq<PositionView>, h: Heard) {
    && ControlStep(a.settings, d.settings) && KeepsHeld(a, d)
    && (p' == p || (|p'| == |p| + 1 && p'[..|p|] == p))
    && (p' != p ==>
          && a.settings.state == Running && !a.settings.estop && a.slot == None && !HasUnresolved(a)
          && SentFor(p'[|p|], signal)
          && q' == q + [(Health, Got(true)), (IsReady, Got(true)), (OtherPositions, Got(false))]
          && (r.Done? && r.value.Got? ==> AcceptedAs(r.value.value, d, p'[|p|], h)))
    && q <= q'
    && (p' == p && r.Done? ==>
          || (r.value.Raised? && SomeInflight(a))
          || (r.value.Got? && !r.value.value && GuardHasReason(a, d, q, q', seen, h.views))
          || (r.value.Got? && !r.value.value && d.settings.state == SystemState.Recovery && OpenFailed(a, q'[|q|..], h)))
  }

  /** An open that ended in a crash or in RECOVERY before anything was sent. */
  lemma OpenGaveUp(signal: SignalType, r: Await<Reply<bool>>, a: Db, d: Db, p: seq<Placement>, q: Answers, q': Answers,
                   seen: seq<PositionView>, h: Heard)
    requires ControlStep(a.settings, d.settings) && d.orders == a.orders && d.slot == a.slot
    requires q <= q'
    requires r.Done? ==> r == Done(Got(false)) && d.settings.state == SystemState.Recovery && OpenFailed(a, q'[|q|..], h)
    ensures OpenOutcome(signal, r, a, d, p, p, q, q', seen, h)
  {
  }

  /** What the guard and the submission came to, seen from before the snapshot. */
  lemma OpenWentOn(signal: SignalType, r: Await<Reply<bool>>, a: Db, b: Db, d: Db, p: seq<Placement>, p': seq<Placement>,
                   q: Answers, q': Answers, seen: seq<PositionView>, views: seq<PositionView>, h: Heard,
                   side: PositionSide, foreign: bool)
    requires b == a.(mirror := b.mirror) && b.mirror.Some? && Latched(a.settings) && Boundary(a.settings)
    requires q' == q + [(Health, Got(true)), (IsReady, Got(true)), (OtherPositions, Got(foreign))]
    requires |views| > |seen| && views[|seen|].side == side
    requires ControlStep(b.settings, d.settings) && KeepsHeld(b, d)
    requires p' == p || (|p'| == |p| + 1 && p'[..|p|] == p)
    requires p' != p ==> SentFor(p'[|p|], signal) && GuardOn(b, side, foreign) == Allowed
    requires r.Done? && p' == p ==>
                || (r == Done(Raised) && SomeInflight(b))
                || (r.value.Got? && !r.value.value && d == b && h.views == views && GuardOn(b, side, foreign) != Allowed)
                || (r.value.Got? && !r.value.value && d.settings.state == SystemState.Recovery && OpenFailed(b, q'[|q|..], h))
    requires r.Done? && r.value.Got? && p' != p ==> AcceptedAs(r.value.value, d, p'[|p|], h)
    ensures OpenOutcome(signal, r, a, d, p, p', q, q', seen, h)
  {
    hide SomeInflight, GuardOn, GuardHasReason, AcceptedAs, SentFor, HasUnresolved;
    UnresolvedByRows(a, b);
    if SomeInflight(b) { InflightByRows(b, a); }
    if GuardOn(b, side, foreign) == Allowed {
      AllowedMeansUnlocked(b, side, foreign);
    } else {
      RefusedForAReason(a, b, q, q', seen, views, side, foreign);
    }
  }

  /** A successful close: FLAT answered, slot free, intent cleared; stopped and off if that was asked for,
      else the switch as it was. */
  predicate ClosedAs(before: Db, d: Db, stopAfter: bool, h: Heard) {
    && h.side == Flat && d.slot == None && !d.settings.closing
    && (if stopAfter then d.settings.state == Stopped && !d.settings.tradingEnabled
        else d.settings.tradingEnabled == before.settings.tradingEnabled)
  }

  /** Why a close fails: a query raised, the position did not become FLAT, or the order sent (if it was) is
      UNKNOWN or REJECTED. */
  predicate CloseHasReason(d: Db, h: Heard, placed: seq<Placement>, before: nat) {
    || h.position.Raised? || h.side != Flat || h.number.Raised?
    || (|placed| == before + 1 && placed[before].cloid in d.orders && d.orders[placed[before].cloid].status in {Unknown, Rejected})
  }

  /** What a close never does to the control settings, crash or not: latch and switch are not raised, and
      RUNNING keeps implying the switch. */
  predicate CloseKeeps(a: Settings, b: Settings) {
    b.estop == a.estop && (b.tradingEnabled ==> a.tradingEnabled) && (Boundary(a) ==> Boundary(b))
  }

  /** An open that was neither sent nor sent to RECOVERY was refused for a lock: an unresolved row, a held
      slot, a system not RUNNING, a position on another symbol, a side that was not FLAT when asked first,
      or a mirror that is not. */
  predicate GuardHasReason(before: Db, d: Db, asked: Answers, answers: Answers, seen: seq<PositionView>, views: seq<PositionView>) {
    || HasUnresolved(before) || before.slot.Some? || before.settings.state != Running
    || answers == asked + [(Health, Got(true)), (IsReady, Got(true)), (OtherPositions, Got(true))]
    || (|views| > |seen| && views[|seen|].side != Flat)
    || d.mirror != Some(Flat)
  }

  /** The answer to an open: yes exactly when its row then has a confirmed live status; and that status is
      the one its place call settled on. */
  predicate AcceptedAs(accepted: bool, d: Db, p: Placement, h: Heard) {
    && p.cloid in d.orders
    && var row := d.orders[p.cloid];
    && h.place == PlaceCall(p.cloid, row.side, false, row.quantity, h.place.reply)
    && Settles(d.orders[p.cloid].status, p.cloid, h.place.reply, h)
    && (accepted <==> d.orders[p.cloid].status in {Ack, Open, Partial, Filled})
  }

  /** The unique index refuses another opening row. */
  ghost predicate SomeInflight(d: Db) {
    exists i :: InflightOpening(d, i)
  }

  /** The rows after an order was declared absent: REJECTED, and an opening order's own slot free. */
  function Absent(d: Db, id: Id): Db
    requires id in d.orders
  {
    WithStatus(d, id, Rejected).(slot := if d.slot == Some(id) && !d.orders[id].reduceOnly then None else d.slot)
  }

  const TRADING_PAIR := "BTC-USD"

  /** At most one order was sent, and only for an id minted meanwhile: a row that existed before
      (say, one that crashed in PENDING_SUBMISSION) is never sent. */
  predicate AtMostOneAdded(before: seq<Placement>, after: seq<Placement>, minted: Id) {
    after == before ||
    (|after| == |before| + 1 && after[..|before|] == before && minted <= after[|before|].cloid)
  }

  predicate OnlyACloseAdded(before: seq<Placement>, after: seq<Placement>, minted: Id) {
    AtMostOneAdded(before, after, minted) && (after != before ==> after[|before|].reduceOnly)
  }

  predicate OnlyAnOpeningAdded(before: seq<Placement>, after: seq<Placement>, minted: Id) {
    AtMostOneAdded(before, after, minted) && (after != before ==> !after[|before|].reduceOnly)
  }

  /** One cancel request and its reply. */
  datatype CancelCall = CancelCall(id: Id, reply: Reply<Option<OrderStatus>>)

  /** The rows a cancel loop asks the exchange to cancel. */
  predicate Cancelable(o: Order, includeReduceOnly: bool) {
    ListedOpen(o.status) && (includeReduceOnly || !o.reduceOnly)
  }

  predicate Asked(calls: seq<CancelCall>, i: Id) {
    exists k :: 0 <= k < |calls| && calls[k].id == i
  }

  /** Every row a cancel loop is for was asked to be canceled. */
  ghost predicate AskedForAll(calls: seq<CancelCall>, d: Db, includeReduceOnly: bool) {
    forall i :: i in d.orders && Cancelable(d.orders[i], includeReduceOnly) ==> Asked(calls, i)
  }

  predicate AllAnswered(calls: seq<CancelCall>) {
    forall k :: 0 <= k < |calls| ==> calls[k].reply.Got?
  }

  /** A row after its cancel: UNKNOWN when the call raised, the view when there is one, else as before. */
  function AfterCancel(o: Order, reply: Reply<Option<OrderStatus>>): Order {
    if reply.Raised? then o.(status := Unknown)
    else if reply.value.Some? then o.(status := reply.value.value)
    else o
  }

  /** What a finished cancel loop did: exactly the listed rows were asked for, each once, and each holds
      what its reply said; no other row changed. */
  ghost predicate Cancelled(before: Db, d: Db, calls: seq<CancelCall>, includeReduceOnly: bool) {
    && d.orders.Keys == before.orders.Keys
    && (forall i :: Asked(calls, i) <==> i in before.orders && Cancelable(before.orders[i], includeReduceOnly))
    && (forall k, m :: 0 <= k < m < |calls| ==> calls[k].id < calls[m].id)
    && (forall k :: 0 <= k < |calls| ==>
          calls[k].id in before.orders && d.orders[calls[k].id] == AfterCancel(before.orders[calls[k].id], calls[k].reply))
    && (forall i :: i in before.orders && !Asked(calls, i) ==> d.orders[i] == before.orders[i])
  }

  /** Where a cancel loop stands: rows from k on are untouched. */
  ghost predicate CancelLoop(before: Db, d: Db, ids: seq<Id>, k: nat, calls: seq<CancelCall>, includeReduceOnly: bool) {
    && k <= |ids| && d.orders.Keys == before.orders.Keys
    && (forall j, m :: 0 <= j < m < |ids| ==> ids[j] < ids[m])
    && (forall j :: 0 <= j < |ids| ==> ids[j] in before.orders && ListedOpen(before.orders[ids[j]].status))
    && (forall j :: k <= j < |ids| ==> d.orders[ids[j]] == before.orders[ids[j]])
    && (forall m :: 0 <= m < |calls| ==>
          && calls[m].id in before.orders && Cancelable(before.orders[calls[m].id], includeReduceOnly)
          && d.orders[calls[m].id] == AfterCancel(before.orders[calls[m].id], calls[m].reply))
    && (forall m, j :: 0 <= m < |calls| && k <= j < |ids| ==> calls[m].id < ids[j])
    && (forall l, m :: 0 <= l < m < |calls| ==> calls[l].id < calls[m].id)
    && (forall j :: 0 <= j < k && Cancelable(before.orders[ids[j]], includeReduceOnly) ==> Asked(calls, ids[j]))
    && (forall i :: i in before.orders && !Asked(calls, i) ==> d.orders[i] == before.orders[i])
  }

  lemma CancelNext(before: Db, d: Db, ids: seq<Id>, k: nat, calls: seq<CancelCall>, includeReduceOnly: bool)
    requires CancelLoop(before, d, ids, k, calls, includeReduceOnly) && k < |ids|
    ensures ids[k] in before.orders && ids[k] in d.orders && d.orders[ids[k]] == before.orders[ids[k]]
    ensures ListedOpen(d.orders[ids[k]].status)
    ensures Cancelable(d.orders[ids[k]], includeReduceOnly) <==> !(d.orders[ids[k]].reduceOnly && !includeReduceOnly)
  {
  }

  lemma CancelDone(before: Db, d: Db, ids: seq<Id>, calls: seq<CancelCall>, includeReduceOnly: bool)
    requires CancelLoop(before, d, ids, |ids|, calls, includeReduceOnly)
    requires forall i :: i in before.orders && ListedOpen(before.orders[i].status) ==> i in ids
    ensures Cancelled(before, d, calls, includeReduceOnly)
  {
  }

  lemma CancelledKeepsHeld(before: Db, d: Db, calls: seq<CancelCall>, includeReduceOnly: bool)
    requires Cancelled(before, d, calls, includeReduceOnly) && d.slot == before.slot
    ensures KeepsHeld(before, d) && AskedForAll(calls, before, includeReduceOnly)
  {
  }

  lemma CancelSkipped(before: Db, d: Db, ids: seq<Id>, k: nat, calls: seq<CancelCall>, includeReduceOnly: bool)
    requires CancelLoop(before, d, ids, k, calls, includeReduceOnly) && k < |ids|
    requires !Cancelable(before.orders[ids[k]], includeReduceOnly)
    ensures CancelLoop(before, d, ids, k + 1, calls, includeReduceOnly)
  {
  }

  lemma CancelAnswered(before: Db, d: Db, e: Db, ids: seq<Id>, k: nat, calls: seq<CancelCall>, call: CancelCall,
                       includeReduceOnly: bool)
    requires CancelLoop(before, d, ids, k, calls, includeReduceOnly) && k < |ids| && call.id == ids[k]
    requires Cancelable(before.orders[ids[k]], includeReduceOnly)
    requires e.orders == d.orders[ids[k] := AfterCancel(d.orders[ids[k]], call.reply)]
    ensures CancelLoop(before, e, ids, k + 1, calls + [call], includeReduceOnly)
  {
    hide Asked, AfterCancel, Cancelable, ListedOpen;
    AskedNext(calls, call);
  }

  lemma AskedNext(calls: seq<CancelCall>, call: CancelCall)
    ensures forall i :: Asked(calls + [call], i) <==> Asked(calls, i) || i == call.id
  {
    var all := calls + [call];
    assert all[|calls|].id == call.id;
    forall i
      ensures Asked(all, i) <==> Asked(calls, i) || i == call.id
    {
      if Asked(calls, i) {
        var m :| 0 <= m < |calls| && calls[m].id == i;
        assert all[m].id == i;
      }
    }
  }

  lemma NothingAsked()
    ensures AllAnswered([])
  {
  }

  lemma AnsweredNext(calls: seq<CancelCall>, call: CancelCall)
    ensures AllAnswered(calls + [call]) <==> AllAnswered(calls) && call.reply.Got?
  {
    var all := calls + [call];
    assert all[|calls|] == call;
    assert forall k :: 0 <= k < |calls| ==> all[k] == calls[k];
  }

  lemma UnresolvedLasts(d: Db, id: Id, s: OrderStatus)
    requires id in d.orders && !Unresolved(d.orders[id].status) && HasUnresolved(d)
    ensures HasUnresolved(WithStatus(d, id, s))
  {
    var i :| i in d.orders && Unresolved(d.orders[i].status);
    assert Unresolved(WithStatus(d, id, s).orders[i].status);
  }

  /** Calls to the worker that say nothing about orders. */
  datatype Question = Health | ConnectWorker | ConfigureWorker | IsReady | OtherPositions

  type Answers = seq<(Question, Reply<bool>)>

  /** What the worker must have said for a start to succeed. */
  predicate PreflightsPassed(a: Answers) {
    |a| == 5 && WorkerPassed(a[..4]) && a[4] == (OtherPositions, Got(false))
  }

  predicate WorkerPassed(a: Answers) {
    && |a| == 4
    && a[0] == (Health, Got(true))
    && a[1].0 == ConnectWorker && a[1].1.Got?
    && a[2].0 == ConfigureWorker && a[2].1.Got?
    && a[3] == (IsReady, Got(true))
  }

  /** An answer that stops a start. */
  predicate Bad(a: (Question, Reply<bool>)) {
    match a.0
    case Health | IsReady => a.1 != Got(true)
    case ConnectWorker | ConfigureWorker => a.1.Raised?
    case OtherPositions => a.1 != Got(false)
  }

  predicate EndsBadly(asked: Answers) {
    asked != [] && Bad(asked[|asked|-1])
  }

  /** An answer that fails an open: another symbol's position only refuses it. */
  predicate BadForOpen(a: (Question, Reply<bool>)) {
    if a.0 == OtherPositions then a.1.Raised? else Bad(a)
  }

  predicate SomeBadForOpen(asked: Answers) {
    exists k :: 0 <= k < |asked| && BadForOpen(asked[k])
  }

  lemma BadForOpenLasts(before: Answers, middle: Answers, all: Answers)
    requires before <= middle <= all
    ensures SomeBadForOpen(middle[|before|..]) || SomeBadForOpen(all[|middle|..]) ==> SomeBadForOpen(all[|before|..])
  {
    hide BadForOpen;
    var first, second, both := middle[|before|..], all[|middle|..], all[|before|..];
    assert both == first + second;
    if SomeBadForOpen(first) {
      var k :| 0 <= k < |first| && BadForOpen(first[k]);
      assert both[k] == first[k];
    } else if SomeBadForOpen(second) {
      var k :| 0 <= k < |second| && BadForOpen(second[k]);
      assert both[|first| + k] == second[k];
    }
  }

  lemma BadNow(before: Answers, all: Answers)
    requires before <= all && |before| < |all| && BadForOpen(all[|all|-1])
    ensures SomeBadForOpen(all[|before|..])
  {
    var asked := all[|before|..];
    assert BadForOpen(asked[|asked|-1]);
  }

  /** Why `clear_estop` gives up asking and goes to RECOVERY. */
  predicate ClearFailed(asked: Answers, h: Heard) {
    SomeBadForOpen(asked) || h.position.Raised? || h.side == UnknownSide || h.open.Raised?
  }

  /** Why an open that was not sent ended in RECOVERY. */
  predicate OpenFailed(a: Db, asked: Answers, h: Heard) {
    || SomeBadForOpen(asked) || h.position.Raised? || h.open != Got(false) || SizeFailed(a, h)
  }

  predicate SizeFailed(a: Db, h: Heard) {
    || h.number.Raised? || h.number.value <= 0.0
    || Sizing.SizeFromSettings(h.numbers.1, a.settings.positionPercentage, h.numbers.0) == None
  }

  lemma EndsAlike(before: Answers, middle: Answers, all: Answers)
    requires before <= middle <= all
    ensures EndsBadly(all[|middle|..]) ==> EndsBadly(all[|before|..])
  {
  }

  lemma PreflightsTogether(before: Answers, worker: Answers, all: Answers)
    requires before <= worker && WorkerPassed(worker[|before|..]) && all == worker + [(OtherPositions, Got(false))]
    ensures before <= all && PreflightsPassed(all[|before|..])
  {
    assert all[|before|..][..4] == worker[|before|..];
  }

  /** What is left of a reconcile: distinct unresolved rows, among them every pre-send one. */
  ghost predicate ToReconcile(d: Db, ids: seq<Id>) {
    && (forall j :: 0 <= j < |ids| ==> ids[j] in d.orders && Unresolved(d.orders[ids[j]].status))
    && (forall j, k :: 0 <= j < k < |ids| ==> ids[j] < ids[k])
    && (forall i :: i in d.orders && d.orders[i].status in {PendingSubmission, Submitting} ==> i in ids)
  }

  predicate FirstCommitted(before: seq<Db>, after: seq<Db>, d: Db) {
    |after| > |before| && after[..|before|] == before && after[|before|] == d
  }

  predicate AskedFor(es: seq<Evidence>, i: Id) {
    exists k :: 0 <= k < |es| && es[k].id == i
  }

  /** Every unresolved row was asked about. */
  ghost predicate AskedAbout(a: Db, es: seq<Evidence>) {
    forall i :: i in a.orders && Unresolved(a.orders[i].status) ==> AskedFor(es, i)
  }

  /** What a finished reconcile did: it asked about exactly the unresolved rows, and each holds the verdict
      on what was answered. */
  ghost predicate Reconciled(a: Db, d: Db, es: seq<Evidence>) {
    && AskedAbout(a, es)
    && forall k :: 0 <= k < |es| ==>
         && es[k].id in a.orders && Unresolved(a.orders[es[k].id].status)
         && es[k].id in d.orders && d.orders[es[k].id].status == Concluded(es[k])
  }

  /** Where a reconcile stands: rows before k hold their verdicts. */
  ghost predicate ReconciledTo(a: Db, d: Db, ids: seq<Id>, k: nat, es: seq<Evidence>) {
    && k <= |ids| && |es| == k
    && (forall j, m :: 0 <= j < m < |ids| ==> ids[j] < ids[m])
    && (forall j :: 0 <= j < |ids| ==> ids[j] in a.orders && Unresolved(a.orders[ids[j]].status) && ids[j] in d.orders)
    && (forall i :: i in a.orders && Unresolved(a.orders[i].status) ==> i in ids)
    && (forall j :: 0 <= j < k ==> es[j].id == ids[j] && d.orders[ids[j]].status == Concluded(es[j]))
  }

  lemma ReconciledNext(a: Db, d: Db, e: Db, ids: seq<Id>, k: nat, es: seq<Evidence>, last: Evidence)
    requires ReconciledTo(a, d, ids, k, es) && k < |ids| && ids[k] in e.orders
    requires e.orders.Keys == d.orders.Keys && e.orders == d.orders[ids[k] := e.orders[ids[k]]]
    requires last.id == ids[k] && e.orders[ids[k]].status == Concluded(last)
    ensures ReconciledTo(a, e, ids, k + 1, es + [last])
  {
    hide Concluded;
  }

  lemma ReconciledAll(a: Db, d: Db, ids: seq<Id>, es: seq<Evidence>)
    requires ReconciledTo(a, d, ids, |ids|, es)
    ensures Reconciled(a, d, es)
  {
    hide Concluded;
    forall i | i in a.orders && Unresolved(a.orders[i].status)
      ensures AskedFor(es, i)
    {
      var k :| 0 <= k < |ids| && ids[k] == i;
      assert es[k].id == i;
    }
  }

  lemma AskedAboutMore(a: Db, es: seq<Evidence>, all: seq<Evidence>)
    requires AskedAbout(a, es) && es <= all
    ensures AskedAbout(a, all)
  {
    forall i | i in a.orders && Unresolved(a.orders[i].status)
      ensures AskedFor(all, i)
    {
      var k :| 0 <= k < |es| && es[k].id == i;
      assert all[k].id == i;
    }
  }

  /** All that a reconcile keeps on its way from rows a to rows d. */
  ghost predicate ReconcileSoFar(a: Db, d: Db, ids: seq<Id>, k: nat, es: seq<Evidence>) {
    && k <= |ids| && ControlStep(a.settings, d.settings) && KeepsHeld(a, d) && ResolvedKept(a, d)
    && ToReconcile(d, ids[k..]) && ReconciledTo(a, d, ids, k, es)
  }

  lemma ReconcileStarts(a: Db, ids: seq<Id>)
    requires ToReconcile(a, ids) && ReconciledTo(a, a, ids, 0, [])
    ensures ReconcileSoFar(a, a, ids, 0, [])
  {
    hide ToReconcile, ReconciledTo;
    assert ids[0..] == ids;
  }

  lemma NextToReconcile(a: Db, d: Db, ids: seq<Id>, k: nat, es: seq<Evidence>)
    requires ReconcileSoFar(a, d, ids, k, es) && k < |ids|
    ensures ids[k] in d.orders && Unresolved(d.orders[ids[k]].status) && !Terminal(d.orders[ids[k]].status)
  {
    hide ReconciledTo, ResolvedKept;
    assert ids[k..][0] == ids[k];
  }

  lemma OneOnTheWay(a: Db, d: Db, e: Db, ids: seq<Id>, k: nat, es: seq<Evidence>)
    requires ReconcileSoFar(a, d, ids, k, es) && ControlStep(d.settings, e.settings) && KeepsHeld(d, e)
    ensures ControlStep(a.settings, e.settings) && KeepsHeld(a, e)
  {
    hide ReconciledTo, ResolvedKept, ToReconcile, HeldByFinal;
  }

  lemma OneReconciled(a: Db, d: Db, e: Db, ids: seq<Id>, k: nat, es: seq<Evidence>, last: Evidence)
    requires ReconcileSoFar(a, d, ids, k, es) && k < |ids| && ids[k] in e.orders
    requires ControlStep(d.settings, e.settings) && KeepsHeld(d, e)
    requires e.orders.Keys == d.orders.Keys && e.orders == d.orders[ids[k] := e.orders[ids[k]]]
    requires e.orders[ids[k]].status !in {PendingSubmission, Submitting}
    requires last.id == ids[k] && e.orders[ids[k]].status == Concluded(last)
    ensures ReconcileSoFar(a, e, ids, k + 1, es + [last])
  {
    hide HeldByFinal, Concluded, ReconciledTo, ResolvedKept, ToReconcile;
    NextToReconcile(a, d, ids, k, es);
    OneLess(d, e, ids[k..]);
    assert ids[k..][1..] == ids[k+1..];
    ReconciledNext(a, d, e, ids, k, es, last);
    ResolvedKeptAfterOne(a, d, e, ids[k]);
  }

  lemma OneLess(d: Db, e: Db, ids: seq<Id>)
    requires ToReconcile(d, ids) && ids != [] && ids[0] in e.orders
    requires e.orders == d.orders[ids[0] := e.orders[ids[0]]] && e.orders[ids[0]].status !in {PendingSubmission, Submitting}
    ensures ToReconcile(e, ids[1..])
  {
    assert ids == [ids[0]] + ids[1..];
  }

  lemma ReconcileEnds(a: Db, d: Db, ids: seq<Id>, es: seq<Evidence>)
    requires ReconcileSoFar(a, d, ids, |ids|, es)
    ensures ControlStep(a.settings, d.settings) && KeepsHeld(a, d) && ResolvedKept(a, d)
    ensures NoPreSend(d) && Reconciled(a, d, es)
  {
    hide HeldByFinal, ReconciledTo, ResolvedKept, Reconciled;
    assert ids[|ids|..] == [];
    ReconciledAll(a, d, ids, es);
  }

  class TradingController {
    const store: Store
    const exchange: Exchange
    const recovery: RecoveryManager
    ghost var placed: seq<Placement>    // every order sent
    ghost var cancels: seq<CancelCall>  // every cancel requested
    ghost var answers: Answers          // every other answer of the worker

    ghost predicate Core()
      reads this, store, exchange
    {
      && recovery.store == store && recovery.exchange == exchange
      && exchange.Valid()
      && Linked(store.db, store.disk, store.minted, store.released, exchange.st)
      && PlacedOk(placed, store.disk) && AnswersOk(placed, exchange.heard.views) && Lineage(store.trail, store.disk)
      && SlotNamesARow(store.disk)
      && Latched(store.db.settings) && Latched(store.disk.settings)
    }

    /** Holds at every await of every operation, and after a crash at any of them. */
    ghost predicate Safe()
      reads this, store, exchange
    {
      Core() && SlotNamesARow(store.db)
    }

    constructor ()
      ensures Safe() && fresh(store) && fresh(exchange)
      ensures placed == [] && store.db == store.disk && Boundary(store.disk.settings)
    {
      var s := new Store();
      var e := new Exchange();
      store, exchange := s, e;
      recovery := new RecoveryManager(s, e);
      placed, cancels, answers := [], [], [];
    }

    // ------------------------------------------------------------ awaits

    method MayCrash() returns (r: Await<()>)
      requires Core()
      modifies store`db
      ensures Core() && store.db == if r.Crashed? then store.disk else old(store.db)
    {
      hide Linked, PlacedOk, Lineage;
      CrashKeepsLinked(store.db, store.disk, store.minted, store.released, exchange.st);
      r := store.MayCrash();
    }

    method AskWorker(question: Question) returns (r: Await<Reply<bool>>)
      requires Core()
      modifies this`answers, store`db, exchange
      ensures old(answers) <= answers && |answers| <= |old(answers)| + 1
      ensures r.Done? ==> answers == old(answers) + [(question, r.value)]
      ensures Core() && Passes(old(exchange.st), exchange.st) && exchange.heard == old(exchange.heard).(worker := exchange.heard.worker)
      ensures store.db == if r.Crashed? then store.disk else old(store.db)
    {
      hide Linked, PlacedOk, Lineage;
      var answer := exchange.AskWorker();
      answers := answers + [(question, answer)];
      TimeKeepsLinked(store.db, store.disk, store.minted, store.released, old(exchange.st), exchange.st);
      var _ :- MayCrash();
      return Done(answer);
    }

    method AskNumber() returns (r: Await<Reply<real>>)
      requires Core()
      modifies store`db, exchange
      ensures Core() && Passes(old(exchange.st), exchange.st)
      ensures exchange.heard == old(exchange.heard).(number := exchange.heard.number, numbers := exchange.heard.numbers)
      ensures r.Done? ==> exchange.heard.number == r.value
      ensures r.Done? && r.value.Got? ==> exchange.heard.numbers == (old(exchange.heard.numbers).1, r.value.value)
      ensures store.db == if r.Crashed? then store.disk else old(store.db)
    {
      hide Linked, PlacedOk, Lineage;
      var answer := exchange.AskNumber();
      TimeKeepsLinked(store.db, store.disk, store.minted, store.released, old(exchange.st), exchange.st);
      var _ :- MayCrash();
      return Done(answer);
    }

    method AskPosition() returns (r: Await<Reply<PositionView>>)
      requires Core()
      modifies store`db, exchange
      ensures Core() && Passes(old(exchange.st), exchange.st)
      ensures store.db == if r.Crashed? then store.disk else old(store.db)
      ensures old(exchange.heard.views) <= exchange.heard.views
      ensures exchange.heard == old(exchange.heard).(position := exchange.heard.position, side := exchange.heard.side,
                                                     size := exchange.heard.size, views := exchange.heard.views)
      ensures r.Done? ==> exchange.heard.position == r.value
      ensures r.Done? && r.value.Raised? ==> exchange.heard == old(exchange.heard).(position := Raised)
      ensures r.Done? && r.value.Got? ==>
                && exchange.heard.side == r.value.value.side && exchange.heard.size == r.value.value.size
                && exchange.heard.views == old(exchange.heard.views) + [r.value.value]
      ensures r.Done? && r.value.Got? && r.value.value.side != UnknownSide ==>
                r.value.value == PositionView(SideOf(exchange.st.position), Abs(exchange.st.position))
    {
      hide Linked, PlacedOk, Lineage;
      var answer := exchange.GetPosition();
      TimeKeepsLinked(store.db, store.disk, store.minted, store.released, old(exchange.st), exchange.st);
      var _ :- MayCrash();
      return Done(answer);
    }

    method AskOpenOrders() returns (r: Await<Reply<bool>>)
      requires Core()
      modifies store`db, exchange
      ensures Core() && Passes(old(exchange.st), exchange.st) && exchange.heard == old(exchange.heard).(open := exchange.heard.open)
      ensures r.Done? ==> exchange.heard.open == r.value
      ensures store.db == if r.Crashed? then store.disk else old(store.db)
      ensures r == Done(Got(false)) ==> NoLive(exchange.st)
    {
      hide Linked, PlacedOk, Lineage;
      var answer := exchange.HasOpenOrders();
      TimeKeepsLinked(store.db, store.disk, store.minted, store.released, old(exchange.st), exchange.st);
      var _ :- MayCrash();
      return Done(answer);
    }

    method AskOrder(c: Id) returns (r: Await<Reply<Option<OrderStatus>>>)
      requires Core()
      modifies store`db, exchange
      ensures Core() && Passes(old(exchange.st), exchange.st) && exchange.heard == old(exchange.heard).(order := exchange.heard.order)
      ensures store.db == if r.Crashed? then store.disk else old(store.db)
      ensures r.Done? ==> exchange.heard.order == (c, r.value)
      ensures r == Done(Got(None)) ==> !Live(exchange.st, c)
      ensures r.Done? && r.value.Got? && r.value.value.Some? ==> Truthful(exchange.st, c, r.value.value.value)
    {
      hide Linked, PlacedOk, Lineage;
      var answer := exchange.GetOrder(c);
      TimeKeepsLinked(store.db, store.disk, store.minted, store.released, old(exchange.st), exchange.st);
      var _ :- MayCrash();
      return Done(answer);
    }

    method AskFills() returns (r: Await<Reply<map<Id, real>>>)
      requires Core()
      modifies store`db, exchange
      ensures Core() && Passes(old(exchange.st), exchange.st) && exchange.heard == old(exchange.heard).(fills := exchange.heard.fills)
      ensures store.db == if r.Crashed? then store.disk else old(store.db)
      ensures r.Done? ==> exchange.heard.fills == r.value
      ensures r.Done? && r.value.Got? ==> TruthfulFills(exchange.st, r.value.value)
    {
      hide Linked, PlacedOk, Lineage;
      var answer := exchange.GetFills();
      TimeKeepsLinked(store.db, store.disk, store.minted, store.released, old(exchange.st), exchange.st);
      var _ :- MayCrash();
      return Done(answer);
    }

    method CallCancel(c: Id) returns (r: Await<Reply<Option<OrderStatus>>>)
      requires Core()
      modifies this`cancels, store`db, exchange
      ensures |cancels| == |old(cancels)| + 1 && cancels[..|old(cancels)|] == old(cancels) && cancels[|old(cancels)|].id == c
      ensures r.Done? ==> cancels[|old(cancels)|].reply == r.value
      ensures Core() && Passes(old(exchange.st), exchange.st) && exchange.heard == old(exchange.heard).(order := exchange.heard.order)
      ensures store.db == if r.Crashed? then store.disk else old(store.db)
      ensures r.Done? && r.value.Got? && r.value.value.Some? ==> Truthful(exchange.st, c, r.value.value.value)
    {
      hide Linked, PlacedOk, Lineage;
      var answer := exchange.CancelOrder(c);
      cancels := cancels + [CancelCall(c, answer)];
      TimeKeepsLinked(store.db, store.disk, store.minted, store.released, old(exchange.st), exchange.st);
      var _ :- MayCrash();
      return Done(answer);
    }

    ghost function PlacementOf(c: Id): Placement
      reads store, exchange
      requires c in store.db.orders
    {
      Placement(c, store.db.orders[c].reduceOnly, exchange.st, store.disk, exchange.heard)
    }

    /** The one call to place_order.  `placed` records the moment. */
    method CallPlace(c: Id) returns (r: Await<Reply<OrderStatus>>)
      requires Core()
      requires c in store.db.orders && store.db.orders[c].status == Submitting
      requires c in store.disk.orders && store.disk.orders[c] == store.db.orders[c]
      requires c !in exchange.st.orders && c !in store.released
      requires forall k :: 0 <= k < |placed| ==> placed[k].cloid != c
      requires var p := PlacementOf(c);
               if p.reduceOnly then ClosesWhatWasSeen(p) else Clean(exchange.st) && SafeOpening(p) && OpensAsSized(p)
      modifies this`placed, store`db, exchange
      ensures Core()
      ensures placed == old(placed) + [old(PlacementOf(c))]
      ensures exchange.heard == old(exchange.heard).(place := exchange.heard.place)
      ensures r.Done? ==> var row := old(store.db.orders[c]);
                exchange.heard.place == PlaceCall(c, row.side, row.reduceOnly, row.quantity, r.value)
      ensures store.db == if r.Crashed? then store.disk else old(store.db)
      ensures r.Done? && r.value.Got? ==> Truthful(exchange.st, c, r.value.value)
    {
      hide Linked, PlacedOk, Lineage, SinglePosition, NeverFlips, SafeOpening, Passes, Clean, ClosesWhatWasSeen, OpensAsSized;
      var row := store.db.orders[c];
      PlacementKeepsPlaced(placed, store.disk, PlacementOf(c), exchange.heard.views);
      ghost var before := exchange.st;
      placed := placed + [PlacementOf(c)];
      var answer := exchange.Place(c, row.side, row.reduceOnly, row.quantity);
      if Passes(before, exchange.st) {
        TimeKeepsLinked(store.db, store.disk, store.minted, store.released, before, exchange.st);
      } else {
        ghost var q :| Passes(Accept(before, c, row.side, row.reduceOnly, q), exchange.st);
        AcceptKeepsLinked(store.db, store.disk, store.minted, store.released, before, c, q);
        TimeKeepsLinked(store.db, store.disk, store.minted, store.released,
                        Accept(before, c, row.side, row.reduceOnly, q), exchange.st);
      }
      var _ :- MayCrash();
      return Done(answer);
    }

    method Commit() returns (r: Await<()>)
      requires Safe()
      modifies store`db, store`disk, store`trail
      ensures Safe()
      ensures r.Done? ==> store.db == store.disk == old(store.db)
      ensures (store.disk == old(store.disk) && store.trail == old(store.trail)) ||
              (store.disk == old(store.db) && store.trail == old(store.trail) + [store.disk])
      ensures r.Done? ==> store.trail == old(store.trail) + [store.disk]
      ensures r.Crashed? ==> store.db == store.disk &&
                             (store.disk == old(store.disk) || store.disk == old(store.db))
    {
      CommitKeepsLinked(store.db, store.disk, store.minted, store.released, exchange.st, placed, store.trail);
      r := store.Commit();
    }

    method SetState(state: SystemState) returns (r: Await<()>)
      requires Safe()
      modifies store`db, store`disk, store`trail
      ensures Safe()
      ensures old(store.trail) <= store.trail
      ensures r.Done? ==> store.db == store.disk == InState(old(store.db), state)
      ensures r.Crashed? ==> store.db == store.disk &&
                             (store.disk == old(store.disk) || store.disk == InState(old(store.db), state))
    {
      hide PlacedOk, SinglePosition, NeverFlips;
      OtherWriteKeepsLinked(store.db, InState(store.db, state), store.disk, store.minted, store.released, exchange.st);
      CommitKeepsLinked(InState(store.db, state), store.disk, store.minted, store.released, exchange.st, placed, store.trail);
      r := recovery.SetState(state);
    }

    method SetStatus(i: Id, s: OrderStatus)
      requires Core() && i in store.db.orders && StatusStep(store.db.orders[i].status, s)
      requires s == Rejected ==> Harmless(exchange.st, i)
      modifies store`db
      ensures Core() && store.db == WithStatus(old(store.db), i, s)
      ensures SlotNamesARow(old(store.db)) ==> SlotNamesARow(store.db)
    {
      StatusWriteKeepsLinked(store.db, store.disk, store.minted, store.released, exchange.st, i, s);
      store.db := WithStatus(store.db, i, s);
    }

    /** Any write that leaves the order rows alone. */
    method Update(e: Db)
      requires Core() && e.orders == store.db.orders && Latched(e.settings)
      modifies store`db
      ensures Core() && store.db == e
    {
      OtherWriteKeepsLinked(store.db, e, store.disk, store.minted, store.released, exchange.st);
      store.db := e;
    }

    // ------------------------------------------------------------ mirror and recovery helpers

    /** Copies the exchange position into the local row.  False, exactly when a query raised, leaves the
        session untouched. */
    method SyncExchangeMirror() returns (r: Await<bool>)
      requires Safe()
      modifies store`db, store`disk, store`trail, exchange
      ensures Safe() && Passes(old(exchange.st), exchange.st)
      ensures old(store.trail) <= store.trail
      ensures old(exchange.heard.views) <= exchange.heard.views
      ensures exchange.heard == old(exchange.heard).(
                position := exchange.heard.position, side := exchange.heard.side, size := exchange.heard.size,
                views := exchange.heard.views, number := exchange.heard.number, numbers := exchange.heard.numbers)
      ensures r.Done? ==> (r.value <==> exchange.heard.position.Got? && exchange.heard.number.Got?)
      ensures r == Done(true) ==>
                && exchange.heard.position.value.side == exchange.heard.side
                && |exchange.heard.views| == |old(exchange.heard.views)| + 1
                && store.db == store.disk == old(store.db).(mirror := Some(exchange.heard.side))
      ensures r == Done(true) && NoLive(old(exchange.st)) && exchange.heard.side != UnknownSide ==>
                exchange.heard.side == SideOf(exchange.st.position)
      ensures r == Done(true) && NoneFillable(old(exchange.st)) && exchange.heard.side == Flat ==>
                NoneFillable(exchange.st) && exchange.st.position == 0.0
      ensures r == Done(false) ==> store.db == old(store.db) && store.disk == old(store.disk)
      ensures r.Crashed? ==> store.db == store.disk &&
                             (store.disk == old(store.disk) || exists side :: store.disk == old(store.db).(mirror := side))
    {
      hide Linked, PlacedOk, Lineage, SinglePosition, NeverFlips, NoneFillable;
      var view :- AskPosition();
      ghost var middle := exchange.st;
      if view.Raised? { return Done(false); }
      var outcome := AskNumber();
      PassesTransitive(old(exchange.st), middle, exchange.st);
      FlatLasts(old(exchange.st), middle);
      FlatLasts(middle, exchange.st);
      var balance :- outcome;
      if balance.Raised? { return Done(false); }
      Update(store.db.(mirror := Some(view.value.side)));
      var _ :- Commit();
      return Done(true);
    }

    method EnterRecovery() returns (r: Await<()>)
      requires Safe()
      modifies store`db, store`disk, store`trail
      ensures Safe()
      ensures old(store.trail) <= store.trail
      ensures r.Done? ==> store.db == store.disk == InState(old(store.db), SystemState.Recovery)
      ensures r.Crashed? ==> store.db == store.disk &&
                             (store.disk == old(store.disk) || store.disk == InState(old(store.db), SystemState.Recovery))
    {
      r := SetState(SystemState.Recovery);
    }

    /** RECOVERY ends exactly when no row is unresolved and the latch is off, and then follows the switch. */
    method MaybeLeaveRecovery() returns (r: Await<()>)
      requires Safe() && store.db == store.disk
      modifies store`db, store`disk, store`trail
      ensures Safe() && store.db == store.disk
      ensures old(store.trail) <= store.trail
      ensures store.disk in {old(store.disk), LeaveRecovery(old(store.disk))}
      ensures r.Done? ==> store.disk == LeaveRecovery(old(store.disk))
    {
      if HasUnresolved(store.db) {
        return Done(());
      }
      if store.db.settings.state != SystemState.Recovery || store.db.settings.estop {
        return Done(());
      }
      r := SetState(if store.db.settings.tradingEnabled then Running else Stopped);
    }

    // ------------------------------------------------------------ unknown orders

    /** The row stays UNKNOWN and the system goes to RECOVERY. */
    method KeepUnknown(id: Id) returns (r: Await<()>)
      requires Safe() && store.db.settings == store.disk.settings
      requires id in store.db.orders && !Terminal(store.db.orders[id].status)
      modifies store`db, store`disk, store`trail
      ensures Safe() && store.db == store.disk
      ensures old(store.trail) <= store.trail
      ensures ControlStep(old(store.disk.settings), store.disk.settings)
      ensures old(store.db == store.disk) ==> KeepsHeld(old(store.disk), store.disk)
      ensures r.Done? ==> store.db == InState(WithStatus(old(store.db), id, Unknown), SystemState.Recovery)
    {
      hide Linked, PlacedOk, Lineage;
      SetStatus(id, Unknown);
      var _ :- EnterRecovery();
      r := Commit();
    }

    /** The exchange knows the order: its status is adopted and the mirror refreshed; the slot stays. */
    method AdoptView(id: Id, status: OrderStatus) returns (r: Await<()>)
      requires Safe() && store.db.settings == store.disk.settings
      requires id in store.db.orders && !Terminal(store.db.orders[id].status)
      requires Truthful(exchange.st, id, status)
      modifies store`db, store`disk, store`trail, exchange
      ensures Safe() && store.db == store.disk
      ensures old(store.trail) <= store.trail
      ensures old(exchange.heard.views) <= exchange.heard.views
      ensures exchange.heard == old(exchange.heard).(
                position := exchange.heard.position, side := exchange.heard.side, size := exchange.heard.size,
                views := exchange.heard.views, number := exchange.heard.number, numbers := exchange.heard.numbers)
      ensures ControlStep(old(store.disk.settings), store.disk.settings)
      ensures old(store.db == store.disk) ==> KeepsHeld(old(store.disk), store.disk)
      ensures r.Done? ==> store.db.orders == WithStatus(old(store.db), id, status).orders && store.db.slot == old(store.db.slot)
      ensures r.Done? ==>
                store.db == (if exchange.heard.position.Got? && exchange.heard.number.Got?
                             then LeaveRecovery(WithStatus(old(store.db), id, status).(mirror := Some(exchange.heard.side)))
                             else InState(WithStatus(old(store.db), id, status), SystemState.Recovery))
    {
      hide Core, SlotNamesARow, Passes, NoLive, Harmless, HasUnresolved, SideOf, LeaveRecovery;
      SetStatus(id, status);
      var _ :- Commit();
      r := SyncThenMaybeLeave();
    }

    /** A failed mirror read sends the system to RECOVERY; a good one lets it leave. */
    method SyncThenMaybeLeave() returns (r: Await<()>)
      requires Safe() && store.db == store.disk
      modifies store`db, store`disk, store`trail, exchange
      ensures Safe() && store.db == store.disk
      ensures old(store.trail) <= store.trail
      ensures old(exchange.heard.views) <= exchange.heard.views
      ensures exchange.heard == old(exchange.heard).(
                position := exchange.heard.position, side := exchange.heard.side, size := exchange.heard.size,
                views := exchange.heard.views, number := exchange.heard.number, numbers := exchange.heard.numbers)
      ensures ControlStep(old(store.disk.settings), store.disk.settings)
      ensures store.db.orders == old(store.db).orders && store.db.slot == old(store.db).slot
      ensures r.Done? ==>
                store.db == (if exchange.heard.position.Got? && exchange.heard.number.Got?
                             then LeaveRecovery(old(store.db).(mirror := Some(exchange.heard.side)))
                             else InState(old(store.db), SystemState.Recovery))
    {
      hide Core, SlotNamesARow, Passes, NoLive, HasUnresolved, SideOf, NoneFillable;
      var synced :- SyncExchangeMirror();
      if !synced {
        var _ :- EnterRecovery();
        r := Commit();
        return;
      }
      r := MaybeLeaveRecovery();
    }

    /** The row becomes REJECTED and, for an opening order, its slot is freed. */
    method ConfirmAbsent(id: Id) returns (r: Await<()>)
      requires Safe() && store.db.settings == store.disk.settings
      requires id in store.db.orders && id in store.disk.orders && !Terminal(store.db.orders[id].status)
      requires Harmless(exchange.st, id)
      modifies store`db, store`disk, store`trail, store`released
      ensures Safe()
      ensures old(store.trail) <= store.trail
      ensures ControlStep(old(store.disk.settings), store.disk.settings) && store.db == store.disk
      ensures old(store.db == store.disk) ==> KeepsHeld(old(store.disk), store.disk)
      ensures store.released == old(store.released) + if old(store.db).orders[id].reduceOnly then [] else [id]
      ensures r.Done? ==> store.db == LeaveRecovery(Absent(old(store.db), id))
    {
      hide Linked, PlacedOk, Lineage;
      SetStatus(id, Rejected);
      if !store.db.orders[id].reduceOnly {
        ReleaseOwnSlot(id);
      }
      var _ :- Commit();
      r := MaybeLeaveRecovery();
    }

    /** Query-only.  The three answers are recorded as evidence, and the row takes their verdict. */
    method ReconcileUnknown(id: Id) returns (r: Await<()>)
      requires Safe() && store.db.settings == store.disk.settings
      requires id in store.db.orders && id in store.disk.orders && !Terminal(store.db.orders[id].status)
      modifies store`db, store`disk, store`trail, store`released, exchange
      ensures Safe() && store.db == store.disk
      ensures old(store.trail) <= store.trail
      ensures exchange.heard.place == old(exchange.heard.place) && exchange.heard.open == old(exchange.heard.open)
      ensures exchange.heard.worker == old(exchange.heard.worker) && old(exchange.heard.views) <= exchange.heard.views
      ensures old(exchange.heard.verdicts) <= exchange.heard.verdicts
      ensures r.Done? ==>
                var e := exchange.heard.evidence;
                && exchange.heard.verdicts == old(exchange.heard.verdicts) + [e]
                && e.id == id && exchange.heard.order == (id, e.order) && exchange.heard.fills == e.fills
                && (e.position.Got? ==>
                      |exchange.heard.views| > |old(exchange.heard.views)| &&
                      exchange.heard.views[|old(exchange.heard.views)|] == e.position.value)
      ensures store.released != old(store.released) ==>
                && Harmless(exchange.st, id)
                && HeardAbsent(exchange.heard, id) && |exchange.heard.views| > |old(exchange.heard.views)|
      ensures ReconcileOutcome(id, r, old(store.db), old(store.disk), store.disk, old(store.released), store.released,
                               exchange.heard.evidence)
    {
      hide Linked, PlacedOk, Lineage, Passes, TruthfulFills, Truthful, Harmless, SinglePosition, NeverFlips, AnswersOk;
      hide Concluded, Absent, LeaveRecovery;
      var viewed :- AskOrder(id);
      ghost var s1 := exchange.st;
      var fills :- AskFills();
      ghost var s2 := exchange.st;
      var position :- AskPosition();
      ghost var s3 := exchange.st;
      PassesTransitive(s1, s2, s3);
      if viewed.Got? && viewed.value.Some? { TruthLasts(s1, s3, id, viewed.value.value); }
      if viewed == Got(None) && fills.Got? && id !in fills.value { ProvenAbsent(s1, s2, s3, id, fills.value); }
      ghost var evidence := Evidence(id, viewed, fills, position);
      exchange.heard := exchange.heard.(evidence := evidence, verdicts := exchange.heard.verdicts + [evidence]);
      r := Conclude(id, viewed, fills, position);
    }

    /** The verdict and what follows from it. */
    method Conclude(id: Id, viewed: Reply<Option<OrderStatus>>, fills: Reply<map<Id, real>>, position: Reply<PositionView>)
      returns (r: Await<()>)
      requires Safe() && store.db.settings == store.disk.settings
      requires id in store.db.orders && id in store.disk.orders && !Terminal(store.db.orders[id].status)
      requires viewed.Got? && viewed.value.Some? ==> Truthful(exchange.st, id, viewed.value.value)
      requires viewed == Got(None) && fills.Got? && id !in fills.value ==> Harmless(exchange.st, id)
      modifies store`db, store`disk, store`trail, store`released, exchange
      ensures Safe() && store.db == store.disk
      ensures old(store.trail) <= store.trail
      ensures old(exchange.heard.views) <= exchange.heard.views
      ensures exchange.heard == old(exchange.heard).(
                position := exchange.heard.position, side := exchange.heard.side, size := exchange.heard.size,
                views := exchange.heard.views, number := exchange.heard.number, numbers := exchange.heard.numbers)
      ensures store.released != old(store.released) ==> exchange.heard == old(exchange.heard) && Harmless(exchange.st, id)
      ensures ReconcileOutcome(id, r, old(store.db), old(store.disk), store.disk, old(store.released), store.released,
                               Evidence(id, viewed, fills, position))
    {
      hide Core, SlotNamesARow, Passes, Truthful, Harmless, Concluded, LeaveRecovery, ControlStep;
      ConcludedIs(Evidence(id, viewed, fills, position));
      if viewed.Got? && viewed.value.Some? { TruthIsPastSending(exchange.st, id, viewed.value.value); }
      LeaveRecoveryIs(Absent(store.db, id));
      if viewed.Raised? || fills.Raised? || position.Raised? {
        r := KeepUnknown(id);
      } else if viewed.value.Some? {
        r := AdoptView(id, viewed.value.value);
      } else if id in fills.value {
        r := KeepUnknown(id);
      } else if !store.db.orders[id].reduceOnly && position.value.side != Flat {
        r := KeepUnknown(id);
      } else if store.db.orders[id].reduceOnly && position.value.side != Flat {
        r := KeepUnknown(id);
      } else {
        r := ConfirmAbsent(id);
      }
    }

    /** `ReservationRepository.release(order.id)` for an order known to be harmless. */
    method ReleaseOwnSlot(id: Id)
      requires Safe() && id in store.disk.orders && Harmless(exchange.st, id)
      modifies store`db, store`released
      ensures Safe() && store.released == old(store.released) + [id]
      ensures store.db == old(store.db).(slot := if old(store.db).slot == Some(id) then None else old(store.db).slot)
    {
      OtherWriteKeepsLinked(store.db, store.db.(slot := None), store.disk, store.minted, store.released, exchange.st);
      store.ReleaseFor(id);
    }

    // ------------------------------------------------------------ submission

    /** Write-ahead: the intent is committed as PENDING_SUBMISSION, then as SUBMITTING.
        False is the refused insert, which the caller sees as an exception. */
    method PersistIntent(id: Id, order: Order) returns (r: Await<bool>)
      requires Core() && store.db == store.disk.(slot := store.db.slot)
      requires id !in store.db.orders && id < store.minted && order.status == PendingSubmission
      requires if order.reduceOnly then store.db == store.disk else store.db.slot == Some(id)
      modifies store`db, store`disk, store`trail
      ensures Core() && store.disk.settings == old(store.disk.settings)
      ensures r.Crashed? ==>
                && store.db == store.disk
                && (store.disk == old(store.disk) ||
                    exists status :: status in {PendingSubmission, Submitting} &&
                      store.disk == old(store.db).(orders := old(store.db).orders[id := order.(status := status)]))
      ensures r == Done(false) ==> store.disk == old(store.disk) && !order.reduceOnly && SomeInflight(old(store.db))
      ensures r == Done(true) ==>
                && Safe() && store.db == store.disk
                && store.db == old(store.db).(orders := old(store.db).orders[id := order.(status := Submitting)])
                && store.trail == old(store.trail) + [old(store.db).(orders := old(store.db).orders[id := order]), store.db]
    {
      hide Linked, PlacedOk, Lineage, SinglePosition, NeverFlips, Evolves;
      ghost var before := store.db;
      var inserted := store.AddOrder(id, order);
      if !inserted {
        return Done(false);
      }
      InsertKeepsLinked(before, store.disk, store.minted, store.released, exchange.st, id, order);
      var _ :- Commit();
      SetStatus(id, Submitting);
      var _ :- Commit();
      return Done(true);
    }

    /** A MARKET opening order acknowledged as OPEN becomes FILLED once the position proves it. */
    method FinalizeConfirmedMarketOpen(id: Id) returns (r: Await<()>)
      requires Safe() && store.db == store.disk && id in store.db.orders
      modifies store`db, store`disk, store`trail, exchange
      ensures Safe() && store.db == store.disk
      ensures old(store.trail) <= store.trail
      ensures exchange.heard == old(exchange.heard).(
                position := exchange.heard.position, side := exchange.heard.side, size := exchange.heard.size,
                views := exchange.heard.views, fills := exchange.heard.fills)
      ensures r.Done? ==>
                store.db == (if OpenConfirmed(id, old(store.db.orders[id]), exchange.heard)
                             then WithStatus(old(store.db), id, Filled) else old(store.db))
      ensures store.db == old(store.db) ||
              (old(store.db.orders[id].status) == Open && store.db == WithStatus(old(store.db), id, Filled))
      ensures store.db != old(store.db) ==>
                var order := old(store.db.orders[id]);
                && order.market && exchange.heard.side == (if order.side == Buy then Long else Short)
                && (FilledAtLeast(exchange.st, id, order.quantity * 0.99) || exchange.heard.size >= order.quantity * 0.90)
    {
      hide Linked, PlacedOk, Lineage, SinglePosition, NeverFlips, Evolves, Passes;
      var order := store.db.orders[id];
      if !order.market || order.status != Open { return Done(()); }
      var live :- AskPosition();
      if live.Raised? || live.value.side !in {Long, Short} || live.value.size <= 0.0 { return Done(()); }
      if live.value.side != (if order.side == Buy then Long else Short) { return Done(()); }
      var fills :- AskFills();
      if fills.Raised? { return Done(()); }
      var full := if id in fills.value then fills.value[id] >= order.quantity * 0.99
                  else live.value.size >= order.quantity * 0.90;
      if !full { return Done(()); }
      SetStatus(id, Filled);
      r := Commit();
    }

    /** A MARKET close acknowledged as OPEN becomes FILLED once position and fills prove it. */
    method FinalizeConfirmedMarketClose(id: Id) returns (r: Await<()>)
      requires Safe() && store.db == store.disk && id in store.db.orders
      modifies store`db, store`disk, store`trail, exchange
      ensures Safe() && store.db == store.disk
      ensures old(store.trail) <= store.trail
      ensures exchange.heard == old(exchange.heard).(
                position := exchange.heard.position, side := exchange.heard.side, size := exchange.heard.size,
                views := exchange.heard.views, fills := exchange.heard.fills)
      ensures r.Done? ==>
                store.db == (if CloseConfirmed(id, old(store.db.orders[id]), exchange.heard)
                             then WithStatus(old(store.db), id, Filled) else old(store.db))
      ensures store.db == old(store.db) ||
              (old(store.db.orders[id].status) == Open && store.db == WithStatus(old(store.db), id, Filled))
      ensures store.db != old(store.db) ==>
                var order := old(store.db.orders[id]);
                && order.market && exchange.heard.side == Flat
                && (order.quantity > 0.0 ==> FilledAtLeast(exchange.st, id, order.quantity * 0.99))
    {
      hide Linked, PlacedOk, Lineage, SinglePosition, NeverFlips, Evolves, Passes;
      var order := store.db.orders[id];
      if !order.market || order.status != Open { return Done(()); }
      var live :- AskPosition();
      if live.Raised? || live.value.side != Flat || live.value.size > 0.0 { return Done(()); }
      var fills :- AskFills();
      if fills.Raised? { return Done(()); }
      var total := if id in fills.value then fills.value[id] else 0.0;
      if total < order.quantity * 0.99 { return Done(()); }
      SetStatus(id, Filled);
      r := Commit();
    }

    /** Refreshes the mirror after a confirmed reply, and lets it resolve an IOC acknowledgement. */
    method RefreshAfterReply(id: Id) returns (r: Await<()>)
      requires Safe() && store.db.settings == store.disk.settings && id in store.db.orders
      modifies store`db, store`disk, store`trail, exchange
      ensures Safe() && store.db == store.disk
      ensures old(store.trail) <= store.trail
      ensures ControlStep(old(store.disk.settings), store.disk.settings)
      ensures r.Done? ==> store.db.orders.Keys == old(store.db).orders.Keys &&
                          store.db.orders == old(store.db).orders[id := store.db.orders[id]] &&
                          store.db.slot == old(store.db).slot
      ensures exchange.heard.place == old(exchange.heard.place) && exchange.heard.evidence == old(exchange.heard.evidence)
      ensures r.Done? ==>
                && store.db.orders[id] == (if exchange.heard.number.Got? && Confirmed(id, old(store.db.orders[id]), exchange.heard)
                                           then old(store.db.orders[id]).(status := Filled) else old(store.db.orders[id]))
                && (exchange.heard.number.Raised? ==> store.db.settings.state == SystemState.Recovery)
                && (store.db.settings == old(store.db.settings) ||
                    (store.db.settings == old(store.db.settings).(state := SystemState.Recovery) &&
                     (exchange.heard.position.Raised? || exchange.heard.number.Raised?)))
      ensures r.Done? ==> store.db.orders[id] == old(store.db.orders[id]) ||
                          (old(store.db.orders[id].status) == Open &&
                           store.db.orders[id] == old(store.db.orders[id]).(status := Filled))
    {
      hide Linked, PlacedOk, Lineage, SinglePosition, NeverFlips, Evolves, Passes, NoLive;
      var synced :- SyncExchangeMirror();
      if !synced {
        var _ :- EnterRecovery();
        r := Commit();
      } else if store.db.orders[id].market {
        if store.db.orders[id].reduceOnly {
          r := FinalizeConfirmedMarketClose(id);
        } else {
          r := FinalizeConfirmedMarketOpen(id);
        }
      } else {
        r := Done(());
      }
    }

    /** What follows the one place_order call of an intent.  The order's own slot is freed only
        after a REJECTED reply or a proof of absence. */
    method SettleReply(id: Id, reply: Reply<OrderStatus>) returns (r: Await<()>)
      requires Safe() && store.db == store.disk
      requires id in store.db.orders && store.db.orders[id].status == Submitting
      requires reply.Got? ==> Truthful(exchange.st, id, reply.value)
      modifies store`db, store`disk, store`trail, store`released, exchange
      ensures Safe() && store.db == store.disk
      ensures r.Done? ==> FirstCommitted(old(store.trail), store.trail,
                                         WithStatus(old(store.db), id, if reply.Raised? then Unknown else reply.value))
      ensures exchange.heard.place == old(exchange.heard.place)
      ensures SettleOutcome(id, reply, r, old(store.disk), store.disk, old(store.released), store.released, exchange.heard)
    {
      hide Core, SlotNamesARow, Passes, Live, NoLive, HeardAbsent, KeepsHeld, Harmless, Concluded, LeaveRecovery;
      if reply.Raised? {
        ghost var a := store.db;
        SetStatus(id, Unknown);
        var _ :- Commit();
        ghost var b, rel := store.db, store.released;
        r := ReconcileUnknown(id);
        if r.Done? { SettledByReconcile(id, r, a, b, store.disk, rel, store.released, exchange.heard); }
        return;
      }
      SetStatus(id, reply.value);
      var _ :- Commit();
      if store.db.orders[id].status == Rejected && !store.db.orders[id].reduceOnly {
        ReleaseOwnSlot(id);
      }
      r := RefreshAfterReply(id);
    }

    /** The call and its settlement, for a row durable as SUBMITTING. */
    method SendAndSettle(id: Id) returns (r: Await<()>)
      requires Safe() && store.db == store.disk
      requires id in store.db.orders && store.db.orders[id].status == Submitting
      requires id !in exchange.st.orders && id !in store.released
      requires forall k :: 0 <= k < |placed| ==> placed[k].cloid != id
      requires var p := PlacementOf(id);
               if p.reduceOnly then ClosesWhatWasSeen(p) else Clean(exchange.st) && SafeOpening(p) && OpensAsSized(p)
      modifies this`placed, store`db, store`disk, store`trail, store`released, exchange
      ensures Safe() && store.db == store.disk
      ensures placed == old(placed) + [old(PlacementOf(id))]
      ensures r.Done? ==> var row := old(store.db.orders[id]);
                exchange.heard.place == PlaceCall(id, row.side, row.reduceOnly, row.quantity, exchange.heard.place.reply)
      ensures SettleOutcome(id, exchange.heard.place.reply, r, old(store.disk), store.disk, old(store.released), store.released,
                            exchange.heard)
    {
      hide Linked, PlacedOk, Lineage, SinglePosition, NeverFlips, AnswersOk, Passes, Clean, SafeOpening, OpensAsSized, ClosesWhatWasSeen;
      hide Settles, HeardAbsent, ProvenFrom, Concluded, SlotNamesARow, PlacementOf;
      var reply :- CallPlace(id);
      r := SettleReply(id, reply);
    }

    /** One intent, one row, one cloid, one call.  `Raised` is the refused insert. */
    method Submit(id: Id, side: OrderSide, quantity: real, reduceOnly: bool) returns (r: Await<Reply<()>>)
      requires Core() && store.db == store.disk.(slot := store.db.slot)
      requires id !in store.db.orders && id < store.minted
      requires if reduceOnly
               then store.db == store.disk && exchange.heard.side in {Long, Short} &&
                    side == ClosingSide(exchange.heard.side) && quantity == exchange.heard.size
               else store.db.slot == Some(id) && MayOpen(store.db, exchange.st) &&
                    Sizing.SizeFromSettings(exchange.heard.numbers.1, store.db.settings.positionPercentage,
                                            exchange.heard.numbers.0) == Some(quantity)
      modifies this`placed, store`db, store`disk, store`trail, store`released, exchange
      ensures Core() && (r == Done(Raised) || (Safe() && store.db == store.disk))
      ensures ControlStep(old(store.disk.settings), store.disk.settings)
      ensures r == Done(Raised) ==>
                store.disk == old(store.disk) && placed == old(placed) && !reduceOnly && SomeInflight(old(store.db))
      ensures placed == old(placed) ||
              (|placed| == |old(placed)| + 1 && placed[..|old(placed)|] == old(placed) &&
               placed[|old(placed)|].cloid == id && placed[|old(placed)|].reduceOnly == reduceOnly &&
               Sent(placed[|old(placed)|], side, quantity) &&
               (reduceOnly ==> ClosesWhatWasSeen(placed[|old(placed)|])) &&
               placed[|old(placed)|].heard == old(exchange.heard) &&
               placed[|old(placed)|].disk.settings == old(store.db.settings))
      ensures r.Done? && r.value.Got? ==>
                && |placed| == |old(placed)| + 1
                && id in store.db.orders
                && store.db.orders.Keys == old(store.db).orders.Keys + {id}
                && store.db.orders == old(store.db).orders[id := store.db.orders[id]]
                && store.db.orders[id] == Order(side, reduceOnly, quantity, old(store.db.settings.market), store.db.orders[id].status)
                && store.db.orders[id].status !in {PendingSubmission, Submitting}
                && exchange.heard.place == PlaceCall(id, side, reduceOnly, quantity, exchange.heard.place.reply)
                && Settles(store.db.orders[id].status, id, exchange.heard.place.reply, exchange.heard)
      ensures store.released == old(store.released) || store.released == old(store.released) + [id]
      ensures r.Done? && r.value.Got? ==>
                store.db.slot == (if store.released != old(store.released) && old(store.db).slot == Some(id) then None
                                  else old(store.db).slot)
      ensures reduceOnly ==> store.released == old(store.released)
    {
      hide Linked, PlacedOk, Lineage, SinglePosition, NeverFlips, Evolves, Passes, Clean, HasUnresolved, SlotNamesARow, IndexOk, Harmless, NoLive, Latched, HeardAbsent, AnswersOk, Settles, Concluded, ProvenFrom, Sent, SomeInflight, MayOpen, OpensAsSized, ClosesWhatWasSeen, SafeOpening, Sizing.SizeFromSettings;
      ghost var before := store.db;
      var order := Order(side, reduceOnly, quantity, store.db.settings.market, PendingSubmission);
      FreshIdIsUnused(store.db, store.disk, store.minted, store.released, exchange.st, placed, id);
      var persisted :- PersistIntent(id, order);
      if !persisted {
        return Done(Raised);
      }
      PlacementIsAsAsked(before, id, order.(status := Submitting), exchange.st, exchange.heard);
      var _ :- SendAndSettle(id);
      return Done(Got(()));
    }

    method Mint() returns (id: Id)
      requires Core()
      modifies store`minted
      ensures Core() && id !in store.db.orders && id == old(store.minted) && id < store.minted
    {
      hide PlacedOk, Lineage, SinglePosition, NeverFlips;
      MintKeepsLinked(store.db, store.disk, store.minted, store.released, exchange.st);
      id := store.NewId();
    }

    /** RECOVERY, committed; the operation then reports failure. */
    method Fail() returns (r: Await<()>)
      requires Safe() && store.db.settings == store.disk.settings
      modifies store`db, store`disk, store`trail
      ensures Safe() && store.db == store.disk
      ensures ControlStep(old(store.disk.settings), store.disk.settings)
      ensures store.disk == old(store.disk) || store.disk == InState(old(store.db), SystemState.Recovery)
      ensures r.Done? ==> store.db == InState(old(store.db), SystemState.Recovery)
    {
      hide Linked, PlacedOk, Lineage, SinglePosition, NeverFlips;
      var _ :- EnterRecovery();
      r := Commit();
    }

    // ------------------------------------------------------------ opening

    method SizeFromSettings() returns (r: Await<Reply<real>>)
      requires Core()
      modifies store`db, exchange
      ensures Core() && Passes(old(exchange.st), exchange.st)
      ensures store.db == if r.Crashed? then store.disk else old(store.db)
      ensures r.Done? && r.value.Got? ==>
                && r.value.value > 0.0
                && Sizing.SizeFromSettings(exchange.heard.numbers.1, old(store.db.settings.positionPercentage),
                                           exchange.heard.numbers.0) == Some(r.value.value)
      ensures r == Done(Raised) ==>
                || exchange.heard.number.Raised? || exchange.heard.number.value <= 0.0
                || Sizing.SizeFromSettings(exchange.heard.numbers.1, old(store.db.settings.positionPercentage),
                                           exchange.heard.numbers.0) == None
    {
      hide Linked, PlacedOk, Lineage, SinglePosition, NeverFlips;
      var percentage := store.db.settings.positionPercentage;
      var mid :- AskNumber();
      ghost var middle := exchange.st;
      if mid.Raised? || mid.value <= 0.0 { return Done(Raised); }
      var equity :- AskNumber();
      PassesTransitive(old(exchange.st), middle, exchange.st);
      if equity.Raised? { return Done(Raised); }
      var size := Sizing.SizeFromSettings(equity.value, percentage, mid.value);
      return Done(if size.Some? then Got(size.value) else Raised);
    }

    function LocalSide(d: Db): PositionSide {
      if d.mirror.None? then UnknownSide else d.mirror.value
    }

    /** The exchange snapshot behind an open: position, other positions, open orders, mirror, in that
        order.  `Some(side, foreign)` exactly if every query answered and no order was open; then nothing
        can move any more, and a FLAT mirror read last means the exchange is clean. */
    method SnapshotForOpen() returns (r: Await<Option<(PositionSide, bool)>>)
      requires Safe() && store.db == store.disk
      modifies this`answers, store`db, store`disk, store`trail, exchange
      ensures Safe() && store.db == store.disk
      ensures store.db == old(store.db).(mirror := store.db.mirror)
      ensures exchange.heard.place == old(exchange.heard.place)
      ensures r.Done? && r.value.Some? ==>
                && NoLive(exchange.st) && (LocalSide(store.db) == Flat ==> Clean(exchange.st))
                && answers == old(answers) + [(OtherPositions, Got(r.value.value.1))]
                && |exchange.heard.views| == |old(exchange.heard.views)| + 2
                && r.value.value.0 == exchange.heard.views[|old(exchange.heard.views)|].side
                && store.db.mirror == Some(exchange.heard.side)
      ensures old(answers) <= answers
      ensures r == Done(None) ==>
                exchange.heard.position.Raised? || exchange.heard.number.Raised? || exchange.heard.open != Got(false) ||
                SomeBadForOpen(answers[|old(answers)|..])
    {
      hide SomeBadForOpen, Linked, PlacedOk, Lineage, SinglePosition, NeverFlips, NoneFillable;
      var view :- AskPosition();
      if view.Raised? { return Done(None); }
      var others :- AskWorker(OtherPositions);
      if others.Raised? { BadNow(old(answers), answers); }
      if others.Raised? { return Done(None); }
      var open :- AskOpenOrders();
      if open != Got(false) { return Done(None); }
      var synced :- SyncExchangeMirror();
      if !synced { return Done(None); }
      return Done(Some((view.value.side, others.value)));
    }

    /** Reserve the slot, then submit; the guard has just passed. */
    method ReserveAndSubmit(side: OrderSide, quantity: real) returns (r: Await<Reply<bool>>)
      requires Safe() && store.db == store.disk && MayOpen(store.db, exchange.st)
      requires Sizing.SizeFromSettings(exchange.heard.numbers.1, store.db.settings.positionPercentage,
                                       exchange.heard.numbers.0) == Some(quantity)
      modifies this`placed, store, exchange
      ensures Safe() && store.db == store.disk
      ensures ControlStep(old(store.disk.settings), store.disk.settings)
      ensures OnlyAnOpeningAdded(old(placed), placed, old(store.minted)) && old(store.minted) <= store.minted
      ensures r == Done(Raised) ==> placed == old(placed) && SomeInflight(old(store.db))
      ensures r.Done? && r.value.Got? && placed == old(placed) ==> !r.value.value && old(store.db.slot).Some?
      ensures r.Done? && r.value.Got? && placed != old(placed) ==> AcceptedAs(r.value.value, store.db, placed[|old(placed)|], exchange.heard)
      ensures placed != old(placed) ==>
                && Sent(placed[|old(placed)|], side, quantity)
                && placed[|old(placed)|].heard == old(exchange.heard)
                && placed[|old(placed)|].disk.settings == old(store.db.settings)
    {
      hide Linked, PlacedOk, Lineage, SinglePosition, NeverFlips, Evolves, Passes, Clean, SomeInflight, Settles, Concluded;
      ghost var before := store.db;
      var id := Mint();
      OtherWriteKeepsLinked(store.db, store.db.(slot := Some(id)), store.disk, store.minted, store.released, exchange.st);
      var reserved := store.TryAcquire(id);
      if !reserved {
        var _ :- Commit();
        return Done(Got(false));
      }
      var submitted :- Submit(id, side, quantity, false);
      if submitted.Raised? {
        InflightByRows(before.(slot := Some(id)), before);
        // the exception leaves the request's session, which drops the reservation with the insert
        CrashKeepsLinked(store.db, store.disk, store.minted, store.released, exchange.st);
        store.Rollback();
        return Done(Raised);
      }
      var accepted := ConfirmedLive(store.db.orders[id].status);
      var _ :- Commit();
      return Done(Got(accepted));
    }

    /** health, and if reachable is_ready; None when a call raised or the worker is unreachable. */
    method WorkerForOpen() returns (r: Await<Option<bool>>)
      requires Safe() && store.db == store.disk
      modifies this`answers, store`db, exchange
      ensures Safe() && store.db == store.disk
      ensures exchange.heard.views == old(exchange.heard.views)
      ensures r.Done? && r.value.Some? ==> answers == old(answers) + [(Health, Got(true)), (IsReady, Got(r.value.value))]
      ensures old(answers) <= answers
      ensures r == Done(None) || r == Done(Some(false)) ==> SomeBadForOpen(answers[|old(answers)|..])
    {
      hide SomeBadForOpen, Linked, PlacedOk, Lineage, SinglePosition, NeverFlips, Evolves, Passes;
      var reachable :- AskWorker(Health);
      if reachable != Got(true) { BadNow(old(answers), answers); }
      if reachable.Raised? { return Done(None); }
      if !reachable.value { return Done(None); }
      var ready :- AskWorker(IsReady);
      if ready != Got(true) { BadNow(old(answers), answers); }
      return Done(if ready.Raised? then None else Some(ready.value));
    }

    method OpenPosition(signal: SignalType) returns (r: Await<Reply<bool>>)
      requires Safe() && store.db == store.disk
      requires Boundary(store.db.settings) && !store.db.settings.closing
      modifies this`placed, this`answers, store, exchange
      ensures Safe() && store.db == store.disk
      ensures OnlyAnOpeningAdded(old(placed), placed, old(store.minted)) && old(store.minted) <= store.minted
      ensures OpenOutcome(signal, r, old(store.disk), store.disk, old(placed), placed, old(answers), answers,
                          old(exchange.heard.views), exchange.heard)
    {
      hide Linked, PlacedOk, Lineage, SinglePosition, NeverFlips, AnswersOk, Evolves, Passes, SlotNamesARow, Clean;
      hide SomeBadForOpen, OpenOutcome, SentFor, SomeInflight, AcceptedAs, GuardOn, HasUnresolved;
      ghost var a, p, q, seen := store.db, placed, answers, exchange.heard.views;
      var asked := WorkerForOpen();
      if asked.Crashed? { OpenGaveUp(signal, Crashed, a, store.disk, p, q, answers, seen, exchange.heard); }
      var ready :- asked;
      ghost var worker := answers;
      if ready.None? {
        r := FailOpen(signal, a, p, q, seen);
        return;
      }
      var taken := SnapshotForOpen();
      if taken.Crashed? { OpenGaveUp(signal, Crashed, a, store.disk, p, q, answers, seen, exchange.heard); }
      var snapshot :- taken;
      BadForOpenLasts(q, worker, answers);
      if snapshot.None? || !ready.value {
        r := FailOpen(signal, a, p, q, seen);
        return;
      }
      ghost var b, views := store.db, exchange.heard.views;
      r := GuardAndSubmit(signal, snapshot.value.0, snapshot.value.1);
      OpenWentOn(signal, r, a, b, store.disk, p, placed, q, answers, seen, views, exchange.heard,
                 snapshot.value.0, snapshot.value.1);
    }

    /** RECOVERY, and the refusal of an open that began at rows a. */
    method FailOpen(signal: SignalType, ghost a: Db, ghost p: seq<Placement>, ghost q: Answers, ghost seen: seq<PositionView>)
      returns (r: Await<Reply<bool>>)
      requires Safe() && store.db == store.disk && store.db == a.(mirror := store.db.mirror) && placed == p
      requires q <= answers && OpenFailed(a, answers[|q|..], exchange.heard)
      modifies store`db, store`disk, store`trail
      ensures Safe() && store.db == store.disk
      ensures OpenOutcome(signal, r, a, store.disk, p, placed, q, answers, seen, exchange.heard)
    {
      hide Core, SlotNamesARow, OpenOutcome, OpenFailed;
      var failed := Fail();
      r := if failed.Crashed? then Crashed else Done(Got(false));
      OpenGaveUp(signal, r, a, store.disk, p, q, answers, seen, exchange.heard);
    }

    /** The guard on what is known, then the order. */
    method GuardAndSubmit(signal: SignalType, side: PositionSide, foreign: bool) returns (r: Await<Reply<bool>>)
      requires Safe() && store.db == store.disk
      requires Boundary(store.db.settings) && !store.db.settings.closing
      requires NoLive(exchange.st) && (LocalSide(store.db) == Flat ==> Clean(exchange.st))
      modifies this`placed, store, exchange
      ensures Safe() && store.db == store.disk
      ensures ControlStep(old(store.disk.settings), store.disk.settings)
      ensures KeepsHeld(old(store.disk), store.disk)
      ensures OnlyAnOpeningAdded(old(placed), placed, old(store.minted)) && old(store.minted) <= store.minted
      ensures placed != old(placed) ==>
                SentFor(placed[|old(placed)|], signal) && GuardOn(old(store.db), side, foreign) == Allowed
      ensures r.Done? && placed == old(placed) ==>
                || (r == Done(Raised) && SomeInflight(old(store.db)))
                || (r.value.Got? && !r.value.value && store.db == old(store.db) && exchange.heard == old(exchange.heard) &&
                    GuardOn(old(store.db), side, foreign) != Allowed)
                || (r.value.Got? && !r.value.value && store.disk.settings.state == SystemState.Recovery &&
                    SizeFailed(old(store.db), exchange.heard))
      ensures r.Done? && r.value.Got? && placed != old(placed) ==> AcceptedAs(r.value.value, store.db, placed[|old(placed)|], exchange.heard)
    {
      hide Linked, PlacedOk, Lineage, SinglePosition, NeverFlips, Evolves, Passes, SlotNamesARow, Clean, SentFor, SomeInflight, AcceptedAs, AnswersOk;
      var guard := CanOpenPosition(GuardInput(
        LocalSide(store.db), side, HasUnresolved(store.db), store.db.settings.state,
        TRADING_PAIR, TRADING_PAIR, true, foreign, store.db.slot.Some?));
      if guard != Allowed {
        var _ :- Commit();
        return Done(Got(false));
      }
      assert MayOpen(store.db, exchange.st);
      r := SizeAndSubmit(signal);
    }

    /** The guard has passed: size the order, reserve, submit. */
    method SizeAndSubmit(signal: SignalType) returns (r: Await<Reply<bool>>)
      requires Safe() && store.db == store.disk && MayOpen(store.db, exchange.st)
      modifies this`placed, store, exchange
      ensures Safe() && store.db == store.disk
      ensures ControlStep(old(store.disk.settings), store.disk.settings)
      ensures OnlyAnOpeningAdded(old(placed), placed, old(store.minted)) && old(store.minted) <= store.minted
      ensures placed != old(placed) ==> SentFor(placed[|old(placed)|], signal)
      ensures r.Done? && placed == old(placed) ==>
                || (r == Done(Raised) && SomeInflight(old(store.db)))
                || (r.value.Got? && !r.value.value && (old(store.db.slot).Some? ||
                     (store.disk.settings.state == SystemState.Recovery && SizeFailed(old(store.db), exchange.heard))))
      ensures r.Done? && r.value.Got? && placed != old(placed) ==> AcceptedAs(r.value.value, store.db, placed[|old(placed)|], exchange.heard)
    {
      hide Linked, PlacedOk, Lineage, SinglePosition, NeverFlips, Evolves, Passes, SlotNamesARow, Clean, HasUnresolved, SomeInflight, AcceptedAs;
      ghost var st := exchange.st;
      var quantity :- SizeFromSettings();
      CleanLasts(st, exchange.st);
      if quantity.Raised? {
        var _ :- Fail();
        return Done(Got(false));
      }
      r := ReserveAndSubmit(if signal == LongSignal then Buy else Sell, quantity.value);
    }

    // ------------------------------------------------------------ cancels and stale rows

    /** Cancels the listed OPEN/PARTIAL rows; false exactly when some cancel call raised. */
    method CancelListedOrders(includeReduceOnly: bool) returns (r: Await<bool>)
      requires Safe()
      modifies this`cancels, store`db, store`disk, store`trail, exchange
      ensures Safe() && (r.Done? || store.db == store.disk)
      ensures exchange.heard == old(exchange.heard).(order := exchange.heard.order)
      ensures old(cancels) <= cancels
      ensures r.Done? ==>
                && store.db == store.disk && store.db == old(store.db).(orders := store.db.orders)
                && Cancelled(old(store.db), store.db, cancels[|old(cancels)|..], includeReduceOnly)
                && (r.value <==> AllAnswered(cancels[|old(cancels)|..]))
      ensures r == Done(false) ==> HasUnresolved(store.db)
      ensures (store.disk == old(store.disk) && store.trail == old(store.trail)) ||
              (store.disk.settings == old(store.db.settings) && store.trail == old(store.trail) + [store.disk])
      ensures r.Done? ==> store.trail == old(store.trail) + [store.disk]
      ensures store.trail != old(store.trail) ==>
                && KeepsHeld(old(store.db), store.disk)
                && AskedForAll(cancels[|old(cancels)|..], old(store.db), includeReduceOnly)
    {
      hide Core, SlotNamesARow, KeepsHeld, CancelLoop, Cancelable, Passes, Truthful, AskedForAll, Cancelled, AllAnswered;
      var ids := ListOpen(includeReduceOnly);
      var canceled := true;
      ghost var before := store.db;
      ghost var calls: seq<CancelCall> := [];
      NothingAsked();
      for k := 0 to |ids|
        invariant Safe() && store.disk == old(store.disk) && store.trail == old(store.trail)
        invariant store.db == before.(orders := store.db.orders)
        invariant exchange.heard == old(exchange.heard).(order := exchange.heard.order)
        invariant cancels == old(cancels) + calls
        invariant CancelLoop(before, store.db, ids, k, calls, includeReduceOnly)
        invariant canceled <==> AllAnswered(calls)
        invariant canceled || HasUnresolved(store.db)
      {
        CancelNext(before, store.db, ids, k, calls, includeReduceOnly);
        if store.db.orders[ids[k]].reduceOnly && !includeReduceOnly {
          CancelSkipped(before, store.db, ids, k, calls, includeReduceOnly);
          continue;
        }
        ghost var d := store.db;
        var confirmed :- CancelOne(ids[k]);
        ghost var call := cancels[|cancels|-1];
        CancelAnswered(before, d, store.db, ids, k, calls, call, includeReduceOnly);
        AnsweredNext(calls, call);
        calls := calls + [call];
        canceled := canceled && confirmed;
      }
      assert cancels[|old(cancels)|..] == calls;
      CancelDone(before, store.db, ids, calls, includeReduceOnly);
      CancelledKeepsHeld(before, store.db, calls, includeReduceOnly);
      var _ :- Commit();
      return Done(canceled);
    }

    method ListOpen(ghost includeReduceOnly: bool) returns (ids: seq<Id>)
      requires Core()
      ensures CancelLoop(store.db, store.db, ids, 0, [], includeReduceOnly)
      ensures forall i :: i in store.db.orders && ListedOpen(store.db.orders[i].status) ==> i in ids
    {
      AllMinted();
      hide Core;
      ids := Select(store.db, store.minted, (o: Order) => ListedOpen(o.status));
    }

    /** One cancel request: the row takes what the reply says. */
    method CancelOne(id: Id) returns (r: Await<bool>)
      requires Safe() && id in store.db.orders && ListedOpen(store.db.orders[id].status)
      modifies this`cancels, store`db, exchange
      ensures Safe() && Passes(old(exchange.st), exchange.st)
      ensures exchange.heard == old(exchange.heard).(order := exchange.heard.order)
      ensures |cancels| == |old(cancels)| + 1 && cancels[..|old(cancels)|] == old(cancels)
      ensures r.Crashed? ==> store.db == store.disk
      ensures r.Done? ==>
                var call := cancels[|old(cancels)|];
                && call.id == id && (r.value <==> call.reply.Got?)
                && store.db == old(store.db).(orders := old(store.db).orders[id := AfterCancel(old(store.db).orders[id], call.reply)])
                && (HasUnresolved(old(store.db)) ==> HasUnresolved(store.db))
      ensures r == Done(false) ==> HasUnresolved(store.db)
    {
      hide Linked, PlacedOk, Lineage, SinglePosition, NeverFlips, Passes;
      ghost var d := store.db;
      var viewed :- CallCancel(id);
      if viewed.Raised? {
        SetStatus(id, Unknown);
        assert Unresolved(store.db.orders[id].status);
        return Done(false);
      }
      if viewed.value.Some? {
        SetStatus(id, viewed.value.value);
        if HasUnresolved(d) { UnresolvedLasts(d, id, viewed.value.value); }
      } else {
        assert store.db.orders == store.db.orders[id := store.db.orders[id]];
      }
      return Done(true);
    }

    /** The loop of `_terminalize_stale_openings_after_flat`; flushed, not committed. */
    method CancelRows(ids: seq<Id>)
      requires Safe()
      requires forall j :: 0 <= j < |ids| ==> ids[j] in store.db.orders && !Terminal(store.db.orders[ids[j]].status)
      requires forall j, k :: 0 <= j < k < |ids| ==> ids[j] < ids[k]
      modifies store`db
      ensures Safe() && store.db == CancelEach(old(store.db), ids)
    {
      hide Linked, PlacedOk, Lineage, SinglePosition, NeverFlips, Evolves;
      ghost var before := store.db;
      for k := 0 to |ids|
        invariant Safe()
        invariant store.db == CancelEach(before, ids[..k])
        invariant forall j :: k <= j < |ids| ==> store.db.orders[ids[j]] == before.orders[ids[j]]
      {
        assert ids[..k+1][..k] == ids[..k];
        SetStatus(ids[k], Canceled);
      }
      assert ids[..|ids|] == ids;
    }

    /** Every ACK/OPEN/PARTIAL opening row becomes CANCELED. */
    method TerminalizeStaleOpenings() returns (r: Await<()>)
      requires Safe() && store.db == store.disk
      modifies store`db, store`disk, store`trail
      ensures Safe() && store.db == store.disk
      ensures r.Done? ==> store.db == Terminalized(old(store.db))
      ensures CancelsTruthfully(old(store.db), exchange.st) <==> !StaleIsLive(old(store.db), exchange.st)
      ensures r.Crashed? ==> store.db == old(store.db) || store.db == Terminalized(old(store.db))
    {
      hide Linked, PlacedOk, Lineage, SinglePosition, NeverFlips, Evolves, CancelsTruthfully, StaleIsLive, Live;
      AllMinted();
      var stale := Select(store.db, store.minted, Stale);
      TerminalizedTruthfullyIff(store.db, exchange.st);
      CancelEachStaleTerminalizes(store.db, store.minted);
      CancelRows(stale);
      if |stale| > 0 {
        r := Commit();
      } else {
        r := Done(());
      }
    }

    lemma AllMinted()
      requires Core()
      ensures forall i :: i in store.db.orders ==> i < store.minted
    {
    }

    // ------------------------------------------------------------ closing

    function Finished(s: Settings, stopAfter: bool): Settings {
      if stopAfter then s.(closing := false, tradingEnabled := false, state := Stopped) else s.(closing := false)
    }

    /** Ends a close that observed FLAT: intent cleared, slot freed, and on request the system stopped,
        all in one commit. */
    method FinishClose(stopAfter: bool) returns (r: Await<()>)
      requires Safe() && store.db == store.disk
      modifies store`db, store`disk, store`trail
      ensures Safe() && store.db == store.disk
      ensures store.disk == old(store.disk) ||
              store.disk == old(store.disk).(settings := Finished(old(store.disk).settings, stopAfter), slot := None)
      ensures r.Done? ==>
                store.disk == old(store.disk).(settings := Finished(old(store.disk).settings, stopAfter), slot := None)
    {
      hide Linked, PlacedOk, Lineage, SinglePosition, NeverFlips, Evolves;
      Update(store.db.(settings := store.db.settings.(closing := false)));
      OtherWriteKeepsLinked(store.db, store.db.(slot := None), store.disk, store.minted, store.released, exchange.st);
      store.Release();
      if stopAfter {
        Update(store.db.(settings := store.db.settings.(tradingEnabled := false)));
        var _ :- SetState(Stopped);
      }
      r := Commit();
    }

    /** `_close_position`. */
    method ClosePosition(stopAfter: bool) returns (r: Await<bool>)
      requires Safe() && store.db == store.disk
      modifies this`placed, this`cancels, store, exchange
      ensures Safe() && store.db == store.disk
      ensures store.released == old(store.released) && old(cancels) <= cancels
      ensures OnlyACloseAdded(old(placed), placed, old(store.minted)) && old(store.minted) <= store.minted
      ensures CloseOutcome(stopAfter, r, old(store.disk), store.disk, old(placed), placed, cancels[|old(cancels)|..],
                           old(exchange.heard.views), exchange.heard)
    {
      hide Linked, PlacedOk, Lineage, SinglePosition, NeverFlips, AnswersOk, Evolves, Passes, MayOpen, SideOf;
      hide CloseOutcome, ExchangeOutcome, CloseHasReason, AskedForAll, Cancelled, AllAnswered, HasUnresolved, Stale, KeepsHeld;
      ghost var a, p, none, seen := store.disk, placed, cancels[|cancels|..], exchange.heard.views;
      Update(Closing(store.db));
      var begun := Commit();
      if begun.Crashed? { CloseGaveUp(stopAfter, Crashed, a, store.disk, p, none, seen, exchange.heard); }
      var _ :- begun;
      var asked := AskPosition();
      if asked.Crashed? { CloseGaveUp(stopAfter, Crashed, a, store.disk, p, none, seen, exchange.heard); }
      var view :- asked;
      if view.Raised? || view.value.side == UnknownSide {
        r := FailClose(stopAfter, a, p, none, seen);
        return;
      }
      if view.value.side == Flat {
        r := FinishFlat(stopAfter, a, p, none, seen);
        return;
      }
      ghost var before, h := store.db, exchange.heard;
      var outcome := CancelListedOrders(false);
      ghost var calls := cancels[|old(cancels)|..];
      if outcome.Crashed? { CloseGaveUp(stopAfter, Crashed, a, store.disk, p, calls, seen, exchange.heard); }
      var canceled :- outcome;
      if !canceled {
        r := FailClose(stopAfter, a, p, calls, seen);
        return;
      }
      CanceledMeansAsked(calls, a, before, store.db, false);
      ghost var b, h0 := store.disk, exchange.heard;
      r := CloseOnExchange(view.value.side, view.value.size, stopAfter);
      CloseWentOn(stopAfter, r, a, b, store.disk, p, placed, calls, seen, h0, exchange.heard);
    }

    /** RECOVERY, and the failure of a close that began at rows a. */
    method FailClose(stopAfter: bool, ghost a: Db, ghost p: seq<Placement>, ghost calls: seq<CancelCall>, ghost seen: seq<PositionView>)
      returns (r: Await<bool>)
      requires Safe() && store.db == store.disk && CloseKeeps(a.settings, store.disk.settings) && placed == p
      requires store.disk.settings.tradingEnabled == a.settings.tradingEnabled && store.disk.settings.closing
      requires exchange.heard.position.Raised? || exchange.heard.side != Flat
      modifies store`db, store`disk, store`trail
      ensures Safe() && store.db == store.disk
      ensures CloseOutcome(stopAfter, r, a, store.disk, p, placed, calls, seen, exchange.heard)
    {
      hide Core, SlotNamesARow, CloseOutcome;
      var failed := Fail();
      r := if failed.Crashed? then Crashed else Done(false);
      CloseGaveUp(stopAfter, r, a, store.disk, p, calls, seen, exchange.heard);
    }

    /** The exchange is FLAT already: nothing is sent. */
    method FinishFlat(stopAfter: bool, ghost a: Db, ghost p: seq<Placement>, ghost calls: seq<CancelCall>, ghost seen: seq<PositionView>)
      returns (r: Await<bool>)
      requires Safe() && store.db == store.disk == Closing(a) && placed == p
      requires exchange.heard.side == Flat && |exchange.heard.views| > |seen|
      modifies store`db, store`disk, store`trail
      ensures Safe() && store.db == store.disk
      ensures CloseOutcome(stopAfter, r, a, store.disk, p, placed, calls, seen, exchange.heard)
    {
      hide Core, SlotNamesARow;
      var finished := FinishClose(stopAfter);
      r := if finished.Crashed? then Crashed else Done(true);
    }

    /** Sends the one reduce-only order of a close, for the position answered last, and judges its outcome. */
    method CloseOnExchange(side: PositionSide, size: real, stopAfter: bool) returns (r: Await<bool>)
      requires Safe() && store.db == store.disk
      requires exchange.heard.side in {Long, Short} && side == exchange.heard.side && size == exchange.heard.size
      modifies this`placed, store, exchange
      ensures Safe() && store.db == store.disk && store.released == old(store.released)
      ensures OnlyACloseAdded(old(placed), placed, old(store.minted)) && old(store.minted) <= store.minted
      ensures ExchangeOutcome(stopAfter, r, old(store.disk), store.disk, old(placed), placed, old(exchange.heard), exchange.heard)
    {
      hide Linked, PlacedOk, Lineage, SinglePosition, NeverFlips, Evolves, Passes, MayOpen, Stale, HasUnresolved;
      hide ConfirmOutcome, Settles, Concluded, Sent, ClosesWhatWasSeen;
      ghost var a, p, h0 := store.disk, placed, exchange.heard;
      var id := Mint();
      var submitted :- Submit(id, if side == Long then Sell else Buy, size, true);
      ghost var b, seen := store.disk, exchange.heard.views;
      assert |h0.views| <= |seen|;
      hide Core, ExchangeOutcome;
      if store.db.orders[id].status == Unknown {
        var failed := Fail();
        r := if failed.Crashed? then Crashed else Done(false);
        RefusedOnExchange(stopAfter, r, a, store.disk, p, placed, h0, exchange.heard);
        return;
      }
      if store.db.orders[id].status == Rejected {
        var failed := AbandonClose();
        r := if failed.Crashed? then Crashed else Done(false);
        RefusedOnExchange(stopAfter, r, a, store.disk, p, placed, h0, exchange.heard);
        return;
      }
      r := ConfirmClosed(stopAfter);
      ConfirmedOnExchange(stopAfter, r, a, b, store.disk, p, placed, h0, seen, exchange.heard);
    }

    /** The close order was refused: the intent is dropped and the system goes to RECOVERY. */
    method AbandonClose() returns (r: Await<()>)
      requires Safe() && store.db == store.disk
      modifies store`db, store`disk, store`trail
      ensures Safe() && store.db == store.disk
      ensures store.disk in {old(store.disk),
                             InState(old(store.disk).(settings := old(store.disk).settings.(closing := false)), SystemState.Recovery)}
      ensures r.Done? ==> store.disk.settings.state == SystemState.Recovery && !store.disk.settings.closing
    {
      hide Linked, PlacedOk, Lineage, SinglePosition, NeverFlips, AnswersOk;
      Update(store.db.(settings := store.db.settings.(closing := false)));
      var _ :- EnterRecovery();
      r := Commit();
    }

    /** The tail of a close whose order was neither unknown nor rejected: FLAT must be seen. */
    method ConfirmClosed(stopAfter: bool) returns (r: Await<bool>)
      requires Safe() && store.db == store.disk
      modifies store`db, store`disk, store`trail, exchange
      ensures Safe() && store.db == store.disk
      ensures ConfirmOutcome(stopAfter, r, old(store.disk), store.disk, old(exchange.heard.views), exchange.heard)
      ensures r == Done(true) && !StaleIsLive(old(store.db), old(exchange.st)) ==> CancelsTruthfully(old(store.db), exchange.st)
    {
      hide Core, SlotNamesARow, Evolves, Passes, CancelsTruthfully, StaleIsLive, Terminalized, Stale, ConfirmOutcome, NoneFillable, NoLive, SideOf;
      ghost var d, st, seen := store.db, exchange.st, exchange.heard.views;
      var copied := SyncExchangeMirror();
      if copied.Crashed? { NotConfirmed(stopAfter, Crashed, d, store.disk, seen, exchange.heard); }
      var synced :- copied;
      if !synced {
        r := FailConfirm(stopAfter, d, seen);
        return;
      }
      ghost var middle := exchange.st;
      var asked := AskPosition();
      if asked.Crashed? { NotConfirmed(stopAfter, Crashed, d, store.disk, seen, exchange.heard); }
      var live :- asked;
      PassesTransitive(st, middle, exchange.st);
      if live.Raised? || live.value.side != Flat {
        r := FailConfirm(stopAfter, d, seen);
        return;
      }
      if !StaleIsLive(d, st) { DeadRowsCancelTruthfully(d, st, exchange.st); }
      TerminalizedByRows(d, store.db);
      r := TerminalizeAndFinish(stopAfter, d, seen);
    }

    method FailConfirm(stopAfter: bool, ghost d: Db, ghost seen: seq<PositionView>) returns (r: Await<bool>)
      requires Safe() && store.db == store.disk == d.(mirror := store.db.mirror)
      requires exchange.heard.position.Raised? || exchange.heard.side != Flat || exchange.heard.number.Raised?
      modifies store`db, store`disk, store`trail
      ensures Safe() && store.db == store.disk
      ensures r != Done(true)
      ensures ConfirmOutcome(stopAfter, r, d, store.disk, seen, exchange.heard)
    {
      hide Core, SlotNamesARow, ConfirmOutcome;
      var failed := Fail();
      r := if failed.Crashed? then Crashed else Done(false);
      NotConfirmed(stopAfter, r, d, store.disk, seen, exchange.heard);
    }

    method TerminalizeAndFinish(stopAfter: bool, ghost d: Db, ghost seen: seq<PositionView>) returns (r: Await<bool>)
      requires Safe() && store.db == store.disk == d.(mirror := store.db.mirror)
      requires exchange.heard.side == Flat && |exchange.heard.views| > |seen| + 1
      modifies store`db, store`disk, store`trail
      ensures Safe() && store.db == store.disk
      ensures ConfirmOutcome(stopAfter, r, d, store.disk, seen, exchange.heard)
    {
      hide Core, SlotNamesARow, Terminalized, CancelsTruthfully, StaleIsLive, Stale;
      TerminalizedByRows(d, store.db);
      var _ :- TerminalizeStaleOpenings();
      var _ :- FinishClose(stopAfter);
      return Done(true);
    }

    // ------------------------------------------------------------ operations

    method HandleSignal(signal: SignalType) returns (r: Await<Reply<bool>>)
      requires Safe() && store.db == store.disk && Boundary(store.disk.settings)
      modifies this`placed, this`cancels, this`answers, store, exchange
      ensures Safe() && store.db == store.disk && Boundary(store.disk.settings)
      ensures store.disk.settings.estop == old(store.disk.settings.estop)
      ensures store.disk.settings.tradingEnabled ==> old(store.disk.settings.tradingEnabled)
      ensures AtMostOneAdded(old(placed), placed, old(store.minted)) && old(store.minted) <= store.minted
      ensures signal == CloseSignal ==> OnlyACloseAdded(old(placed), placed, old(store.minted))
      ensures signal == HoldSignal ==> placed == old(placed)
      ensures signal != CloseSignal ==> KeepsHeld(old(store.disk), store.disk)
      ensures old(cancels) <= cancels
      ensures SignalOutcome(signal, r, old(store.disk), store.disk, old(placed), placed, old(answers), answers,
                            cancels[|old(cancels)|..], old(exchange.heard.views), exchange.heard)
    {
      hide Linked, PlacedOk, Lineage, SinglePosition, NeverFlips, Evolves, CloseOutcome, SentFor, AcceptedAs, GuardHasReason, SomeInflight, HasUnresolved;
      ghost var a, p, seen := store.disk, placed, exchange.heard.views;
      var recorded := Commit();
      if recorded.Crashed? {
        SignalCrashed(signal, a, p, answers, cancels[|old(cancels)|..], seen, exchange.heard);
      }
      var _ :- recorded;
      if signal == HoldSignal {
        return Done(Got(true));
      }
      if signal == CloseSignal && store.db.settings.state == SystemState.Recovery {
        var _ :- Commit();
        return Done(Got(false));
      }
      if store.db.settings.closing {
        var _ :- Commit();
        return Done(Got(false));
      }
      if signal in {LongSignal, ShortSignal} && ReverseIsForbidden(LocalSide(store.db), signal) {
        var _ :- Commit();
        return Done(Got(false));
      }
      if signal in {LongSignal, ShortSignal} {
        r := OpenPosition(signal);
      } else {
        var closed := ClosePosition(false);
        CloseIsTame(false, closed, a, store.disk, p, placed, cancels[|old(cancels)|..], seen, exchange.heard);
        r := if closed.Crashed? then Crashed else Done(Got(closed.value));
      }
    }

    /** One unresolved row: a crash while SUBMITTING is first committed as UNKNOWN. */
    method ReconcileOne(id: Id) returns (r: Await<()>)
      requires Safe() && store.db == store.disk
      requires id in store.db.orders && !Terminal(store.db.orders[id].status)
      modifies store`db, store`disk, store`trail, store`released, exchange
      ensures Safe() && store.db == store.disk
      ensures ControlStep(old(store.disk.settings), store.disk.settings)
      ensures KeepsHeld(old(store.disk), store.disk)
      ensures r.Done? ==>
                && store.db.orders.Keys == old(store.db).orders.Keys
                && store.db.orders == old(store.db).orders[id := store.db.orders[id]]
                && store.db.orders[id].status !in {PendingSubmission, Submitting}
                && exchange.heard.evidence.id == id && store.db.orders[id].status == Concluded(exchange.heard.evidence)
                && exchange.heard.verdicts == old(exchange.heard.verdicts) + [exchange.heard.evidence]
      ensures r.Done? && old(store.db.orders[id].status) == Submitting ==>
                FirstCommitted(old(store.trail), store.trail, WithStatus(old(store.db), id, Unknown))
    {
      hide Linked, PlacedOk, Lineage, SinglePosition, NeverFlips, Evolves, Passes;
      if store.db.orders[id].status == Submitting {
        SetStatus(id, Unknown);
        var _ :- Commit();
      }
      r := ReconcileUnknown(id);
    }

    /** Crash recovery.  Issues no order: `placed` is not in its frame.  Afterwards no row is left in
        a pre-send status, so nothing is ever resubmitted. */
    method ReconcileAfterRestart() returns (r: Await<()>)
      requires Safe() && store.db == store.disk
      modifies store`db, store`disk, store`trail, store`released, exchange
      ensures Safe() && store.db == store.disk
      ensures ControlStep(old(store.disk.settings), store.disk.settings)
      ensures KeepsHeld(old(store.disk), store.disk)
      ensures r.Done? ==> ResolvedKept(old(store.disk), store.disk) && NoPreSend(store.disk)
      ensures r.Done? ==>
                && old(exchange.heard.verdicts) <= exchange.heard.verdicts
                && Reconciled(old(store.db), store.db, exchange.heard.verdicts[|old(exchange.heard.verdicts)|..])
    {
      hide Core, SlotNamesARow, ToReconcile, ReconciledTo, Reconciled, Concluded, FirstCommitted, HeldByFinal, Unresolved;
      hide ResolvedKept, NoPreSend, ReconcileSoFar;
      var ids := UnresolvedIds();
      ghost var a, log := store.db, exchange.heard.verdicts;
      ghost var es: seq<Evidence> := [];
      ReconcileStarts(a, ids);
      for k := 0 to |ids|
        invariant Safe() && store.db == store.disk
        invariant exchange.heard.verdicts == log + es && ReconcileSoFar(a, store.db, ids, k, es)
      {
        NextToReconcile(a, store.db, ids, k, es);
        ghost var before := store.db;
        var outcome := ReconcileOne(ids[k]);
        OneOnTheWay(a, before, store.db, ids, k, es);
        var _ :- outcome;
        OneReconciled(a, before, store.db, ids, k, es, exchange.heard.evidence);
        es := es + [exchange.heard.evidence];
      }
      ReconcileEnds(a, store.db, ids, es);
      assert exchange.heard.verdicts[|log|..] == es;
      return Done(());
    }

    /** list_unresolved. */
    method UnresolvedIds() returns (ids: seq<Id>)
      requires Core()
      ensures ToReconcile(store.db, ids) && ReconciledTo(store.db, store.db, ids, 0, [])
    {
      AllMinted();
      ids := Select(store.db, store.minted, (o: Order) => Unresolved(o.status));
    }

    /** All or nothing: the switch and RUNNING become durable in the same commit, after every
        preflight; a refused start never raises the switch. */
    method StartTrading() returns (r: Await<bool>)
      requires Safe() && store.db == store.disk && Boundary(store.disk.settings)
      modifies this`answers, store`db, store`disk, store`trail, store`released, exchange
      ensures Safe() && store.db == store.disk && Boundary(store.disk.settings)
      ensures store.disk.settings.closing == old(store.disk.settings.closing)
      ensures store.disk.settings.estop == old(store.disk.settings.estop)
      ensures store.disk.settings.tradingEnabled && !old(store.disk.settings.tradingEnabled) ==>
                store.disk.settings.state == Running && !store.disk.settings.estop
      ensures old(store.disk.settings.tradingEnabled) ==> store.disk.settings.tradingEnabled
      ensures KeepsHeld(old(store.disk), store.disk)
      ensures old(answers) <= answers
      ensures r.Done? && NoPreSend(old(store.disk)) ==> NoPreSend(store.disk)
      ensures r.Done? ==> old(exchange.heard.verdicts) <= exchange.heard.verdicts
      ensures r.Done? && !old(store.disk.settings.estop) ==>
                NoPreSend(store.disk) && AskedAbout(old(store.disk), exchange.heard.verdicts[|old(exchange.heard.verdicts)|..])
      ensures r == Done(true) ==> StartSucceeded(store.disk, answers[|old(answers)|..], exchange.st)
      ensures r == Done(false) ==>
                && store.disk.settings.tradingEnabled == old(store.disk.settings.tradingEnabled)
                && (if old(store.disk.settings.estop) then store.disk == old(store.disk)
                    else store.disk.settings.state == SystemState.Recovery &&
                         StartHasReason(store.disk, answers[|old(answers)|..], exchange.heard))
    {
      hide AskedAbout, Concluded;
      hide Core, SlotNamesARow, NoLive, Stale, PreflightsPassed, NoneFillable, Clean, SideOf;
      if store.db.settings.estop {
        return Done(false);
      }
      var _ :- ReconcileAfterRestart();
      if HasUnresolved(store.db) {
        var _ :- EnterRecovery();
        return Done(false);
      }
      var ready :- Preflights();
      if !ready {
        var _ :- EnterRecovery();
        return Done(false);
      }
      ghost var d := store.db;
      var _ :- RaiseSwitch();
      SameRowsNoPreSend(d, store.db);
      return Done(true);
    }

    /** Worker, exchange and local rows, in that order; the switch stays as it was. */
    method Preflights() returns (r: Await<bool>)
      requires Safe() && store.db == store.disk
      modifies this`answers, store`db, store`disk, store`trail, exchange
      ensures Safe() && store.db == store.disk
      ensures exchange.heard.verdicts == old(exchange.heard.verdicts)
      ensures store.disk.settings == old(store.disk.settings).(state := store.disk.settings.state)
      ensures store.disk.settings.state in {old(store.disk.settings.state), Starting, Syncing}
      ensures KeepsHeld(old(store.disk), store.disk)
      ensures old(answers) <= answers
      ensures r.Done? && store.disk.mirror != Some(Flat) ==> store.disk.orders == old(store.disk.orders)
      ensures r == Done(false) ==> StartHasReason(store.disk, answers[|old(answers)|..], exchange.heard)
      ensures r.Done? && NoPreSend(old(store.disk)) ==> NoPreSend(store.disk)
      ensures r == Done(true) ==>
                && PreflightsPassed(answers[|old(answers)|..])
                && !HasUnresolved(store.disk)
                && store.disk.mirror.Some? && store.disk.mirror != Some(UnknownSide)
                && NoLive(exchange.st)
                && (NoLive(old(exchange.st)) ==> store.disk.mirror == Some(SideOf(exchange.st.position)))
                && (NoneFillable(old(exchange.st)) && store.disk.mirror == Some(Flat) ==> Clean(exchange.st))
                && (store.disk.mirror == Some(Flat) ==> forall i :: i in store.disk.orders ==> !Stale(store.disk.orders[i]))
    {
      hide Core, SlotNamesARow, NoLive, NoneFillable, Passes, Clean, Stale, PreflightsPassed, WorkerPassed, HasUnresolved;
      ghost var st := exchange.st;
      var _ :- SetState(Starting);
      var ready :- WorkerPreflight();
      if !ready {
        return Done(false);
      }
      FlatLasts(st, exchange.st);
      ghost var worker := answers;
      r := PreflightsOnExchange();
      if r == Done(false) { EndsAlike(old(answers), worker, answers); }
      if r == Done(true) { PreflightsTogether(old(answers), worker, answers); }
    }

    /** The exchange and the rows, once the worker is ready. */
    method PreflightsOnExchange() returns (r: Await<bool>)
      requires Safe() && store.db == store.disk
      modifies this`answers, store`db, store`disk, store`trail, exchange
      ensures Safe() && store.db == store.disk && old(answers) <= answers
      ensures exchange.heard.verdicts == old(exchange.heard.verdicts)
      ensures store.disk.settings == old(store.disk.settings).(state := store.disk.settings.state)
      ensures store.disk.settings.state in {old(store.disk.settings.state), Syncing}
      ensures KeepsHeld(old(store.disk), store.disk)
      ensures r.Done? && NoPreSend(old(store.disk)) ==> NoPreSend(store.disk)
      ensures r.Done? && store.disk.mirror != Some(Flat) ==> store.disk.orders == old(store.disk.orders)
      ensures r == Done(false) ==>
                || HasUnresolved(store.disk) || EndsBadly(answers[|old(answers)|..])
                || exchange.heard.position.Raised? || exchange.heard.number.Raised? || exchange.heard.side == UnknownSide
                || exchange.heard.open != Got(false)
      ensures r == Done(true) ==>
                && answers == old(answers) + [(OtherPositions, Got(false))]
                && !HasUnresolved(store.disk)
                && store.disk.mirror.Some? && store.disk.mirror != Some(UnknownSide)
                && NoLive(exchange.st)
                && (NoLive(old(exchange.st)) ==> store.disk.mirror == Some(SideOf(exchange.st.position)))
                && (NoneFillable(old(exchange.st)) && store.disk.mirror == Some(Flat) ==> Clean(exchange.st))
                && (store.disk.mirror == Some(Flat) ==> forall i :: i in store.disk.orders ==> !Stale(store.disk.orders[i]))
    {
      hide Core, SlotNamesARow, NoLive, NoneFillable, Passes, Clean, Stale, HasUnresolved;
      var _ :- SetState(Syncing);
      var clear :- ExchangePreflight();
      if !clear {
        return Done(false);
      }
      var _ :- TerminalizeIfFlat();
      return Done(!HasUnresolved(store.db));
    }

    /** With a FLAT mirror no stale opening row survives; nothing is live here, so none is canceled falsely. */
    method TerminalizeIfFlat() returns (r: Await<()>)
      requires Safe() && store.db == store.disk && NoLive(exchange.st)
      modifies store`db, store`disk, store`trail
      ensures Safe() && store.db == store.disk
      ensures store.disk == old(store.disk).(orders := store.disk.orders) && KeepsHeld(old(store.disk), store.disk)
      ensures r.Done? ==> store.disk == if store.disk.mirror == Some(Flat) then Terminalized(old(store.disk)) else old(store.disk)
      ensures r.Done? && store.disk.mirror == Some(Flat) ==> forall i :: i in store.disk.orders ==> !Stale(store.disk.orders[i])
      ensures r.Done? && NoPreSend(old(store.disk)) ==> NoPreSend(store.disk)
      ensures CancelsTruthfully(old(store.db), exchange.st)
    {
      hide Core, SlotNamesARow, CancelsTruthfully, Truthful;
      TerminalizedTruthfullyIff(store.db, exchange.st);
      if LocalSide(store.db) == Flat {
        var _ :- TerminalizeStaleOpenings();
      }
      return Done(());
    }

    /** The switch and RUNNING in one commit. */
    method RaiseSwitch() returns (r: Await<()>)
      requires Safe() && store.db == store.disk && !store.disk.settings.estop
      modifies store`db, store`disk, store`trail
      ensures Safe() && store.db == store.disk
      ensures store.disk in {old(store.disk), Started(old(store.disk))}
      ensures r.Done? ==> store.disk == Started(old(store.disk))
    {
      hide Linked, PlacedOk, Lineage, SinglePosition, NeverFlips, Evolves, Passes;
      Update(store.db.(settings := store.db.settings.(tradingEnabled := true)));
      var _ :- SetState(Running);
      r := Commit();
    }

    /** health, connect, configure, is_ready. */
    method WorkerPreflight() returns (r: Await<bool>)
      requires Safe() && store.db == store.disk
      modifies this`answers, store`db, exchange
      ensures Safe() && store.db == store.disk
      ensures r.Done? ==> Passes(old(exchange.st), exchange.st)
      ensures exchange.heard == old(exchange.heard).(worker := exchange.heard.worker) && old(answers) <= answers
      ensures |answers| <= |old(answers)| + 4
      ensures r.Done? ==> (r.value <==> WorkerPassed(answers[|old(answers)|..]))
      ensures r == Done(false) ==> EndsBadly(answers[|old(answers)|..])
    {
      hide Linked, PlacedOk, Lineage, SinglePosition, NeverFlips, Passes;
      ghost var st := exchange.st;
      var connected :- AskWorker(Health);
      ghost var first := exchange.st;
      if connected != Got(true) { return Done(false); }
      var connect :- AskWorker(ConnectWorker);
      ghost var second := exchange.st;
      PassesTransitive(st, first, second);
      if connect.Raised? { return Done(false); }
      var configure :- AskWorker(ConfigureWorker);
      ghost var third := exchange.st;
      PassesTransitive(st, second, third);
      if configure.Raised? { return Done(false); }
      var ready :- AskWorker(IsReady);
      PassesTransitive(st, third, exchange.st);
      return Done(ready == Got(true));
    }

    /** Mirror known, no position elsewhere, no open order. */
    method ExchangePreflight() returns (r: Await<bool>)
      requires Safe() && store.db == store.disk
      modifies this`answers, store`db, store`disk, store`trail, exchange
      ensures Safe() && store.db == store.disk
      ensures exchange.heard.verdicts == old(exchange.heard.verdicts)
      ensures store.db == old(store.db).(mirror := store.db.mirror)
      ensures old(answers) <= answers
      ensures r.Done? ==>
                (r.value <==>
                 && exchange.heard.position.Got? && exchange.heard.number.Got? && exchange.heard.side != UnknownSide
                 && exchange.heard.open == Got(false)
                 && answers == old(answers) + [(OtherPositions, Got(false))])
      ensures r == Done(false) ==>
                || EndsBadly(answers[|old(answers)|..]) || exchange.heard.position.Raised? || exchange.heard.number.Raised?
                || exchange.heard.side == UnknownSide || exchange.heard.open != Got(false)
      ensures r == Done(true) ==>
                && NoLive(exchange.st) && store.db.mirror.Some? && store.db.mirror != Some(UnknownSide)
                && (NoLive(old(exchange.st)) ==> store.db.mirror == Some(SideOf(exchange.st.position)))
                && (NoneFillable(old(exchange.st)) && store.db.mirror == Some(Flat) ==> Clean(exchange.st))
    {
      hide Linked, PlacedOk, Lineage, SinglePosition, NeverFlips, Passes, NoneFillable;
      ghost var st := exchange.st;
      var synced :- SyncExchangeMirror();
      ghost var first := exchange.st;
      if !synced || LocalSide(store.db) == UnknownSide { return Done(false); }
      var foreign :- AskWorker(OtherPositions);
      ghost var second := exchange.st;
      assert answers[|old(answers)|] == (OtherPositions, foreign);
      if foreign != Got(false) { return Done(false); }
      var open :- AskOpenOrders();
      FlatLasts(st, first);
      SnapshotLasts(first, second, exchange.st);
      return Done(open == Got(false));
    }

    method StopTrading() returns (r: Await<bool>)
      requires Safe() && store.db == store.disk
      modifies this`cancels, store`db, store`disk, store`trail, exchange
      ensures Safe() && store.db == store.disk
      ensures store.disk.settings.closing == old(store.disk.settings.closing)
      ensures store.disk.settings.estop == old(store.disk.settings.estop)
      ensures store.disk.settings.tradingEnabled ==> old(store.disk.settings.tradingEnabled)
      ensures r.Done? ==> !store.disk.settings.tradingEnabled
      ensures KeepsHeld(old(store.disk), store.disk)
      ensures old(cancels) <= cancels
      ensures r.Done? ==> (r.value <==> AllAnswered(cancels[|old(cancels)|..]))
      ensures r.Done? ==> store.disk.settings.state == if r.value then Stopped else SystemState.Recovery
      ensures store.disk == old(store.disk) || store.disk.settings == SwitchedOff(old(store.disk.settings)) ||
              (!store.disk.settings.tradingEnabled && store.disk.settings.state in {Stopped, SystemState.Recovery})
      ensures r.Done? || store.disk != old(store.disk) ==> AskedForAll(cancels[|old(cancels)|..], old(store.db), false)
    {
      hide Core, SlotNamesARow, AskedForAll, HasUnresolved;
      var canceled :- SwitchOffAndCancel();
      if !canceled {
        var _ :- EnterRecovery();
        var _ :- Commit();
        return Done(false);
      }
      var _ :- SetState(Stopped);
      var _ :- Commit();
      return Done(true);
    }

    /** The first half of a stop.  Its commit makes the switch durable with the state not yet moved: a
        crash right there, and only there, leaves a RUNNING system with the switch off. */
    method SwitchOffAndCancel() returns (r: Await<bool>)
      requires Safe() && store.db == store.disk
      modifies this`cancels, store`db, store`disk, store`trail, exchange
      ensures Safe() && store.db == store.disk && old(cancels) <= cancels
      ensures if store.trail == old(store.trail) then store.disk == old(store.disk)
              else store.trail == old(store.trail) + [store.disk] &&
                   store.disk.settings == SwitchedOff(old(store.disk.settings)) &&
                   AskedForAll(cancels[|old(cancels)|..], old(store.db), false)
      ensures KeepsHeld(old(store.disk), store.disk)
      ensures r.Done? ==> store.trail != old(store.trail) && (r.value <==> AllAnswered(cancels[|old(cancels)|..]))
      ensures old(Boundary(store.disk.settings)) ==>
                (Boundary(store.disk.settings) <==> store.trail == old(store.trail) || old(store.disk.settings.state) != Running)
    {
      hide Linked, PlacedOk, Lineage, SinglePosition, NeverFlips, Evolves, Passes, AskedForAll;
      Update(store.db.(settings := store.db.settings.(tradingEnabled := false)));
      ghost var before := store.db;
      r := CancelListedOrders(false);
      AskedByRows(cancels[|old(cancels)|..], before, old(store.db), false);
    }

    /** Latches, cancels everything it knows of, then closes.  A crash before the cancel loop commits
        loses everything, the latch included; from that commit on the latch is there. */
    method EmergencyStop() returns (r: Await<bool>)
      requires Safe() && store.db == store.disk
      modifies this`placed, this`cancels, store, exchange
      ensures Safe() && store.db == store.disk
      ensures OnlyACloseAdded(old(placed), placed, old(store.minted)) && old(store.minted) <= store.minted
      ensures old(cancels) <= cancels
      ensures store.disk == old(store.disk) || store.disk.settings.estop
      ensures r.Done? || store.disk != old(store.disk) ==> AskedForAll(cancels[|old(cancels)|..], old(store.db), true)
      ensures r.Done? ==> store.disk.settings.estop && !store.disk.settings.tradingEnabled &&
                          store.disk.settings.state == if r.value then Stopped else SystemState.Recovery
      ensures r == Done(false) ==>
                !AllAnswered(cancels[|old(cancels)|..]) || CloseHasReason(store.disk, exchange.heard, placed, |old(placed)|)
      ensures r == Done(true) ==> exchange.heard.side == Flat && store.disk.slot == None
    {
      hide Core, SlotNamesARow, CloseOutcome, CloseHasReason, AskedForAll;
      var canceled :- LatchAndCancel();
      if !canceled {
        var _ :- EnterRecovery();
        var _ :- Commit();
        return Done(false);
      }
      ghost var a, p, calls, seen := store.disk, placed, cancels, exchange.heard.views;
      var outcome := ClosePosition(true);
      CloseIsTame(true, outcome, a, store.disk, p, placed, cancels[|calls|..], seen, exchange.heard);
      AskedEarlier(cancels[|old(cancels)|..], calls[|old(cancels)|..], old(store.db), true);
      var closed :- outcome;
      var _ :- Commit();
      return Done(closed);
    }

    /** The first half: nothing is recorded until the cancel loop has asked for every cancel; its commit
        makes the latch durable.  The rows on disk are the old ones exactly when nothing was committed. */
    method LatchAndCancel() returns (r: Await<bool>)
      requires Safe() && store.db == store.disk
      modifies this`cancels, store`db, store`disk, store`trail, exchange
      ensures Safe() && store.db == store.disk && old(cancels) <= cancels
      ensures if store.trail == old(store.trail) then store.disk == old(store.disk)
              else store.trail == old(store.trail) + [store.disk] &&
                   store.disk.settings == LatchedOff(old(store.disk.settings)) &&
                   AskedForAll(cancels[|old(cancels)|..], old(store.db), true)
      ensures r.Done? ==> store.trail != old(store.trail) && (r.value <==> AllAnswered(cancels[|old(cancels)|..]))
      ensures old(Boundary(store.disk.settings)) ==>
                (Boundary(store.disk.settings) <==> store.trail == old(store.trail) || old(store.disk.settings.state) != Running)
      ensures !old(store.disk.settings.estop) ==> (store.disk.settings.estop <==> store.trail != old(store.trail))
    {
      hide Linked, PlacedOk, Lineage, SinglePosition, NeverFlips, Evolves, Passes, AskedForAll;
      Update(store.db.(settings := store.db.settings.(estop := true, tradingEnabled := false)));
      ghost var before := store.db;
      r := CancelListedOrders(true);
      AskedByRows(cancels[|old(cancels)|..], before, old(store.db), true);
    }

    /** Query-only unlatch: never starts trading. */
    method ClearEstop() returns (r: Await<bool>)
      requires Safe() && store.db == store.disk && Boundary(store.disk.settings)
      modifies this`answers, store`db, store`disk, store`trail, exchange
      ensures Safe() && store.db == store.disk && Boundary(store.disk.settings)
      ensures store.disk.settings.closing == old(store.disk.settings.closing)
      ensures store.disk.settings.tradingEnabled == old(store.disk.settings.tradingEnabled)
      ensures r == Done(true) ==>
                && old(store.disk.settings.estop) && !store.disk.settings.estop
                && store.disk.settings.state in {Stopped, SystemState.Recovery}
                && !HasUnresolved(store.disk)
                && exchange.heard.side == Flat && NoLive(exchange.st)
                && (NoneFillable(old(exchange.st)) ==> Clean(exchange.st))
                && answers == old(answers) + [(Health, Got(true)), (OtherPositions, Got(false))]
      ensures old(answers) <= answers
      ensures r == Done(true) ==> old(RowsAllowClearing(store.disk))
      ensures r == Done(false) ==>
                && store.disk.settings.estop == old(store.disk.settings.estop)
                && (store.disk == old(store.disk) ||
                    (store.disk == InState(old(store.disk), SystemState.Recovery) &&
                     ClearFailed(answers[|old(answers)|..], exchange.heard)))
                && ClearHasReason(old(store.disk), answers[|old(answers)|..], exchange.heard)
      ensures KeepsHeld(old(store.disk), store.disk)
      ensures store.disk.orders == old(store.disk.orders)
    {
      hide ClearFailed, Core, SlotNamesARow, HasUnresolved, NoneFillable, NoLive, Clean;
      if !store.db.settings.estop || HasUnresolved(store.db) ||
         exists i | i in store.db.orders :: ListedOpen(store.db.orders[i].status) {
        var _ :- Commit();
        return Done(false);
      }
      var clear :- AskForClear();
      if clear.None? {
        var _ :- Fail();
        return Done(false);
      }
      if !clear.value {
        var _ :- Commit();
        return Done(false);
      }
      var _ :- LowerLatch();
      return Done(true);
    }

    /** Worker, position, other positions, open orders, in that order; None when a call raised, the worker
        is unreachable or the side UNKNOWN. */
    method AskForClear() returns (r: Await<Option<bool>>)
      requires Safe() && store.db == store.disk
      modifies this`answers, store`db, exchange
      ensures Safe() && store.db == store.disk && old(answers) <= answers
      ensures r.Done? && r.value.Some? ==>
                && (r.value.value ==>
                      && exchange.heard.side == Flat && NoLive(exchange.st)
                      && (NoneFillable(old(exchange.st)) ==> Clean(exchange.st))
                      && answers == old(answers) + [(Health, Got(true)), (OtherPositions, Got(false))])
                && (!r.value.value ==>
                      || exchange.heard.side != Flat || exchange.heard.open == Got(true)
                      || answers == old(answers) + [(Health, Got(true)), (OtherPositions, Got(true))])
      ensures r == Done(None) ==>
                || exchange.heard.position.Raised? || exchange.heard.side == UnknownSide || exchange.heard.open.Raised?
                || answers != old(answers) + [(Health, Got(true)), (OtherPositions, Got(false))]
      ensures r == Done(None) ==> ClearFailed(answers[|old(answers)|..], exchange.heard)
    {
      hide SomeBadForOpen, Linked, PlacedOk, Lineage, SinglePosition, NeverFlips, AnswersOk, Passes, NoneFillable;
      ghost var st := exchange.st;
      var connected :- AskWorker(Health);
      ghost var first := exchange.st;
      if connected != Got(true) { BadNow(old(answers), answers); }
      if connected != Got(true) { return Done(None); }
      var position :- AskPosition();
      ghost var second := exchange.st;
      if position.Raised? { return Done(None); }
      var foreign :- AskWorker(OtherPositions);
      ghost var third := exchange.st;
      assert answers[|old(answers)| + 1] == (OtherPositions, foreign);
      if foreign.Raised? { BadNow(old(answers), answers); }
      if foreign.Raised? { return Done(None); }
      var open :- AskOpenOrders();
      if open.Raised? || position.value.side == UnknownSide { return Done(None); }
      if position.value.side != Flat || foreign.value || open.value { return Done(Some(false)); }
      PassesTransitive(st, first, second);
      FlatLasts(st, second);
      SnapshotLasts(second, third, exchange.st);
      return Done(Some(true));
    }

    /** The latch goes down with the trading switch off and the system not running. */
    method LowerLatch() returns (r: Await<()>)
      requires Safe() && store.db == store.disk && store.db.settings.estop
      modifies store`db, store`disk, store`trail
      ensures Safe() && store.db == store.disk
      ensures store.disk.settings.closing == old(store.disk.settings.closing)
      ensures store.db == old(store.db).(settings := store.db.settings)
      ensures HasUnresolved(store.db) == HasUnresolved(old(store.db))
      ensures r.Crashed? ==> store.db == old(store.db) || !store.db.settings.estop
      ensures !store.db.settings.estop ==> store.db.settings.state in {Stopped, SystemState.Recovery}
      ensures r.Done? ==> !store.db.settings.estop
      ensures !store.db.settings.tradingEnabled && !old(store.db.settings.tradingEnabled)
    {
      hide Linked, PlacedOk, Lineage, SinglePosition, NeverFlips;
      Update(store.db.(settings := store.db.settings.(estop := false, tradingEnabled := false)));
      if store.db.settings.state !in {Stopped, SystemState.Recovery} {
        var _ :- SetState(Stopped);
      }
      r := Commit();
    }

    method Bootstrap() returns (r: Await<()>)
      requires Safe() && store.db == store.disk
      modifies store`db, store`disk, store`trail, exchange
      ensures Safe() && store.db == store.disk
      ensures exchange.heard.verdicts == old(exchange.heard.verdicts)
      ensures r.Done? ==> store.db == InState(old(store.db), BootState(old(store.db), exchange.heard.worker))
      ensures r.Crashed? ==> store.disk == old(store.disk) ||
                             store.disk == InState(old(store.db), BootState(old(store.db), exchange.heard.worker))
    {
      hide Linked, PlacedOk, Lineage, SinglePosition, NeverFlips, Evolves, Passes;
      ghost var d := store.db;
      ghost var before := exchange.st;
      ghost var trail := store.trail;
      r := recovery.Bootstrap();
      TimeKeepsLinked(d, d, store.minted, store.released, before, exchange.st);
      CommitKeepsLinked(d, d, store.minted, store.released, exchange.st, placed, trail);
      forall state: SystemState
        ensures Linked(InState(d, state), InState(d, state), store.minted, store.released, exchange.st)
        ensures PlacedOk(placed, InState(d, state)) && Lineage(trail + [InState(d, state)], InState(d, state))
      {
        OtherWriteKeepsLinked(d, InState(d, state), d, store.minted, store.released, exchange.st);
        CommitKeepsLinked(InState(d, state), d, store.minted, store.released, exchange.st, placed, trail);
      }
    }

    /** `seed_defaults`: reconcile, bootstrap, and resume only through a full start. */
    method Restart() returns (r: Await<bool>)
      requires Safe() && store.db == store.disk
      modifies this`answers, store`db, store`disk, store`trail, store`released, exchange
      ensures Safe() && store.db == store.disk
      ensures store.disk.settings.closing == old(store.disk.settings.closing)
      ensures store.disk.settings.estop == old(store.disk.settings.estop)
      ensures KeepsHeld(old(store.disk), store.disk)
      ensures store.disk.settings.tradingEnabled == old(store.disk.settings.tradingEnabled)
      ensures r.Done? || old(Boundary(store.disk.settings)) ==> Boundary(store.disk.settings)
      ensures old(answers) <= answers && (r.Done? ==> NoPreSend(store.disk))
      ensures r.Done? ==>
                && old(exchange.heard.verdicts) <= exchange.heard.verdicts
                && AskedAbout(old(store.disk), exchange.heard.verdicts[|old(exchange.heard.verdicts)|..])
      ensures r == Done(true) ==> StartSucceeded(store.disk, answers[|old(answers)|..], exchange.st)
      ensures r == Done(false) ==> store.disk.settings.state in {Stopped, SystemState.Recovery}
    {
      hide AskedAbout, Concluded;
      hide Core, SlotNamesARow, HasUnresolved, StartSucceeded;
      var _ :- Commit();
      var _ :- ReconcileAfterRestart();
      ghost var d, log, asked := store.db, old(exchange.heard.verdicts), exchange.heard.verdicts;
      var _ :- Bootstrap();
      SameRowsNoPreSend(d, store.db);
      BootIsConservative(d, exchange.heard.worker);
      if store.db.settings.tradingEnabled && store.db.settings.state == Running {
        r := StartTrading();
        if r.Done? { AskedAboutMore(old(store.disk), asked[|log|..], exchange.heard.verdicts[|log|..]); }
      } else {
        r := Done(false);
      }
    }

    // ------------------------------------------------------------ whole runs

    /** One operation, in a session of its own. */
    method Perform(op: Operation) returns (r: Await<Reply<bool>>)
      requires Safe() && store.db == store.disk
      requires op.Restart? || Boundary(store.disk.settings)
      modifies this, store, exchange
      ensures Safe() && store.db == store.disk
      ensures r.Done? ==> Boundary(store.disk.settings)
      ensures old(cancels) <= cancels
      ensures OperationOutcome(op, r, old(store.disk), store.disk, old(placed), placed, old(answers), answers,
                               cancels[|old(cancels)|..], old(exchange.heard.views), exchange.heard, exchange.st)
      ensures r.Done? && (op.Restart? || (op.Start? && !old(store.disk.settings.estop))) ==>
                && old(exchange.heard.verdicts) <= exchange.heard.verdicts && NoPreSend(store.disk)
                && AskedAbout(old(store.disk), exchange.heard.verdicts[|old(exchange.heard.verdicts)|..])
      ensures old(Boundary(store.disk.settings)) && !op.Stop? && !op.EmergencyStop? ==> Boundary(store.disk.settings)
      ensures !ClosesPosition(op) ==> KeepsHeld(old(store.disk), store.disk)
      ensures op.EmergencyStop? && old(Boundary(store.disk.settings)) ==>
                Boundary(store.disk.settings) || store.disk.settings.estop
      ensures op.Stop? && old(Boundary(store.disk.settings)) ==>
                (Boundary(store.disk.settings) <==>
                 !(old(store.disk.settings.state) == Running &&
                   store.disk.settings == SwitchedOff(old(store.disk.settings))))
      ensures AtMostOneAdded(old(placed), placed, old(store.minted)) && old(store.minted) <= store.minted
      ensures op !in {Signal(LongSignal), Signal(ShortSignal)} ==>
                OnlyACloseAdded(old(placed), placed, old(store.minted))
      ensures op == Signal(HoldSignal) || op.Start? || op.Stop? || op.ClearEstop? || op.EnterRecovery? || op.Restart? ==> placed == old(placed)
      ensures !op.EmergencyStop? && !op.ClearEstop? ==>
                store.disk.settings.estop == old(store.disk.settings.estop)
      ensures !OperatorCloses(op) && old(store.disk.settings.closing) ==> store.disk.settings.closing
      ensures !op.Start? && store.disk.settings.tradingEnabled ==> old(store.disk.settings.tradingEnabled)
    {
      hide AskedAbout, NoPreSend;
      hide Linked, PlacedOk, Lineage, SinglePosition, NeverFlips, Evolves, Passes;
      ghost var a, p, seen := store.disk, placed, exchange.heard.views;
      match op {
        case Signal(signal) =>
          r := HandleSignal(signal);
        case Start =>
          var done :- StartTrading();
          return Done(Got(done));
        case Stop =>
          var done :- StopTrading();
          return Done(Got(done));
        case CloseAndStop =>
          r := PerformClose(true);
        case CloseAndContinue =>
          r := PerformClose(false);
        case EmergencyStop =>
          var done :- EmergencyStop();
          return Done(Got(done));
        case ClearEstop =>
          var done :- ClearEstop();
          return Done(Got(done));
        case EnterRecovery =>
          var _ :- EnterRecovery();
          return Done(Got(true));
        case Restart =>
          var done :- Restart();
          return Done(Got(done));
      }
    }

    /** `close_and_stop` and `close_and_continue`. */
    method PerformClose(stopAfter: bool) returns (r: Await<Reply<bool>>)
      requires Safe() && store.db == store.disk
      modifies this`placed, this`cancels, store, exchange
      ensures Safe() && store.db == store.disk && old(cancels) <= cancels
      ensures OnlyACloseAdded(old(placed), placed, old(store.minted)) && old(store.minted) <= store.minted
      ensures CloseKeeps(old(store.disk.settings), store.disk.settings)
      ensures r.Done? ==> r.value.Got?
      ensures CloseOutcome(stopAfter, Bare(r), old(store.disk), store.disk, old(placed), placed, cancels[|old(cancels)|..],
                           old(exchange.heard.views), exchange.heard)
    {
      hide Core, SlotNamesARow, CloseOutcome;
      ghost var a, p, seen := store.disk, placed, exchange.heard.views;
      var closed := ClosePosition(stopAfter);
      CloseIsTame(stopAfter, closed, a, store.disk, p, placed, cancels[|old(cancels)|..], seen, exchange.heard);
      r := if closed.Crashed? then Crashed else Done(Got(closed.value));
    }

    /** Any sequence of operations, each crashing at any of its awaits or not; after a crash nothing
        happens until a restart completes.  `Safe` speaks of the whole history: every order ever sent,
        every committed state and every position the exchange has held. */
    method Run(ops: seq<Operation>) returns (up: bool)
      requires Safe() && store.db == store.disk && Boundary(store.disk.settings)
      modifies this, store, exchange
      ensures Safe() && old(placed) <= placed
      ensures forall k :: |old(placed)| <= k < |placed| ==> old(store.minted) <= placed[k].cloid
      ensures (forall k :: 0 <= k < |ops| ==> !ClosesPosition(ops[k])) ==> KeepsHeld(old(store.disk), store.disk)
      ensures old(store.disk.settings.closing) && (forall k :: 0 <= k < |ops| ==> !OperatorCloses(ops[k])) ==>
                store.disk.settings.closing
      ensures up ==> Boundary(store.disk.settings)
    {
      hide Linked, PlacedOk, Lineage, SinglePosition, NeverFlips, Evolves, Passes;
      up := true;
      for k := 0 to |ops|
        invariant Safe() && store.db == store.disk && old(placed) <= placed && old(store.minted) <= store.minted
        invariant forall k :: |old(placed)| <= k < |placed| ==> old(store.minted) <= placed[k].cloid
        invariant up ==> Boundary(store.disk.settings)
        invariant (forall j :: 0 <= j < |ops| ==> !ClosesPosition(ops[j])) ==> KeepsHeld(old(store.disk), store.disk)
        invariant old(store.disk.settings.closing) && (forall j :: 0 <= j < |ops| ==> !OperatorCloses(ops[j])) ==> store.disk.settings.closing
      {
        if up || ops[k].Restart? {
          var outcome := Perform(ops[k]);
          up := outcome.Done?;
        }
      }
    }
  }
}
