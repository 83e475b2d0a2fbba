/** Enumerations and status sets shared by the backend modules. */
module Enums {

  datatype SignalType = LongSignal | ShortSignal | CloseSignal | HoldSignal

  datatype PositionSide = Flat | Long | Short | UnknownSide

  datatype OrderSide = Buy | Sell

  datatype OrderStatus =
    | PendingSubmission | Submitting | Ack | Open | Partial | Filled | Rejected | Canceled | Unknown

  datatype SystemState =
    | Stopped | Starting | Connecting | Syncing | Reconciling | Recovery | Ready | Running | Error

  /** Attempted or about to be attempted, result not confirmed: blocks every new open. */
  predicate Unresolved(s: OrderStatus) {
    s in {PendingSubmission, Submitting, Unknown}
  }

  /** Statuses covered by the partial unique index on opening rows. */
  predicate Inflight(s: OrderStatus) {
    s in {PendingSubmission, Submitting, Ack, Open, Partial, Unknown}
  }

  predicate ConfirmedLive(s: OrderStatus) {
    s in {Ack, Open, Partial, Filled}
  }

  predicate Terminal(s: OrderStatus) {
    s in {Filled, Rejected, Canceled}
  }

  /** Rows returned by `list_open`. */
  predicate ListedOpen(s: OrderStatus) {
    s in {Open, Partial}
  }

  /** Opening rows returned by `list_reconcilable_opening`. */
  predicate Reconcilable(s: OrderStatus) {
    s in {Ack, Open, Partial}
  }

  /** The statuses split three ways: in-flight rows are exactly the ones that may still change. */
  lemma StatusSplit(s: OrderStatus)
    ensures Inflight(s) <==> !Terminal(s)
    ensures Inflight(s) <==> Unresolved(s) || Reconcilable(s)
    ensures ConfirmedLive(s) <==> Reconcilable(s) || s == Filled
    ensures ListedOpen(s) <==> Reconcilable(s) && s != Ack
  {
  }
}
