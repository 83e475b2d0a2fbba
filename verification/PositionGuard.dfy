/** The single-position lock consulted before an opening order. */
module PositionGuard {
  import opened Enums

  datatype GuardInput = GuardInput(
    localSide: PositionSide,
    exchangeSide: PositionSide,
    hasUnknownOrders: bool,
    systemState: SystemState,
    configuredPair: string,
    targetPair: string,
    exchangeConnected: bool,
    hasForeignPositions: bool,
    hasOpenReservation: bool)

  datatype GuardResult =
    | Allowed
    | WrongPair | Disconnected | ForeignPosition | UnknownOrders | ReservationHeld
    | InRecovery | NotRunning | SideUnknown | LocalNotFlat | ExchangeNotFlat

  function CanOpenPosition(inp: GuardInput): GuardResult {
    if inp.targetPair != inp.configuredPair then WrongPair
    else if !inp.exchangeConnected then Disconnected
    else if inp.hasForeignPositions then ForeignPosition
    else if inp.hasUnknownOrders then UnknownOrders
    else if inp.hasOpenReservation then ReservationHeld
    else if inp.systemState == Recovery then InRecovery
    else if inp.systemState != Running then NotRunning
    else if inp.exchangeSide == UnknownSide || inp.localSide == UnknownSide then SideUnknown
    else if inp.localSide != Flat then LocalNotFlat
    else if inp.exchangeSide != Flat then ExchangeNotFlat
    else Allowed
  }

  predicate ReverseIsForbidden(local: PositionSide, signal: SignalType) {
    (local == Long && signal == ShortSignal) || (local == Short && signal == LongSignal)
  }

  /** The guard says yes exactly on the one state of the world in which an open is safe. */
  lemma GuardAllowsIffEveryLockIsOpen(inp: GuardInput)
    ensures CanOpenPosition(inp) == Allowed <==>
            && inp.targetPair == inp.configuredPair
            && inp.exchangeConnected
            && !inp.hasForeignPositions && !inp.hasUnknownOrders && !inp.hasOpenReservation
            && inp.systemState == Running
            && inp.localSide == Flat && inp.exchangeSide == Flat
  {
  }

  /** An open that the guard allows is never a reversal of the mirrored position. */
  lemma AllowedIsNeverAReverse(inp: GuardInput, signal: SignalType)
    requires CanOpenPosition(inp) == Allowed
    ensures !ReverseIsForbidden(inp.localSide, signal)
  {
  }
}
