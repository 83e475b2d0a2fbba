/** Order size from the account and the settings. */
module Sizing {
  import opened Outcomes

  /** None where the source raises: no usable mid price, or nothing to spend. */
  function SizeFromSettings(equity: real, positionPercentage: real, mid: real): Option<real> {
    if mid <= 0.0 then None
    else
      var notional := equity * (positionPercentage / 100.0);
      if notional <= 0.0 then None else Some(notional / mid)
  }
}
