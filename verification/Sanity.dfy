/** What an inverter can physically report. */
module Sanity {
  import opened Trapezoids

  const MAX_PLAUSIBLE_POWER_W := 50000.0

  predicate PlausiblePower(x: real) { -MAX_PLAUSIBLE_POWER_W <= x <= MAX_PLAUSIBLE_POWER_W }

  predicate PlausibleVoltage(x: real) { 10.0 <= x <= 120.0 }

  predicate PlausibleCurrent(x: real) { 0.0 <= x <= 300.0 }

  /** The most that one integration step may add. */
  function MaxStepWh(elapsed: real): real { Max(MAX_PLAUSIBLE_POWER_W * elapsed / 3600.0, 100.0) }
}
