/** The simulation's fixed parameters: the observation window, the number of
    Monte Carlo trials per flow and the number of tracked histogram buckets. */
module Params {
  /** Length of the observation window. */
  const T: nat := 4
  /** Number of trials each simulated flow runs. */
  const N: nat := 6000
  /** Number of tracked buckets: event counts 0 .. MAX-1. */
  const MAX: nat := T * 8 * 2
}
