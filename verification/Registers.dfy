/** The registers of the accounting device, as device and driver number them: three of each class, five totals,
    and three that are not counters. */
module Registers {

  const CLASSES := 4
  const N_VARS := 3 * CLASSES + 8
  const N_COUNTERS := N_VARS - 3

  const TOTAL_ACT_TIME := 12
  const TOTAL_ACT_ENERGY := 13
  const TOTAL_CYCLES := 14
  const SLP_TIME := 15
  const SLP_ENERGY := 16
  const FAULT_STATUS := 17
  const FREQUENCY := 18
  const VOLTAGE := 19
}
