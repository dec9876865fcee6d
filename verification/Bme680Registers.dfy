/** The BME680's register file and the bit fields the driver edits in it. */
module Bme680Registers {

  type Regs = r: seq<bv8> | |r| == 256 witness seq(256, _ => 0)

  const RES_HEAT_BASE := 0x5a
  const GAS_WAIT_BASE := 0x64
  const CTRL_GAS_1 := 0x71
  const CTRL_HUM := 0x72
  const CTRL_MEAS := 0x74
  const CONFIG := 0x75
  const MEAS_STATUS_0 := 0x1d
  const ID := 0xd0
  const CHIP_ID: bv8 := 0x61

  const NEW_DATA: bv8 := 0x80
  const MEASURING: bv8 := 0x20

  // Reading and replacing a field of a register byte, one pair for each field in use.

  function OsrT(r: bv8): bv8 { (r & 0xe0) >> 5 }

  function WithOsrT(r: bv8, v: bv8): bv8 { (r & !0xe0) | ((v << 5) & 0xe0) }

  function OsrP(r: bv8): bv8 { (r & 0x1c) >> 2 }

  function WithOsrP(r: bv8, v: bv8): bv8 { (r & !0x1c) | ((v << 2) & 0x1c) }

  function Mode(r: bv8): bv8 { r & 0x03 }

  function WithMode(r: bv8, v: bv8): bv8 { (r & !0x03) | (v & 0x03) }

  function OsrH(r: bv8): bv8 { r & 0x07 }

  function WithOsrH(r: bv8, v: bv8): bv8 { (r & !0x07) | (v & 0x07) }

  function Filter(r: bv8): bv8 { (r & 0x1c) >> 2 }

  function WithFilter(r: bv8, v: bv8): bv8 { (r & !0x1c) | ((v << 2) & 0x1c) }

  function NbConv(r: bv8): bv8 { r & 0x0f }

  function WithNbConv(r: bv8, v: bv8): bv8 { (r & !0x0f) | (v & 0x0f) }

  function RunGas(r: bv8): bool { r & 0x10 != 0 }

  function WithRunGas(r: bv8, on: bool): bv8 { (r & !0x10) | (if on then 0x10 else 0) }

  /** Each edit of the measurement control register sets its field and keeps the other two. */
  lemma CtrlMeasFields(r: bv8, v: bv8)
    requires v < 8
    ensures OsrT(WithOsrT(r, v)) == v && OsrP(WithOsrT(r, v)) == OsrP(r) && Mode(WithOsrT(r, v)) == Mode(r)
    ensures OsrP(WithOsrP(r, v)) == v && OsrT(WithOsrP(r, v)) == OsrT(r) && Mode(WithOsrP(r, v)) == Mode(r)
    ensures OsrT(WithMode(r, v)) == OsrT(r) && OsrP(WithMode(r, v)) == OsrP(r)
    ensures v < 4 ==> Mode(WithMode(r, v)) == v
  {
  }

  lemma SmallFields(r: bv8, v: bv8)
    requires v < 8
    ensures OsrH(WithOsrH(r, v)) == v && Filter(WithFilter(r, v)) == v
  {
  }

  lemma GasControlFields(v: bv8, on: bool)
    requires v < 16
    ensures NbConv(WithRunGas(WithNbConv(0, v), on)) == v
    ensures RunGas(WithRunGas(WithNbConv(0, v), on)) == on
  {
  }
}
