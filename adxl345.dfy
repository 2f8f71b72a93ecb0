/** A reference description of the ADXL345 accelerometer's side of an SPI
    transfer, independent of the host code: the first byte on the wire is a
    command (bit 7 = read, bit 6 = multi-byte, bits 5..0 = register
    address); during a read the device answers one byte position after the
    command, with the first register and, for a multi-byte read, the
    following registers in turn; during a write the byte after the command
    is stored in the addressed register. The host-side framing is checked
    against this description in the `Spi` and `Accel` modules. */
module Adxl345 {
  import opened Bits

  // Register addresses of the ADXL345.
  const DEVID: Byte := 0x00
  const POWER_CTL: Byte := 0x2D
  const DATA_FORMAT: Byte := 0x31
  const DATAX0: Byte := 0x32

  /** The value of the DEVID register of a genuine ADXL345. */
  const EXPECTED_ID: Byte := 0xE5

  /** Register contents, by address. */
  type RegFile = nat -> Byte

  predicate IsRead(cmd: Byte) { (cmd & 0x80) != 0 }
  predicate IsMultiByte(cmd: Byte) { (cmd & 0x40) != 0 }
  function Register(cmd: Byte): Byte { cmd & 0x3F }

  /** The bytes the device drives onto the bus while the host sends `tx`
      (same length as `tx`). Byte 0, and every byte of a write, is bus
      turnaround whose value the host cannot rely on (`junk`). */
  function Respond(regs: RegFile, tx: seq<Byte>, junk: Byte): (rx: seq<Byte>)
    requires |tx| >= 1
    ensures |rx| == |tx|
    ensures rx[0] == junk
    ensures IsRead(tx[0]) && !IsMultiByte(tx[0]) ==>
              forall k :: 1 <= k < |tx| ==> rx[k] == regs(Register(tx[0]) as nat)
    ensures IsRead(tx[0]) && IsMultiByte(tx[0]) ==>
              forall k :: 1 <= k < |tx| ==> rx[k] == regs(Register(tx[0]) as nat + k - 1)
  {
    seq(|tx|, k requires 0 <= k < |tx| =>
      if k == 0 || !IsRead(tx[0]) then junk
      else if IsMultiByte(tx[0]) then regs(Register(tx[0]) as nat + k - 1)
      else regs(Register(tx[0]) as nat))
  }

  /** The register file after a two-byte transfer `tx`: a write command
      stores its data byte, a read changes nothing. */
  function Apply(regs: RegFile, tx: seq<Byte>): (regs': RegFile)
    requires |tx| == 2
    ensures !IsRead(tx[0]) ==> regs'(Register(tx[0]) as nat) == tx[1]
    ensures forall i: nat :: i != Register(tx[0]) as nat ==> regs'(i) == regs(i)
    ensures IsRead(tx[0]) ==> forall i: nat :: regs'(i) == regs(i)
  {
    if IsRead(tx[0]) then regs
    else (i: nat) => if i == Register(tx[0]) as nat then tx[1] else regs(i)
  }
}
