/**
 * A register-level model of the SC16IS740 I2C-to-UART bridge chip, as far as
 * the Zaber shield driver uses it: the register map, the divisor-latch switch
 * in LCR, the receive FIFO behind RHR and RXLVL, the transmit FIFO behind THR,
 * the FIFO-reset bits of FCR, and a finite script of line-status readings.
 */
module Sc16is740 {

  const CrystalFreq: nat := 24000000
  const RxFifoSize: nat := 64

  // Register numbers (the value before the shift into the I2C sub-address).
  const RHR: bv8 := 0x00    // receive holding register (head of the RX FIFO)
  const THR: bv8 := 0x00    // transmit holding register
  const DLL: bv8 := 0x00    // divisor latch, low byte (while LCR bit 7 is set)
  const DLH: bv8 := 0x01    // divisor latch, high byte (while LCR bit 7 is set)
  const IER: bv8 := 0x01    // interrupt enable (while LCR bit 7 is clear)
  const FCR: bv8 := 0x02    // FIFO control (write side)
  const IIR: bv8 := 0x02    // interrupt identification (read side)
  const LCR: bv8 := 0x03    // line control
  const MCR: bv8 := 0x04    // modem control
  const LSR: bv8 := 0x05    // line status
  const TXLVL: bv8 := 0x08  // transmit FIFO free space
  const RXLVL: bv8 := 0x09  // receive FIFO fill level

  // Bits.
  const LsrThrEmpty: bv8 := 0x20
  const McrClockDivisor: bv8 := 0x80
  const LcrLatchEnable: bv8 := 0x80
  const LcrSetBreak: bv8 := 0x40
  const LcrWordLength8: bv8 := 0x03
  const IirFifoEnable: bv8 := 0x80
  const FcrTxFifoReset: bv8 := 0x04
  const FcrRxFifoReset: bv8 := 0x02
  const FcrFifoEnable: bv8 := 0x01

  /** What LSR reads once the scripted readings are used up: THR and TX both empty. */
  const LsrIdle: bv8 := 0x60

  /**
   * The chip's state. `rx` is the receive FIFO (head first), `tx` the bytes
   * accepted through THR since the last transmit-FIFO reset, `lsr` the
   * successive values the line-status register will report.
   */
  datatype Chip = Chip(
    lcr: bv8, mcr: bv8, iir: bv8, ier: bv8, dll: bv8, dlh: bv8, txlvl: bv8,
    rx: seq<bv8>, tx: seq<bv8>, lsr: seq<bv8>)
  {
    /** The receive FIFO never holds more than its 64 bytes. */
    predicate Valid() {
      |rx| <= RxFifoSize
    }

    /** While LCR bit 7 is set, sub-addresses 0 and 1 reach DLL and DLH instead of RHR/THR and IER. */
    predicate LatchEnabled() {
      lcr & LcrLatchEnable != 0
    }

    predicate FifoEnabled() {
      iir & IirFifoEnable != 0
    }
  }

  /** The I2C sub-address byte for a register: the register number shifted left by 3, in 8 bits. */
  function SubAddress(reg: bv8): (sub: bv8)
    ensures sub & 0x07 == 0
    ensures reg < 0x10 ==> Register(sub) == reg
  {
    reg << 3
  }

  /** The register a sub-address selects (bits 6..3; bits 2..1 select the channel, 0 on this chip). */
  function Register(sub: bv8): bv8 {
    (sub >> 3) & 0x0F
  }

  /** The byte a read of register `reg` returns. */
  function ReadValue(c: Chip, reg: bv8): (v: bv8)
    requires c.Valid()
    ensures reg == RXLVL ==> v as int == |c.rx|
    ensures reg == LSR && c.lsr == [] ==> v & LsrThrEmpty != 0
  {
    if reg == RHR then
      if c.LatchEnabled() then c.dll else if c.rx != [] then c.rx[0] else 0
    else if reg == IER then (if c.LatchEnabled() then c.dlh else c.ier)
    else if reg == IIR then c.iir
    else if reg == LCR then c.lcr
    else if reg == MCR then c.mcr
    else if reg == LSR then (if c.lsr == [] then LsrIdle else c.lsr[0])
    else if reg == TXLVL then c.txlvl
    else if reg == RXLVL then |c.rx| as bv8
    else 0
  }

  /** The chip after a read of `reg`: reading RHR pops the RX FIFO, reading LSR consumes one scripted reading. */
  function AfterRead(c: Chip, reg: bv8): (c': Chip)
    requires c.Valid()
    ensures c'.Valid()
    ensures reg != RHR && reg != LSR ==> c' == c
    ensures reg == LSR ==> c' == c.(lsr := if c.lsr == [] then [] else c.lsr[1..])
  {
    if reg == RHR && !c.LatchEnabled() && c.rx != [] then c.(rx := c.rx[1..])
    else if reg == LSR && c.lsr != [] then c.(lsr := c.lsr[1..])
    else c
  }

  /**
   * The chip after writing `v` to `reg`. A write to FCR clears the FIFOs whose
   * reset bits are set and mirrors the FIFO-enable bit into IIR bits 7..6.
   */
  function AfterWrite(c: Chip, reg: bv8, v: bv8): (c': Chip)
    requires c.Valid()
    ensures c'.Valid()
    ensures c'.lsr == c.lsr
  {
    if reg == THR then
      if c.LatchEnabled() then c.(dll := v) else c.(tx := c.tx + [v])
    else if reg == IER then
      if c.LatchEnabled() then c.(dlh := v) else c.(ier := v)
    else if reg == FCR then
      c.(rx := if v & FcrRxFifoReset != 0 then [] else c.rx,
         tx := if v & FcrTxFifoReset != 0 then [] else c.tx,
         iir := (c.iir & 0x3F) | (if v & FcrFifoEnable != 0 then 0xC0 else 0x00))
    else if reg == LCR then c.(lcr := v)
    else if reg == MCR then c.(mcr := v)
    else c
  }
}
