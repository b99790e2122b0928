/**
 * What the Zaber shield driver promises its callers, proved about the
 * state-machine model: the look-ahead rules of peek/read/available and the
 * register sequence `begin` puts on the bus.
 */
module ShieldProperties {
  import opened Sc16is740
  import opened ShieldModel

  /**
   * Peeking twice gives the same answer. Once a byte is pending, the second
   * peek changes nothing at all (no bus traffic); when the FIFO was empty,
   * nothing is left pending.
   */
  lemma PeekIsIdempotent(p: Port)
    requires Valid(p)
    ensures var first := Peek(p);
      && Peek(first.next).value == first.value
      && (first.value >= 0 ==> first.next.peekFlag && Peek(first.next) == first)
      && (first.value == -1 ==> !first.next.peekFlag)
  {
    var first := Peek(p);
    if !p.peekFlag && p.chip.rx == [] {
      assert first.next.chip == p.chip;
    }
  }

  /**
   * A read after a peek returns the peeked byte and leaves nothing pending;
   * the pair has the same effect on the chip and the bus as a read alone.
   */
  lemma ReadAfterPeek(p: Port)
    requires Valid(p)
    ensures var peeked := Peek(p);
      var after := Read(peeked.next);
      && after.value == peeked.value
      && !after.next.peekFlag
      && after.value == Read(p).value
      && (peeked.value >= 0 ==> after.next.chip == Read(p).next.chip && after.next.trace == Read(p).next.trace)
  {
    var peeked := Peek(p);
    if peeked.value == -1 {
      assert peeked.next.chip == p.chip;
    }
  }

  /**
   * `available()` drops by exactly one across a peek followed by a read when
   * something was available, and stays 0 otherwise, with the divisor latch
   * closed, as `begin` leaves it. With the latch open, a peek that has to
   * read takes DLL and leaves the FIFO alone, so only a byte that was
   * already pending is used up.
   */
  lemma AvailableAfterPeekThenRead(p: Port)
    requires Valid(p)
    ensures var before := Available(p);
      var after := Available(Read(Peek(before.next).next).next);
      !p.chip.LatchEnabled() ==> after.value == if before.value > 0 then before.value - 1 else 0
    ensures var before := Available(p);
      var after := Available(Read(Peek(before.next).next).next);
      p.chip.LatchEnabled() ==> after.value == if p.peekFlag then before.value - 1 else before.value
  {
    var before := Available(p);
    var peeked := Peek(before.next);
    var read := Read(peeked.next);
    if p.peekFlag {
      assert read.next.chip == p.chip;
    } else if p.chip.rx != [] && !p.chip.LatchEnabled() {
      assert read.next.chip.rx == p.chip.rx[1..];
    } else {
      assert read.next.chip == p.chip;
    }
  }

  /**
   * The first half of `begin`: after the FIFO reset and the FIFO enable, both
   * FIFOs are empty, MCR and LCR are as they were, and the bus saw the IIR
   * read and the two FCR writes.
   */
  lemma ResetThenEnable(p: Port)
    requires Valid(p)
    ensures var q := FifoEnable(ResetDevice(p), 1);
      && Valid(q) && SameDriver(p, q)
      && q.chip.rx == [] && q.chip.tx == [] && q.chip.FifoEnabled()
      && q.chip.mcr == p.chip.mcr && q.chip.lcr == p.chip.lcr
      && q.trace == p.trace
      + [RegRead(p.address, SubAddress(IIR), p.chip.iir),
         RegWrite(p.address, SubAddress(FCR), ResetFcrValue(p.chip.iir)),
         RegWrite(p.address, SubAddress(FCR), FcrFifoEnable)]
  {
  }

  /**
   * `begin(baudrate)` puts exactly these transactions on the bus, in this
   * order: read IIR, reset both FIFOs keeping the FIFO-enable state, enable
   * the FIFOs, the baud-rate sequence, then the 8N1 line format.
   */
  lemma BeginSequence(p: Port, baud: nat)
    requires Valid(p) && baud < 0x1_0000_0000 && BaudDenominator(baud) != 0
    ensures var a, lcr := p.address, p.chip.lcr;
      var d := Divisor(Prescaler(p.chip.mcr), baud) as bv16;
      Begin(p, baud).trace == p.trace
      + [RegRead(a, SubAddress(IIR), p.chip.iir),
         RegWrite(a, SubAddress(FCR), ResetFcrValue(p.chip.iir)),
         RegWrite(a, SubAddress(FCR), FcrFifoEnable)]
      + [RegRead(a, SubAddress(MCR), p.chip.mcr),
         RegRead(a, SubAddress(LCR), lcr),
         RegWrite(a, SubAddress(LCR), SetLatch(lcr)),
         RegWrite(a, SubAddress(DLL), DivisorLow(d)),
         RegWrite(a, SubAddress(DLH), DivisorHigh(d)),
         RegWrite(a, SubAddress(LCR), ClearLatch(SetLatch(lcr)))]
      + [RegRead(a, SubAddress(LCR), ClearLatch(lcr)),
         RegWrite(a, SubAddress(LCR), LineFormat8N1(ClearLatch(lcr)))]
  {
    var a, lcr := p.address, p.chip.lcr;
    var d := Divisor(Prescaler(p.chip.mcr), baud) as bv16;
    var p2 := FifoEnable(ResetDevice(p), 1);
    ResetThenEnable(p);
    var p3 := SetBaudrate(p2, baud);
    assert p3.chip.lcr == ClearLatch(lcr);
    var start := [
        RegRead(a, SubAddress(IIR), p.chip.iir),
        RegWrite(a, SubAddress(FCR), ResetFcrValue(p.chip.iir)),
        RegWrite(a, SubAddress(FCR), FcrFifoEnable)];
    var baudrate := [
        RegRead(a, SubAddress(MCR), p.chip.mcr),
        RegRead(a, SubAddress(LCR), lcr),
        RegWrite(a, SubAddress(LCR), SetLatch(lcr)),
        RegWrite(a, SubAddress(DLL), DivisorLow(d)),
        RegWrite(a, SubAddress(DLH), DivisorHigh(d)),
        RegWrite(a, SubAddress(LCR), ClearLatch(SetLatch(lcr)))];
    var format := [RegRead(a, SubAddress(LCR), ClearLatch(lcr)), RegWrite(a, SubAddress(LCR), LineFormat8N1(ClearLatch(lcr)))];
    assert p3.trace == p.trace + start + baudrate;
    assert Begin(p, baud).trace == p.trace + start + baudrate + format;
  }

  /**
   * After `begin`, the chip is ready to be used as a byte stream: both FIFOs
   * are empty and enabled, the divisor latch is closed, the line format is
   * 8N1 with the break bit as it was, and DLH:DLL hold the divisor.
   */
  lemma BeginLeavesChipReady(p: Port, baud: nat)
    requires Valid(p) && baud < 0x1_0000_0000 && BaudDenominator(baud) != 0
    ensures var c := Begin(p, baud).chip;
      var d := Divisor(Prescaler(p.chip.mcr), baud) as bv16;
      && c.rx == [] && c.tx == []
      && c.FifoEnabled()
      && !c.LatchEnabled()
      && c.lcr == (p.chip.lcr & LcrSetBreak) | LcrWordLength8
      && (c.dlh as bv16 << 8) | c.dll as bv16 == d
      && c.mcr == p.chip.mcr
  {
    var p1 := ResetDevice(p);
    var p2 := FifoEnable(p1, 1);
    assert p2.chip.mcr == p.chip.mcr && p2.chip.lcr == p.chip.lcr;
    assert p2.chip.rx == [] && p2.chip.tx == [];
    var p3 := SetBaudrate(p2, baud);
    assert p3.chip.lcr == ClearLatch(p.chip.lcr);
  }

  /**
   * The divisors for the Zaber default of 115200 baud and for 9600 baud with
   * the prescaler at 1: 24 MHz / (16 * rate), rounded down.
   */
  lemma DivisorAtCommonRates()
    ensures Divisor(1, 115200) == 13
    ensures Divisor(1, 9600) == 156
    ensures Divisor(4, 9600) == 39
  {
  }

  /**
   * The quotient no longer fits the 16-bit divisor below 23 baud with the
   * prescaler at 1, and below 6 baud with it at 4; only its low 16 bits reach
   * DLL/DLH. At 22 baud (prescaler 1) the chip gets 2645 instead of 68181,
   * at 5 baud (prescaler 4) 9464 instead of 75000, while 6 baud still fits.
   */
  lemma DivisorTruncatedAtLowRates()
    ensures CrystalFreq / (22 * 16) == 68181
    ensures Divisor(1, 22) == 2645
    ensures Divisor(1, 23) == CrystalFreq / (23 * 16) == 65217
    ensures (CrystalFreq / 4) / (5 * 16) == 75000
    ensures Divisor(4, 5) == 9464
    ensures Divisor(4, 6) == (CrystalFreq / 4) / (6 * 16) == 62500
  {
  }
}
