/**
 * The Zaber shield driver as a state machine over values: a `Port` is the
 * driver's own state (I2C address, one-byte look-ahead and its flag) together
 * with the chip on the other end of the bus and the log of every register
 * transaction so far. Each operation of the driver is a function from the
 * port before to the value returned and the port after; the class in module
 * Shield is proved to do exactly what these functions say.
 */
module ShieldModel {
  import opened Sc16is740

  /** One register access on the I2C bus: device address, sub-address byte, data byte. */
  datatype Transaction =
    | RegRead(address: bv8, sub: bv8, value: bv8)
    | RegWrite(address: bv8, sub: bv8, value: bv8)

  datatype Port = Port(address: bv8, peekBuffer: int, peekFlag: bool, chip: Chip, trace: seq<Transaction>)

  /** What an operation returns, and the port after it. */
  datatype Step<T> = Step(value: T, next: Port)

  /** A pending look-ahead byte is a real byte, and the chip is consistent. */
  predicate Valid(p: Port) {
    p.chip.Valid() && (p.peekFlag ==> 0 <= p.peekBuffer < 256)
  }

  /** The look-ahead state and the address are left alone. */
  predicate SameDriver(p: Port, q: Port) {
    q.address == p.address && q.peekBuffer == p.peekBuffer && q.peekFlag == p.peekFlag
  }

  // ---------------------------------------------------------------------------
  // Register access: one bus transaction each.

  function ReadRegister(p: Port, reg: bv8): (r: Step<bv8>)
    requires Valid(p)
    ensures Valid(r.next) && SameDriver(p, r.next)
    ensures r.next.trace == p.trace + [RegRead(p.address, SubAddress(reg), r.value)]
    ensures reg < 0x10 ==> r.value == ReadValue(p.chip, reg) && r.next.chip == AfterRead(p.chip, reg)
  {
    var sub := SubAddress(reg);
    var v := ReadValue(p.chip, Register(sub));
    Step(v, p.(chip := AfterRead(p.chip, Register(sub)), trace := p.trace + [RegRead(p.address, sub, v)]))
  }

  function WriteRegister(p: Port, reg: bv8, v: bv8): (q: Port)
    requires Valid(p)
    ensures Valid(q) && SameDriver(p, q)
    ensures q.trace == p.trace + [RegWrite(p.address, SubAddress(reg), v)]
    ensures reg < 0x10 ==> q.chip == AfterWrite(p.chip, reg, v)
  {
    var sub := SubAddress(reg);
    p.(chip := AfterWrite(p.chip, Register(sub), v), trace := p.trace + [RegWrite(p.address, sub, v)])
  }

  // ---------------------------------------------------------------------------
  // FIFO levels and single bytes.

  /** The RX FIFO fill level, as the chip reports it in RXLVL. */
  function FifoAvailableData(p: Port): (r: Step<bv8>)
    requires Valid(p)
    ensures Valid(r.next) && SameDriver(p, r.next) && r.next.chip == p.chip
    ensures r.value as int == |p.chip.rx|
    ensures r.next.trace == p.trace + [RegRead(p.address, SubAddress(RXLVL), r.value)]
  {
    ReadRegister(p, RXLVL)
  }

  /** The TX FIFO free space, as the chip reports it in TXLVL. */
  function FifoAvailableSpace(p: Port): (r: Step<bv8>)
    requires Valid(p)
    ensures Valid(r.next) && SameDriver(p, r.next) && r.next.chip == p.chip
    ensures r.value == p.chip.txlvl
    ensures r.next.trace == p.trace + [RegRead(p.address, SubAddress(TXLVL), r.value)]
  {
    ReadRegister(p, TXLVL)
  }

  /**
   * One byte straight from the RX FIFO: -1 without touching RHR when RXLVL
   * is 0, otherwise the RHR value. With the divisor latch closed that is the
   * head of the FIFO, which the read pops; with it open, register 0 is DLL
   * and the FIFO is left as it was.
   */
  function ReadByte(p: Port): (r: Step<int>)
    requires Valid(p)
    ensures Valid(r.next) && SameDriver(p, r.next)
    ensures r.value == -1 <==> p.chip.rx == []
    ensures -1 <= r.value < 256
    ensures p.chip.rx == [] ==>
      r.next.chip == p.chip && r.next.trace == p.trace + [RegRead(p.address, SubAddress(RXLVL), 0)]
    ensures p.chip.rx != [] && !p.chip.LatchEnabled() ==>
      && r.value == p.chip.rx[0] as int
      && r.next.chip == p.chip.(rx := p.chip.rx[1..])
      && r.next.trace == p.trace + [RegRead(p.address, SubAddress(RXLVL), |p.chip.rx| as bv8),
                                    RegRead(p.address, SubAddress(RHR), p.chip.rx[0])]
    ensures p.chip.rx != [] && p.chip.LatchEnabled() ==>
      && r.value == p.chip.dll as int
      && r.next.chip == p.chip
      && r.next.trace == p.trace + [RegRead(p.address, SubAddress(RXLVL), |p.chip.rx| as bv8),
                                    RegRead(p.address, SubAddress(RHR), p.chip.dll)]
  {
    var level := FifoAvailableData(p);
    if level.value == 0 then Step(-1, level.next)
    else
      var data := ReadRegister(level.next, RHR);
      Step(data.value as int, data.next)
  }

  /** `available()`: the RXLVL count, plus one for a pending look-ahead byte. */
  function Available(p: Port): (r: Step<int>)
    requires Valid(p)
    ensures Valid(r.next) && SameDriver(p, r.next) && r.next.chip == p.chip
    ensures r.value == |p.chip.rx| + (if p.peekFlag then 1 else 0)
    ensures r.next.trace == p.trace + [RegRead(p.address, SubAddress(RXLVL), |p.chip.rx| as bv8)]
  {
    var level := FifoAvailableData(p);
    Step(level.value as int + if p.peekFlag then 1 else 0, level.next)
  }

  /**
   * `peek()`: with a byte pending, return it without any bus traffic;
   * otherwise fetch one byte and keep it pending only if it is a real byte.
   */
  function Peek(p: Port): (r: Step<int>)
    requires Valid(p)
    ensures Valid(r.next) && r.next.address == p.address
    ensures p.peekFlag ==> r == Step(p.peekBuffer, p)
    ensures !p.peekFlag ==>
      && r.value == ReadByte(p).value
      && r.next == ReadByte(p).next.(peekBuffer := r.value, peekFlag := r.value >= 0)
    ensures r.value == -1 <==> !p.peekFlag && p.chip.rx == []
  {
    if p.peekFlag then Step(p.peekBuffer, p)
    else
      var b := ReadByte(p);
      Step(b.value, b.next.(peekBuffer := b.value, peekFlag := b.value >= 0))
  }

  /** `read()`: the pending look-ahead byte if there is one (clearing the flag), else a direct FIFO read. */
  function Read(p: Port): (r: Step<int>)
    requires Valid(p)
    ensures Valid(r.next) && r.next.address == p.address && !r.next.peekFlag
    ensures p.peekFlag ==> r == Step(p.peekBuffer, p.(peekFlag := false))
    ensures !p.peekFlag ==> r == ReadByte(p)
  {
    if !p.peekFlag then ReadByte(p) else Step(p.peekBuffer, p.(peekFlag := false))
  }

  // ---------------------------------------------------------------------------
  // Transmit side.

  /**
   * `flush()`: read LSR until its THR-empty bit shows. Every read but the last
   * saw the bit clear, the last saw it set, and the reads replay the chip's
   * scripted LSR values in order.
   */
  function Flush(p: Port): (q: Port)
    requires Valid(p)
    ensures Valid(q) && SameDriver(p, q)
    ensures q.chip == p.chip.(lsr := q.chip.lsr)
    ensures |q.trace| > |p.trace| && q.trace[..|p.trace|] == p.trace
    ensures forall i :: |p.trace| <= i < |q.trace| ==>
      q.trace[i] == RegRead(p.address, SubAddress(LSR), q.trace[i].value)
    ensures forall i :: |p.trace| <= i < |q.trace| - 1 ==> q.trace[i].value & LsrThrEmpty == 0
    ensures q.trace[|q.trace| - 1].value & LsrThrEmpty != 0
    decreases |p.chip.lsr|
  {
    var status := ReadRegister(p, LSR);
    if status.value & LsrThrEmpty == 0 then Flush(status.next) else status.next
  }

  /** The values the spin logged are the first values of the LSR script, in order. */
  lemma {:induction false} FlushReplaysScript(p: Port)
    requires Valid(p)
    ensures var q := Flush(p);
      forall i :: |p.trace| <= i < |q.trace| && i - |p.trace| < |p.chip.lsr| ==>
        q.trace[i].value == p.chip.lsr[i - |p.trace|]
    decreases |p.chip.lsr|
  {
    var status := ReadRegister(p, LSR);
    if status.value & LsrThrEmpty == 0 {
      assert p.chip.lsr != [] && status.next.chip.lsr == p.chip.lsr[1..];
      FlushReplaysScript(status.next);
      var q := Flush(p);
      assert q == Flush(status.next) && |status.next.trace| == |p.trace| + 1;
      forall i | |p.trace| <= i < |q.trace| && i - |p.trace| < |p.chip.lsr|
        ensures q.trace[i].value == p.chip.lsr[i - |p.trace|]
      {
        if i > |p.trace| {
          assert q.trace[i].value == status.next.chip.lsr[i - |status.next.trace|];
        } else {
          assert q.trace[..|status.next.trace|] == status.next.trace;
          assert q.trace[i] == status.next.trace[i];
        }
      }
    }
  }

  /**
   * The spin consumes exactly the readings it made: what is left of the LSR
   * script is the part after them (nothing once the script ran out).
   */
  lemma {:induction false} FlushConsumesReadings(p: Port)
    requires Valid(p)
    ensures var q := Flush(p);
      var polls := |q.trace| - |p.trace|;
      q.chip.lsr == if polls <= |p.chip.lsr| then p.chip.lsr[polls..] else []
    decreases |p.chip.lsr|
  {
    var status := ReadRegister(p, LSR);
    if status.value & LsrThrEmpty == 0 {
      assert p.chip.lsr != [] && status.next.chip.lsr == p.chip.lsr[1..];
      FlushConsumesReadings(status.next);
      var later := |Flush(p).trace| - |status.next.trace|;
      assert later < |p.chip.lsr| ==> p.chip.lsr[1..][later..] == p.chip.lsr[later + 1..];
    }
  }

  /** `WriteByte`: the same LSR spin as `flush`, then one write of the byte to THR. */
  function WriteByte(p: Port, b: bv8): (q: Port)
    requires Valid(p)
    ensures Valid(q) && SameDriver(p, q)
    ensures |q.trace| >= |p.trace| + 2 && q.trace[..|p.trace|] == p.trace
    ensures q.trace[|q.trace| - 1] == RegWrite(p.address, SubAddress(THR), b)
    ensures q.trace[|q.trace| - 2].RegRead? && q.trace[|q.trace| - 2].sub == SubAddress(LSR)
    ensures q.trace[|q.trace| - 2].value & LsrThrEmpty != 0
    ensures q.trace == Flush(p).trace + [RegWrite(p.address, SubAddress(THR), b)]
    ensures !p.chip.LatchEnabled() ==> q.chip == p.chip.(lsr := Flush(p).chip.lsr, tx := p.chip.tx + [b])
    ensures p.chip.LatchEnabled() ==> q.chip == p.chip.(lsr := Flush(p).chip.lsr, dll := b)
  {
    WriteRegister(Flush(p), THR, b)
  }

  /** `write(data)`: always reports one byte written. */
  function Write(p: Port, b: bv8): (r: Step<int>)
    requires Valid(p)
    ensures r.value == 1
    ensures Valid(r.next) && SameDriver(p, r.next)
    ensures r.next == WriteByte(p, b)
  {
    Step(1, WriteByte(p, b))
  }

  // ---------------------------------------------------------------------------
  // Initialisation.

  /** The clock prescaler MCR bit 7 selects. */
  function Prescaler(mcr: bv8): (n: nat)
    ensures n == 1 || n == 4
    ensures n == 4 <==> mcr & McrClockDivisor != 0
  {
    if mcr & McrClockDivisor == 0 then 1 else 4
  }

  /** `baudrate * 16` computed in 32-bit unsigned arithmetic. */
  function BaudDenominator(baud: nat): nat {
    (baud * 16) % 0x1_0000_0000
  }

  /**
   * The divisor `(F / prescaler) / (baudrate * 16)`, truncated toward zero and
   * stored in 16 bits. When nothing wraps it is the exact truncated quotient.
   */
  function Divisor(prescaler: nat, baud: nat): (d: nat)
    requires prescaler == 1 || prescaler == 4
    requires BaudDenominator(baud) != 0
    ensures d < 0x10000
    ensures baud * 16 < 0x1_0000_0000 && CrystalFreq / prescaler < 0x10000 * (baud * 16) ==>
      d * (baud * 16) <= CrystalFreq / prescaler < (d + 1) * (baud * 16)
  {
    var x := CrystalFreq / prescaler;
    if baud * 16 < 0x1_0000_0000 then
      assert BaudDenominator(baud) == baud * 16;
      TruncatedQuotient(x, baud * 16);
      (x / (baud * 16)) % 0x10000
    else
      (x / BaudDenominator(baud)) % 0x10000
  }

  /** Truncated division brackets the dividend; a quotient below 2^16 survives the 16-bit store. */
  lemma TruncatedQuotient(x: nat, y: nat)
    requires y > 0
    ensures x < 0x10000 * y ==> (x / y) % 0x10000 == x / y
    ensures (x / y) * y <= x < (x / y + 1) * y
  {
    var q, r := x / y, x % y;
    assert x == q * y + r;
    assert (q + 1) * y == q * y + y;
  }

  /** The bytes written to DLL and DLH: `(uint8_t)divisor` and `(uint8_t)(divisor >> 8)`. */
  function DivisorLow(d: bv16): (b: bv8)
    ensures b as bv16 == d & 0xFF
  {
    (d & 0xFF) as bv8
  }

  function DivisorHigh(d: bv16): (b: bv8)
    ensures (b as bv16 << 8) | DivisorLow(d) as bv16 == d
  {
    (d >> 8) as bv8
  }

  /** LCR with the divisor-latch bit set; every other bit kept. */
  function SetLatch(lcr: bv8): (r: bv8)
    ensures r & LcrLatchEnable != 0 && r & 0x7F == lcr & 0x7F
  {
    lcr | LcrLatchEnable
  }

  /** LCR with the divisor-latch bit cleared; every other bit kept. */
  function ClearLatch(lcr: bv8): (r: bv8)
    ensures r & LcrLatchEnable == 0 && r & 0x7F == lcr & 0x7F
  {
    lcr & !LcrLatchEnable
  }

  /**
   * `SetBaudrate`: read MCR for the prescaler, read LCR, set the latch bit,
   * write DLL then DLH, then clear the latch bit again.
   */
  function SetBaudrate(p: Port, baud: nat): (q: Port)
    requires Valid(p) && baud < 0x1_0000_0000 && BaudDenominator(baud) != 0
    ensures Valid(q) && SameDriver(p, q)
    ensures var a, d, lcr := p.address, Divisor(Prescaler(p.chip.mcr), baud) as bv16, p.chip.lcr;
      && q.trace == p.trace + [RegRead(a, SubAddress(MCR), p.chip.mcr),
                               RegRead(a, SubAddress(LCR), lcr),
                               RegWrite(a, SubAddress(LCR), SetLatch(lcr)),
                               RegWrite(a, SubAddress(DLL), DivisorLow(d)),
                               RegWrite(a, SubAddress(DLH), DivisorHigh(d)),
                               RegWrite(a, SubAddress(LCR), ClearLatch(SetLatch(lcr)))]
      && q.chip == p.chip.(lcr := ClearLatch(lcr), dll := DivisorLow(d), dlh := DivisorHigh(d))
  {
    var mcr := ReadRegister(p, MCR);
    var divisor := Divisor(Prescaler(mcr.value), baud) as bv16;
    var lcr := ReadRegister(mcr.next, LCR);
    var latched := SetLatch(lcr.value);
    var p1 := WriteRegister(lcr.next, LCR, latched);
    var p2 := WriteRegister(p1, DLL, DivisorLow(divisor));
    var p3 := WriteRegister(p2, DLH, DivisorHigh(divisor));
    assert mcr.value == p.chip.mcr && lcr.value == p.chip.lcr && lcr.next.chip == p.chip;
    assert p1.chip == p.chip.(lcr := latched) && p1.chip.LatchEnabled();
    assert p2.chip == p.chip.(lcr := latched, dll := DivisorLow(divisor));
    assert p3.chip == p.chip.(lcr := latched, dll := DivisorLow(divisor), dlh := DivisorHigh(divisor));
    assert ClearLatch(latched) == ClearLatch(p.chip.lcr);
    var q := WriteRegister(p3, LCR, ClearLatch(latched));
    var a := p.address;
    assert q.trace == p.trace + [RegRead(a, SubAddress(MCR), mcr.value)] + [RegRead(a, SubAddress(LCR), lcr.value)]
      + [RegWrite(a, SubAddress(LCR), latched)] + [RegWrite(a, SubAddress(DLL), DivisorLow(divisor))]
      + [RegWrite(a, SubAddress(DLH), DivisorHigh(divisor))] + [RegWrite(a, SubAddress(LCR), ClearLatch(latched))];
    assert divisor == Divisor(Prescaler(p.chip.mcr), baud) as bv16;
    assert q.trace == p.trace + [RegRead(a, SubAddress(MCR), p.chip.mcr),
                               RegRead(a, SubAddress(LCR), p.chip.lcr),
                               RegWrite(a, SubAddress(LCR), SetLatch(p.chip.lcr)),
                               RegWrite(a, SubAddress(DLL), DivisorLow(divisor)),
                               RegWrite(a, SubAddress(DLH), DivisorHigh(divisor)),
                               RegWrite(a, SubAddress(LCR), ClearLatch(SetLatch(p.chip.lcr)))];
    q
  }

  /** LCR for 8 data bits, no parity, one stop bit, keeping only the latch and break bits. */
  function LineFormat8N1(lcr: bv8): (r: bv8)
    ensures r & (LcrLatchEnable | LcrSetBreak) == lcr & (LcrLatchEnable | LcrSetBreak)
    ensures r & 0x3F == LcrWordLength8
  {
    (lcr & (LcrLatchEnable | LcrSetBreak)) | LcrWordLength8
  }

  /** `SetLCR`: read LCR, write back its 8N1 form. */
  function SetLcr(p: Port): (q: Port)
    requires Valid(p)
    ensures Valid(q) && SameDriver(p, q)
    ensures q.chip == p.chip.(lcr := LineFormat8N1(p.chip.lcr))
    ensures q.trace == p.trace + [RegRead(p.address, SubAddress(LCR), p.chip.lcr),
                                  RegWrite(p.address, SubAddress(LCR), LineFormat8N1(p.chip.lcr))]
  {
    var lcr := ReadRegister(p, LCR);
    WriteRegister(lcr.next, LCR, LineFormat8N1(lcr.value))
  }

  /** The FCR value `ResetDevice` writes: both FIFO-reset bits, and the FIFO-enable bit IIR reports. */
  function ResetFcrValue(iir: bv8): (r: bv8)
    ensures r & (FcrRxFifoReset | FcrTxFifoReset) == FcrRxFifoReset | FcrTxFifoReset
    ensures (r & FcrFifoEnable != 0) <==> (iir & IirFifoEnable != 0)
    ensures r & 0xF8 == 0
  {
    (if iir & IirFifoEnable != 0 then FcrFifoEnable else 0) | FcrRxFifoReset | FcrTxFifoReset
  }

  /** `ResetDevice`: read IIR, then reset both FIFOs keeping the FIFO-enable state. */
  function ResetDevice(p: Port): (q: Port)
    requires Valid(p)
    ensures Valid(q) && SameDriver(p, q)
    ensures q.chip.rx == [] && q.chip.tx == []
    ensures q.chip.FifoEnabled() == p.chip.FifoEnabled()
    ensures q.chip == p.chip.(rx := [], tx := [], iir := q.chip.iir) && q.chip.iir & 0x3F == p.chip.iir & 0x3F
    ensures q.trace == p.trace + [RegRead(p.address, SubAddress(IIR), p.chip.iir),
                                  RegWrite(p.address, SubAddress(FCR), ResetFcrValue(p.chip.iir))]
  {
    var iir := ReadRegister(p, IIR);
    WriteRegister(iir.next, FCR, ResetFcrValue(iir.value))
  }

  /** `FIFOEnable(e)`: FCR is written with the enable bit alone, or zero. */
  function FifoEnable(p: Port, enable: bv8): (q: Port)
    requires Valid(p)
    ensures Valid(q) && SameDriver(p, q)
    ensures q.chip.FifoEnabled() <==> enable != 0
    ensures q.chip == p.chip.(iir := q.chip.iir) && q.chip.iir & 0x3F == p.chip.iir & 0x3F
    ensures q.trace == p.trace + [RegWrite(p.address, SubAddress(FCR), if enable != 0 then FcrFifoEnable else 0)]
  {
    WriteRegister(p, FCR, if enable != 0 then FcrFifoEnable else 0)
  }

  /** `begin(baudrate)` after the bus itself is up. */
  function Begin(p: Port, baud: nat): (q: Port)
    requires Valid(p) && baud < 0x1_0000_0000 && BaudDenominator(baud) != 0
    ensures Valid(q) && SameDriver(p, q)
  {
    SetLcr(SetBaudrate(FifoEnable(ResetDevice(p), 1), baud))
  }
}
