/**
 * The `ZaberShield` class: the SC16IS740 bridge presented as a byte stream.
 * Its own fields are the I2C address and the one-byte look-ahead; `chip` is
 * the bridge at the other end of the bus and `trace` the log of every register
 * transaction, so that the order of bus traffic can be stated. Each method
 * updates the fields in place and is proved to match the corresponding
 * function of ShieldModel.
 */
module Shield {
  import opened Sc16is740
  import M = ShieldModel

  class ZaberShield {
    const i2cAddress: bv8
    var peekBuffer: int
    var peekFlag: bool
    var chip: Chip
    var trace: seq<M.Transaction>

    /** The object's state as a value of the model. */
    function State(): M.Port
      reads this
    {
      M.Port(i2cAddress, peekBuffer, peekFlag, chip, trace)
    }

    ghost predicate Valid()
      reads this
    {
      M.Valid(State())
    }

    /** The 8-bit bus address given by the jumpers is stored shifted right by one (7-bit form). */
    constructor (address: bv8, wired: Chip)
      requires wired.Valid()
      ensures Valid()
      ensures State() == M.Port(address >> 1, 0, false, wired, [])
    {
      i2cAddress := address >> 1;
      peekBuffer := 0;
      peekFlag := false;
      chip := wired;
      trace := [];
    }

    /** One read transaction: send the sub-address `reg << 3`, then take one byte back. */
    method ReadRegister(reg: bv8) returns (v: bv8)
      requires Valid()
      modifies this
      ensures Valid()
      ensures M.Step(v, State()) == M.ReadRegister(old(State()), reg)
    {
      var sub := SubAddress(reg);
      v := ReadValue(chip, Register(sub));
      chip := AfterRead(chip, Register(sub));
      trace := trace + [M.RegRead(i2cAddress, sub, v)];
    }

    /** One write transaction: the sub-address `reg << 3`, then the data byte. */
    method WriteRegister(reg: bv8, val: bv8)
      requires Valid()
      modifies this
      ensures Valid()
      ensures State() == M.WriteRegister(old(State()), reg, val)
    {
      var sub := SubAddress(reg);
      chip := AfterWrite(chip, Register(sub), val);
      trace := trace + [M.RegWrite(i2cAddress, sub, val)];
    }

    method FifoAvailableData() returns (level: bv8)
      requires Valid()
      modifies this
      ensures Valid()
      ensures M.Step(level, State()) == M.FifoAvailableData(old(State()))
    {
      level := ReadRegister(RXLVL);
    }

    method FifoAvailableSpace() returns (space: bv8)
      requires Valid()
      modifies this
      ensures Valid()
      ensures M.Step(space, State()) == M.FifoAvailableSpace(old(State()))
    {
      space := ReadRegister(TXLVL);
    }

    method ReadByte() returns (r: int)
      requires Valid()
      modifies this
      ensures Valid()
      ensures M.Step(r, State()) == M.ReadByte(old(State()))
    {
      var level := FifoAvailableData();
      if level == 0 {
        r := -1;
      } else {
        var val := ReadRegister(RHR);
        r := val as int;
      }
    }

    method Available() returns (count: int)
      requires Valid()
      modifies this
      ensures Valid()
      ensures M.Step(count, State()) == M.Available(old(State()))
    {
      var level := FifoAvailableData();
      count := level as int;
      if peekFlag {
        count := count + 1;
      }
    }

    method Peek() returns (r: int)
      requires Valid()
      modifies this
      ensures Valid()
      ensures M.Step(r, State()) == M.Peek(old(State()))
    {
      if !peekFlag {
        peekBuffer := ReadByte();
        if peekBuffer >= 0 {
          peekFlag := true;
        }
      }
      r := peekBuffer;
    }

    method Read() returns (r: int)
      requires Valid()
      modifies this
      ensures Valid()
      ensures M.Step(r, State()) == M.Read(old(State()))
    {
      if !peekFlag {
        r := ReadByte();
      } else {
        peekFlag := false;
        r := peekBuffer;
      }
    }

    method AvailableForWrite() returns (space: int)
      requires Valid()
      modifies this
      ensures Valid()
      ensures 0 <= space < 256 && M.Step(space as bv8, State()) == M.FifoAvailableSpace(old(State()))
    {
      var level := FifoAvailableSpace();
      space := level as int;
    }

    /** Spin on LSR until the THR-empty bit is set (the source's do-while loop). */
    method Flush()
      requires Valid()
      modifies this
      ensures Valid()
      ensures State() == M.Flush(old(State()))
    {
      ghost var goal := M.Flush(State());
      var lsr := ReadRegister(LSR);
      while lsr & LsrThrEmpty == 0
        invariant Valid()
        invariant goal == if lsr & LsrThrEmpty == 0 then M.Flush(State()) else State()
        decreases |chip.lsr| + if lsr & LsrThrEmpty == 0 then 1 else 0
      {
        lsr := ReadRegister(LSR);
      }
    }

    /** The same spin as `Flush`, then the byte goes to THR. */
    method WriteByte(val: bv8)
      requires Valid()
      modifies this
      ensures Valid()
      ensures State() == M.WriteByte(old(State()), val)
    {
      ghost var ready := M.Flush(State());
      var lsr := ReadRegister(LSR);
      while lsr & LsrThrEmpty == 0
        invariant Valid()
        invariant ready == if lsr & LsrThrEmpty == 0 then M.Flush(State()) else State()
        decreases |chip.lsr| + if lsr & LsrThrEmpty == 0 then 1 else 0
      {
        lsr := ReadRegister(LSR);
      }
      WriteRegister(THR, val);
    }

    method Write(data: bv8) returns (n: int)
      requires Valid()
      modifies this
      ensures Valid()
      ensures M.Step(n, State()) == M.Write(old(State()), data)
    {
      WriteByte(data);
      n := 1;
    }

    method SetBaudrate(baudrate: nat)
      requires Valid() && baudrate < 0x1_0000_0000 && M.BaudDenominator(baudrate) != 0
      modifies this
      ensures Valid()
      ensures State() == M.SetBaudrate(old(State()), baudrate)
    {
      var mcr := ReadRegister(MCR);
      var prescaler := if mcr & McrClockDivisor == 0 then 1 else 4;
      var divisor := M.Divisor(prescaler, baudrate) as bv16;
      var lcr := ReadRegister(LCR);
      lcr := lcr | LcrLatchEnable;
      WriteRegister(LCR, lcr);
      WriteRegister(DLL, M.DivisorLow(divisor));
      WriteRegister(DLH, M.DivisorHigh(divisor));
      lcr := lcr & !LcrLatchEnable;
      WriteRegister(LCR, lcr);
    }

    method SetLcr()
      requires Valid()
      modifies this
      ensures Valid()
      ensures State() == M.SetLcr(old(State()))
    {
      var lcr := ReadRegister(LCR);
      lcr := lcr & (LcrLatchEnable | LcrSetBreak);
      lcr := lcr | LcrWordLength8;
      WriteRegister(LCR, lcr);
    }

    method ResetDevice()
      requires Valid()
      modifies this
      ensures Valid()
      ensures State() == M.ResetDevice(old(State()))
    {
      var fcr: bv8 := 0;
      var iir := ReadRegister(IIR);
      if iir & IirFifoEnable != 0 {
        fcr := 1;
      }
      fcr := fcr | FcrRxFifoReset | FcrTxFifoReset;
      WriteRegister(FCR, fcr);
    }

    method FifoEnable(enable: bv8)
      requires Valid()
      modifies this
      ensures Valid()
      ensures State() == M.FifoEnable(old(State()), enable)
    {
      var fcr: bv8 := 0;
      if enable != 0 {
        fcr := fcr | FcrFifoEnable;
      }
      WriteRegister(FCR, fcr);
    }

    method Begin(baudrate: nat)
      requires Valid() && baudrate < 0x1_0000_0000 && M.BaudDenominator(baudrate) != 0
      modifies this
      ensures Valid()
      ensures State() == M.Begin(old(State()), baudrate)
    {
      ResetDevice();
      FifoEnable(1);
      SetBaudrate(baudrate);
      SetLcr();
    }
  }
}
