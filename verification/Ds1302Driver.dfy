/** The bit-banged driver: three pins and the chip they are wired to. */
module Ds1302Driver {
  import opened Bits
  import opened Wrappers
  import opened Ds1302Chip

  const CMD_READ_CLOCK_BURST: byte := 0xBF
  const CMD_WRITE_CLOCK_BURST: byte := 0xBE
  const CMD_READ_RAM_BURST: byte := 0xFF
  const CMD_WRITE_RAM_BURST: byte := 0xFE

  const REG_SECONDS: byte := 0

  function CmdReadClock(reg: byte): byte { 0x80 + reg % 32 * 2 + 1 }

  function CmdWriteClock(reg: byte): byte { 0x80 + reg % 32 * 2 }

  function CmdReadRam(addr: byte): byte { 0x80 + 0x40 + addr % 32 * 2 + 1 }

  function CmdWriteRam(addr: byte): byte { 0x80 + 0x40 + addr % 32 * 2 }

  function Min(a: nat, b: nat): nat { if a < b then a else b }

  /** Every command byte the driver sends selects the intended cell in the intended direction. */
  lemma CommandsSelectTheirCell(a: byte)
    ensures Decode(CmdReadClock(a)) == Read(Select(Clock, a % 32), 0, None)
    ensures Decode(CmdWriteClock(a)) == Write(Select(Clock, a % 32), [])
    ensures Decode(CmdReadRam(a)) == Read(Select(Ram, a % 32), 0, None)
    ensures Decode(CmdWriteRam(a)) == Write(Select(Ram, a % 32), [])
    ensures Decode(CMD_READ_CLOCK_BURST) == Read(Cursor(Clock, 0, true), 0, None)
    ensures Decode(CMD_WRITE_CLOCK_BURST) == Write(Cursor(Clock, 0, true), [])
    ensures Decode(CMD_READ_RAM_BURST) == Read(Cursor(Ram, 0, true), 0, None)
    ensures Decode(CMD_WRITE_RAM_BURST) == Write(Cursor(Ram, 0, true), [])
  {
  }

  lemma EightBits(value: byte)
    ensures AsByte(ToBits(value, 8)) == value
  {
    assert Pow2(8) == 256;
    FromToBits(value, 8);
  }

  /** One step of assembling a byte from the top: the bits read so far sit above empty ones. */
  lemma ShiftIn(bits: seq<bool>, i: nat)
    requires |bits| == 8 && i < 8
    ensures FromBits(bits[..i]) * Pow2(8 - i) / 2 + Digit(bits[i]) * 128
         == FromBits(bits[..i + 1]) * Pow2(7 - i)
  {
    assert bits[..i + 1] == bits[..i] + [bits[i]];
    FromBitsSnoc(bits[..i], bits[i]);
    Pow2Sum(i, 7 - i);
    assert Pow2(7) == 128;
    ShiftInArithmetic(FromBits(bits[..i]), Digit(bits[i]), Pow2(i), Pow2(7 - i));
  }

  lemma ShiftInArithmetic(f: nat, d: nat, q: nat, p: nat)
    requires d < 2 && q * p == 128
    ensures f * (2 * p) / 2 + d * 128 == (f + d * q) * p
  {
    assert f * (2 * p) == 2 * (f * p);
    if d == 1 {
      assert (f + q) * p == f * p + q * p;
    }
  }

  lemma {:induction false} Pow2Sum(a: nat, b: nat)
    ensures Pow2(a) * Pow2(b) == Pow2(a + b)
  {
    if a > 0 {
      Pow2Sum(a - 1, b);
      assert 2 * Pow2(a - 1) * Pow2(b) == 2 * (Pow2(a - 1) * Pow2(b));
    }
  }

  class Ds1302 {
    var clk: bool
    var io: bool
    var ce: bool
    var ioIsOutput: bool
    var chip: Chip
    // set for ever once the chip and the microcontroller drive the IO wire at the same time
    ghost var clash: bool

    /** Between transfers: the chip is not selected. */
    ghost predicate Ready()
      reads this
    {
      WellFormed(chip.mem) && !ce && chip.phase == Idle
    }

    /** What gpio_get_level sees on the IO wire. */
    function Line(): bool
      reads this
    {
      if ioIsOutput then io
      else chip.phase.Read? && chip.phase.line == Some(true)
    }

    method SetClk(level: bool)
      requires WellFormed(chip.mem)
      modifies this
      ensures clk == level
      ensures io == old(io) && ce == old(ce) && ioIsOutput == old(ioIsOutput)
      ensures chip == if !ce || level == old(clk) then old(chip)
                      else if level then Rise(old(chip), old(Line()))
                      else Fall(old(chip))
      ensures clash == (old(clash) || (Driving(chip) && ioIsOutput))
    {
      var line := Line();
      if ce && level != clk {
        chip := if level then Rise(chip, line) else Fall(chip);
      }
      clk := level;
      clash := clash || (Driving(chip) && ioIsOutput);
    }

    method SetIo(level: bool)
      modifies this`io
      ensures io == level
    {
      io := level;
    }

    method SetCe(level: bool)
      modifies this`ce, this`chip
      ensures ce == level && chip == ChipEnable(old(chip), old(ce), level)
    {
      chip := ChipEnable(chip, ce, level);
      ce := level;
    }

    method SetDirection(output: bool)
      modifies this`ioIsOutput, this`clash
      ensures ioIsOutput == output
      ensures clash == (old(clash) || (Driving(chip) && output))
    {
      ioIsOutput := output;
      clash := clash || (Driving(chip) && output);
    }

    method TransferBegin()
      requires Ready()
      modifies this
      ensures !clk && ce && ioIsOutput && clash == old(clash)
      ensures chip == Chip(old(chip.mem), Command([]))
    {
      SetClk(false);
      SetIo(false);
      SetDirection(true);
      SetCe(true);
    }

    method TransferEnd()
      requires WellFormed(chip.mem) && ce
      modifies this
      ensures Ready() && chip.mem == old(chip.mem) && clash == old(clash)
    {
      SetCe(false);
    }

    /** Sends the command byte; after a read command CLK stays high and the wire is released. */
    method WriteAddrCmd(value: byte)
      requires WellFormed(chip.mem) && chip.phase == Command([])
      requires ce && !clk && ioIsOutput
      modifies this
      ensures chip == Chip(old(chip.mem), Decode(value))
      ensures ce && clash == old(clash)
      ensures clk == (value % 2 == 1) && ioIsOutput == (value % 2 == 0)
    {
      hide ToBits, FromBits, Pow2, AsByte, Load;
      ghost var bits := ToBits(value, 8);
      EightBits(value);
      var i := 0;
      while i < 8
        invariant 0 <= i <= 8 && ce && clash == old(clash)
        invariant i < 8 ==> chip == Chip(old(chip.mem), Command(bits[..i])) && !clk && ioIsOutput
        invariant i == 8 ==> chip == Chip(old(chip.mem), Decode(value))
        invariant i == 8 ==> clk == (value % 2 == 1) && ioIsOutput == (value % 2 == 0)
      {
        BitAt(value, 8, i);
        assert bits[..i] + [bits[i]] == bits[..i + 1];
        assert i == 7 ==> bits[..i + 1] == bits;
        SetIo(value / Pow2(i) % 2 == 1);
        SetClk(true);
        if value % 2 == 1 && i == 7 {
          SetDirection(false);
        } else {
          SetClk(false);
        }
        i := i + 1;
      }
    }

    /** Shifts a byte out; the chip stores it in the cell its cursor is at. */
    method WriteByte(value: byte)
      requires WellFormed(chip.mem) && chip.phase.Write? && chip.phase.got == []
      requires ce && !clk && ioIsOutput
      modifies this
      ensures chip == WriteDone(old(chip), old(chip.phase.at), value)
      ensures ce && !clk && ioIsOutput && clash == old(clash)
    {
      hide ToBits, FromBits, Store, AsByte;
      ghost var bits := ToBits(value, 8);
      ghost var at := chip.phase.at;
      EightBits(value);
      var rest: nat := value;
      var i := 0;
      while i < 8
        invariant 0 <= i <= 8 && ce && !clk && ioIsOutput && clash == old(clash)
        invariant rest == value / Pow2(i)
        invariant i < 8 ==> chip == Chip(old(chip.mem), Write(at, bits[..i]))
        invariant i == 8 ==> chip == WriteDone(old(chip), at, value)
      {
        BitAt(value, 8, i);
        DivShift(value, i);
        assert bits[..i] + [bits[i]] == bits[..i + 1];
        assert i == 7 ==> bits[..i + 1] == bits;
        SetIo(rest % 2 == 1);
        rest := rest / 2;
        SetClk(true);
        SetClk(false);
        i := i + 1;
      }
    }

    /** Shifts a byte in from the cell the chip's cursor is at. */
    method ReadByte() returns (value: byte)
      requires WellFormed(chip.mem) && chip.phase.Read? && chip.phase.sent == 0
      requires ce && !ioIsOutput
      modifies this
      ensures value == Load(old(chip.mem), old(chip.phase.at))
      ensures chip.mem == old(chip.mem)
      ensures chip.phase.Read? && chip.phase.at == Next(old(chip.phase.at)) && chip.phase.sent == 0
      ensures ce && !ioIsOutput && clash == old(clash)
    {
      hide ToBits, Load, Store, Decode;
      ghost var at := chip.phase.at;
      ghost var stored := Load(chip.mem, at);
      ghost var bits := ToBits(stored, 8);
      value := 0;
      var i := 0;
      while i < 8
        invariant 0 <= i <= 8 && ce && !ioIsOutput && clash == old(clash)
        invariant chip.mem == old(chip.mem) && chip.phase.Read?
        invariant i < 8 ==> chip.phase.at == at && chip.phase.sent == i
        invariant i == 8 ==> chip.phase.at == Next(at) && chip.phase.sent == 0
        invariant value as nat == FromBits(bits[..i]) * Pow2(8 - i)
      {
        SetClk(true);
        SetClk(false);
        ShiftIn(bits, i);
        value := value / 2;
        if Line() {
          value := value + 128;  // bit 7 is clear after the shift
        }
        i := i + 1;
      }
      assert bits[..8] == bits;
      EightBits(stored);
      assert Pow2(0) == 1;
    }

    method WriteClockRegister(reg: byte, value: byte)
      requires Ready()
      modifies this
      ensures Ready() && clash == old(clash)
      ensures chip.mem == Store(old(chip.mem), Select(Clock, reg % 32), value)
    {
      CommandsSelectTheirCell(reg);
      TransferBegin();
      WriteAddrCmd(CmdWriteClock(reg));
      WriteByte(value);
      TransferEnd();
    }

    method ReadClockRegister(reg: byte) returns (value: byte)
      requires Ready()
      modifies this
      ensures Ready() && clash == old(clash) && chip.mem == old(chip.mem)
      ensures value == Load(old(chip.mem), Select(Clock, reg % 32))
    {
      CommandsSelectTheirCell(reg);
      TransferBegin();
      WriteAddrCmd(CmdReadClock(reg));
      value := ReadByte();
      TransferEnd();
    }

    /** Address 31 selects a burst, so the byte then lands in cell 0. */
    method WriteByteRam(addr: byte, value: byte)
      requires Ready()
      modifies this
      ensures Ready() && clash == old(clash)
      ensures chip.mem == Store(old(chip.mem), Select(Ram, addr % 32), value)
    {
      CommandsSelectTheirCell(addr);
      TransferBegin();
      WriteAddrCmd(CmdWriteRam(addr));
      WriteByte(value);
      TransferEnd();
    }

    method ReadByteRam(addr: byte) returns (value: byte)
      requires Ready()
      modifies this
      ensures Ready() && clash == old(clash) && chip.mem == old(chip.mem)
      ensures value == Load(old(chip.mem), Select(Ram, addr % 32))
    {
      CommandsSelectTheirCell(addr);
      TransferBegin();
      WriteAddrCmd(CmdReadRam(addr));
      value := ReadByte();
      TransferEnd();
    }

    method WriteBufferRam(buf: seq<byte>, len: byte)
      requires Ready() && Min(len, RAM_REGS) <= |buf|
      modifies this
      ensures Ready() && clash == old(clash)
      ensures var n := Min(len, RAM_REGS);
              chip.mem == if Protected(old(chip.mem)) then old(chip.mem)
                          else old(chip.mem).(ram := buf[..n] + old(chip.mem.ram)[n..])
    {
      CommandsSelectTheirCell(0);
      TransferBegin();
      WriteAddrCmd(CMD_WRITE_RAM_BURST);
      WriteAll(buf[..Min(len, RAM_REGS)]);
      TransferEnd();
      RamBurst(old(chip.mem), buf[..Min(len, RAM_REGS)], 0);
    }

    /** The loop of a burst write: one WriteByte per data byte. */
    method WriteAll(data: seq<byte>)
      requires WellFormed(chip.mem) && chip.phase.Write? && chip.phase.got == []
      requires chip.phase.at.burst && ce && !clk && ioIsOutput
      modifies this
      ensures WellFormed(chip.mem) && chip.mem == StoreAll(old(chip.mem), old(chip.phase.at), data)
      ensures ce && clash == old(clash)
    {
      ghost var at := chip.phase.at;
      var i := 0;
      while i < |data|
        invariant 0 <= i <= |data| && ce && !clk && ioIsOutput && clash == old(clash)
        invariant WellFormed(chip.mem)
        invariant chip.phase == Write(at.(addr := at.addr + i), [])
        invariant chip.mem == StoreAll(old(chip.mem), at, data[..i])
      {
        StoreAllSnoc(old(chip.mem), at, data[..i], data[i]);
        assert data[..i + 1] == data[..i] + [data[i]];
        WriteByte(data[i]);
        i := i + 1;
      }
      assert data[..i] == data;
    }

    /** The loop of a burst read into a buffer. */
    method ReadBuffer(buf: array<byte>, len: nat)
      requires WellFormed(chip.mem) && chip.phase.Read? && chip.phase.sent == 0
      requires chip.phase.at.burst && ce && !ioIsOutput
      requires len <= buf.Length
      modifies this, buf
      ensures forall k :: 0 <= k < len ==>
                buf[k] == Load(old(chip.mem), old(chip.phase.at).(addr := old(chip.phase.at.addr) + k))
      ensures buf[len..] == old(buf[len..])
      ensures chip.mem == old(chip.mem) && ce && clash == old(clash)
    {
      ghost var at := chip.phase.at;
      var i := 0;
      while i < len
        invariant 0 <= i <= len && ce && !ioIsOutput && clash == old(clash)
        invariant chip.mem == old(chip.mem)
        invariant chip.phase.Read? && chip.phase.at == at.(addr := at.addr + i) && chip.phase.sent == 0
        invariant forall k :: 0 <= k < i ==> buf[k] == Load(old(chip.mem), at.(addr := at.addr + k))
        invariant buf[len..] == old(buf[len..])
      {
        var value := ReadByte();
        buf[i] := value;
        i := i + 1;
      }
    }

    method ReadBufferRam(buf: array<byte>, len: byte)
      requires Ready() && Min(len, RAM_REGS) <= buf.Length
      modifies this, buf
      ensures Ready() && clash == old(clash) && chip.mem == old(chip.mem)
      ensures var n := Min(len, RAM_REGS);
              buf[..] == old(chip.mem.ram)[..n] + old(buf[n..])
    {
      CommandsSelectTheirCell(0);
      TransferBegin();
      WriteAddrCmd(CMD_READ_RAM_BURST);
      ReadBuffer(buf, Min(len, RAM_REGS));
      TransferEnd();
      ghost var n := Min(len, RAM_REGS);
      assert buf[..] == buf[..n] + buf[n..];
      assert buf[..n] == chip.mem.ram[..n];
    }
  }
}
