/**
 * The DS1302 as the driver sees it on its three wires. This automaton is the chip assumption of
 * the model: data bits are sampled on a rising CLK edge and driven on a falling one, least
 * significant bit first; a burst (address 31) moves to the next cell after each byte; a set
 * write-protect bit stops every burst and every single write but the one to its own register.
 */
module Ds1302Chip {
  import opened Bits
  import opened Wrappers

  const CLOCK_REGS := 9
  const CLOCK_BURST_REGS := 8
  const RAM_REGS := 31
  const BURST := 31
  const REG_WP := 7

  datatype Space = Clock | Ram

  datatype Memory = Memory(clock: seq<byte>, ram: seq<byte>)

  /** A cell selected by a command: its address and whether the access is a burst. */
  datatype Cursor = Cursor(space: Space, addr: nat, burst: bool)

  datatype Phase =
    | Idle
    | Command(got: seq<bool>)
    | Write(at: Cursor, got: seq<bool>)
    | Read(at: Cursor, sent: nat, line: Option<bool>)
    | Ignored

  datatype Chip = Chip(mem: Memory, phase: Phase)

  predicate WellFormed(m: Memory)
  {
    |m.clock| == CLOCK_REGS && |m.ram| == RAM_REGS
  }

  predicate Protected(m: Memory)
    requires WellFormed(m)
  {
    m.clock[REG_WP] >= 128
  }

  predicate HasCell(at: Cursor)
  {
    match at.space
    case Clock => at.addr < (if at.burst then CLOCK_BURST_REGS else CLOCK_REGS)
    case Ram => at.addr < RAM_REGS
  }

  /** A cell that does not exist reads as zero. */
  function Load(m: Memory, at: Cursor): byte
    requires WellFormed(m)
  {
    if !HasCell(at) then 0
    else if at.space == Clock then m.clock[at.addr]
    else m.ram[at.addr]
  }

  predicate Writable(m: Memory, at: Cursor)
    requires WellFormed(m)
  {
    HasCell(at) && (Protected(m) ==> at == Cursor(Clock, REG_WP, false))
  }

  function Store(m: Memory, at: Cursor, value: byte): (m': Memory)
    requires WellFormed(m)
    ensures WellFormed(m')
  {
    if !Writable(m, at) then m
    else if at.space == Clock then m.(clock := m.clock[at.addr := value])
    else m.(ram := m.ram[at.addr := value])
  }

  function Next(at: Cursor): Cursor
  {
    if at.burst then at.(addr := at.addr + 1) else at
  }

  /** What the eight bits of a command byte select; bit 7 must be set, bit 0 asks for a read. */
  function Select(space: Space, field: nat): Cursor
  {
    if field == BURST then Cursor(space, 0, true) else Cursor(space, field, false)
  }

  function Decode(cmd: byte): Phase
  {
    if cmd < 128 then Ignored
    else
      var at := Select(if cmd / 64 % 2 == 1 then Ram else Clock, cmd / 2 % 32);
      if cmd % 2 == 1 then Read(at, 0, None) else Write(at, [])
  }

  function AsByte(bits: seq<bool>): byte
    requires |bits| == 8
  {
    FromBitsBound(bits);
    assert Pow2(8) == 256;
    FromBits(bits)
  }

  function Rise(c: Chip, level: bool): (c': Chip)
    requires WellFormed(c.mem)
    ensures WellFormed(c'.mem)
  {
    match c.phase
    case Command(got) =>
      var bits := got + [level];
      c.(phase := if |bits| == 8 then Decode(AsByte(bits)) else Command(bits))
    case Write(at, got) =>
      var bits := got + [level];
      if |bits| == 8 then WriteDone(c, at, AsByte(bits)) else c.(phase := Write(at, bits))
    case _ => c
  }

  /** After a full data byte a single write is over; a burst goes on with the next cell. */
  function WriteDone(c: Chip, at: Cursor, value: byte): (c': Chip)
    requires WellFormed(c.mem)
    ensures WellFormed(c'.mem)
  {
    Chip(Store(c.mem, at, value), if at.burst then Write(Next(at), []) else Ignored)
  }

  function Fall(c: Chip): (c': Chip)
    requires WellFormed(c.mem)
    ensures c'.mem == c.mem
  {
    match c.phase
    case Read(at, sent, _) =>
      if sent >= 8 then c
      else
        var line := Some(ToBits(Load(c.mem, at), 8)[sent]);
        c.(phase := if sent == 7 then Read(Next(at), 0, line) else Read(at, sent + 1, line))
    case _ => c
  }

  function ChipEnable(c: Chip, was: bool, level: bool): Chip
  {
    if level == was then c else c.(phase := if level then Command([]) else Idle)
  }

  predicate Driving(c: Chip)
  {
    c.phase.Read? && c.phase.line.Some?
  }

  /** Storing a run of bytes in consecutive cells, as a burst does. */
  function StoreAll(m: Memory, at: Cursor, data: seq<byte>): (m': Memory)
    requires WellFormed(m)
    ensures WellFormed(m')
    decreases |data|
  {
    if data == [] then m
    else StoreAll(Store(m, at, data[0]), Next(at), data[1..])
  }

  /** A stored byte reads back, by a single read or a burst; every other cell is untouched. */
  lemma LoadAfterStore(m: Memory, at: Cursor, value: byte, other: Cursor)
    requires WellFormed(m)
    ensures Load(Store(m, at, value), other)
         == if Writable(m, at) && HasCell(other) && other.space == at.space && other.addr == at.addr
            then value else Load(m, other)
  {
  }

  lemma {:induction false} StoreAllSnoc(m: Memory, at: Cursor, data: seq<byte>, value: byte)
    requires WellFormed(m) && at.burst
    ensures StoreAll(m, at, data + [value])
         == Store(StoreAll(m, at, data), at.(addr := at.addr + |data|), value)
    decreases |data|
  {
    if data == [] {
      assert [] + [value] == [value];
      assert StoreAll(Store(m, at, value), Next(at), []) == Store(m, at, value);
    } else {
      StoreAllSnoc(Store(m, at, data[0]), Next(at), data[1..], value);
      assert (data + [value])[1..] == data[1..] + [value];
    }
  }

  /** A RAM burst changes exactly the first cells, or nothing when the chip is protected. */
  lemma {:induction false} RamBurst(m: Memory, data: seq<byte>, from: nat)
    requires WellFormed(m) && from + |data| <= RAM_REGS
    ensures StoreAll(m, Cursor(Ram, from, true), data)
         == if Protected(m) then m
            else m.(ram := m.ram[..from] + data + m.ram[from + |data|..])
    decreases |data|
  {
    var at := Cursor(Ram, from, true);
    if data == [] {
      assert m.ram[..from] + [] + m.ram[from..] == m.ram;
    } else {
      var m1 := Store(m, at, data[0]);
      RamBurst(m1, data[1..], from + 1);
      if !Protected(m) {
        assert m1.ram[..from + 1] == m.ram[..from] + [data[0]];
        assert m1.ram[from + |data|..] == m.ram[from + |data|..];
        assert data == [data[0]] + data[1..];
        assert m1.ram[..from + 1] + data[1..] + m1.ram[from + |data|..]
            == m.ram[..from] + data + m.ram[from + |data|..];
      }
    }
  }

  /** A clock burst of the seven calendar registers and the control register. */
  lemma ClockBurst(m: Memory, data: seq<byte>)
    requires WellFormed(m) && |data| == CLOCK_BURST_REGS
    ensures StoreAll(m, Cursor(Clock, 0, true), data)
         == if Protected(m) then m else m.(clock := data + [m.clock[8]])
  {
    ClockBurstFrom(m, data, 0);
    assert m.clock[..0] + data + m.clock[8..] == data + [m.clock[8]];
  }

  lemma {:induction false} ClockBurstFrom(m: Memory, data: seq<byte>, from: nat)
    requires WellFormed(m) && from + |data| == CLOCK_BURST_REGS
    ensures StoreAll(m, Cursor(Clock, from, true), data)
         == if Protected(m) then m
            else m.(clock := m.clock[..from] + data + m.clock[8..])
    decreases |data|
  {
    if data == [] {
      assert m.clock[..from] + [] + m.clock[8..] == m.clock;
    } else {
      var m1 := Store(m, Cursor(Clock, from, true), data[0]);
      assert from < REG_WP ==> Protected(m1) == Protected(m);
      ClockBurstFrom(m1, data[1..], from + 1);
      if !Protected(m) {
        assert m1.clock[..from + 1] == m.clock[..from] + [data[0]];
        assert m1.clock[8..] == m.clock[8..];
        assert data == [data[0]] + data[1..];
        assert m1.clock[..from + 1] + data[1..] + m1.clock[8..]
            == m.clock[..from] + data + m.clock[8..];
        if from == REG_WP {
          assert data[1..] == [];
          assert m1.clock[..8] + [] + m1.clock[8..] == m1.clock;
        }
      }
    }
  }
}
