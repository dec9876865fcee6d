/** Date and time on top of the wire driver: binary-coded decimal in the calendar registers. */
module Ds1302Clock {
  import opened Bits
  import opened Ds1302Chip
  import opened Ds1302Driver

  datatype DateTime = DateTime(second: byte, minute: byte, hour: byte, dayWeek: byte,
                               dayMonth: byte, month: byte, year: uint16)

  const ZERO := DateTime(0, 0, 0, 0, 0, 0, 0)

  function BcdToDec(bcd: byte): (dec: byte)
    ensures dec <= 165
  {
    bcd / 16 * 10 + bcd % 16
  }

  /** Truncated to eight bits, as the return type does. */
  function DecToBcd(dec: byte): byte
  {
    (dec / 10 * 16 + dec % 10) % 256
  }

  lemma FromNibbles(h: nat, l: nat)
    requires h < 16 && l < 16
    ensures BcdToDec(h * 16 + l) == h * 10 + l
  {
  }

  lemma ToNibbles(dec: byte)
    ensures DecToBcd(dec) == (if dec < 160 then dec / 10 else dec / 10 - 16) * 16 + dec % 10
  {
    var h, l := dec / 10, dec % 10;
    assert h < 16 <==> dec < 160;
    if h < 16 {
      assert (h * 16 + l) % 256 == h * 16 + l;
    } else {
      assert (h * 16 + l) % 256 == (h - 16) * 16 + l;
    }
  }

  /** All that fits the upper nibble survives the register; two decimal digits do. */
  lemma BcdRoundTrip(dec: byte)
    ensures BcdToDec(DecToBcd(dec)) == if dec < 160 then dec else dec - 160
  {
    ToNibbles(dec);
    FromNibbles(if dec < 160 then dec / 10 else dec / 10 - 16, dec % 10);
  }

  /** ch | value for a halt bit ch. */
  function WithHaltBit(ch: bool, value: byte): byte
  {
    if ch && value < 128 then value + 128 else value
  }

  lemma HaltNibbles(ch: bool, h: nat, l: nat)
    requires h < 16 && l < 16
    ensures WithHaltBit(ch, h * 16 + l) % 128 == h % 8 * 16 + l
    ensures WithHaltBit(ch, h * 16 + l) >= 128 <==> ch || h >= 8
  {
    if h < 8 {
      assert h % 8 == h;
    } else {
      assert h % 8 == h - 8;
    }
  }

  /** The seconds as read back: from 80 on they reach into the halt bit. */
  lemma SecondsRoundTrip(ch: bool, second: byte)
    requires second < 128
    ensures var b := WithHaltBit(ch, DecToBcd(second));
            BcdToDec(b % 128) == second % 80 && (b >= 128 <==> ch || second >= 80)
  {
    hide DecToBcd, BcdToDec, WithHaltBit;
    ToNibbles(second);
    var h, l := second / 10, second % 10;
    HaltNibbles(ch, h, l);
    FromNibbles(h % 8, l);
    assert second % 80 == h % 8 * 10 + l;
  }

  predicate Halted(clock: seq<byte>)
    requires |clock| == CLOCK_REGS
  {
    clock[REG_SECONDS] >= 128
  }

  /** The burst for fields already masked, the control register last. */
  function Encode(ch: bool, second: byte, minute: byte, hour: byte, dayMonth: byte, month: byte,
                  dayWeek: byte, year: byte): (data: seq<byte>)
    ensures |data| == CLOCK_BURST_REGS
  {
    [WithHaltBit(ch, DecToBcd(second)), DecToBcd(minute), DecToBcd(hour), DecToBcd(dayMonth),
     DecToBcd(month), DecToBcd(dayWeek), DecToBcd(year), 0]
  }

  /** The eight bytes of the burst that sets the clock. */
  function BurstData(ch: bool, d: DateTime): (data: seq<byte>)
    ensures |data| == CLOCK_BURST_REGS
  {
    Encode(ch, d.second % 128, d.minute, d.hour % 64, d.dayMonth % 64, d.month % 32,
           d.dayWeek % 8, (d.year - 2000) % 256)
  }

  function Fields(clock: seq<byte>): DateTime
    requires |clock| >= 7
  {
    DateTime(BcdToDec(clock[0] % 128), BcdToDec(clock[1]), BcdToDec(clock[2]), BcdToDec(clock[5]),
             BcdToDec(clock[3]), BcdToDec(clock[4]), 2000 + BcdToDec(clock[6]))
  }

  predicate Accepted(d: DateTime)
  {
    && d.second <= 59 && d.minute <= 59 && d.hour <= 23
    && 1 <= d.dayMonth <= 31 && 1 <= d.month <= 12 && 1 <= d.dayWeek <= 7
    && d.year <= 2099
  }

  /** A date and time the chip can hold: accepted on reading and not before the year 2000. */
  predicate Representable(d: DateTime)
  {
    Accepted(d) && d.year >= 2000
  }

  datatype Reading = Reading(ok: bool, dateTime: DateTime)

  /** A rejected reading is cleared to zeros. */
  function ReadBack(clock: seq<byte>): Reading
    requires |clock| >= 7
  {
    var d := Fields(clock);
    if Accepted(d) then Reading(true, d) else Reading(false, ZERO)
  }

  /** The memory after setting the date and time. */
  function Set(m: Memory, d: DateTime): (m': Memory)
    requires WellFormed(m)
    ensures WellFormed(m')
  {
    if Protected(m) then m
    else m.(clock := BurstData(Halted(m.clock), d) + [m.clock[8]])
  }

  /** Setting the time only: the stored date is read, patched and written back. */
  function SetTimeOnly(m: Memory, hour: byte, minute: byte, second: byte): Memory
    requires WellFormed(m)
  {
    Set(m, ReadBack(m.clock).dateTime.(hour := hour, minute := minute, second := second))
  }

  method SetDateTime(dev: Ds1302, d: DateTime)
    requires dev.Ready()
    modifies dev
    ensures dev.Ready() && dev.clash == old(dev.clash)
    ensures dev.chip.mem == Set(old(dev.chip.mem), d)
  {
    hide BurstData, Encode, StoreAll, Store;
    var seconds := dev.ReadClockRegister(0);
    var ch := seconds / 128 % 2 == 1;
    CommandsSelectTheirCell(0);
    dev.TransferBegin();
    dev.WriteAddrCmd(CMD_WRITE_CLOCK_BURST);
    dev.WriteAll(BurstData(ch, d));
    dev.TransferEnd();
    ClockBurst(old(dev.chip.mem), BurstData(ch, d));
  }

  method GetDateTime(dev: Ds1302) returns (ok: bool, d: DateTime)
    requires dev.Ready()
    modifies dev
    ensures dev.Ready() && dev.clash == old(dev.clash) && dev.chip.mem == old(dev.chip.mem)
    ensures Reading(ok, d) == ReadBack(old(dev.chip.mem.clock))
  {
    var buf := new byte[7];
    ReadRegisters(dev, buf);
    ok, d := Checked(buf);
  }

  /** The burst read of the seven calendar registers. */
  method ReadRegisters(dev: Ds1302, buf: array<byte>)
    requires dev.Ready() && buf.Length == 7
    modifies dev, buf
    ensures dev.Ready() && dev.clash == old(dev.clash) && dev.chip.mem == old(dev.chip.mem)
    ensures forall k :: 0 <= k < 7 ==> buf[k] == old(dev.chip.mem.clock)[k]
  {
    CommandsSelectTheirCell(0);
    dev.TransferBegin();
    dev.WriteAddrCmd(CMD_READ_CLOCK_BURST);
    dev.ReadBuffer(buf, 7);
    dev.TransferEnd();
  }

  /** The fields, or zeros when one of them is out of range. */
  method Checked(buf: array<byte>) returns (ok: bool, d: DateTime)
    requires buf.Length == 7
    ensures forall clock: seq<byte> :: |clock| >= 7 && (forall k :: 0 <= k < 7 ==> buf[k] == clock[k]) ==>
              Reading(ok, d) == ReadBack(clock)
  {
    hide BcdToDec;
    d := DateTime(BcdToDec(buf[0] % 128), BcdToDec(buf[1]), BcdToDec(buf[2]), BcdToDec(buf[5]),
                  BcdToDec(buf[3]), BcdToDec(buf[4]), 2000 + BcdToDec(buf[6]));
    if d.second > 59 || d.minute > 59 || d.hour > 23 || d.dayMonth < 1 || d.dayMonth > 31
       || d.month < 1 || d.month > 12 || d.dayWeek < 1 || d.dayWeek > 7 || d.year > 2099 {
      return false, ZERO;
    }
    ok := true;
  }

  method SetTime(dev: Ds1302, hour: byte, minute: byte, second: byte)
    requires dev.Ready()
    modifies dev
    ensures dev.Ready() && dev.clash == old(dev.clash)
    ensures dev.chip.mem == SetTimeOnly(old(dev.chip.mem), hour, minute, second)
  {
    var _, d := GetDateTime(dev);
    SetDateTime(dev, d.(hour := hour, minute := minute, second := second));
  }

  method Halt(dev: Ds1302, halt: bool)
    requires dev.Ready()
    modifies dev
    ensures dev.Ready() && dev.clash == old(dev.clash)
    ensures Protected(old(dev.chip.mem)) ==> dev.chip.mem == old(dev.chip.mem)
    ensures !Protected(old(dev.chip.mem)) ==>
              && Halted(dev.chip.mem.clock) == halt
              && dev.chip.mem.clock[0] % 128 == old(dev.chip.mem.clock)[0] % 128
              && dev.chip.mem.clock[1..] == old(dev.chip.mem.clock)[1..]
              && dev.chip.mem.ram == old(dev.chip.mem.ram)
  {
    var regOld := dev.ReadClockRegister(REG_SECONDS);
    var regNew := if halt then WithHaltBit(true, regOld) else regOld % 128;
    if regOld != regNew {
      dev.WriteClockRegister(REG_SECONDS, regNew);
    }
  }

  /** The control register answers single writes even when it is set. */
  method WriteProtect(dev: Ds1302, enable: bool)
    requires dev.Ready()
    modifies dev
    ensures dev.Ready() && dev.clash == old(dev.clash)
    ensures Protected(dev.chip.mem) == enable
    ensures dev.chip.mem.ram == old(dev.chip.mem.ram)
    ensures forall k :: 0 <= k < CLOCK_REGS && k != REG_WP ==>
              dev.chip.mem.clock[k] == old(dev.chip.mem.clock)[k]
  {
    dev.WriteClockRegister(REG_WP, if enable then 128 else 0);
  }

  method IsWriteProtected(dev: Ds1302) returns (enabled: bool)
    requires dev.Ready()
    modifies dev
    ensures dev.Ready() && dev.clash == old(dev.clash) && dev.chip.mem == old(dev.chip.mem)
    ensures enabled == Protected(dev.chip.mem)
  {
    var value := dev.ReadClockRegister(REG_WP);
    enabled := value / 128 % 2 == 1;
  }

  /** True when the clock runs; a protected chip that was halted stays halted. */
  method Begin(dev: Ds1302) returns (running: bool)
    requires WellFormed(dev.chip.mem) && (!dev.ce ==> dev.chip.phase == Idle)
    modifies dev
    ensures dev.Ready()
    ensures running == !Halted(dev.chip.mem.clock)
    ensures running <==> !(Protected(old(dev.chip.mem)) && Halted(old(dev.chip.mem.clock)))
    ensures ReadBack(dev.chip.mem.clock) == ReadBack(old(dev.chip.mem.clock))
  {
    dev.SetClk(false);
    dev.SetIo(false);
    dev.SetCe(false);
    dev.SetDirection(true);
    Halt(dev, false);
    var seconds := dev.ReadClockRegister(REG_SECONDS);
    running := seconds / 128 % 2 == 0;
  }

  /** What a byte field reads back as. */
  function Wrapped(dec: byte): byte
  {
    if dec < 160 then dec else dec - 160
  }

  /** Every field as it reads back, whatever was set. */
  lemma FieldsOfBurst(ch: bool, d: DateTime, trickle: byte)
    ensures Fields(BurstData(ch, d) + [trickle])
         == DateTime(d.second % 128 % 80, Wrapped(d.minute), d.hour % 64, d.dayWeek % 8,
                     d.dayMonth % 64, d.month % 32, 2000 + Wrapped((d.year - 2000) % 256))
  {
    FieldsOfEncoding(ch, d.second % 128, d.minute, d.hour % 64, d.dayMonth % 64, d.month % 32,
                     d.dayWeek % 8, (d.year - 2000) % 256, trickle);
  }

  lemma FieldsOfEncoding(ch: bool, second: byte, minute: byte, hour: byte, dayMonth: byte,
                         month: byte, dayWeek: byte, year: byte, trickle: byte)
    requires second < 128
    ensures Fields(Encode(ch, second, minute, hour, dayMonth, month, dayWeek, year) + [trickle])
         == DateTime(second % 80, Wrapped(minute), Wrapped(hour), Wrapped(dayWeek),
                     Wrapped(dayMonth), Wrapped(month), 2000 + Wrapped(year))
  {
    SecondsRoundTrip(ch, second);
    forall x: byte ensures BcdToDec(DecToBcd(x)) == Wrapped(x) { BcdRoundTrip(x); }
  }

  lemma MasksKeepExactlyTheRepresentable(f: DateTime, d: DateTime)
    requires f == DateTime(d.second % 128 % 80, Wrapped(d.minute), d.hour % 64, d.dayWeek % 8,
                           d.dayMonth % 64, d.month % 32, 2000 + Wrapped((d.year - 2000) % 256))
    ensures Accepted(f) && f == d <==> Representable(d)
  {
  }

  /**
   * Reading back gives exactly the fields that were set if and only if they are a date and time
   * the chip can hold, weekday 1 to 7 included, or the chip is protected and held them before.
   */
  lemma DateTimeRoundTrip(m: Memory, d: DateTime)
    requires WellFormed(m)
    ensures ReadBack(Set(m, d).clock) == Reading(true, d)
            <==> if Protected(m) then ReadBack(m.clock) == Reading(true, d) else Representable(d)
  {
    FieldsOfBurst(Halted(m.clock), d, m.clock[8]);
    if !Protected(m) {
      MasksKeepExactlyTheRepresentable(Fields(Set(m, d).clock), d);
    }
  }

  /** The halt bit is kept, unless the seconds themselves reach into it on an unprotected chip. */
  lemma HaltBitKept(m: Memory, d: DateTime)
    requires WellFormed(m)
    ensures Halted(Set(m, d).clock) <==> Halted(m.clock) || (!Protected(m) && d.second % 128 >= 80)
    ensures Set(m, d).ram == m.ram && Set(m, d).clock[8] == m.clock[8]
  {
    SecondsRoundTrip(Halted(m.clock), d.second % 128);
  }

  /** Weekday 0, which the header calls Sunday, makes every later reading fail once it is stored. */
  lemma SundayIsRejected(m: Memory, d: DateTime)
    requires WellFormed(m) && d.dayWeek == 0
    ensures ReadBack(Set(m, d).clock) == if Protected(m) then ReadBack(m.clock) else Reading(false, ZERO)
  {
    FieldsOfBurst(Halted(m.clock), d, m.clock[8]);
  }

  /**
   * Setting the time changes the hour, minute and second and nothing else a reader sees, exactly
   * when the stored date was readable and the new time is a time of day; a protected chip must
   * show that time already.
   */
  lemma SetTimeKeepsDate(m: Memory, hour: byte, minute: byte, second: byte)
    requires WellFormed(m)
    ensures var before := ReadBack(m.clock);
            var was := before.dateTime;
            ReadBack(SetTimeOnly(m, hour, minute, second).clock)
              == Reading(true, was.(hour := hour, minute := minute, second := second))
            <==> before.ok && if Protected(m) then (hour, minute, second) == (was.hour, was.minute, was.second)
                              else hour <= 23 && minute <= 59 && second <= 59
  {
    var before := ReadBack(m.clock);
    var d := before.dateTime.(hour := hour, minute := minute, second := second);
    DateTimeRoundTrip(m, d);
  }

  /** With an unreadable date stored nothing reads back after setting the time. */
  lemma SetTimeOnUnreadableDate(m: Memory, hour: byte, minute: byte, second: byte)
    requires WellFormed(m) && !ReadBack(m.clock).ok
    ensures ReadBack(SetTimeOnly(m, hour, minute, second).clock) == Reading(false, ZERO)
  {
    var d := ZERO.(hour := hour, minute := minute, second := second);
    SundayIsRejected(m, d);
  }

  // ------------------------------------------------------------- register by register

  /** The two decimal digits of a number, one in each half of a register. */
  lemma TwoDigits(n: byte)
    requires n <= 99
    ensures DecToBcd(n) == n / 10 * 16 + n % 10
  {
    ToNibbles(n);
  }

  /** The masks keep a date and time the chip can hold. */
  lemma BurstOfRepresentable(ch: bool, d: DateTime)
    requires Representable(d)
    ensures BurstData(ch, d) == Encode(ch, d.second, d.minute, d.hour, d.dayMonth, d.month, d.dayWeek, d.year - 2000)
  {
    hide Encode, DecToBcd;
    MaskKeeps(d.second, 128);
    MaskKeeps(d.hour, 64);
    MaskKeeps(d.dayMonth, 64);
    MaskKeeps(d.month, 32);
    MaskKeeps(d.dayWeek, 8);
    MaskKeeps(d.year - 2000, 256);
  }

  lemma MaskKeeps(x: nat, n: nat)
    requires x < n
    ensures x % n == x
  {
  }

  lemma EncodedDigits(ch: bool, second: byte, minute: byte, hour: byte, dayMonth: byte, month: byte,
                      dayWeek: byte, year: byte)
    requires second <= 59 && minute <= 59 && hour <= 59 && dayMonth <= 59 && month <= 59 && dayWeek <= 9 && year <= 99
    ensures Encode(ch, second, minute, hour, dayMonth, month, dayWeek, year)
         == [second / 10 * 16 + second % 10 + if ch then 128 else 0,
             minute / 10 * 16 + minute % 10, hour / 10 * 16 + hour % 10, dayMonth / 10 * 16 + dayMonth % 10,
             month / 10 * 16 + month % 10, dayWeek, year / 10 * 16 + year % 10, 0]
  {
    hide DecToBcd, WithHaltBit;
    SecondsDigits(ch, second);
    TwoDigits(minute);
    TwoDigits(hour);
    TwoDigits(dayMonth);
    TwoDigits(month);
    OneDigit(dayWeek);
    TwoDigits(year);
  }

  lemma SecondsDigits(ch: bool, second: byte)
    requires second <= 59
    ensures WithHaltBit(ch, DecToBcd(second)) == second / 10 * 16 + second % 10 + if ch then 128 else 0
  {
    hide DecToBcd;
    TwoDigits(second);
  }

  lemma OneDigit(n: byte)
    requires n <= 9
    ensures DecToBcd(n) == n
  {
  }

  /** What every register holds after setting a date and time the chip can hold: its two digits. */
  lemma SetRegisters(m: Memory, d: DateTime)
    requires WellFormed(m) && !Protected(m) && Representable(d)
    ensures var y := d.year - 2000;
            Set(m, d).clock
            == [d.second / 10 * 16 + d.second % 10 + if m.clock[0] >= 128 then 128 else 0,
                d.minute / 10 * 16 + d.minute % 10, d.hour / 10 * 16 + d.hour % 10,
                d.dayMonth / 10 * 16 + d.dayMonth % 10, d.month / 10 * 16 + d.month % 10,
                d.dayWeek, y / 10 * 16 + y % 10, 0, m.clock[8]]
  {
    hide Encode, BurstData;
    BurstOfRepresentable(Halted(m.clock), d);
    EncodedDigits(Halted(m.clock), d.second, d.minute, d.hour, d.dayMonth, d.month, d.dayWeek, d.year - 2000);
  }

  /** A number's two digits in a register. */
  function Digits(register: byte): byte
  {
    register / 16 * 10 + register % 16
  }

  /** Reading takes each field from its register and accepts exactly what is in range. */
  lemma ReadingIsRegisters(c: seq<byte>)
    requires |c| >= 7
    ensures var d := DateTime(Digits(c[0] % 128), Digits(c[1]), Digits(c[2]), Digits(c[5]), Digits(c[3]), Digits(c[4]),
                              2000 + Digits(c[6]));
            ReadBack(c)
            == if && d.second <= 59 && d.minute <= 59 && d.hour <= 23 && 1 <= d.dayMonth <= 31 && 1 <= d.month <= 12
                  && 1 <= d.dayWeek <= 7 && d.year <= 2099
               then Reading(true, d) else Reading(false, DateTime(0, 0, 0, 0, 0, 0, 0))
  {
    forall x: byte ensures BcdToDec(x) == Digits(x) { }
    hide BcdToDec, Digits;
  }

  /** Whatever date or time is set, the control register is cleared: the chip stays writable. */
  lemma SettingClearsControl(m: Memory, d: DateTime, hour: byte, minute: byte, second: byte)
    requires WellFormed(m) && !Protected(m)
    ensures Set(m, d).clock[7] == 0 && !Protected(Set(m, d))
    ensures SetTimeOnly(m, hour, minute, second).clock[7] == 0
    ensures WellFormed(SetTimeOnly(m, hour, minute, second)) && !Protected(SetTimeOnly(m, hour, minute, second))
  {
  }

  /** So a later setting takes effect, after a date and after a time. */
  lemma LaterSettingTakesEffect(m: Memory, d: DateTime, hour: byte, minute: byte, second: byte, later: DateTime)
    requires WellFormed(m) && !Protected(m) && Representable(later)
    ensures ReadBack(Set(Set(m, d), later).clock) == Reading(true, later)
    ensures ReadBack(Set(SetTimeOnly(m, hour, minute, second), later).clock) == Reading(true, later)
  {
    hide Set, SetTimeOnly, ReadBack, Protected;
    SettingClearsControl(m, d, hour, minute, second);
    DateTimeRoundTrip(Set(m, d), later);
    DateTimeRoundTrip(SetTimeOnly(m, hour, minute, second), later);
  }
}
