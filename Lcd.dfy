/**
 * The character LCD (an HD44780U controller) on an 8-bit bus: data lines
 * D0..D7 on GPIOA pins 4..11, control lines RS, RW and E on GPIOC pins 8,
 * 9 and 10. Every byte is latched on the falling edge of E and followed by
 * the settle time of the instruction (Table 6 of the HD44780U datasheet).
 */
module Lcd {
  import opened Wrappers
  import opened Hardware

  // RCC enable bits
  const RccGpioaEn: bv32 := 0x1
  const RccGpiocEn: bv32 := 0x4

  // GPIOA: the data bus on pins 4..11
  const DataBus: bv32 := 0xFF0
  const ModerDataBusOutput: bv32 := 0x555500

  // GPIOC: the control lines
  const LcdRS: bv32 := 0x100
  const LcdRW: bv32 := 0x200
  const LcdE: bv32 := 0x400
  const ControlLines: bv32 := 0x700
  const ModerControlOutput: bv32 := 0x150000   // pins 8, 9, 10 as outputs

  const DataBusMax := 0xFF
  const RowLength := 40
  const MaxLength := 80

  // settle times in microseconds
  const ShortSettle := 37
  const LongSettle := 1520

  /** The instructions of Table 6 that the driver issues. */
  datatype Instruction =
    | ClearDisplay
    | ReturnHome
    | EntryModeSet(increment: bool, shift: bool)                  // I/D, S
    | DisplayOnOff(display: bool, cursor: bool, blink: bool)     // D, C, B
    | CursorDisplayShift(displayShift: bool, right: bool)        // S/C, R/L
    | FunctionSet(eightBit: bool, twoLines: bool, font5x10: bool) // DL, N, F

  function Bit(b: bool): int { if b then 1 else 0 }

  /** The instruction byte: the command's marker bit, then its flag bits. */
  function Encode(i: Instruction): (code: int)
    ensures 0 < code <= DataBusMax
  {
    match i
    case ClearDisplay => 0x01
    case ReturnHome => 0x02
    case EntryModeSet(id, s) => 0x04 + 2 * Bit(id) + Bit(s)
    case DisplayOnOff(d, c, b) => 0x08 + 4 * Bit(d) + 2 * Bit(c) + Bit(b)
    case CursorDisplayShift(sc, rl) => 0x10 + 8 * Bit(sc) + 4 * Bit(rl)
    case FunctionSet(dl, n, f) => 0x20 + 16 * Bit(dl) + 8 * Bit(n) + 4 * Bit(f)
  }

  /** How many bytes read as `i`: two to the number of bits Table 6 marks
      "don't care" in its code (one in return home, two in the shift and
      function-set instructions, none elsewhere). */
  function Readings(i: Instruction): nat
  {
    match i
    case ReturnHome => 2
    case CursorDisplayShift(_, _) => 4
    case FunctionSet(_, _, _) => 4
    case _ => 1
  }

  /** How the controller reads a byte written with RS low: the highest set bit
      selects the instruction, lower bits are its flags, and the bits Table 6
      marks "don't care" are ignored. Set-address instructions are not modelled. */
  function Decode(code: int): (r: Option<Instruction>)
    ensures r.Some? ==> Encode(r.value) <= code < Encode(r.value) + Readings(r.value)
    ensures r.Some? <==> 1 <= code < 64
  {
    if code == 1 then Some(ClearDisplay)
    else if 2 <= code < 4 then Some(ReturnHome)
    else if 4 <= code < 8 then
      EntryModeBits(code);
      Some(EntryModeSet(code / 2 % 2 == 1, code % 2 == 1))
    else if 8 <= code < 16 then
      DisplayOnOffBits(code);
      Some(DisplayOnOff(code / 4 % 2 == 1, code / 2 % 2 == 1, code % 2 == 1))
    else if 16 <= code < 32 then
      CursorShiftBits(code);
      Some(CursorDisplayShift(code / 8 % 2 == 1, code / 4 % 2 == 1))
    else if 32 <= code < 64 then
      FunctionSetBits(code);
      Some(FunctionSet(code / 16 % 2 == 1, code / 8 % 2 == 1, code / 4 % 2 == 1))
    else None
  }

  /** Bytes 4 to 7 are the entry-mode marker plus their flag bits. */
  lemma EntryModeBits(code: int)
    requires 4 <= code < 8
    ensures code == 4 + 2 * Bit(code / 2 % 2 == 1) + Bit(code % 2 == 1)
  {
    assert code == 4 || code == 5 || code == 6 || code == 7;
  }

  /** Bytes 8 to 15 are the display-control marker plus their flag bits. */
  lemma DisplayOnOffBits(code: int)
    requires 8 <= code < 16
    ensures code == 8 + 4 * Bit(code / 4 % 2 == 1) + 2 * Bit(code / 2 % 2 == 1) + Bit(code % 2 == 1)
  {
    var q := code / 2;
    assert code == 2 * q + code % 2;
    assert 4 <= q < 8 && q / 2 == code / 4;
    assert q == 4 + 2 * Bit(q / 2 % 2 == 1) + Bit(q % 2 == 1) by { EntryModeBits(q); }
  }

  /** Bytes 16 to 31 are the shift marker plus two flag bits and two ignored bits. */
  lemma CursorShiftBits(code: int)
    requires 16 <= code < 32
    ensures var e := 16 + 8 * Bit(code / 8 % 2 == 1) + 4 * Bit(code / 4 % 2 == 1); e <= code < e + 4
  {
    var q := code / 4;
    assert 4 * q <= code < 4 * q + 4;
    assert 4 <= q < 8 && q / 2 == code / 8;
    assert q == 4 + 2 * Bit(q / 2 % 2 == 1) + Bit(q % 2 == 1) by { EntryModeBits(q); }
  }

  /** Bytes 32 to 63 are the function-set marker plus three flag bits and two ignored bits. */
  lemma FunctionSetBits(code: int)
    requires 32 <= code < 64
    ensures var e := 32 + 16 * Bit(code / 16 % 2 == 1) + 8 * Bit(code / 8 % 2 == 1) + 4 * Bit(code / 4 % 2 == 1);
            e <= code < e + 4
  {
    var q := code / 4;
    assert 4 * q <= code < 4 * q + 4;
    assert 8 <= q < 16 && q / 2 == code / 8 && q / 4 == code / 16;
    assert q == 8 + 4 * Bit(q / 4 % 2 == 1) + 2 * Bit(q / 2 % 2 == 1) + Bit(q % 2 == 1) by { DisplayOnOffBits(q); }
  }

  /** The controller reads back exactly the instruction that was encoded. */
  lemma DecodeEncode(i: Instruction)
    ensures Decode(Encode(i)) == Some(i)
  {
    match i
    case ClearDisplay =>
    case ReturnHome =>
    case EntryModeSet(id, s) =>
    case DisplayOnOff(d, c, b) =>
    case CursorDisplayShift(sc, rl) =>
    case FunctionSet(dl, n, f) =>
  }

  /** Distinct instructions never share a byte. */
  lemma EncodeInjective(i: Instruction, j: Instruction)
    requires Encode(i) == Encode(j)
    ensures i == j
  {
    DecodeEncode(i);
    DecodeEncode(j);
  }

  /** Clear and home need the long settle time, every other instruction the short one. */
  function SettleTime(i: Instruction): nat
  {
    if i.ClearDisplay? || i.ReturnHome? then LongSettle else ShortSettle
  }

  /** What issuing one instruction adds to the trace. */
  function Issued(i: Instruction): seq<Event>
  {
    [Instr(Encode(i)), WaitUs(SettleTime(i))]
  }

  /** `events` repeated n times. */
  function Repeat(events: seq<Event>, n: nat): seq<Event>
  {
    if n == 0 then [] else Repeat(events, n - 1) + events
  }

  /** What writing the characters of `s` adds to the trace. */
  function CharsWritten(s: seq<Char8>): (r: seq<Event>)
    ensures |r| == 2 * |s|
  {
    if s == [] then [] else CharsWritten(s[..|s| - 1]) + [Data(s[|s| - 1]), WaitUs(ShortSettle)]
  }

  /** The C string held in `s`: the characters before its first NUL. */
  function UpToNul(s: seq<Char8>): (r: seq<Char8>)
    ensures |r| <= |s| && r == s[..|r|]
    ensures '\0' !in r
    ensures |r| < |s| ==> s[|r|] == '\0'
  {
    if s == [] || s[0] == '\0' then [] else [s[0]] + UpToNul(s[1..])
  }

  /** GPIOA ODR with `byte` on the data bus (pins 4..11) and every other pin kept. */
  function DataBusOut(odr: bv32, byte: bv8): (r: bv32)
    ensures (r >> 4) & 0xFF == byte as bv32 && r & !DataBus == odr & !DataBus
  {
    Merge(odr & !DataBus, byte)
  }

  /** The pins outside the bus, with `byte` shifted onto the bus pins. */
  function Merge(kept: bv32, byte: bv8): bv32
  {
    kept | ((byte as bv32) << 4)
  }

  /** GPIOC ODR after a latched write: E and RW low, RS as given, every other pin kept. */
  function ControlOut(odr: bv32, rs: bool): (r: bv32)
    ensures r & ControlLines == (if rs then LcdRS else 0) && r & !ControlLines == odr & !ControlLines
  {
    if rs then (odr & !ControlLines) | LcdRS else odr & !ControlLines
  }

  /** A later byte on the bus replaces an earlier one. */
  lemma DataBusOverwrite(odr: bv32, first: bv8, second: bv8)
    ensures DataBusOut(DataBusOut(odr, first), second) == DataBusOut(odr, second)
  {
    BusKept(DataBusOut(odr, first), odr, second);
  }

  /** The bus value depends only on the pins outside the bus. */
  lemma BusKept(x: bv32, odr: bv32, byte: bv8)
    requires x & !DataBus == odr & !DataBus
    ensures DataBusOut(x, byte) == DataBusOut(odr, byte)
  {
  }

  /** Clearing the bus and or-ing the shifted byte in puts the byte on the bus. */
  lemma BytePlaced(odr: bv32, byte: bv8)
    ensures (odr & !DataBus) | ((byte as bv32) << 4) == DataBusOut(odr, byte)
  {
  }

  /** The byte a character puts on the bus. */
  function CharByte(c: Char8): bv8 { c as int as bv8 }

  /** Shifting a bus-sized int into place is shifting its byte into place. */
  lemma ByteShift(value: int)
    requires 0 <= value <= DataBusMax
    ensures (value as bv32) << 4 == ((value as bv8) as bv32) << 4
  {
    assert (value as bv8) as bv32 == value as bv32;
  }

  /** A later write decides RS; earlier writes leave no trace on the control lines. */
  lemma ControlOverwrite(odr: bv32, first: bool, second: bool)
    ensures ControlOut(ControlOut(odr, first), second) == ControlOut(odr, second)
  {
  }

  /** The three stores of an instruction write: E high, RS and RW low, E low. */
  lemma InstructionStrobe(odr: bv32)
    ensures ((odr | LcdE) & !(LcdRS | LcdRW)) & !LcdE == ControlOut(odr, false)
  {
  }

  /** The three stores of a character write: E and RS high, RW low, E low. */
  lemma CharacterStrobe(odr: bv32)
    ensures ((odr | LcdE | LcdRS) & !LcdRW) & !LcdE == ControlOut(odr, true)
  {
  }

  /**
   * lcd_write_instruction: a value that fits the bus is placed on D0..D7
   * with RS and RW low and latched by the falling edge of E; a wider value
   * changes nothing. (A negative value would be shifted left, which C
   * leaves undefined, so none is passed.)
   */
  method WriteInstruction(hw: Registers, instruction: int)
    requires 0 <= instruction
    modifies hw`gpioaODR, hw`gpiocODR, hw`trace
    ensures instruction <= DataBusMax ==>
      && hw.gpioaODR == DataBusOut(old(hw.gpioaODR), instruction as bv8)
      && hw.gpiocODR == ControlOut(old(hw.gpiocODR), false)
      && hw.trace == old(hw.trace) + [Instr(instruction)]
    ensures instruction > DataBusMax ==>
      hw.gpioaODR == old(hw.gpioaODR) && hw.gpiocODR == old(hw.gpiocODR) && hw.trace == old(hw.trace)
  {
    if instruction <= DataBusMax {
      ghost var control := hw.gpiocODR;
      hw.gpiocODR := hw.gpiocODR | LcdE;
      hw.gpiocODR := hw.gpiocODR & !(LcdRS | LcdRW);
      hw.gpioaODR := hw.gpioaODR & !DataBus;
      hw.gpioaODR := hw.gpioaODR | ((instruction as bv32) << 4);
      hw.gpiocODR := hw.gpiocODR & !LcdE;
      hw.trace := hw.trace + [Instr(instruction)];
      InstructionStrobe(control);
      ByteShift(instruction);
    }
  }

  /**
   * lcd_write_char: the character is placed on D0..D7 with RS high and RW
   * low, latched by the falling edge of E, and followed by the short settle
   * time. The guard `character <= 0xFF` always holds for an unsigned char.
   */
  method WriteChar(hw: Registers, character: Char8)
    modifies hw`gpioaODR, hw`gpiocODR, hw`trace
    ensures hw.gpioaODR == DataBusOut(old(hw.gpioaODR), CharByte(character))
    ensures hw.gpiocODR == ControlOut(old(hw.gpiocODR), true)
    ensures hw.trace == old(hw.trace) + [Data(character), WaitUs(ShortSettle)]
  {
    if character as int <= DataBusMax {
      ghost var data, control := hw.gpioaODR, hw.gpiocODR;
      var byte := CharByte(character);
      hw.gpiocODR := hw.gpiocODR | LcdE | LcdRS;
      hw.gpiocODR := hw.gpiocODR & !LcdRW;
      hw.gpioaODR := hw.gpioaODR & !DataBus;
      hw.gpioaODR := hw.gpioaODR | ((byte as bv32) << 4);
      hw.gpiocODR := hw.gpiocODR & !LcdE;
      hw.trace := hw.trace + [Data(character)];
      CharacterStrobe(control);
      BytePlaced(data, byte);
      hw.DelayUs(ShortSettle);
    }
  }

  /** Issues instruction byte `instruction`, which encodes `i`, and waits its settle time. */
  method Issue(hw: Registers, instruction: int, ghost i: Instruction, settle: nat)
    requires instruction == Encode(i) && settle == SettleTime(i)
    modifies hw`gpioaODR, hw`gpiocODR, hw`trace
    ensures hw.gpioaODR == DataBusOut(old(hw.gpioaODR), Encode(i) as bv8)
    ensures hw.gpiocODR == ControlOut(old(hw.gpiocODR), false)
    ensures hw.trace == old(hw.trace) + Issued(i)
  {
    WriteInstruction(hw, instruction);
    hw.DelayUs(settle);
  }

  /** lcd_instr_clear: byte 0x01, then the long settle time. */
  method InstrClear(hw: Registers)
    modifies hw`gpioaODR, hw`gpiocODR, hw`trace
    ensures hw.gpioaODR == DataBusOut(old(hw.gpioaODR), 0x01)
    ensures hw.gpiocODR == ControlOut(old(hw.gpiocODR), false)
    ensures hw.trace == old(hw.trace) + [Instr(0x01), WaitUs(LongSettle)]
    ensures hw.trace == old(hw.trace) + Issued(ClearDisplay)
  {
    var instruction := 1;
    Issue(hw, instruction, ClearDisplay, LongSettle);
  }

  /** lcd_instr_return_home: byte 0x02, then the long settle time. */
  method InstrReturnHome(hw: Registers)
    modifies hw`gpioaODR, hw`gpiocODR, hw`trace
    ensures hw.gpioaODR == DataBusOut(old(hw.gpioaODR), 0x02)
    ensures hw.gpiocODR == ControlOut(old(hw.gpiocODR), false)
    ensures hw.trace == old(hw.trace) + [Instr(0x02), WaitUs(LongSettle)]
    ensures hw.trace == old(hw.trace) + Issued(ReturnHome)
  {
    var instruction := 2;
    Issue(hw, instruction, ReturnHome, LongSettle);
  }

  /** lcd_instr_entry_mode_set: I/D from `cursorDirection`, S from `displayShift`
      (a C truth value each), then the short settle time. */
  method InstrEntryModeSet(hw: Registers, cursorDirection: int, displayShift: int)
    modifies hw`gpioaODR, hw`gpiocODR, hw`trace
    ensures hw.gpioaODR == DataBusOut(old(hw.gpioaODR), Encode(EntryModeSet(cursorDirection != 0, displayShift != 0)) as bv8)
    ensures hw.gpiocODR == ControlOut(old(hw.gpiocODR), false)
    ensures hw.trace == old(hw.trace) + Issued(EntryModeSet(cursorDirection != 0, displayShift != 0))
  {
    var instruction := EntryModeByte(cursorDirection, displayShift);
    Issue(hw, instruction, EntryModeSet(cursorDirection != 0, displayShift != 0), ShortSettle);
  }

  /** The entry mode set byte: the marker bit plus one flag bit per non-zero argument. */
  method EntryModeByte(cursorDirection: int, displayShift: int) returns (instruction: int)
    ensures instruction == Encode(EntryModeSet(cursorDirection != 0, displayShift != 0))
  {
    instruction := 0x04;
    if cursorDirection != 0 { instruction := instruction + 0x02; }
    if displayShift != 0 { instruction := instruction + 0x01; }
  }

  /** lcd_instr_display_on_off: D, C and B from the three truth values,
      then the short settle time. */
  method InstrDisplayOnOff(hw: Registers, displayOn: int, cursorOn: int, cursorBlinkOn: int)
    modifies hw`gpioaODR, hw`gpiocODR, hw`trace
    ensures hw.gpioaODR == DataBusOut(old(hw.gpioaODR), Encode(DisplayOnOff(displayOn != 0, cursorOn != 0, cursorBlinkOn != 0)) as bv8)
    ensures hw.gpiocODR == ControlOut(old(hw.gpiocODR), false)
    ensures hw.trace == old(hw.trace) + Issued(DisplayOnOff(displayOn != 0, cursorOn != 0, cursorBlinkOn != 0))
  {
    var instruction := DisplayOnOffByte(displayOn, cursorOn, cursorBlinkOn);
    Issue(hw, instruction, DisplayOnOff(displayOn != 0, cursorOn != 0, cursorBlinkOn != 0), ShortSettle);
  }

  /** The display on/off control byte: the marker bit plus one flag bit per non-zero argument. */
  method DisplayOnOffByte(displayOn: int, cursorOn: int, cursorBlinkOn: int) returns (instruction: int)
    ensures instruction == Encode(DisplayOnOff(displayOn != 0, cursorOn != 0, cursorBlinkOn != 0))
  {
    instruction := 0x08;
    if displayOn != 0 { instruction := instruction + 0x04; }
    if cursorOn != 0 { instruction := instruction + 0x02; }
    if cursorBlinkOn != 0 { instruction := instruction + 0x01; }
  }

  /** lcd_instr_cursor_display_shift: S/C from `shiftSelect`, R/L from
      `direction`, then the short settle time. */
  method InstrCursorDisplayShift(hw: Registers, shiftSelect: int, direction: int)
    modifies hw`gpioaODR, hw`gpiocODR, hw`trace
    ensures hw.gpioaODR == DataBusOut(old(hw.gpioaODR), Encode(CursorDisplayShift(shiftSelect != 0, direction != 0)) as bv8)
    ensures hw.gpiocODR == ControlOut(old(hw.gpiocODR), false)
    ensures hw.trace == old(hw.trace) + Issued(CursorDisplayShift(shiftSelect != 0, direction != 0))
  {
    var instruction := CursorDisplayShiftByte(shiftSelect, direction);
    Issue(hw, instruction, CursorDisplayShift(shiftSelect != 0, direction != 0), ShortSettle);
  }

  /** The cursor or display shift byte: the marker bit plus one flag bit per non-zero argument. */
  method CursorDisplayShiftByte(shiftSelect: int, direction: int) returns (instruction: int)
    ensures instruction == Encode(CursorDisplayShift(shiftSelect != 0, direction != 0))
  {
    instruction := 0x10;
    if shiftSelect != 0 { instruction := instruction + 0x08; }
    if direction != 0 { instruction := instruction + 0x04; }
  }

  /** lcd_instr_function_set: DL, N and F from the three truth values (per the
      datasheet: 1 selects the 8-bit bus, two lines and the 5x10 font), then the
      short settle time. */
  method InstrFunctionSet(hw: Registers, dataInterface: int, lineNumber: int, fontSize: int)
    modifies hw`gpioaODR, hw`gpiocODR, hw`trace
    ensures hw.gpioaODR == DataBusOut(old(hw.gpioaODR), Encode(FunctionSet(dataInterface != 0, lineNumber != 0, fontSize != 0)) as bv8)
    ensures hw.gpiocODR == ControlOut(old(hw.gpiocODR), false)
    ensures hw.trace == old(hw.trace) + Issued(FunctionSet(dataInterface != 0, lineNumber != 0, fontSize != 0))
  {
    var instruction := FunctionSetByte(dataInterface, lineNumber, fontSize);
    Issue(hw, instruction, FunctionSet(dataInterface != 0, lineNumber != 0, fontSize != 0), ShortSettle);
  }

  /** The function set byte: the marker bit plus one flag bit per non-zero argument. */
  method FunctionSetByte(dataInterface: int, lineNumber: int, fontSize: int) returns (instruction: int)
    ensures instruction == Encode(FunctionSet(dataInterface != 0, lineNumber != 0, fontSize != 0))
  {
    instruction := 0x20;
    if dataInterface != 0 { instruction := instruction + 0x10; }
    if lineNumber != 0 { instruction := instruction + 0x08; }
    if fontSize != 0 { instruction := instruction + 0x04; }
  }

  /** The instruction sequence of lcd_init: function set twice (8-bit bus, two
      lines, 5x8 font), display on with blink, clear, entry mode increment. */
  const InitSequence: seq<Event> :=
    [Instr(0x38), WaitUs(ShortSettle), Instr(0x38), WaitUs(ShortSettle),
     Instr(0x0D), WaitUs(ShortSettle), Instr(0x01), WaitUs(LongSettle),
     Instr(0x06), WaitUs(ShortSettle)]

  /** lcd_init: clocks, bus and control pins as outputs, then the fixed sequence. */
  method Init(hw: Registers)
    modifies hw`rccAHB1ENR, hw`gpioaMODER, hw`gpiocMODER, hw`gpioaODR, hw`gpiocODR, hw`trace
    ensures hw.rccAHB1ENR == ClocksEnabled(old(hw.rccAHB1ENR))
    ensures hw.gpioaMODER == DataBusAsOutputs(old(hw.gpioaMODER))
    ensures hw.gpiocMODER == ControlAsOutputs(old(hw.gpiocMODER))
    ensures hw.gpioaODR == DataBusOut(old(hw.gpioaODR), 0x06)
    ensures hw.gpiocODR == ControlOut(old(hw.gpiocODR), false)
    ensures hw.trace == old(hw.trace) + InitSequence
    ensures hw.rccAPB2ENR == old(hw.rccAPB2ENR) && hw.gpiocPUPDR == old(hw.gpiocPUPDR)
    ensures hw.syscfgEXTICR1 == old(hw.syscfgEXTICR1) && hw.extiIMR == old(hw.extiIMR)
    ensures hw.extiRTSR == old(hw.extiRTSR) && hw.extiPR == old(hw.extiPR) && hw.nvicISER0 == old(hw.nvicISER0)
  {
    hw.rccAHB1ENR := ClocksEnabled(hw.rccAHB1ENR);
    hw.gpioaMODER := DataBusAsOutputs(hw.gpioaMODER);
    hw.gpiocMODER := ControlAsOutputs(hw.gpiocMODER);
    SendInitSequence(hw);
  }

  /** lcd_init's clock enable: GPIOA and GPIOC on, other bits kept. */
  function ClocksEnabled(enr: bv32): bv32 { enr | RccGpioaEn | RccGpiocEn }

  /** lcd_init's GPIOA mode update: pins 4..11 ORed to output (0x555500). */
  function DataBusAsOutputs(moder: bv32): bv32 { moder | ModerDataBusOutput }

  /** lcd_init's GPIOC mode update: pins 8..10 ORed to output (0x150000). */
  function ControlAsOutputs(moder: bv32): bv32 { moder | ModerControlOutput }

  /** The instructions lcd_init sends once the pins are configured. */
  method SendInitSequence(hw: Registers)
    modifies hw`gpioaODR, hw`gpiocODR, hw`trace
    ensures hw.gpioaODR == DataBusOut(old(hw.gpioaODR), 0x06)
    ensures hw.gpiocODR == ControlOut(old(hw.gpiocODR), false)
    ensures hw.trace == old(hw.trace) + InitSequence
  {
    ghost var a, c, t := hw.gpioaODR, hw.gpiocODR, hw.trace;
    InitInterface(hw);
    InitDisplay(hw);
    InitTrace(t);
    DataBusOverwrite(a, 0x0D, 0x06);
    ControlOverwrite(c, false, false);
  }

  /** The first half of lcd_init's sequence: function set twice, then display on with blink. */
  method InitInterface(hw: Registers)
    modifies hw`gpioaODR, hw`gpiocODR, hw`trace
    ensures hw.gpioaODR == DataBusOut(old(hw.gpioaODR), 0x0D)
    ensures hw.gpiocODR == ControlOut(old(hw.gpiocODR), false)
    ensures hw.trace == old(hw.trace) + Issued(FunctionSet(true, true, false)) + Issued(FunctionSet(true, true, false))
                        + Issued(DisplayOnOff(true, false, true))
  {
    ghost var a, c := hw.gpioaODR, hw.gpiocODR;
    InstrFunctionSet(hw, 1, 1, 0);
    InstrFunctionSet(hw, 1, 1, 0);
    InstrDisplayOnOff(hw, 1, 0, 1);
    InterfaceBytes();
    DataBusOverwrite(a, 0x38, 0x38);
    DataBusOverwrite(a, 0x38, 0x0D);
    ControlOverwrite(c, false, false);
  }

  /** The bytes of lcd_init's first three instructions. */
  lemma InterfaceBytes()
    ensures Encode(FunctionSet(true, true, false)) as bv8 == 0x38
    ensures Encode(DisplayOnOff(true, false, true)) as bv8 == 0x0D
  {
  }

  /** The second half of lcd_init's sequence: clear, then entry mode increment. */
  method InitDisplay(hw: Registers)
    modifies hw`gpioaODR, hw`gpiocODR, hw`trace
    ensures hw.gpioaODR == DataBusOut(old(hw.gpioaODR), 0x06)
    ensures hw.gpiocODR == ControlOut(old(hw.gpiocODR), false)
    ensures hw.trace == old(hw.trace) + Issued(ClearDisplay) + Issued(EntryModeSet(true, false))
  {
    ghost var a, c := hw.gpioaODR, hw.gpiocODR;
    Clear(hw);
    InstrEntryModeSet(hw, 1, 0);
    DataBusOverwrite(a, 0x01, 0x06);
    ControlOverwrite(c, false, false);
  }

  /** The five instructions lcd_init issues, byte by byte. */
  lemma InitTrace(t: seq<Event>)
    ensures t + Issued(FunctionSet(true, true, false)) + Issued(FunctionSet(true, true, false))
        + Issued(DisplayOnOff(true, false, true)) + (Issued(ClearDisplay) + Issued(EntryModeSet(true, false)))
        == t + InitSequence
  {
  }


  /** lcd_clear. */
  method Clear(hw: Registers)
    modifies hw`gpioaODR, hw`gpiocODR, hw`trace
    ensures hw.gpioaODR == DataBusOut(old(hw.gpioaODR), 0x01)
    ensures hw.gpiocODR == ControlOut(old(hw.gpiocODR), false)
    ensures hw.trace == old(hw.trace) + Issued(ClearDisplay)
  {
    InstrClear(hw);
  }

  /** lcd_cursor_home. */
  method CursorHome(hw: Registers)
    modifies hw`gpioaODR, hw`gpiocODR, hw`trace
    ensures hw.gpioaODR == DataBusOut(old(hw.gpioaODR), 0x02)
    ensures hw.gpiocODR == ControlOut(old(hw.gpiocODR), false)
    ensures hw.trace == old(hw.trace) + Issued(ReturnHome)
  {
    InstrReturnHome(hw);
  }

  /** The cursor-right instruction lcd_cursor_set repeats (byte 0x14). */
  const CursorRight := CursorDisplayShift(false, true)

  /** The number of times `for (i = 0; i < n; i++)` runs. */
  function Times(n: int): nat { if n > 0 then n else 0 }

  /** The trace of lcd_cursor_set(x, y): home, then y*40 + x cursor-right
      instructions (none for a non-positive count). */
  function CursorSetTrace(x: int, y: int): seq<Event>
  {
    Issued(ReturnHome) + Repeat(Issued(CursorRight), Times(y * RowLength) + Times(x))
  }

  /** lcd_cursor_set: home, y row lengths of cursor-right, then x more.
      `y * 40` must not overflow a C int. */
  method CursorSet(hw: Registers, x: int, y: int)
    requires -0x8000_0000 <= y * RowLength <= 0x7FFF_FFFF
    modifies hw`gpioaODR, hw`gpiocODR, hw`trace
    ensures hw.trace == old(hw.trace) + CursorSetTrace(x, y)
    ensures hw.gpioaODR == DataBusOut(old(hw.gpioaODR), if Times(y * RowLength) + Times(x) > 0 then 0x14 else 0x02)
    ensures hw.gpiocODR == ControlOut(old(hw.gpiocODR), false)
  {
    ghost var a, c := hw.gpioaODR, hw.gpiocODR;
    ghost var home := old(hw.trace) + Issued(ReturnHome);
    CursorHome(hw);
    var rows := ShiftRightLoop(hw, y * RowLength, home, 0, a, c);
    var columns := ShiftRightLoop(hw, x, home, rows, a, c);
    EventsRegrouped(old(hw.trace), Issued(ReturnHome), Repeat(Issued(CursorRight), rows + columns));
  }

  lemma EventsRegrouped(t: seq<Event>, a: seq<Event>, b: seq<Event>)
    ensures t + a + b == t + (a + b)
  {
  }

  /** One of lcd_cursor_set's loops: `for (i = 0; i < n; i++)` issuing
      cursor-right, after `done` earlier ones; returns the count issued. */
  method ShiftRightLoop(hw: Registers, n: int, ghost home: seq<Event>, ghost done: nat, ghost a: bv32, ghost c: bv32)
      returns (count: nat)
    requires hw.trace == home + Repeat(Issued(CursorRight), done)
    requires hw.gpioaODR == DataBusOut(a, if done > 0 then 0x14 else 0x02)
    requires hw.gpiocODR == ControlOut(c, false)
    modifies hw`gpioaODR, hw`gpiocODR, hw`trace
    ensures count == Times(n)
    ensures hw.trace == home + Repeat(Issued(CursorRight), done + count)
    ensures hw.gpioaODR == DataBusOut(a, if done + count > 0 then 0x14 else 0x02)
    ensures hw.gpiocODR == ControlOut(c, false)
  {
    count := 0;
    while count < n
      invariant 0 <= count <= Times(n)
      invariant hw.trace == home + Repeat(Issued(CursorRight), done + count)
      invariant hw.gpioaODR == DataBusOut(a, if done + count > 0 then 0x14 else 0x02)
      invariant hw.gpiocODR == ControlOut(c, false)
    {
      ShiftRight(hw, home, done + count, a, c);
      count := count + 1;
    }
  }

  /** One step of lcd_cursor_set's loops: a cursor-right instruction after
      `done` earlier ones. */
  method ShiftRight(hw: Registers, ghost home: seq<Event>, ghost done: nat, ghost a: bv32, ghost c: bv32)
    requires hw.trace == home + Repeat(Issued(CursorRight), done)
    requires hw.gpioaODR == DataBusOut(a, if done > 0 then 0x14 else 0x02)
    requires hw.gpiocODR == ControlOut(c, false)
    modifies hw`gpioaODR, hw`gpiocODR, hw`trace
    ensures hw.trace == home + Repeat(Issued(CursorRight), done + 1)
    ensures hw.gpioaODR == DataBusOut(a, 0x14)
    ensures hw.gpiocODR == ControlOut(c, false)
  {
    InstrCursorDisplayShift(hw, 0, 1);
    DataBusOverwrite(a, if done > 0 then 0x14 else 0x02, 0x14);
    ControlOverwrite(c, false, false);
    assert Repeat(Issued(CursorRight), done + 1) == Repeat(Issued(CursorRight), done) + Issued(CursorRight);
  }

  /** lcd_cursor_show: display on, underline off, blink on (byte 0x0D). */
  method CursorShow(hw: Registers)
    modifies hw`gpioaODR, hw`gpiocODR, hw`trace
    ensures hw.trace == old(hw.trace) + [Instr(0x0D), WaitUs(ShortSettle)]
    ensures hw.gpioaODR == DataBusOut(old(hw.gpioaODR), 0x0D)
    ensures hw.gpiocODR == ControlOut(old(hw.gpiocODR), false)
    ensures hw.trace == old(hw.trace) + Issued(DisplayOnOff(true, false, true))
  {
    InstrDisplayOnOff(hw, 1, 0, 1);
  }

  /** lcd_cursor_hide: display on, underline off, blink off (byte 0x0C). */
  method CursorHide(hw: Registers)
    modifies hw`gpioaODR, hw`gpiocODR, hw`trace
    ensures hw.trace == old(hw.trace) + [Instr(0x0C), WaitUs(ShortSettle)]
    ensures hw.gpioaODR == DataBusOut(old(hw.gpioaODR), 0x0C)
    ensures hw.gpiocODR == ControlOut(old(hw.gpiocODR), false)
    ensures hw.trace == old(hw.trace) + Issued(DisplayOnOff(true, false, false))
  {
    InstrDisplayOnOff(hw, 1, 0, 0);
  }

  /** lcd_print_string: one character write per character before the first
      NUL, in order. The buffer must hold a NUL. */
  method PrintString(hw: Registers, s: seq<Char8>)
    requires '\0' in s
    modifies hw`gpioaODR, hw`gpiocODR, hw`trace
    ensures hw.trace == old(hw.trace) + CharsWritten(UpToNul(s))
    ensures UpToNul(s) == [] ==> hw.gpioaODR == old(hw.gpioaODR) && hw.gpiocODR == old(hw.gpiocODR)
    ensures UpToNul(s) != [] ==>
      && hw.gpioaODR == DataBusOut(old(hw.gpioaODR), CharByte(UpToNul(s)[|UpToNul(s)| - 1]))
      && hw.gpiocODR == ControlOut(old(hw.gpiocODR), true)
  {
    ghost var a, c, t := hw.gpioaODR, hw.gpiocODR, hw.trace;
    ghost var text := UpToNul(s);
    var offset := 0;
    while s[offset] != '\0'
      invariant 0 <= offset <= |text|
      decreases |text| - offset
      invariant s[..offset] == text[..offset]
      invariant hw.trace == t + CharsWritten(text[..offset])
      invariant offset == 0 ==> hw.gpioaODR == a && hw.gpiocODR == c
      invariant offset > 0 ==> hw.gpioaODR == DataBusOut(a, CharByte(s[offset - 1])) && hw.gpiocODR == ControlOut(c, true)
    {
      WriteChar(hw, s[offset]);
      if offset > 0 {
        DataBusOverwrite(a, CharByte(s[offset - 1]), CharByte(s[offset]));
        ControlOverwrite(c, true, true);
      }
      assert text[..offset + 1][..offset] == text[..offset];
      offset := offset + 1;
    }
    assert text[..offset] == text;
  }

  /** lcd_printf, with the formatting already done: `formatted` is what
      vsprintf would leave in the 80-byte buffer, which it must fit with its NUL. */
  method Printf(hw: Registers, formatted: seq<Char8>)
    requires |formatted| < MaxLength && '\0' !in formatted
    modifies hw`gpioaODR, hw`gpiocODR, hw`trace
    ensures hw.trace == old(hw.trace) + CharsWritten(formatted)
    ensures formatted != [] ==>
      && hw.gpioaODR == DataBusOut(old(hw.gpioaODR), CharByte(formatted[|formatted| - 1]))
      && hw.gpiocODR == ControlOut(old(hw.gpiocODR), true)
    ensures formatted == [] ==> hw.gpioaODR == old(hw.gpioaODR) && hw.gpiocODR == old(hw.gpiocODR)
  {
    var buffer := formatted + ['\0'];
    CStringOfTerminated(formatted);
    PrintString(hw, buffer);
  }

  /** A NUL-free text followed by a NUL is read back as exactly that text. */
  lemma {:induction false} CStringOfTerminated(text: seq<Char8>)
    requires '\0' !in text
    ensures UpToNul(text + ['\0']) == text
  {
    if text != [] {
      assert text[0] in text;
      assert (text + ['\0'])[1..] == text[1..] + ['\0'];
      assert forall k :: 0 <= k < |text[1..]| ==> text[1..][k] == text[k + 1];
      CStringOfTerminated(text[1..]);
    }
  }
}
