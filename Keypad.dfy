/**
 * The 4x4 matrix keypad on GPIOC: columns on pins 0..3 (EXTI lines 0..3),
 * rows on pins 4..7. A rising edge on a column runs the scan routine, which
 * reverses the port directions, samples the rows and records the key in a
 * single overwriting slot.
 */
module Keypad {
  import opened Wrappers
  import opened Hardware

  // RCC enable bits
  const RccAhb1GpiocEn: bv32 := 0x4        // bit 2
  const RccApb2SyscfgEn: bv32 := 0x4000    // bit 14

  // GPIOC masks and values (two MODER/PUPDR bits per pin)
  const GpiocColumns: bv32 := 0xFF
  const GpiocRows: bv32 := 0xFF00
  const ModerColumnsOutput: bv32 := 0x55
  const ModerRowsOutput: bv32 := 0x5500
  const OdrColumns: bv32 := 0x0F
  const OdrRows: bv32 := 0xF0
  const PupdrColumnsPulldown: bv32 := 0xAA
  const PupdrRowsPulldown: bv32 := 0xAA00

  // SYSCFG, EXTI and NVIC values
  const ExtiToPortC: bv32 := 0x2           // EXTICRn field value selecting port C
  const Exti0Thru3: bv32 := 0x0F
  const Nvic6Thru9: bv32 := 0x3C0          // EXTI0..EXTI3 are NVIC positions 6..9

  /** Low half of a 32-bit register: the two-bit fields of pins 0..7. */
  const LowHalf: bv32 := 0xFFFF

  /** Maps a 4-bit row sample to a logical row; index 0 doubles as "row 0". */
  const RowLUT: seq<int> := [0, 0, 1, 1, 2, 2, 2, 2, 3]

  /** The keypad legend: entry 0 is the "no key" character. */
  const DefaultCharLUT: seq<Char8> :=
    ['\0',
     '1', '2', '3', 'A',
     '4', '5', '6', 'B',
     '7', '8', '9', 'C',
     '*', '0', '#', 'D']

  /** The row and column of key code 1..16, read in row-major order. */
  function KeyRow(key: int): int { (key - 1) / 4 }
  function KeyColumn(key: int): int { (key - 1) % 4 }

  /** GPIOC MODER with pins 0..3 (columns) inputs and pins 4..7 (rows)
      outputs; the modes of pins 8..15 are kept. */
  function RowsDriven(moder: bv32): (r: bv32)
    ensures r & LowHalf == 0x5500 && r & !LowHalf == moder & !LowHalf
  {
    (moder & !(GpiocColumns | GpiocRows)) | ModerRowsOutput
  }

  /** GPIOC MODER with the directions reversed for a scan: columns outputs,
      rows inputs; the modes of pins 8..15 are kept. */
  function ColumnsDriven(moder: bv32): (r: bv32)
    ensures r & LowHalf == 0x0055 && r & !LowHalf == moder & !LowHalf
  {
    (moder & !(GpiocColumns | GpiocRows)) | ModerColumnsOutput
  }

  /** GPIOC PUPDR with pull-down on pins 0..7; pins 8..15 kept. */
  function KeypadPulledDown(pupdr: bv32): (r: bv32)
    ensures r & LowHalf == 0xAAAA && r & !LowHalf == pupdr & !LowHalf
  {
    (pupdr & !(GpiocRows | GpiocColumns)) | (PupdrColumnsPulldown | PupdrRowsPulldown)
  }

  /** An EXTI register with lines 0..3 set and every other line kept. */
  function ColumnLinesSet(reg: bv32): (r: bv32)
    ensures r & 0xF == 0xF && r & !0xF == reg & !0xF
  {
    reg | Exti0Thru3
  }

  /** An EXTI register with lines 0..3 cleared and every other line kept. */
  function ColumnLinesCleared(reg: bv32): (r: bv32)
    ensures r & 0xF == 0 && r & !0xF == reg & !0xF
  {
    reg & !Exti0Thru3
  }

  /** Masking lines 0..3 and unmasking them again leaves the lines set, whatever
      they held before. */
  lemma MaskThenUnmask(reg: bv32)
    ensures ColumnLinesSet(ColumnLinesCleared(reg)) == ColumnLinesSet(reg)
  {
  }

  /** Reversing the directions and restoring them gives the resting directions. */
  lemma ScanThenRest(moder: bv32)
    ensures RowsDriven(ColumnsDriven(moder)) == RowsDriven(moder)
  {
  }

  /** The EXTI PR value that acknowledges column line `column` and no other. */
  function PendingBit(column: int): (r: bv32)
    requires 0 <= column < 4
    ensures r == [0x1, 0x2, 0x4, 0x8][column]
  {
    (1 as bv32) << column
  }

  /** SYSCFG EXTICR1 with EXTI0..3 routed to port C (field value 2 in each nibble). */
  function ColumnsRoutedToPortC(exticr1: bv32): (r: bv32)
    ensures r == exticr1 | 0x2222
  {
    exticr1 | ExtiToPortC | (ExtiToPortC << 4) | (ExtiToPortC << 8) | (ExtiToPortC << 12)
  }

  /** The row sample with row `row` alone conducting. */
  function RowBit(row: nat): (s: int)
    requires row < 4
    ensures 1 <= s <= 8
  {
    if row == 0 then 1 else 2 * RowBit(row - 1)
  }

  /** key_to_char over a 17-entry table: the table entry for keys 1..16,
      the null character for every other key. */
  function KeyToChar(lut: seq<Char8>, key: int): (c: Char8)
    requires |lut| == 17
    ensures 1 <= key <= 16 ==> c == lut[key]
    ensures !(1 <= key <= 16) ==> c == '\0'
  {
    if key > 0 && key <= 16 then lut[key] else '\0'
  }

  /** The handler's row sample: bits 4..7 of GPIOC IDR. */
  function RowSample(idr: bv32): (s: int)
    ensures 0 <= s < 16
  {
    ((idr >> 4) & 0xF) as int
  }

  /** The guard of the scan routine as written: it admits 9, one past the
      last index of RowLUT. */
  function RowGuardAsWritten(row: int): bool
  {
    row > 0 && row <= 9
  }

  /** The guard the scan routine needs: the sample is non-zero and indexes RowLUT.
      It agrees with the written guard everywhere except at 9. */
  function RowGuard(row: int): (ok: bool)
    ensures ok <==> RowGuardAsWritten(row) && row < |RowLUT|
    ensures row != 9 ==> (ok <==> RowGuardAsWritten(row))
  {
    row > 0 && row <= 8
  }

  /** The written guard lets sample 9 (rows 0 and 3 both high) through to an
      index outside the 9-entry table. */
  lemma RowGuardAdmitsNine()
    ensures RowGuardAsWritten(9) && 9 >= |RowLUT|
  {
  }

  /** The key the scan routine records for `column` and row sample `sample`,
      or None when it leaves the slot as it was. */
  function ScanKey(column: int, sample: int): (r: Option<int>)
    requires 0 <= column < 4 && 0 <= sample < 16
    ensures r.Some? <==> RowGuard(sample)
    ensures r.Some? ==> 1 <= r.value <= 16 && KeyColumn(r.value) == column
  {
    if RowGuard(sample) then Some(RowLUT[sample] * 4 + column + 1) else None
  }

  /** A one-hot sample of row r on column c resolves to the key at (r, c). */
  lemma OneHotScan(column: int, row: nat)
    requires 0 <= column < 4 && row < 4
    ensures ScanKey(column, RowBit(row)) == Some(row * 4 + column + 1)
    ensures KeyRow(row * 4 + column + 1) == row && KeyColumn(row * 4 + column + 1) == column
  {
    assert RowBit(row) == [1, 2, 4, 8][row];
  }

  /** Distinct one-hot presses resolve to distinct keys. */
  lemma OneHotScanInjective(c1: int, r1: nat, c2: int, r2: nat)
    requires 0 <= c1 < 4 && r1 < 4 && 0 <= c2 < 4 && r2 < 4
    requires ScanKey(c1, RowBit(r1)) == ScanKey(c2, RowBit(r2))
    ensures c1 == c2 && r1 == r2
  {
    OneHotScan(c1, r1);
    OneHotScan(c2, r2);
  }

  /** A sample with no row high, or one the table does not cover, records nothing. */
  lemma NoiseRecordsNothing(column: int, sample: int)
    requires 0 <= column < 4 && (sample == 0 || 9 <= sample < 16)
    ensures ScanKey(column, sample) == None
  {
  }

  /** Two rows high at once is not rejected: samples 3, 5, 6 and 7 decode to
      rows 1, 2, 2 and 2. */
  lemma MultiBitSamplesDecode(column: int)
    requires 0 <= column < 4
    ensures ScanKey(column, 3) == Some(4 + column + 1)
    ensures ScanKey(column, 5) == Some(8 + column + 1)
    ensures ScanKey(column, 6) == Some(8 + column + 1)
    ensures ScanKey(column, 7) == Some(8 + column + 1)
  {
  }

  /**
   * The keypad driver's module state: the active character table (the
   * `charLUT` pointer) and the single-slot last keypress. `hw` is the fixed
   * register bank the driver addresses.
   */
  class Keypad {
    const hw: Registers
    var charLUT: seq<Char8>
    var lastKeypress: int

    ghost predicate Valid()
      reads this
    {
      |charLUT| == 17 && 0 <= lastKeypress <= 16
    }

    /** The static initialisers: the default table and no key. */
    constructor (hw: Registers)
      ensures this.hw == hw && Valid()
      ensures charLUT == DefaultCharLUT && lastKeypress == 0
    {
      this.hw := hw;
      charLUT := DefaultCharLUT;
      lastKeypress := 0;
    }

    /** key_init: output levels, pull-downs and directions on pins 0..7,
        EXTI0..3 routed to port C on rising edges and unmasked, NVIC lines
        6..9 enabled, the slot cleared. */
    method Init()
      requires Valid()
      modifies this`lastKeypress, hw`rccAHB1ENR, hw`rccAPB2ENR, hw`gpiocODR, hw`gpiocPUPDR,
               hw`gpiocMODER, hw`syscfgEXTICR1, hw`extiIMR, hw`extiRTSR, hw`nvicISER0
      ensures Valid() && lastKeypress == 0
      ensures hw.rccAHB1ENR == old(hw.rccAHB1ENR) | RccAhb1GpiocEn
      ensures hw.rccAPB2ENR == old(hw.rccAPB2ENR) | RccApb2SyscfgEn
      ensures hw.gpiocODR == old(hw.gpiocODR) | 0xFF
      ensures hw.gpiocPUPDR == KeypadPulledDown(old(hw.gpiocPUPDR))
      ensures hw.gpiocMODER == RowsDriven(old(hw.gpiocMODER))
      ensures hw.syscfgEXTICR1 == ColumnsRoutedToPortC(old(hw.syscfgEXTICR1))
      ensures hw.extiIMR == ColumnLinesSet(old(hw.extiIMR))
      ensures hw.extiRTSR == ColumnLinesSet(old(hw.extiRTSR))
      ensures hw.nvicISER0 == 0x3C0
    {
      hw.rccAHB1ENR := hw.rccAHB1ENR | RccAhb1GpiocEn;
      hw.gpiocODR := hw.gpiocODR | OdrColumns | OdrRows;
      hw.gpiocPUPDR := KeypadPulledDown(hw.gpiocPUPDR);
      hw.gpiocMODER := RowsDriven(hw.gpiocMODER);
      hw.rccAPB2ENR := hw.rccAPB2ENR | RccApb2SyscfgEn;
      hw.syscfgEXTICR1 := ColumnsRoutedToPortC(hw.syscfgEXTICR1);
      hw.extiIMR := ColumnLinesSet(hw.extiIMR);
      hw.extiRTSR := ColumnLinesSet(hw.extiRTSR);
      hw.nvicISER0 := Nvic6Thru9;
      Clear();
    }

    /** key_clear: the slot reads "no key". */
    method Clear()
      modifies this`lastKeypress
      ensures lastKeypress == 0
    {
      lastKeypress := 0;
    }

    /** key_get: the slot, unchanged. */
    method Get() returns (key: int)
      ensures key == lastKeypress
    {
      key := lastKeypress;
    }

    /** key_get_char: the active table's entry for the slot (entry 0 when no key). */
    method GetChar() returns (c: Char8)
      requires Valid()
      ensures c == charLUT[lastKeypress]
    {
      var key := Get();
      c := charLUT[key];
    }

    /** key_to_char against the active table; reads state, changes none. */
    function ToChar(key: int): (c: Char8)
      reads this
      requires Valid()
      ensures c == KeyToChar(charLUT, key)
    {
      if key > 0 && key <= 16 then charLUT[key] else '\0'
    }

    /** key_set_char_lut: installs a 17-entry table for every later lookup. */
    method SetCharLUT(newCharLUT: seq<Char8>)
      requires Valid() && |newCharLUT| == 17
      modifies this`charLUT
      ensures Valid() && charLUT == newCharLUT
      ensures forall key :: ToChar(key) == KeyToChar(newCharLUT, key)
    {
      charLUT := newCharLUT;
    }

    /** key_wait: clears the slot, then returns once the interrupt path has
        stored a key; `pressed` is the key that interrupt resolved. */
    method Wait(pressed: int)
      requires Valid() && 1 <= pressed <= 16
      modifies this`lastKeypress
      ensures Valid() && lastKeypress == pressed
    {
      Clear();
      lastKeypress := pressed;
    }

    /** key_get_wait: key_wait followed by key_get. */
    method GetWait(pressed: int) returns (key: int)
      requires Valid() && 1 <= pressed <= 16
      modifies this`lastKeypress
      ensures Valid() && lastKeypress == pressed && key == pressed
    {
      Wait(pressed);
      key := Get();
    }

    /** key_get_char_wait: the active table's entry for the awaited key. */
    method GetCharWait(pressed: int) returns (c: Char8)
      requires Valid() && 1 <= pressed <= 16
      modifies this`lastKeypress
      ensures Valid() && lastKeypress == pressed && c == charLUT[pressed]
    {
      var key := GetWait(pressed);
      c := charLUT[key];
    }

    /**
     * key_interrupt_handler for `column`, with `idr` the value GPIOC IDR
     * holds after the 40 ms debounce delay. Masks EXTI0..3, swaps the port
     * directions, records the decoded key (if any), restores the
     * directions, acknowledges only its own line and unmasks EXTI0..3.
     */
    method InterruptHandler(column: int, idr: bv32)
      requires Valid() && 0 <= column < 4
      modifies this`lastKeypress, hw`extiIMR, hw`gpiocMODER, hw`extiPR, hw`trace
      ensures Valid()
      ensures lastKeypress == match ScanKey(column, RowSample(idr))
                              case Some(key) => key
                              case None => old(lastKeypress)
      ensures hw.gpiocMODER == RowsDriven(old(hw.gpiocMODER))
      ensures hw.extiPR == PendingBit(column)
      ensures hw.extiIMR == ColumnLinesSet(old(hw.extiIMR))
      ensures hw.trace == old(hw.trace) + [WaitMs(40)]
    {
      ghost var imr, moder := hw.extiIMR, hw.gpiocMODER;
      hw.extiIMR := ColumnLinesCleared(hw.extiIMR);
      hw.gpiocMODER := ColumnsDriven(hw.gpiocMODER);
      hw.DelayMs(40);
      Record(column, RowSample(idr));
      hw.gpiocMODER := RowsDriven(hw.gpiocMODER);
      hw.extiPR := PendingBit(column);
      hw.extiIMR := ColumnLinesSet(hw.extiIMR);
      MaskThenUnmask(imr);
      ScanThenRest(moder);
    }

    /** The decode step of the scan: a row sample the guard admits is mapped
        through RowLUT and the key row*4 + column + 1 is stored. */
    method Record(column: int, row: int)
      requires Valid() && 0 <= column < 4 && 0 <= row < 16
      modifies this`lastKeypress
      ensures Valid()
      ensures lastKeypress == match ScanKey(column, row)
                              case Some(key) => key
                              case None => old(lastKeypress)
    {
      if RowGuard(row) {
        var logicalRow := RowLUT[row];
        lastKeypress := logicalRow * 4 + column + 1;
      }
    }

    /** EXTI0_IRQHandler: the scan for column 0; acknowledges EXTI line 0 only. */
    method Exti0IrqHandler(idr: bv32)
      requires Valid()
      modifies this`lastKeypress, hw`extiIMR, hw`gpiocMODER, hw`extiPR, hw`trace
      ensures Valid() && hw.extiPR == 0x1
      ensures lastKeypress == match ScanKey(0, RowSample(idr))
                              case Some(key) => key
                              case None => old(lastKeypress)
      ensures hw.gpiocMODER == RowsDriven(old(hw.gpiocMODER))
      ensures hw.extiIMR == ColumnLinesSet(old(hw.extiIMR))
      ensures hw.trace == old(hw.trace) + [WaitMs(40)]
    {
      InterruptHandler(0, idr);
    }

    /** EXTI1_IRQHandler: the scan for column 1; acknowledges EXTI line 1 only. */
    method Exti1IrqHandler(idr: bv32)
      requires Valid()
      modifies this`lastKeypress, hw`extiIMR, hw`gpiocMODER, hw`extiPR, hw`trace
      ensures Valid() && hw.extiPR == 0x2
      ensures lastKeypress == match ScanKey(1, RowSample(idr))
                              case Some(key) => key
                              case None => old(lastKeypress)
      ensures hw.gpiocMODER == RowsDriven(old(hw.gpiocMODER))
      ensures hw.extiIMR == ColumnLinesSet(old(hw.extiIMR))
      ensures hw.trace == old(hw.trace) + [WaitMs(40)]
    {
      InterruptHandler(1, idr);
    }

    /** EXTI2_IRQHandler: the scan for column 2; acknowledges EXTI line 2 only. */
    method Exti2IrqHandler(idr: bv32)
      requires Valid()
      modifies this`lastKeypress, hw`extiIMR, hw`gpiocMODER, hw`extiPR, hw`trace
      ensures Valid() && hw.extiPR == 0x4
      ensures lastKeypress == match ScanKey(2, RowSample(idr))
                              case Some(key) => key
                              case None => old(lastKeypress)
      ensures hw.gpiocMODER == RowsDriven(old(hw.gpiocMODER))
      ensures hw.extiIMR == ColumnLinesSet(old(hw.extiIMR))
      ensures hw.trace == old(hw.trace) + [WaitMs(40)]
    {
      InterruptHandler(2, idr);
    }

    /** EXTI3_IRQHandler: the scan for column 3; acknowledges EXTI line 3 only. */
    method Exti3IrqHandler(idr: bv32)
      requires Valid()
      modifies this`lastKeypress, hw`extiIMR, hw`gpiocMODER, hw`extiPR, hw`trace
      ensures Valid() && hw.extiPR == 0x8
      ensures lastKeypress == match ScanKey(3, RowSample(idr))
                              case Some(key) => key
                              case None => old(lastKeypress)
      ensures hw.gpiocMODER == RowsDriven(old(hw.gpiocMODER))
      ensures hw.extiIMR == ColumnLinesSet(old(hw.extiIMR))
      ensures hw.trace == old(hw.trace) + [WaitMs(40)]
    {
      InterruptHandler(3, idr);
    }
  }
}
