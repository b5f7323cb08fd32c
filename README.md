# A keypad-and-LCD calculator on an STM32 board, modelled in Dafny

The firmware drives two peripherals and runs a four-function calculator on
top of them:

- **the keypad driver** (`Src/keypad_driver.c`). A 4x4 matrix keypad sits on
  GPIOC: the columns are on pins 0..3 and the rows on pins 4..7. A rising edge
  on a column raises EXTI0..EXTI3. The interrupt handler masks the four lines
  and swaps the port directions. It waits 40 ms, samples the rows, decodes the
  key through `rowLUT` and stores it in a single overwriting slot. Then it
  restores the directions, acknowledges its own pending bit and unmasks the
  lines. The foreground clears the slot and spins until it is non-zero
  (`key_get_wait`), and maps keys to characters through a 17-entry table.
- **the LCD driver** (`Src/lcd_driver.c`). An HD44780U-style controller sits
  on an 8-bit bus. The data lines are GPIOA pins 4..11; RS, RW and E are
  GPIOC pins 8..10. Every instruction or character is latched by the falling
  edge of E and followed by a settle delay: 37 us, or 1520 us for clear and
  home. Absolute cursor positioning is built from "home" plus repeated
  cursor-right instructions.
- **the calculator loop** (the `while (1)` of `Src/main.c`). It builds an
  expression in a 33-byte `opString`. Digits are accepted up to nine per
  operand. An operator is accepted after any input until a second operand
  starts, so a second operator becomes the sign of the second operand. At `=`
  the loop parses the text with `sscanf("%d%c%d")` and computes with
  overflow checks that give 0. It shows the result (with an animation when
  the result is 69) and keeps it, printed back with `sprintf`, as the first
  operand of the next calculation. Any other key clears.

The Dafny project has these modules:

- `Hardware` holds the register bank as a class with one `bv32` field per
  register the drivers touch. It also keeps a ghost trace of what the LCD sees
  (instruction bytes, data bytes) and of every delay.
- `Keypad` holds the bit-level register updates, the scan decode (`ScanKey`)
  and the driver's module state as a class.
- `Lcd` holds the instruction encoding against Table 6 of the HD44780U
  datasheet, with a decoder that inverts it. It also holds the bus writes,
  one method per driver function, and the traces they produce.
- `Decimal` models `sprintf("%d")` and `sscanf("%d%c%d")`, restricted to the
  texts the calculator produces.
- `CalcArith` holds 32-bit C arithmetic: truncating `/`, the four checked
  operations, and the multiply and divide guards as written.
- `CalcState` is the loop as a state machine over key numbers (`Next`,
  `Run`), with its invariant, whole-calculation lemmas and key-by-key
  scenarios.
- `CalculatorApp` is the loop over `main`'s own variables. It is a class
  whose `opString` is an array. `Step` is proved to refine `CalcState.Next`
  and to produce the LCD trace `Echo`; `Operate` does the same for a
  sequence of keys.

The three defects under "## Findings" are each modelled as written, and
the calculator loop uses the corrected definitions (see `CalcArith.Evaluate`
under "## Left out"). Where the written requirements and the code disagree,
the model follows the code:

- Samples with two rows high (3, 5, 6, 7) are not rejected. `rowLUT` decodes
  them to rows 1, 2, 2, 2, and a key is recorded (`Keypad.MultiBitSamplesDecode`).
- An overflow of `2147483647 + 1` cannot be typed, because operands stop at
  nine digits. The saturation to 0 is stated in general by
  `CalcArith.Evaluate`.
- The driver's comments on `lcd_instr_function_set` describe the flag values
  the other way round from the datasheet. The model encodes the bytes the
  code writes and names the flags by the datasheet. `lcd_init` therefore
  sends 0x38: 8-bit bus, two lines, 5x8 font.

## Model

| member | source | states |
|---|---|---|
| `Keypad.RowsDriven` | Src/keypad_driver.c:104-105 | pins 0..7 get modes 0x5500 (rows out, columns in); the modes of pins 8..15 are kept |
| `Keypad.ColumnsDriven` | Src/keypad_driver.c:208-209 | during a scan, pins 0..7 get modes 0x0055 (columns out, rows in); the upper pins are kept |
| `Keypad.KeypadPulledDown` | Src/keypad_driver.c:100-101 | pull-down (0xAAAA) on pins 0..7; other pins kept |
| `Keypad.ColumnLinesSet` | Src/keypad_driver.c:119-124 | EXTI lines 0..3 set, every other line kept |
| `Keypad.ColumnLinesCleared` | Src/keypad_driver.c:204-205 | EXTI lines 0..3 masked, every other line kept |
| `Keypad.MaskThenUnmask` | Src/keypad_driver.c:204-236 | masking and then unmasking leaves lines 0..3 enabled whatever IMR held |
| `Keypad.ScanThenRest` | Src/keypad_driver.c:207-229 | swapping the directions for a scan and restoring them gives the resting directions |
| `Keypad.PendingBit` | Src/keypad_driver.c:232-233 | the acknowledgement for column c is the single bit c |
| `Keypad.ColumnsRoutedToPortC` | Src/keypad_driver.c:111-116 | ORs 0x2222 into EXTICR1: each of the four fields gets bit 1 (port C where the field held 0), other bits kept |
| `Keypad.RowBit` | Src/keypad_driver.c:214-215 | a single conducting row gives a sample between 1 and 8 |
| `Keypad.KeyToChar` | Src/keypad_driver.c:183-189 | the table entry for keys 1..16, NUL for every other key |
| `Keypad.RowSample` | Src/keypad_driver.c:215 | the handler's sample is a 4-bit value |
| `Keypad.RowGuard` | Src/keypad_driver.c:217-221 | the corrected guard: the written guard restricted to indices of rowLUT, equal to it except at 9 |
| `Keypad.RowGuardAdmitsNine` | Src/keypad_driver.c:217-221 | the written guard admits 9, which is outside the 9-entry rowLUT |
| `Keypad.ScanKey` | Src/keypad_driver.c:214-225 | a key is recorded exactly when the guard admits the sample; it is in 1..16 and lies in the interrupting column |
| `Keypad.OneHotScan` | Src/keypad_driver.c:214-224 | row r alone on column c decodes to key 4r + c + 1, whose row and column are r and c |
| `Keypad.OneHotScanInjective` | Src/keypad_driver.c:214-224 | distinct one-row presses decode to distinct keys |
| `Keypad.NoiseRecordsNothing` | Src/keypad_driver.c:217-225 | a zero sample or one past the table leaves the slot unchanged |
| `Keypad.MultiBitSamplesDecode` | Src/keypad_driver.c:66-67 | samples with two rows high (3, 5, 6, 7) still decode to rows 1, 2, 2, 2 |
| `Keypad.Keypad.constructor` | Src/keypad_driver.c:79-83 | the default table and an empty slot |
| `Keypad.Keypad.Init` | Src/keypad_driver.c:88-133 | each register written by key_init gets its new value from the old one (clock bits, ODR, pull-downs, directions, EXTI routing, masks, edges, NVIC lines 6..9), and the slot is cleared |
| `Keypad.Keypad.Clear` | Src/keypad_driver.c:138-140 | the slot reads "no key" |
| `Keypad.Keypad.Get` | Src/keypad_driver.c:153-155 | returns the slot |
| `Keypad.Keypad.GetChar` | Src/keypad_driver.c:168-170 | the active table's entry for the slot |
| `Keypad.Keypad.ToChar` | Src/keypad_driver.c:183-189 | key_to_char against the active table |
| `Keypad.Keypad.SetCharLUT` | Src/keypad_driver.c:194-196 | every later lookup goes through the new table |
| `Keypad.Keypad.Wait` | Src/keypad_driver.c:145-148 | after the wait the slot holds the key the interrupt stored |
| `Keypad.Keypad.GetWait` | Src/keypad_driver.c:160-163 | returns that key, which is also left in the slot |
| `Keypad.Keypad.GetCharWait` | Src/keypad_driver.c:175-177 | returns the active table's entry for the awaited key |
| `Keypad.Keypad.InterruptHandler` | Src/keypad_driver.c:201-238 | the slot becomes the decoded key or keeps its value; directions restored, only its own pending bit written, lines re-enabled, one 40 ms delay |
| `Keypad.Keypad.Record` | Src/keypad_driver.c:217-225 | stores rowLUT[sample]*4 + column + 1 exactly when the guard admits the sample |
| `Keypad.Keypad.Exti0IrqHandler` | Src/keypad_driver.c:243-245 | the scan for column 0: the slot as `ScanKey(0, ·)` decides, only pending bit 1 written, directions restored to rows-out, lines 0..3 re-enabled, one 40 ms wait |
| `Keypad.Keypad.Exti1IrqHandler` | Src/keypad_driver.c:250-252 | the scan for column 1: the slot as `ScanKey(1, ·)` decides, only pending bit 2 written, directions restored to rows-out, lines 0..3 re-enabled, one 40 ms wait |
| `Keypad.Keypad.Exti2IrqHandler` | Src/keypad_driver.c:257-259 | the scan for column 2: the slot as `ScanKey(2, ·)` decides, only pending bit 4 written, directions restored to rows-out, lines 0..3 re-enabled, one 40 ms wait |
| `Keypad.Keypad.Exti3IrqHandler` | Src/keypad_driver.c:264-266 | the scan for column 3: the slot as `ScanKey(3, ·)` decides, only pending bit 8 written, directions restored to rows-out, lines 0..3 re-enabled, one 40 ms wait |
| `Lcd.Encode` | Src/lcd_driver.c:233-339 | every instruction byte fits the 8-bit bus and is non-zero |
| `Lcd.Decode` | Src/lcd_driver.c:233-339 | the controller's reading of a byte: defined exactly on 1..63; the byte lies in its reading's encoding plus the don't-care bits Table 6 marks, so it equals the encoding for clear, entry mode and display control, and may differ in bit 0 for return home and in bits 0..1 for the shift and function-set instructions |
| `Lcd.DecodeEncode` | Src/lcd_driver.c:233-339 | the controller reads back exactly the instruction encoded |
| `Lcd.EncodeInjective` | Src/lcd_driver.c:233-339 | distinct instructions never share a byte |
| `Lcd.UpToNul` | Src/lcd_driver.c:171-180 | the C string in a buffer: a NUL-free prefix, followed by a NUL if shorter than the buffer |
| `Lcd.DataBusOut` | Src/lcd_driver.c:197-198 | the byte is on pins 4..11 of GPIOA and every other pin is kept |
| `Lcd.ControlOut` | Src/lcd_driver.c:191-201 | after a write E and RW are low, RS is as given, and other GPIOC pins are kept |
| `Lcd.DataBusOverwrite` | Src/lcd_driver.c:197-198 | a later byte on the bus replaces an earlier one |
| `Lcd.ByteShift` | Src/lcd_driver.c:198 | shifting a bus-sized int into place equals shifting its byte |
| `Lcd.ControlOverwrite` | Src/lcd_driver.c:191-223 | the last write decides the control lines |
| `Lcd.InstructionStrobe` | Src/lcd_driver.c:190-201 | E up, RS and RW down, E down leaves RS low and E low |
| `Lcd.CharacterStrobe` | Src/lcd_driver.c:212-223 | E and RS up, RW down, E down leaves RS high and E low |
| `Lcd.WriteInstruction` | Src/lcd_driver.c:185-203 | a value up to 0xFF is latched with RS low; a wider one changes nothing |
| `Lcd.WriteChar` | Src/lcd_driver.c:208-228 | the character is latched with RS high, then the 37 us settle |
| `Lcd.Issue` | Src/lcd_driver.c:237-241 | the instruction's byte, then its settle time |
| `Lcd.InstrClear` | Src/lcd_driver.c:233-242 | byte 0x01, then 1520 us |
| `Lcd.InstrReturnHome` | Src/lcd_driver.c:247-256 | byte 0x02, then 1520 us |
| `Lcd.InstrEntryModeSet` | Src/lcd_driver.c:262-276 | the entry-mode instruction with I/D and S taken from the two C truth values |
| `Lcd.EntryModeByte` | Src/lcd_driver.c:265-269 | the if-updates on 0x04 compute the datasheet byte of the entry-mode instruction: bit 1 for increment, bit 0 for shift |
| `Lcd.InstrDisplayOnOff` | Src/lcd_driver.c:283-298 | the display-control instruction with D, C, B from the three truth values |
| `Lcd.DisplayOnOffByte` | Src/lcd_driver.c:286-291 | the if-updates on 0x08 compute the datasheet byte of display control: bits 2, 1, 0 for display, cursor, blink |
| `Lcd.InstrCursorDisplayShift` | Src/lcd_driver.c:304-317 | the shift instruction with S/C and R/L from the two truth values |
| `Lcd.CursorDisplayShiftByte` | Src/lcd_driver.c:306-310 | the if-updates on 0x10 compute the datasheet byte of the shift instruction: bit 3 for display shift, bit 2 for right |
| `Lcd.InstrFunctionSet` | Src/lcd_driver.c:324-339 | the function-set instruction with DL, N, F from the three truth values |
| `Lcd.FunctionSetByte` | Src/lcd_driver.c:327-332 | the if-updates on 0x20 compute the datasheet byte of function set: bits 4, 3, 2 for 8-bit bus, two lines, 5x10 font |
| `Lcd.Init` | Src/lcd_driver.c:68-95 | clocks and pin modes ORed in, the trace 0x38, 0x38, 0x0D, 0x01, 0x06 with their settle times, the bus on 0x06 with RS low, and every register lcd_init does not write kept |
| `Lcd.SendInitSequence` | Src/lcd_driver.c:81-94 | the five instructions in order with their settle times; the bus ends on 0x06 with RS low |
| `Lcd.Clear` | Src/lcd_driver.c:100-102 | one clear-display instruction |
| `Lcd.CursorHome` | Src/lcd_driver.c:107-109 | one return-home instruction |
| `Lcd.CursorSet` | Src/lcd_driver.c:115-129 | home, then y*40 + x cursor-right instructions (none for a non-positive count); the bus ends on the last byte sent |
| `Lcd.ShiftRightLoop` | Src/lcd_driver.c:121-128 | `for (i = 0; i < n; i++)` issues exactly max(n, 0) cursor-right instructions and appends nothing else to the trace |
| `Lcd.ShiftRight` | Src/lcd_driver.c:121-128 | one loop step adds exactly one cursor-right instruction |
| `Lcd.CursorShow` | Src/lcd_driver.c:134-136 | display on, underline off, blink on: byte 0x0D latched, so the bus holds 0x0D and RS, RW and E end low |
| `Lcd.CursorHide` | Src/lcd_driver.c:141-143 | display on, underline off, blink off: byte 0x0C latched, so the bus holds 0x0C and RS, RW and E end low |
| `Lcd.PrintString` | Src/lcd_driver.c:171-180 | one character write per character before the first NUL, in order |
| `Lcd.Printf` | Src/lcd_driver.c:148-166 | the formatted text reaches the display unchanged, character by character |
| `Lcd.CStringOfTerminated` | Src/lcd_driver.c:155-161 | a NUL-free text followed by NUL reads back as that text |
| `Decimal.Digits` | Src/main.c:248 | at least one decimal digit, no leading zero |
| `Decimal.Render` | Src/main.c:227 | sprintf "%d": a minus sign exactly for negative values, then digits, never a NUL |
| `Decimal.DigitsValueOfDigits` | Src/main.c:248 | reading the printed digits of n gives n |
| `Decimal.RenderLength` | Src/main.c:248 | a 32-bit int prints in at most 11 characters, so it fits opString with its NUL |
| `Decimal.NineDigitsFit` | Src/main.c:50-51 | nine digits or fewer always denote a value below 10^9, inside int |
| `Decimal.DigitRun` | Src/main.c:146 | the leading digit run: all digits, ended by a non-digit or the end |
| `Decimal.ScanDecimal` | Src/main.c:146 | a "%d" conversion consumes a non-empty prefix and leaves the rest |
| `Decimal.ScanDigits` | Src/main.c:146 | "%d" reads a run of digits followed by a non-digit as its value |
| `Decimal.ScanRender` | Src/main.c:146-248 | "%d" reads back what "%d" printed |
| `Decimal.ScanChained` | Src/main.c:146-248 | a printed result, an operator and typed digits scan back to their values |
| `Decimal.ScanExpressionOf` | Src/main.c:146 | "%d%c%d" is two "%d" conversions around one character |
| `CalcArith.CDiv` | Src/main.c:212 | C's truncating quotient: the remainder is smaller than the divisor, has the dividend's sign, and the quotient is no larger than the dividend |
| `CalcArith.TruncatedRemainder` | Src/main.c:212 | the remainder left by C's quotient is smaller in magnitude than the divisor |
| `CalcArith.AddChecked` | Src/main.c:158-171 | the written overflow and underflow tests yield exactly the sum when it fits, else 0 |
| `CalcArith.SubChecked` | Src/main.c:174-187 | the written tests yield exactly the difference when it fits, else 0 |
| `CalcArith.MulAsWrittenPositive` | Src/main.c:190-203 | with a positive second operand the written tests are exact |
| `CalcArith.MulAsWrittenNegative` | Src/main.c:193-194 | with a negative second operand they reject 5 * -2, which fits |
| `CalcArith.MulAsWrittenNegativeIsZero` | Src/main.c:193-199 | for every second operand of -2 or below the written tests fire whatever the first operand, so the result is 0 |
| `CalcArith.MulNegative` | Src/main.c:193-194 | for a negative second operand the product overflows and underflows under the reversed tests |
| `CalcArith.MulNegativeAbove` | Src/main.c:193 | for a negative b, a * b exceeds INT_MAX exactly when a is below C's INT_MAX / b |
| `CalcArith.MulNegativeBelow` | Src/main.c:194 | for a negative b, a * b is below INT_MIN exactly when b < -1 and a exceeds C's INT_MIN / b |
| `CalcArith.MulChecked` | Src/main.c:190-203 | the product when it fits, else 0, for every second operand including 0 and -1 |
| `CalcArith.DivGuardAdmitsOverflow` | Src/main.c:209-213 | the zero test lets INT_MIN / -1 through, whose quotient is not an int |
| `CalcArith.QuotientFits` | Src/main.c:212 | a truncated quotient of two ints fits an int unless it is INT_MIN / -1 |
| `CalcArith.DivChecked` | Src/main.c:206-215 | 0 for a zero divisor or an unrepresentable quotient, otherwise C's quotient |
| `CalcArith.Evaluate` | Src/main.c:155-221 | the switch on the operator with the corrected multiply and divide: each operator's exact result when it fits, else 0, and 0 for any other character; always an int |
| `CalcState.OperatorChar` | Src/main.c:90-116 | the operator keys give '+', '-', '*', '/' |
| `CalcState.DigitKeyChars` | Src/main.c:45-63 | the number keys carry decimal digits, key 14 the digit 0 |
| `CalcState.Result` | Src/main.c:141-221 | the value computed at equals is always an int |
| `CalcState.NextKeepsInv` | Src/main.c:39-285 | every key keeps the invariant: typed operands at most nine digits, a shown result at most eleven characters, no NUL in the text, the flags consistent |
| `CalcState.RunKeepsInv` | Src/main.c:39-285 | the invariant holds after any sequence of keys with a defined effect |
| `CalcState.RunAppend` | Src/main.c:39-285 | running two key sequences in turn is running their concatenation |
| `CalcState.NextDigit` | Src/main.c:44-71 | an accepted number key appends its character to the current operand |
| `CalcState.NextOperator` | Src/main.c:76-130 | an accepted operator key appends its character and clears the shown-result flag |
| `CalcState.NextEquals` | Src/main.c:133-263 | equals after a second operand replaces the input by the printed result |
| `CalcState.DigitKeysType` | Src/main.c:45-66 | number keys type only digits |
| `CalcState.TypedValue` | Src/main.c:50-51 | at most nine digit keys denote a value below 10^9 |
| `CalcState.RunDigits` | Src/main.c:44-71 | digit keys that fit their operand are appended one by one |
| `CalcState.TypedCalculation` | Src/main.c:39-263 | up to nine digits, an operator, up to nine digits and equals show the checked result of the two typed numbers |
| `CalcState.ScanTyped` | Src/main.c:146 | sscanf reads two typed operands and the operator between them |
| `CalcState.ChainedCalculation` | Src/main.c:247-261 | after a result, an operator, digits and equals compute with the result as the first operand |
| `CalcState.SevenPlusFiveTimesTwo` | Src/main.c:39-263 | 7 + 5 = shows 12, and * 2 = then shows 24 |
| `CalcState.SignedSecondOperand` | Src/main.c:79-119 | with the corrected multiply, 5 * - 2 = shows -10: the second operator becomes the sign of the second operand (the multiply as written shows 0, `CalcArith.MulAsWrittenNegativeIsZero`) |
| `CalcState.UnsignedOperatorPairUndefined` | Src/main.c:142-146 | 5 + * 2 = leaves sscanf without a second operand, so it has no defined effect |
| `CalcState.RunOperators` | Src/main.c:79-119 | operator keys are never refused for length: each adds one character |
| `CalcState.OperatorRunOverflows` | Src/main.c:119 | a digit followed by 32 operator keys fills the 33 bytes, and the next operator key would write past them |
| `CalcState.ChainedResultIsLonger` | Src/main.c:248-255 | 0 - 999999999 = leaves a ten-character first operand, longer than any typed one |
| `CalcState.MinimumReachable` | Src/main.c:174-187 | three chained subtractions reach -2147483648 from the keypad |
| `CalcState.QuotientOverflowAtEquals` | Src/main.c:206-213 | from -2147483648, / - 1 = parses to INT_MIN / -1 and the checked model shows 0 |
| `CalculatorApp.OperatorEcho` | Src/main.c:79-130 | an accepted operator shows in the top right corner and moves the cursor to the second row; a refused one shows nothing and changes nothing |
| `CalculatorApp.DigitEcho` | Src/main.c:48-71 | an accepted digit is printed; a refused one shows nothing and changes nothing |
| `CalculatorApp.EqualsEcho` | Src/main.c:136-263 | equals shows the result once a second operand is entered and otherwise does nothing |
| `CalculatorApp.CStringAt` | Src/main.c:139-146 | the NUL just written ends the string sscanf reads |
| `CalculatorApp.Celebrate` | Src/main.c:229-245 | the 69 animation: cursor off, " ", three dots 150 ms apart, " nice.", cursor on |
| `CalculatorApp.Dots` | Src/main.c:235-238 | three rounds of a 150 ms wait and a dot, in that order |
| `CalculatorApp.ShowOperator` | Src/main.c:121-128 | cursor to (15, 0), the operator, cursor to (0, 1) |
| `CalculatorApp.ShowResult` | Src/main.c:223-245 | clear, the printed result, and the animation exactly when it is 69 |
| `CalculatorApp.FormatDecimal` | Src/main.c:248 | the buffer starts with the printed value and its NUL; the bytes after the NUL are untouched |
| `CalculatorApp.Calculator.constructor` | Src/main.c:20-37 | key_init then lcd_init: every register either writes gets its value from the old one (clocks, modes, pull-downs, output latches, EXTI routing, masks, edges, NVIC), EXTI PR is kept, the trace is the LCD start-up sequence, the slot is 0, and the variables are the initial state |
| `CalculatorApp.InitPeripherals` | Src/main.c:23-24 | key_init followed by lcd_init: the combined register values, with lcd_init's writes applied on top of key_init's where both touch a register (RCC AHB1ENR, GPIOC MODER and ODR) |
| `CalculatorApp.Calculator.Step` | Src/main.c:42-283 | one pass of the loop moves the variables as `CalcState.Next` does, leaves the awaited key in the slot and shows exactly `Echo` |
| `CalculatorApp.Calculator.DigitPressed` | Src/main.c:44-73 | the number-key branch refines `Next` and echoes the accepted digit |
| `CalculatorApp.Calculator.OperatorPressed` | Src/main.c:76-130 | the operator branch refines `Next` and echoes the operator |
| `CalculatorApp.Calculator.EqualsPressed` | Src/main.c:133-263 | the equals branch refines `Next` and shows the result |
| `CalculatorApp.Calculator.Calculate` | Src/main.c:138-245 | terminating, parsing and computing leave the result as the new first operand, also when the 69 animation runs |
| `CalculatorApp.Calculator.KeepResult` | Src/main.c:247-261 | the printed result becomes the first operand and the flags become those of a shown result |
| `CalculatorApp.Calculator.MeasureFirstOperand` | Src/main.c:250-252 | the scan that tests the next character stops with the length of the printed text |
| `CalculatorApp.Calculator.ClearPressed` | Src/main.c:266-283 | any other key restores the initial state and clears the display |
| `CalculatorApp.Calculator.Operate` | Src/main.c:39-285 | the loop over a sequence of keys ends in `Run`'s state and shows `RunEcho` |

## Left out

- `key_wait` spins until the interrupt path stores a key. The model supplies
  that key as the parameter `pressed` of `Keypad.Keypad.Wait`, and does not
  model the spin or the preemption by the handler.
- Interrupt concurrency is not modelled. Neither is the loss of a key pressed
  while the slot is unread. Each handler is a sequential method.
- The GPIOC input register is a parameter of the handlers. The model records
  the values the drivers write to the RCC, EXTI, SYSCFG and NVIC registers,
  but not what the hardware does with them.
- `delay_us` and `delay_ms` (from delay.h, which is not part of this model)
  are events in the trace.
- The headers `keypad_driver.h` and `lcd_driver.h` only declare; they are not
  modelled.
- `Lcd.Printf` takes the text `vsprintf` would produce; general format
  handling is not modelled. The calculator prints only `%c`, `%d` and
  literal texts. It requires a text shorter than the 80-byte buffer, which
  is not checked in C.
- `Lcd.WriteInstruction` requires a non-negative value, since a left shift of
  a negative int is undefined in C. Every caller passes 0x01 to 0x3C.
- `Lcd.CursorSet` requires that `y * 40` fits an int.
- `Lcd.WriteChar` treats `char` as unsigned (as on ARM), so its `<= 0xFF`
  guard always holds.
- `Keypad.Keypad.SetCharLUT` copies a 17-entry table by value. Later changes
  to the caller's array through the C pointer are not reflected.
- `Keypad.Keypad.InterruptHandler` and `Keypad.Keypad.Record` use the
  corrected row guard (see Findings), so sample 9 records nothing.
- `CalculatorApp.Calculator.Step` requires `CalcState.Defined`: the write stays
  inside `opString` and, at equals, sscanf assigns both operands in range.
  The C program goes on past those points with undefined behaviour. One
  example is the 33rd operator key (`CalcState.OperatorRunOverflows`).
  Another is a second operand that sscanf cannot read, as in "5+*2=", where
  it stays indeterminate (`CalcState.UnsignedOperatorPairUndefined`). The
  model stops there (`CalcState.Run` returns None).
- `CalculatorApp.Calculator.Step` states the new variables and the full LCD
  trace but not the final GPIO output register values of the LCD bus. The
  same holds for `CalculatorApp.Calculator.Operate`, its branch methods
  (`DigitPressed`, `OperatorPressed`, `EqualsPressed`, `Calculate`,
  `ClearPressed`) and the display helpers `CalculatorApp.ShowOperator`,
  `CalculatorApp.ShowResult`, `CalculatorApp.Celebrate` and
  `CalculatorApp.Dots`. The `Lcd` driver methods they call state those
  values. `Operate` also does not state the key left in the slot.
- `CalculatorApp.Calculator.Operate` covers a finite sequence of keys; the
  source loop never ends.
- `CalcArith.Evaluate`: the calculator loop is modelled with the corrected
  multiply and divide (`CalcArith.MulChecked`, `CalcArith.DivChecked`), not
  with the tests of Src/main.c:193-194 and 209-212 as written. As written,
  `*` shows 0 for every second operand of -2 or below
  (`CalcArith.MulAsWrittenNegativeIsZero`), so "5*-2=" shows 0 where the
  model shows -10. As written, a second operand of 0 or -1 makes the
  multiply test divide by zero or compute INT_MIN / -1, and `/` computes
  INT_MIN / -1. All three are undefined in C. The model gives the corrected
  values instead: 0, a * -1 when it fits, and 0. Everything stated about
  results at `=` is therefore about the corrected program. This covers
  `CalcState.Next`, `CalcState.Result`, `CalcState.TypedCalculation`,
  `CalcState.ChainedCalculation`, `CalcState.SevenPlusFiveTimesTwo`,
  `CalcState.QuotientOverflowAtEquals` and `CalculatorApp.Calculator.Step`,
  `Calculate` and `Operate`.
- `CalcState.SignedSecondOperand` shows -10 under the corrected multiply;
  the program as written shows 0 for the same keys (see `CalcArith.Evaluate`
  above).
- The `default:` branch of the operator switch (`opChar` left uninitialised)
  cannot be reached from keys 4, 8, 12 and 16 and is not modelled.
- sscanf's skipping of leading white space and its handling of numbers
  outside int are not modelled. No white space is ever typed, and an
  out-of-range operand counts as undefined.
- The calculator uses the keypad's default table; `main` never calls
  `key_set_char_lut`.

## Findings

| source | as written | input that shows it | evidently intended | confidence | as-written member | corrected member |
|---|---|---|---|---|---|---|
| Src/main.c:193-194 | the multiply tests compare the first operand with INT_MAX / b and INT_MIN / b as if b were positive; they also divide by 0 when b is 0 and compute INT_MIN / -1 when b is -1 | keys 5 * - 2 = (6, 12, 8, 2, 15): 5 > INT_MAX / -2, so 0 is shown although -10 fits | 0 only when the exact product does not fit an int, for every sign of b (`CalcState.SignedSecondOperand` shows -10) | not executed | `CalcArith.MulAsWrittenNegative` | `CalcArith.MulChecked` |
| Src/main.c:209-212 | only a zero divisor is caught, so INT_MIN / -1 is computed, which overflows (undefined in C) | 0 - 999999999 =, - 999999999 =, - 147483650 = (reaching -2147483648, `CalcState.MinimumReachable`), then / - 1 = | 0, as for the other overflows (`CalcState.QuotientOverflowAtEquals`) | not executed | `CalcArith.DivGuardAdmitsOverflow` | `CalcArith.DivChecked` |
| Src/keypad_driver.c:218 | the guard `row <= 9` admits sample 9, but `rowLUT` (line 67) has indices 0..8 | rows 0 and 3 both high during a column's scan give sample 9, which reads `rowLUT[9]` | admit 1..8 only, so sample 9 records nothing | not executed | `Keypad.RowGuardAdmitsNine` | `Keypad.RowGuard` |
