/**
 * main.c over its own variables: the 33-byte opString, its length, the two
 * operand lengths and the three flags, with the keypad and the LCD driven
 * through their drivers.
 */
module CalculatorApp {
  import opened Wrappers
  import opened Hardware
  import opened CalcArith
  import opened CalcState
  import Keypad
  import Lcd
  import Decimal

  /** One dot of the animation shown with the result 69. */
  const Dot: seq<Event> := [WaitMs(150)] + Lcd.CharsWritten(['.'])

  /** What the display and the delays see when the result is 69. */
  const Celebration: seq<Event> :=
    Lcd.Issued(Lcd.DisplayOnOff(true, false, false)) + [WaitMs(1000)] + Lcd.CharsWritten([' '])
    + Lcd.Repeat(Dot, 3)
    + [WaitMs(800)] + Lcd.CharsWritten([' ', 'n', 'i', 'c', 'e', '.']) + [WaitMs(1000)]
    + Lcd.Issued(Lcd.DisplayOnOff(true, false, true))

  /** What showing a result adds to the trace: clear, the number, and the
      animation for 69. */
  function ResultEcho(r: int): seq<Event>
  {
    Lcd.Issued(Lcd.ClearDisplay) + Lcd.CharsWritten(Decimal.Render(r)) + (if r == 69 then Celebration else [])
  }

  /** What one pass of the loop shows on the LCD. */
  function Echo(s: State, key: int): seq<Event>
    requires Defined(s, key)
  {
    if IsDigitKey(key) then
      if AcceptsDigit(s) then Lcd.CharsWritten([KeyChar(key)]) else []
    else if IsOperatorKey(key) then
      if AcceptsOperator(s) then
        Lcd.CursorSetTrace(15, 0) + Lcd.CharsWritten([OperatorChar(key)]) + Lcd.CursorSetTrace(0, 1)
      else []
    else if key == EqualsKey then
      if s.secondEntered then ResultEcho(Result(s)) else []
    else Lcd.Issued(Lcd.ClearDisplay)
  }

  /** What the loop shows over a sequence of key presses with a defined effect. */
  function RunEcho(s: State, keys: seq<int>): seq<Event>
    decreases |keys|
  {
    if keys == [] || !Defined(s, keys[0]) then []
    else Echo(s, keys[0]) + RunEcho(Next(s, keys[0]), keys[1..])
  }

  /** The first key of a run's echo. */
  lemma RunEchoCons(s: State, key: int, rest: seq<int>)
    ensures RunEcho(s, [key] + rest) == if Defined(s, key) then Echo(s, key) + RunEcho(Next(s, key), rest) else []
  {
    assert ([key] + rest)[1..] == rest;
  }

  /** What an operator key shows, and that a refused one changes nothing. */
  lemma OperatorEcho(s: State, key: int)
    requires IsOperatorKey(key) && Defined(s, key)
    ensures Echo(s, key) == if AcceptsOperator(s) then
      Lcd.CursorSetTrace(15, 0) + Lcd.CharsWritten([OperatorChar(key)]) + Lcd.CursorSetTrace(0, 1) else []
    ensures !AcceptsOperator(s) ==> Next(s, key) == s
  {
  }

  /** What a number key shows, and that a refused one changes nothing. */
  lemma DigitEcho(s: State, key: int)
    requires IsDigitKey(key) && Defined(s, key)
    ensures Echo(s, key) == if AcceptsDigit(s) then Lcd.CharsWritten([KeyChar(key)]) else []
    ensures !AcceptsDigit(s) ==> Next(s, key) == s
  {
  }

  /** What equals shows, and that it does nothing before a second operand. */
  lemma EqualsEcho(s: State)
    requires Defined(s, EqualsKey)
    ensures s.secondEntered ==> Echo(s, EqualsKey) == ResultEcho(Result(s))
    ensures s.secondEntered ==> Next(s, EqualsKey) == Displayed(Result(s))
    ensures !s.secondEntered ==> Echo(s, EqualsKey) == [] && Next(s, EqualsKey) == s
  {
  }

  /** Three pieces appended one after another to a trace. */
  lemma Regrouped(t: seq<Event>, a: seq<Event>, b: seq<Event>)
    ensures t + (a + b) == t + a + b
  {
  }

  lemma Appended(t: seq<Event>, a: seq<Event>, b: seq<Event>, c: seq<Event>)
    ensures t + a + b + c == t + (a + b + c)
  {
  }

  lemma DotAdded(t: seq<Event>, i: nat)
    ensures t + Lcd.Repeat(Dot, i) + [WaitMs(150)] + Lcd.CharsWritten(['.']) == t + Lcd.Repeat(Dot, i + 1)
  {
    assert Lcd.Repeat(Dot, i + 1) == Lcd.Repeat(Dot, i) + Dot;
  }

  /** The C string held in a buffer that has a NUL at index k and none before. */
  lemma CStringAt(a: seq<Char8>, k: int)
    requires 0 <= k < |a| && a[k] == '\0' && '\0' !in a[..k]
    ensures Lcd.UpToNul(a) == a[..k]
  {
    assert forall j :: 0 <= j < k ==> a[..k][j] == a[j];
  }

  /** The result-69 animation: hide the cursor, print " ", three dots and
      " nice." between pauses, then show the cursor again. */
  method Celebrate(hw: Registers)
    modifies hw`gpioaODR, hw`gpiocODR, hw`trace
    ensures hw.trace == old(hw.trace) + Celebration
  {
    ghost var t := hw.trace;
    Lcd.CursorHide(hw);
    ghost var shown := Lcd.Issued(Lcd.DisplayOnOff(true, false, false));
    hw.DelayMs(1000);
    Regrouped(t, shown, [WaitMs(1000)]);
    shown := shown + [WaitMs(1000)];
    Lcd.Printf(hw, [' ']);
    Regrouped(t, shown, Lcd.CharsWritten([' ']));
    shown := shown + Lcd.CharsWritten([' ']);
    Dots(hw);
    Regrouped(t, shown, Lcd.Repeat(Dot, 3));
    shown := shown + Lcd.Repeat(Dot, 3);
    hw.DelayMs(800);
    Regrouped(t, shown, [WaitMs(800)]);
    shown := shown + [WaitMs(800)];
    Lcd.Printf(hw, [' ', 'n', 'i', 'c', 'e', '.']);
    Regrouped(t, shown, Lcd.CharsWritten([' ', 'n', 'i', 'c', 'e', '.']));
    shown := shown + Lcd.CharsWritten([' ', 'n', 'i', 'c', 'e', '.']);
    hw.DelayMs(1000);
    Regrouped(t, shown, [WaitMs(1000)]);
    shown := shown + [WaitMs(1000)];
    Lcd.CursorShow(hw);
    Regrouped(t, shown, Lcd.Issued(Lcd.DisplayOnOff(true, false, true)));
  }

  /** The animation's `for` loop: three dots, 150 ms apart. */
  method Dots(hw: Registers)
    modifies hw`gpioaODR, hw`gpiocODR, hw`trace
    ensures hw.trace == old(hw.trace) + Lcd.Repeat(Dot, 3)
  {
    var i := 0;
    while i < 3
      invariant 0 <= i <= 3
      invariant hw.trace == old(hw.trace) + Lcd.Repeat(Dot, i)
    {
      hw.DelayMs(150);
      Lcd.Printf(hw, ['.']);
      DotAdded(old(hw.trace), i);
      i := i + 1;
    }
  }

  /** An operator's echo: cursor to the top right corner, the character,
      cursor to the start of the bottom row. */
  method ShowOperator(hw: Registers, opChar: Char8)
    requires opChar != '\0'
    modifies hw`gpioaODR, hw`gpiocODR, hw`trace
    ensures hw.trace == old(hw.trace) + (Lcd.CursorSetTrace(15, 0) + Lcd.CharsWritten([opChar]) + Lcd.CursorSetTrace(0, 1))
  {
    ghost var t := hw.trace;
    Lcd.CursorSet(hw, 15, 0);
    Lcd.Printf(hw, [opChar]);
    Lcd.CursorSet(hw, 0, 1);
    Appended(t, Lcd.CursorSetTrace(15, 0), Lcd.CharsWritten([opChar]), Lcd.CursorSetTrace(0, 1));
  }

  /** The `switch (key)` that picks the operator character. */
  method OperatorFor(key: int) returns (opChar: Char8)
    requires IsOperatorKey(key)
    ensures opChar == OperatorChar(key)
  {
    match key {
      case 4 => opChar := '+';
      case 8 => opChar := '-';
      case 12 => opChar := '*';
      case 16 => opChar := '/';
    }
  }

  /** A result's echo: clear, the number, and the animation for 69. */
  method ShowResult(hw: Registers, result: int)
    requires Int32(result)
    modifies hw`gpioaODR, hw`gpiocODR, hw`trace
    ensures hw.trace == old(hw.trace) + ResultEcho(result)
  {
    ghost var t := hw.trace;
    Decimal.RenderLength(result);
    Lcd.Clear(hw);
    Lcd.Printf(hw, Decimal.Render(result));
    ghost var animation: seq<Event> := if result == 69 then Celebration else [];
    if result == 69 {
      Celebrate(hw);
    } else {
      assert hw.trace == hw.trace + animation;
    }
    Appended(t, Lcd.Issued(Lcd.ClearDisplay), Lcd.CharsWritten(Decimal.Render(result)), animation);
  }

  /** sprintf(buffer, "%d", value): the decimal text and its NUL terminator. */
  method FormatDecimal(buffer: array<Char8>, value: int)
    requires |Decimal.Render(value)| < buffer.Length
    modifies buffer
    ensures buffer[..|Decimal.Render(value)| + 1] == Decimal.Render(value) + ['\0']
    ensures buffer[|Decimal.Render(value)| + 1..] == old(buffer[|Decimal.Render(value)| + 1..])
  {
    var text := Decimal.Render(value);
    forall i | 0 <= i < |text| {
      buffer[i] := text[i];
    }
    buffer[|text|] := '\0';
  }

  /** key_init then lcd_init: the register values both leave behind. */
  method InitPeripherals(hw: Registers, keypad: Keypad.Keypad)
    requires keypad.Valid() && keypad.hw == hw
    modifies keypad`lastKeypress, hw`rccAHB1ENR, hw`rccAPB2ENR, hw`gpioaMODER, hw`gpioaODR,
             hw`gpiocMODER, hw`gpiocPUPDR, hw`gpiocODR, hw`syscfgEXTICR1, hw`extiIMR, hw`extiRTSR,
             hw`nvicISER0, hw`trace
    ensures keypad.Valid() && keypad.lastKeypress == 0
    ensures hw.rccAHB1ENR == Lcd.ClocksEnabled(old(hw.rccAHB1ENR) | Keypad.RccAhb1GpiocEn)
    ensures hw.rccAPB2ENR == old(hw.rccAPB2ENR) | Keypad.RccApb2SyscfgEn
    ensures hw.gpioaMODER == Lcd.DataBusAsOutputs(old(hw.gpioaMODER))
    ensures hw.gpiocMODER == Lcd.ControlAsOutputs(Keypad.RowsDriven(old(hw.gpiocMODER)))
    ensures hw.gpiocPUPDR == Keypad.KeypadPulledDown(old(hw.gpiocPUPDR))
    ensures hw.gpioaODR == Lcd.DataBusOut(old(hw.gpioaODR), 0x06)
    ensures hw.gpiocODR == Lcd.ControlOut(old(hw.gpiocODR) | 0xFF, false)
    ensures hw.syscfgEXTICR1 == Keypad.ColumnsRoutedToPortC(old(hw.syscfgEXTICR1))
    ensures hw.extiIMR == Keypad.ColumnLinesSet(old(hw.extiIMR))
    ensures hw.extiRTSR == Keypad.ColumnLinesSet(old(hw.extiRTSR))
    ensures hw.extiPR == old(hw.extiPR) && hw.nvicISER0 == 0x3C0
    ensures hw.trace == old(hw.trace) + Lcd.InitSequence
  {
    keypad.Init();
    Lcd.Init(hw);
  }

  class Calculator {
    const hw: Registers
    const keypad: Keypad.Keypad
    /** The first operand, the operator and the second operand as typed. */
    const opString: array<Char8>
    var opStringLength: int
    var firstOperandLength: int
    var secondOperandLength: int
    var operatorEntered: bool
    var secondOperandEntered: bool
    var resultDisplayed: bool

    /** The buffer has its 33 bytes and the keypad its default legend. */
    ghost predicate Wired()
      reads this, opString, keypad
    {
      && opString.Length == Capacity
      && keypad.Valid() && keypad.hw == hw && keypad.charLUT == Keypad.DefaultCharLUT
    }

    /** Between key presses opString holds a C string's worth of input. */
    ghost predicate Valid()
      reads this, opString, keypad
    {
      && Wired()
      && 0 <= opStringLength <= Capacity
      && '\0' !in opString[..opStringLength]
    }

    /** The variables as a state of the loop. */
    ghost function Model(): State
      reads this, opString, keypad
      requires Valid()
    {
      State(opString[..opStringLength], firstOperandLength, secondOperandLength,
            operatorEntered, secondOperandEntered, resultDisplayed)
    }

    /** The start of main: the variables' initial values, key_init, lcd_init. */
    constructor (hw: Registers, keypad: Keypad.Keypad)
      requires keypad.Valid() && keypad.hw == hw && keypad.charLUT == Keypad.DefaultCharLUT
      modifies keypad`lastKeypress, hw
      ensures this.hw == hw && this.keypad == keypad && fresh(opString) && keypad.lastKeypress == 0
      ensures Valid() && Model() == Initial
      ensures hw.rccAHB1ENR == old(hw.rccAHB1ENR) | Keypad.RccAhb1GpiocEn | Lcd.RccGpioaEn | Lcd.RccGpiocEn
      ensures hw.rccAPB2ENR == old(hw.rccAPB2ENR) | Keypad.RccApb2SyscfgEn
      ensures hw.gpioaMODER == old(hw.gpioaMODER) | 0x555500
      ensures hw.gpiocMODER == Keypad.RowsDriven(old(hw.gpiocMODER)) | 0x150000
      ensures hw.gpiocPUPDR == Keypad.KeypadPulledDown(old(hw.gpiocPUPDR))
      ensures hw.gpioaODR == Lcd.DataBusOut(old(hw.gpioaODR), 0x06)
      ensures hw.gpiocODR == Lcd.ControlOut(old(hw.gpiocODR) | 0xFF, false)
      ensures hw.syscfgEXTICR1 == Keypad.ColumnsRoutedToPortC(old(hw.syscfgEXTICR1))
      ensures hw.extiIMR == Keypad.ColumnLinesSet(old(hw.extiIMR))
      ensures hw.extiRTSR == Keypad.ColumnLinesSet(old(hw.extiRTSR))
      ensures hw.extiPR == old(hw.extiPR) && hw.nvicISER0 == 0x3C0
      ensures hw.trace == old(hw.trace) + Lcd.InitSequence
    {
      InitPeripherals(hw, keypad);
      this.hw := hw;
      this.keypad := keypad;
      opString := new Char8[Capacity](_ => '\0');
      opStringLength := 0;
      firstOperandLength := 0;
      secondOperandLength := 0;
      operatorEntered := false;
      secondOperandEntered := false;
      resultDisplayed := false;
      new;
    }

    /** One pass of the `while (1)` loop; `pressed` is the key that
        key_get_wait waits for. */
    method Step(pressed: int)
      requires Valid() && 1 <= pressed <= 16 && Defined(Model(), pressed)
      modifies this, opString, keypad`lastKeypress, hw`gpioaODR, hw`gpiocODR, hw`trace
      ensures Valid() && Model() == Next(old(Model()), pressed) && keypad.lastKeypress == pressed
      ensures hw.trace == old(hw.trace) + Echo(old(Model()), pressed)
    {
      var key := keypad.GetWait(pressed);
      if (key >= 1 && key < 4) || (key >= 5 && key < 8) || (key >= 9 && key < 12) || key == 14 {
        DigitPressed(key);
      } else if key == 4 || key == 8 || key == 12 || key == 16 {
        OperatorPressed(key);
      } else if key == EqualsKey {
        EqualsPressed();
      } else {
        ClearPressed();
      }
    }

    /** A number key: appended and echoed unless a result is shown or the
        operand already has nine digits. */
    method DigitPressed(key: int)
      requires Valid() && IsDigitKey(key) && Defined(Model(), key)
      modifies this, opString, hw`gpioaODR, hw`gpiocODR, hw`trace
      ensures Valid() && Model() == Next(old(Model()), key)
      ensures hw.trace == old(hw.trace) + Echo(old(Model()), key)
    {
      ghost var s := Model();
      DigitEcho(s, key);
      if !resultDisplayed {
        if (!operatorEntered && firstOperandLength < 9) || (operatorEntered && secondOperandLength < 9) {
          if !operatorEntered {
            firstOperandLength := firstOperandLength + 1;
          }
          if operatorEntered {
            secondOperandLength := secondOperandLength + 1;
            secondOperandEntered := true;
          }
          var keyChar := keypad.ToChar(key);
          DigitKeyChars(key);
          opString[opStringLength] := keyChar;
          opStringLength := opStringLength + 1;
          assert opString[..opStringLength] == s.text + [keyChar];
          NextDigit(s, key);
          ghost var next := Model();
          assert next == Next(s, key);
          Lcd.Printf(hw, [keyChar]);
          assert Model() == next;
        }
      }
    }

    /** An operator key: appended after any input until a second operand
        begins, and echoed in the top right corner. */
    method OperatorPressed(key: int)
      requires Valid() && IsOperatorKey(key) && Defined(Model(), key)
      modifies this, opString, hw`gpioaODR, hw`gpiocODR, hw`trace
      ensures Valid() && Model() == Next(old(Model()), key)
      ensures hw.trace == old(hw.trace) + Echo(old(Model()), key)
    {
      ghost var s := Model();
      OperatorEcho(s, key);
      if opStringLength != 0 && !secondOperandEntered {
        operatorEntered := true;
        resultDisplayed := false;
        var opChar := OperatorFor(key);
        var n := opStringLength;
        opString[n] := opChar;
        assert opString[..n] == s.text;
        assert opString[..n + 1] == opString[..n] + [opChar];
        opStringLength := n + 1;
        NextOperator(s, key);
        ghost var next := Model();
        assert next == Next(s, key);
        ShowOperator(hw, opChar);
        assert Model() == next;
      }
    }

    /** The equals key: once a second operand is entered, the input is
        computed and replaced by its result. */
    method EqualsPressed()
      requires Valid() && Defined(Model(), EqualsKey)
      modifies this, opString, hw`gpioaODR, hw`gpiocODR, hw`trace
      ensures Valid() && Model() == Next(old(Model()), EqualsKey)
      ensures hw.trace == old(hw.trace) + Echo(old(Model()), EqualsKey)
    {
      ghost var s := Model();
      EqualsEcho(s);
      if secondOperandEntered {
        Calculate(Operands(s.text).value);
      }
    }

    /** Terminate opString, parse it, compute, show the result, and keep it
        as the first operand of the next calculation. */
    method Calculate(ghost e: Decimal.Expression)
      requires Valid() && opStringLength < Capacity
      requires Operands(opString[..opStringLength]) == Some(e)
      modifies this, opString, hw`gpioaODR, hw`gpiocODR, hw`trace
      ensures Valid() && Model() == Displayed(Evaluate(e.first, e.op, e.second))
      ensures hw.trace == old(hw.trace) + ResultEcho(Evaluate(e.first, e.op, e.second))
    {
      ghost var text := opString[..opStringLength];
      opString[opStringLength] := '\0';
      opStringLength := opStringLength + 1;
      CStringAt(opString[..], opStringLength - 1);
      assert opString[..][..opStringLength - 1] == text;
      var parsed := Decimal.ScanExpression(Lcd.UpToNul(opString[..]));
      assert parsed == Some(e);
      var firstOperand, operatorChar, secondOperand := parsed.value.first, parsed.value.op, parsed.value.second;
      var result := CalcArith.Evaluate(firstOperand, operatorChar, secondOperand);
      ShowResult(hw, result);
      KeepResult(result);
    }

    /** sprintf the result into opString, find its end, and make it the
        first operand with the flags of a shown result. */
    method KeepResult(result: int)
      requires Wired() && Int32(result)
      modifies this, opString
      ensures Valid() && Model() == Displayed(result)
    {
      Decimal.RenderLength(result);
      FormatDecimal(opString, result);
      MeasureFirstOperand(Decimal.Render(result));
      firstOperandLength := opStringLength;
      secondOperandLength := 0;
      operatorEntered := false;
      secondOperandEntered := false;
      resultDisplayed := true;
    }

    /** The scan for the terminator after sprintf: starting from index 0 and
        testing the character after the current one, it stops with the
        length of the text. */
    method MeasureFirstOperand(ghost text: seq<Char8>)
      requires opString.Length == Capacity && 1 <= |text| < Capacity && '\0' !in text
      requires opString[..|text| + 1] == text + ['\0']
      modifies this`opStringLength
      ensures opStringLength == |text| && opString[..opStringLength] == text
    {
      opStringLength := 0;
      var more := true;
      while more
        invariant 0 <= opStringLength <= |text|
        invariant more ==> opStringLength < |text|
        invariant !more ==> opStringLength == |text|
        decreases |text| - opStringLength
      {
        assert opString[opStringLength + 1] == (text + ['\0'])[opStringLength + 1];
        more := opString[opStringLength + 1] != '\0';
        opStringLength := opStringLength + 1;
      }
      assert opString[..opStringLength] == opString[..|text| + 1][..|text|];
    }

    /** Any other key: forget the input and clear the display. */
    method ClearPressed()
      requires Valid()
      modifies this, hw`gpioaODR, hw`gpiocODR, hw`trace
      ensures Valid() && Model() == Initial
      ensures hw.trace == old(hw.trace) + Lcd.Issued(Lcd.ClearDisplay)
    {
      opStringLength := 0;
      firstOperandLength := 0;
      secondOperandLength := 0;
      operatorEntered := false;
      secondOperandEntered := false;
      resultDisplayed := false;
      Lcd.Clear(hw);
    }

    /** The loop over a finite sequence of key presses. */
    method Operate(presses: seq<int>)
      requires Valid() && forall i :: 0 <= i < |presses| ==> 1 <= presses[i] <= 16
      requires Run(Model(), presses).Some?
      modifies this, opString, keypad`lastKeypress, hw`gpioaODR, hw`gpiocODR, hw`trace
      ensures Valid() && Run(old(Model()), presses) == Some(Model())
      ensures hw.trace == old(hw.trace) + RunEcho(old(Model()), presses)
    {
      var i := 0;
      while i < |presses|
        invariant 0 <= i <= |presses| && Valid()
        invariant Run(old(Model()), presses) == Run(Model(), presses[i..])
        invariant old(hw.trace) + RunEcho(old(Model()), presses) == hw.trace + RunEcho(Model(), presses[i..])
      {
        ghost var s, t := Model(), hw.trace;
        var key, rest := presses[i], presses[i + 1..];
        assert presses[i..] == [key] + rest;
        RunCons(s, key, rest);
        RunEchoCons(s, key, rest);
        Step(key);
        assert hw.trace == t + Echo(s, key) && Model() == Next(s, key);
        assert RunEcho(s, [key] + rest) == Echo(s, key) + RunEcho(Model(), rest);
        Regrouped(t, Echo(s, key), RunEcho(Model(), rest));
        i := i + 1;
      }
      assert presses[i..] == [];
    }
  }
}
