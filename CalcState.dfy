/**
 * The calculator application: the `while (1)` loop of main.c as a state
 * machine over key numbers, and the same loop over the C variables.
 */
module CalcState {
  import opened Wrappers
  import opened Hardware
  import opened CalcArith
  import Keypad
  import Lcd
  import Decimal

  /** opString[33] */
  const Capacity := 33
  /** The longest operand the user may type. */
  const MaxOperandDigits := 9
  const EqualsKey := 15

  /** The variables of main: the contents of opString up to opStringLength,
      the two operand lengths and the three flags. */
  datatype State = State(
    text: seq<Char8>,
    firstLength: int,
    secondLength: int,
    operatorEntered: bool,
    secondEntered: bool,
    resultDisplayed: bool)

  const Initial := State([], 0, 0, false, false, false)

  /** What the loop leaves behind after showing `result`. */
  function Displayed(result: int): State
  {
    var text := Decimal.Render(result);
    State(text, |text|, 0, false, false, true)
  }

  predicate IsDigitKey(key: int)
  {
    (1 <= key < 4) || (5 <= key < 8) || (9 <= key < 12) || key == 14
  }

  predicate IsOperatorKey(key: int)
  {
    key == 4 || key == 8 || key == 12 || key == 16
  }

  /** Any key that is neither a digit, an operator nor equals clears. */
  predicate IsClearKey(key: int)
  {
    !IsDigitKey(key) && !IsOperatorKey(key) && key != EqualsKey
  }

  /** The character a key contributes, from the keypad's default table. */
  function KeyChar(key: int): Char8
  {
    Keypad.KeyToChar(Keypad.DefaultCharLUT, key)
  }

  function OperatorChar(key: int): (c: Char8)
    requires IsOperatorKey(key)
    ensures c in {'+', '-', '*', '/'}
  {
    match key
    case 4 => '+'
    case 8 => '-'
    case 12 => '*'
    case 16 => '/'
  }

  /** The digit keys carry exactly the ten decimal digits. */
  lemma DigitKeyChars(key: int)
    ensures IsDigitKey(key) ==> Decimal.IsDigit(KeyChar(key))
    ensures IsDigitKey(key) && key != 14 ==> Decimal.DigitValue(KeyChar(key)) == key - (key - 1) / 4
    ensures key == 14 ==> KeyChar(key) == '0'
  {
  }

  /** A digit is taken unless a result is shown or its operand has nine digits. */
  predicate AcceptsDigit(s: State)
  {
    && !s.resultDisplayed
    && ((!s.operatorEntered && s.firstLength < MaxOperandDigits)
        || (s.operatorEntered && s.secondLength < MaxOperandDigits))
  }

  /** An operator is taken after any input, until a second operand begins. */
  predicate AcceptsOperator(s: State)
  {
    |s.text| != 0 && !s.secondEntered
  }

  /** sscanf(opString, "%d%c%d") when all three conversions succeed and both
      numbers fit an int. */
  function Operands(text: seq<Char8>): Option<Decimal.Expression>
  {
    match Decimal.ScanExpression(text)
    case Some(e) => if Int32(e.first) && Int32(e.second) then Some(e) else None
    case None => None
  }

  /** The key press has a defined effect in C: each write into opString stays
      inside its 33 bytes, and at equals sscanf assigns both operands a
      representable value. */
  predicate Defined(s: State, key: int)
  {
    if IsDigitKey(key) then AcceptsDigit(s) ==> |s.text| < Capacity
    else if IsOperatorKey(key) then AcceptsOperator(s) ==> |s.text| < Capacity
    else if key == EqualsKey then
      s.secondEntered ==> |s.text| < Capacity && Operands(s.text).Some?
    else true
  }

  /** The result computed at equals. */
  function Result(s: State): (r: int)
    requires s.secondEntered && Defined(s, EqualsKey)
    ensures Int32(r)
  {
    var e := Operands(s.text).value;
    Evaluate(e.first, e.op, e.second)
  }

  /** One pass of the loop for the key that key_get_wait returned. */
  function Next(s: State, key: int): State
    requires Defined(s, key)
  {
    if IsDigitKey(key) then
      if AcceptsDigit(s) then
        s.(text := s.text + [KeyChar(key)],
           firstLength := if s.operatorEntered then s.firstLength else s.firstLength + 1,
           secondLength := if s.operatorEntered then s.secondLength + 1 else s.secondLength,
           secondEntered := s.secondEntered || s.operatorEntered)
      else s
    else if IsOperatorKey(key) then
      if AcceptsOperator(s) then
        s.(text := s.text + [OperatorChar(key)], operatorEntered := true, resultDisplayed := false)
      else s
    else if key == EqualsKey then
      if s.secondEntered then Displayed(Result(s)) else s
    else Initial
  }

  /** The loop over a sequence of key presses; None once a press has no
      defined effect. */
  function Run(s: State, keys: seq<int>): Option<State>
    decreases |keys|
  {
    if keys == [] then Some(s)
    else if !Defined(s, keys[0]) then None
    else Run(Next(s, keys[0]), keys[1..])
  }

  /** What the loop keeps true between key presses. */
  ghost predicate Inv(s: State)
  {
    && 0 <= s.firstLength <= 11
    && 0 <= s.secondLength <= MaxOperandDigits
    && '\0' !in s.text
    && (s.secondEntered <==> s.secondLength > 0)
    && (s.secondEntered ==> s.operatorEntered)
    && (!s.operatorEntered ==> |s.text| == s.firstLength)
    && (!s.operatorEntered && !s.resultDisplayed ==> s.firstLength <= MaxOperandDigits && Decimal.AllDigits(s.text))
    && (s.resultDisplayed ==> !s.operatorEntered && s.text != [])
    && s.secondLength <= |s.text|
    && Decimal.AllDigits(s.text[|s.text| - s.secondLength..])
  }

  /** Every key press keeps the invariant: a typed operand never exceeds nine
      digits, a shown result eleven characters. */
  lemma NextKeepsInv(s: State, key: int)
    requires Inv(s) && Defined(s, key)
    ensures Inv(Next(s, key))
  {
    if IsDigitKey(key) && AcceptsDigit(s) {
      DigitKeepsInv(s, key);
    } else if IsOperatorKey(key) && AcceptsOperator(s) {
      OperatorKeepsInv(s, key);
    } else if key == EqualsKey && s.secondEntered {
      Decimal.RenderLength(Result(s));
      var t := Next(s, key).text;
      assert t[|t|..] == [];
    }
  }

  lemma DigitKeepsInv(s: State, key: int)
    requires Inv(s) && IsDigitKey(key) && AcceptsDigit(s) && |s.text| < Capacity
    ensures Inv(Next(s, key))
  {
    DigitKeyChars(key);
    if s.operatorEntered {
      SecondDigitKeepsInv(s, KeyChar(key));
    } else {
      FirstDigitKeepsInv(s, KeyChar(key));
    }
  }

  /** A digit appended to the second operand. */
  lemma SecondDigitKeepsInv(s: State, c: Char8)
    requires Inv(s) && s.operatorEntered && AcceptsDigit(s) && Decimal.IsDigit(c)
    ensures Inv(s.(text := s.text + [c], secondLength := s.secondLength + 1, secondEntered := true))
  {
    var t := s.text + [c];
    var tail := s.text[|s.text| - s.secondLength..];
    assert t[|t| - (s.secondLength + 1)..] == tail + [c];
    Decimal.AllDigitsSnoc(tail, c);
    assert '\0' !in t;
  }

  /** A digit appended to the first operand. */
  lemma FirstDigitKeepsInv(s: State, c: Char8)
    requires Inv(s) && !s.operatorEntered && AcceptsDigit(s) && Decimal.IsDigit(c)
    ensures Inv(s.(text := s.text + [c], firstLength := s.firstLength + 1))
  {
    var t := s.text + [c];
    assert s.secondLength == 0;
    assert t[|t|..] == [];
    Decimal.DigitsValueSnoc(s.text, c);
  }

  lemma OperatorKeepsInv(s: State, key: int)
    requires Inv(s) && IsOperatorKey(key) && AcceptsOperator(s) && |s.text| < Capacity
    ensures Inv(Next(s, key))
  {
    var n := Next(s, key);
    assert n.secondLength == 0;
    assert n.text[|n.text| - n.secondLength..] == [];
  }

  lemma {:induction false} RunKeepsInv(s: State, keys: seq<int>)
    requires Inv(s)
    ensures Run(s, keys).Some? ==> Inv(Run(s, keys).value)
    decreases |keys|
  {
    if keys != [] && Defined(s, keys[0]) {
      NextKeepsInv(s, keys[0]);
      RunKeepsInv(Next(s, keys[0]), keys[1..]);
    }
  }

  /** Running two key sequences one after the other. */
  lemma {:induction false} RunAppend(s: State, a: seq<int>, b: seq<int>)
    ensures Run(s, a + b) == match Run(s, a) case None => None case Some(t) => Run(t, b)
    decreases |a|
  {
    if a != [] {
      assert (a + b)[0] == a[0] && (a + b)[1..] == a[1..] + b;
      if Defined(s, a[0]) {
        RunAppend(Next(s, a[0]), a[1..], b);
      }
    } else {
      assert a + b == b;
    }
  }

  /** The state after characters `cs` were typed into the current operand. */
  function Typed(s: State, cs: seq<Char8>): State
  {
    s.(text := s.text + cs,
       firstLength := if s.operatorEntered then s.firstLength else s.firstLength + |cs|,
       secondLength := if s.operatorEntered then s.secondLength + |cs| else s.secondLength,
       secondEntered := s.secondEntered || (s.operatorEntered && cs != []))
  }

  /** An accepted digit key types its character. */
  lemma NextDigit(s: State, key: int)
    requires IsDigitKey(key) && AcceptsDigit(s) && |s.text| < Capacity
    ensures Defined(s, key)
    ensures Next(s, key) == Typed(s, [KeyChar(key)])
  {
  }

  lemma TypedTwice(s: State, c: Char8, cs: seq<Char8>)
    ensures Typed(Typed(s, [c]), cs) == Typed(s, [c] + cs)
  {
    assert s.text + [c] + cs == s.text + ([c] + cs);
  }

  /** An accepted operator key. */
  lemma NextOperator(s: State, key: int)
    requires IsOperatorKey(key) && AcceptsOperator(s) && |s.text| < Capacity
    ensures Defined(s, key)
    ensures Next(s, key) == s.(text := s.text + [OperatorChar(key)], operatorEntered := true, resultDisplayed := false)
  {
  }

  /** Equals once the second operand is entered: the result replaces the input. */
  lemma NextEquals(s: State, e: Decimal.Expression)
    requires s.secondEntered && |s.text| < Capacity
    requires Decimal.ScanExpression(s.text) == Some(e) && Int32(e.first) && Int32(e.second)
    ensures Defined(s, EqualsKey)
    ensures Next(s, EqualsKey) == Displayed(Evaluate(e.first, e.op, e.second))
  {
  }

  /** The first key of a run. */
  lemma RunCons(s: State, key: int, rest: seq<int>)
    ensures Run(s, [key] + rest) == if Defined(s, key) then Run(Next(s, key), rest) else None
  {
    assert ([key] + rest)[1..] == rest;
  }

  /** One key, run on its own. */
  lemma RunOne(s: State, key: int)
    requires Defined(s, key)
    ensures Run(s, [key]) == Some(Next(s, key))
  {
    assert [key][1..] == [];
  }

  /** The characters a sequence of keys types. */
  function KeyChars(keys: seq<int>): (cs: seq<Char8>)
    ensures |cs| == |keys|
    ensures forall i :: 0 <= i < |keys| ==> cs[i] == KeyChar(keys[i])
  {
    if keys == [] then [] else [KeyChar(keys[0])] + KeyChars(keys[1..])
  }

  predicate AllDigitKeys(keys: seq<int>)
  {
    forall i :: 0 <= i < |keys| ==> IsDigitKey(keys[i])
  }

  lemma DigitKeysType(keys: seq<int>)
    requires AllDigitKeys(keys)
    ensures Decimal.AllDigits(KeyChars(keys))
  {
    forall i | 0 <= i < |keys|
      ensures Decimal.IsDigit(KeyChars(keys)[i])
    {
      DigitKeyChars(keys[i]);
    }
  }

  /** The number a sequence of digit keys types. */
  function TypedValue(keys: seq<int>): (v: nat)
    requires AllDigitKeys(keys)
    ensures |keys| <= MaxOperandDigits ==> v < 1_000_000_000
  {
    DigitKeysType(keys);
    var v := Decimal.DigitsValue(KeyChars(keys));
    assert |keys| <= MaxOperandDigits ==> v < 1_000_000_000 by {
      if |keys| <= MaxOperandDigits {
        Decimal.NineDigitsFit(KeyChars(keys));
      }
    }
    v
  }

  /** Digit keys that all fit their operand are appended one by one. */
  lemma {:induction false} RunDigits(s: State, keys: seq<int>)
    requires AllDigitKeys(keys) && !s.resultDisplayed && |s.text| + |keys| <= Capacity
    requires !s.operatorEntered ==> s.firstLength + |keys| <= MaxOperandDigits
    requires s.operatorEntered ==> s.secondLength + |keys| <= MaxOperandDigits
    ensures Run(s, keys) == Some(Typed(s, KeyChars(keys)))
    decreases |keys|
  {
    if keys == [] {
      assert s.text + KeyChars(keys) == s.text;
    } else {
      var key, rest := keys[0], keys[1..];
      NextDigit(s, key);
      var t := Typed(s, [KeyChar(key)]);
      assert Run(s, keys) == Run(t, rest);
      RunDigits(t, rest);
      assert KeyChars(keys) == [KeyChar(key)] + KeyChars(rest);
      TypedTwice(s, KeyChar(key), KeyChars(rest));
    }
  }

  /** A typed calculation: up to nine digits, an operator, up to nine digits
      and equals show the operator applied to the two numbers typed. */
  lemma TypedCalculation(first: seq<int>, opKey: int, second: seq<int>)
    requires 1 <= |first| <= MaxOperandDigits && AllDigitKeys(first)
    requires IsOperatorKey(opKey)
    requires 1 <= |second| <= MaxOperandDigits && AllDigitKeys(second)
    ensures Run(Initial, first + [opKey] + second + [EqualsKey])
         == Some(Displayed(Evaluate(TypedValue(first), OperatorChar(opKey), TypedValue(second))))
  {
    var s3 := State(KeyChars(first) + [OperatorChar(opKey)] + KeyChars(second), |first|, |second|, true, true, false);
    TypedOperands(first, opKey, second);
    TypedEquals(first, opKey, second);
    RunOne(s3, EqualsKey);
    RunAppend(Initial, first + [opKey] + second, [EqualsKey]);
  }

  /** The keys before equals leave both operands and the operator in the text. */
  lemma TypedOperands(first: seq<int>, opKey: int, second: seq<int>)
    requires 1 <= |first| <= MaxOperandDigits && AllDigitKeys(first)
    requires IsOperatorKey(opKey)
    requires 1 <= |second| <= MaxOperandDigits && AllDigitKeys(second)
    ensures Run(Initial, first + [opKey] + second)
         == Some(State(KeyChars(first) + [OperatorChar(opKey)] + KeyChars(second), |first|, |second|, true, true, false))
  {
    var a, op, b := KeyChars(first), OperatorChar(opKey), KeyChars(second);
    DigitKeysType(first);
    DigitKeysType(second);
    var s2 := State(a + [op], |first|, 0, true, false, false);
    TypedOperator(first, opKey);
    RunDigits(s2, second);
    assert Typed(s2, b) == State(a + [op] + b, |first|, |second|, true, true, false);
    RunAppend(Initial, first + [opKey], second);
  }

  /** The first operand and the operator. */
  lemma TypedOperator(first: seq<int>, opKey: int)
    requires 1 <= |first| <= MaxOperandDigits && AllDigitKeys(first)
    requires IsOperatorKey(opKey)
    ensures Run(Initial, first + [opKey]) == Some(State(KeyChars(first) + [OperatorChar(opKey)], |first|, 0, true, false, false))
  {
    var a := KeyChars(first);
    DigitKeysType(first);
    var s1 := State(a, |first|, 0, false, false, false);
    RunDigits(Initial, first);
    assert Typed(Initial, a) == s1 by {
      assert Initial.text + a == a;
    }
    NextOperator(s1, opKey);
    RunOne(s1, opKey);
    RunAppend(Initial, first, [opKey]);
  }

  /** Equals on the typed text applies the operator to the two typed numbers. */
  lemma TypedEquals(first: seq<int>, opKey: int, second: seq<int>)
    requires 1 <= |first| <= MaxOperandDigits && AllDigitKeys(first)
    requires IsOperatorKey(opKey)
    requires 1 <= |second| <= MaxOperandDigits && AllDigitKeys(second)
    ensures var s3 := State(KeyChars(first) + [OperatorChar(opKey)] + KeyChars(second), |first|, |second|, true, true, false);
      Defined(s3, EqualsKey)
      && Next(s3, EqualsKey) == Displayed(Evaluate(TypedValue(first), OperatorChar(opKey), TypedValue(second)))
  {
    var a, op, b := KeyChars(first), OperatorChar(opKey), KeyChars(second);
    DigitKeysType(first);
    DigitKeysType(second);
    ScanTyped(a, op, b);
    NextEquals(State(a + [op] + b, |first|, |second|, true, true, false),
      Decimal.Expression(Decimal.DigitsValue(a), op, Decimal.DigitsValue(b)));
  }

  /** sscanf reads two typed operands around an operator character. */
  lemma ScanTyped(a: seq<char>, op: char, b: seq<char>)
    requires 1 <= |a| <= MaxOperandDigits && Decimal.AllDigits(a)
    requires 1 <= |b| <= MaxOperandDigits && Decimal.AllDigits(b)
    requires !Decimal.IsDigit(op)
    ensures Decimal.ScanExpression(a + [op] + b) == Some(Decimal.Expression(Decimal.DigitsValue(a), op, Decimal.DigitsValue(b)))
    ensures Int32(Decimal.DigitsValue(a)) && Int32(Decimal.DigitsValue(b))
  {
    Decimal.ScanDigits(a, [op] + b);
    Decimal.ScanWhole(b);
    Decimal.Regroup(a, [op], b);
    Decimal.ScanExpressionOf(a + ([op] + b), Decimal.DigitsValue(a), op, b, Decimal.DigitsValue(b), []);
    Decimal.NineDigitsFit(a);
    Decimal.NineDigitsFit(b);
  }

  /** A shown result chains: an operator, up to nine digits and equals apply
      the operator to the result and the number typed. */
  lemma ChainedCalculation(result: int, opKey: int, second: seq<int>)
    requires Int32(result) && IsOperatorKey(opKey)
    requires 1 <= |second| <= MaxOperandDigits && AllDigitKeys(second)
    ensures Run(Displayed(result), [opKey] + second + [EqualsKey])
         == Some(Displayed(Evaluate(result, OperatorChar(opKey), TypedValue(second))))
  {
    DigitKeysType(second);
    var a, op, b := Decimal.Render(result), OperatorChar(opKey), KeyChars(second);
    Decimal.RenderLength(result);
    var s2 := State(a + [op], |a|, 0, true, false, false);
    NextOperator(Displayed(result), opKey);
    RunOne(Displayed(result), opKey);
    RunDigits(s2, second);
    var s3 := State(a + [op] + b, |a|, |second|, true, true, false);
    Decimal.ScanChained(result, op, b);
    Decimal.NineDigitsFit(b);
    NextEquals(s3, Decimal.Expression(result, op, Decimal.DigitsValue(b)));
    RunOne(s3, EqualsKey);
    RunAppend(Displayed(result), [opKey], second);
    RunAppend(Displayed(result), [opKey] + second, [EqualsKey]);
  }

  /** 7 + 5 = shows 12; then * 2 = chains it into 24. */
  lemma SevenPlusFiveTimesTwo()
    ensures Run(Initial, [9, 4, 6, EqualsKey]) == Some(Displayed(12))
    ensures Run(Initial, [9, 4, 6, EqualsKey, 12, 2, EqualsKey]) == Some(Displayed(24))
  {
    SevenPlusFive();
    ChainedCalculation(12, 12, [2]);
    assert KeyChars([2]) == ['2'] && Decimal.DigitsValue(['2']) == 2;
    assert [12] + [2] + [EqualsKey] == [12, 2, EqualsKey];
    RunAppend(Initial, [9, 4, 6, EqualsKey], [12, 2, EqualsKey]);
    assert [9, 4, 6, EqualsKey] + [12, 2, EqualsKey] == [9, 4, 6, EqualsKey, 12, 2, EqualsKey];
  }

  /** 7 + 5 = shows 12. */
  lemma SevenPlusFive()
    ensures Run(Initial, [9, 4, 6, EqualsKey]) == Some(Displayed(12))
  {
    TypedCalculation([9], 4, [6]);
    assert KeyChars([9]) == ['7'] && KeyChars([6]) == ['5'];
    assert Decimal.DigitsValue(['7']) == 7 && Decimal.DigitsValue(['5']) == 5;
    assert [9] + [4] + [6] + [EqualsKey] == [9, 4, 6, EqualsKey];
  }

  /** A second operator key right after the first becomes the sign of the
      second operand: 5 * - 2 = shows -10. */
  lemma SignedSecondOperand()
    ensures Run(Initial, [6, 12, 8, 2, EqualsKey]) == Some(Displayed(-10))
  {
    var s4 := State(['5', '*', '-', '2'], 1, 1, true, true, false);
    SignedTyping(s4);
    SignedEquals(s4);
    RunOne(s4, EqualsKey);
    RunAppend(Initial, [6, 12, 8, 2], [EqualsKey]);
    assert [6, 12, 8, 2] + [EqualsKey] == [6, 12, 8, 2, EqualsKey];
  }

  /** 5 * - 2 typed into the fresh calculator. */
  lemma SignedTyping(s4: State)
    requires s4 == State(['5', '*', '-', '2'], 1, 1, true, true, false)
    ensures Run(Initial, [6, 12, 8, 2]) == Some(s4)
  {
    var s1 := State(['5'], 1, 0, false, false, false);
    var s2 := State(['5', '*'], 1, 0, true, false, false);
    var s3 := State(['5', '*', '-'], 1, 0, true, false, false);
    TypeFive();
    NextOperator(s1, 12);
    assert Next(s1, 12) == s2;
    NextOperator(s2, 8);
    assert Next(s2, 8) == s3;
    NextDigit(s3, 2);
    assert KeyChar(2) == '2';
    assert Next(s3, 2) == s4;
    RunOne(s3, 2);
    RunCons(s2, 8, [2]);
    RunCons(s1, 12, [8, 2]);
    RunCons(Initial, 6, [12, 8, 2]);
  }

  /** Equals after 5 * - 2: sscanf reads -2 as the second operand. */
  lemma SignedEquals(s4: State)
    requires s4 == State(['5', '*', '-', '2'], 1, 1, true, true, false)
    ensures Defined(s4, EqualsKey) && Next(s4, EqualsKey) == Displayed(-10)
  {
    SignedScan(s4.text);
    NextEquals(s4, Decimal.Expression(5, '*', -2));
  }

  /** sscanf reads "5*-2" as 5, '*' and -2. */
  lemma SignedScan(text: seq<Char8>)
    requires text == ['5', '*', '-', '2']
    ensures Decimal.ScanExpression(text) == Some(Decimal.Expression(5, '*', -2))
  {
    assert Decimal.ScanDecimal(['-', '2']) == Some(Decimal.Scanned(-2, [])) by {
      assert Decimal.DigitRun(['2']) == 1;
      assert Decimal.DigitsValue(['2']) == 2;
    }
    ScanFive(text);
    assert text[1..] == ['*'] + ['-', '2'];
    Decimal.ScanExpressionOf(text, 5, '*', ['-', '2'], -2, []);
  }

  /** Typing 5 into the fresh calculator. */
  lemma TypeFive()
    ensures Defined(Initial, 6) && Next(Initial, 6) == State(['5'], 1, 0, false, false, false)
  {
    NextDigit(Initial, 6);
    assert KeyChar(6) == '5';
    assert Initial.text + ['5'] == ['5'];
  }

  /** sscanf's first "%d" reads the 5 at the head of a text. */
  lemma ScanFive(text: seq<Char8>)
    requires |text| >= 2 && text[0] == '5' && !Decimal.IsDigit(text[1])
    ensures Decimal.ScanDecimal(text) == Some(Decimal.Scanned(5, text[1..]))
  {
    Decimal.ScanDigits(['5'], text[1..]);
    assert ['5'] + text[1..] == text;
    assert Decimal.DigitsValue(['5']) == 5;
  }

  /** Two operator keys that do not form a sign leave sscanf without a second
      operand, whose value C then leaves indeterminate: 5 + * 2 =. */
  lemma UnsignedOperatorPairUndefined()
    ensures Run(Initial, [6, 4, 12, 2, EqualsKey]) == None
  {
    var s4 := State(['5', '+', '*', '2'], 1, 1, true, true, false);
    UnsignedTyping(s4);
    UnsignedEquals(s4);
    RunCons(s4, EqualsKey, []);
    RunAppend(Initial, [6, 4, 12, 2], [EqualsKey]);
    assert [6, 4, 12, 2] + [EqualsKey] == [6, 4, 12, 2, EqualsKey];
  }

  /** 5 + * 2 typed into the fresh calculator. */
  lemma UnsignedTyping(s4: State)
    requires s4 == State(['5', '+', '*', '2'], 1, 1, true, true, false)
    ensures Run(Initial, [6, 4, 12, 2]) == Some(s4)
  {
    var s1 := State(['5'], 1, 0, false, false, false);
    var s2 := State(['5', '+'], 1, 0, true, false, false);
    var s3 := State(['5', '+', '*'], 1, 0, true, false, false);
    TypeFive();
    NextOperator(s1, 4);
    assert Next(s1, 4) == s2;
    NextOperator(s2, 12);
    assert Next(s2, 12) == s3;
    NextDigit(s3, 2);
    assert KeyChar(2) == '2';
    assert Next(s3, 2) == s4;
    RunOne(s3, 2);
    RunCons(s2, 12, [2]);
    RunCons(s1, 4, [12, 2]);
    RunCons(Initial, 6, [4, 12, 2]);
  }

  /** After 5 + * 2 sscanf finds no second number. */
  lemma UnsignedEquals(s4: State)
    requires s4 == State(['5', '+', '*', '2'], 1, 1, true, true, false)
    ensures !Defined(s4, EqualsKey)
  {
    assert Decimal.ScanDecimal(['*', '2']) == None by {
      assert Decimal.DigitRun(['*', '2']) == 0;
    }
    ScanFive(s4.text);
    assert s4.text[1..][1..] == ['*', '2'];
    assert Operands(s4.text) == None;
  }

  /** n presses of the + key after some input. */
  function PlusKeys(n: nat): (keys: seq<int>)
    ensures |keys| == n
  {
    if n == 0 then [] else [4] + PlusKeys(n - 1)
  }

  /** Operator keys are never refused for length: each adds a character. */
  lemma {:induction false} RunOperators(s: State, n: nat)
    requires AcceptsOperator(s) && |s.text| + n <= Capacity
    ensures Run(s, PlusKeys(n)).Some?
    ensures |Run(s, PlusKeys(n)).value.text| == |s.text| + n
    ensures AcceptsOperator(Run(s, PlusKeys(n)).value)
    decreases n
  {
    if n > 0 {
      NextOperator(s, 4);
      assert PlusKeys(n)[1..] == PlusKeys(n - 1);
      RunOperators(Next(s, 4), n - 1);
    }
  }

  /** A digit followed by 32 operator keys fills opString, and one more
      operator key would be stored past its end. */
  lemma OperatorRunOverflows()
    ensures Run(Initial, [1] + PlusKeys(32)).Some?
    ensures var s := Run(Initial, [1] + PlusKeys(32)).value;
      |s.text| == Capacity && !Defined(s, 4)
  {
    var s1 := State(['1'], 1, 0, false, false, false);
    TypeOne();
    RunCons(Initial, 1, PlusKeys(32));
    RunOperators(s1, 32);
  }

  /** Typing 1 into the fresh calculator. */
  lemma TypeOne()
    ensures Defined(Initial, 1) && Next(Initial, 1) == State(['1'], 1, 0, false, false, false)
  {
    NextDigit(Initial, 1);
    assert KeyChar(1) == '1';
    assert Initial.text + ['1'] == ['1'];
  }
  /** A shown result can be longer than any typed operand: 0 - 999999999 =
      leaves a first operand of ten characters, which chaining builds on. */
  lemma ChainedResultIsLonger(nines: seq<int>)
    requires |nines| == MaxOperandDigits && forall i :: 0 <= i < |nines| ==> nines[i] == 11
    ensures Run(Initial, [14, 8] + nines + [EqualsKey]) == Some(Displayed(-999_999_999))
    ensures Displayed(-999_999_999).firstLength == 10 > MaxOperandDigits
  {
    ZeroMinusNines(nines);
    NegatedNinesLength();
  }

  /** 0 - 999999999 = shows -999999999. */
  lemma ZeroMinusNines(nines: seq<int>)
    requires |nines| == MaxOperandDigits && forall i :: 0 <= i < |nines| ==> nines[i] == 11
    ensures Run(Initial, [14, 8] + nines + [EqualsKey]) == Some(Displayed(-999_999_999))
  {
    ZeroValue();
    NinesValue(nines);
    TypedCalculation([14], 8, nines);
    KeyPair(14, 8, nines);
    assert Evaluate(0, '-', 999_999_999) == -999_999_999;
  }

  /** The 0 key types the value 0. */
  lemma ZeroValue()
    ensures AllDigitKeys([14]) && TypedValue([14]) == 0
  {
    assert KeyChars([14]) == ['0'] && Decimal.DigitsValue(['0']) == 0;
  }

  lemma KeyPair(a: int, b: int, keys: seq<int>)
    ensures [a] + [b] + keys == [a, b] + keys
  {
  }

  /** "-999999999" is ten characters long. */
  lemma NegatedNinesLength()
    ensures |Decimal.Render(-999_999_999)| == 10
  {
    assert Decimal.Pow10(8) == 100_000_000 && Decimal.Pow10(9) == 1_000_000_000 by {
      assert Decimal.Pow10(4) == 10_000;
    }
    Decimal.DigitsLengthAbove(999_999_999, 8);
    Decimal.DigitsLength(999_999_999, 9);
  }

  /** Nine presses of the 9 key type 999999999. */
  lemma NinesValue(nines: seq<int>)
    requires |nines| == MaxOperandDigits && forall i :: 0 <= i < |nines| ==> nines[i] == 11
    ensures AllDigitKeys(nines) && TypedValue(nines) == 999_999_999
  {
    Decimal.AllNines(KeyChars(nines));
    assert Decimal.Pow10(9) == 1_000_000_000 by {
      assert Decimal.Pow10(4) == 10_000;
    }
  }

  /** The keys of 1 4 7 4 8 3 6 5 0 type 147483650. */
  lemma GapValue(gap: seq<int>)
    requires gap == [1, 5, 9, 5, 10, 3, 7, 6, 14]
    ensures AllDigitKeys(gap) && TypedValue(gap) == 147_483_650
  {
    var cs: seq<char> := KeyChars(gap);
    assert cs[0] == '1' && cs[1] == '4' && cs[2] == '7' && cs[3] == '4' && cs[4] == '8';
    assert cs[5] == '3' && cs[6] == '6' && cs[7] == '5' && cs[8] == '0';
    assert Decimal.AllDigits(cs[..1]) && Decimal.DigitsValue(cs[..1]) == 1 by {
      assert cs[..1] == [] + [cs[0]];
    }
    ValueStep(cs, 1);
    ValueStep(cs, 2);
    ValueStep(cs, 3);
    ValueStep(cs, 4);
    ValueStep(cs, 5);
    ValueStep(cs, 6);
    ValueStep(cs, 7);
    ValueStep(cs, 8);
    assert cs[..9] == cs;
  }

  /** Reading one more digit of a text multiplies the value so far by ten. */
  lemma ValueStep(cs: seq<char>, k: nat)
    requires 0 < k < |cs| && Decimal.AllDigits(cs[..k]) && Decimal.IsDigit(cs[k])
    ensures Decimal.AllDigits(cs[..k + 1])
    ensures Decimal.DigitsValue(cs[..k + 1]) == Decimal.DigitsValue(cs[..k]) * 10 + Decimal.DigitValue(cs[k])
  {
    assert cs[..k + 1] == cs[..k] + [cs[k]];
    Decimal.DigitsValueSnoc(cs[..k], cs[k]);
  }

  /** The most negative int is reachable from the keypad:
      0 - 999999999 =, then - 999999999 =, then - 147483650 = shows -2147483648. */
  lemma MinimumReachable(nines: seq<int>, gap: seq<int>)
    requires |nines| == MaxOperandDigits && forall i :: 0 <= i < |nines| ==> nines[i] == 11
    requires gap == [1, 5, 9, 5, 10, 3, 7, 6, 14]
    ensures Run(Initial, [14, 8] + nines + [EqualsKey] + ([8] + nines + [EqualsKey]) + ([8] + gap + [EqualsKey]))
         == Some(Displayed(IntMin))
  {
    var first := [14, 8] + nines + [EqualsKey];
    var second := [8] + nines + [EqualsKey];
    var third := [8] + gap + [EqualsKey];
    ChainedResultIsLonger(nines);
    assert Run(Initial, first) == Some(Displayed(-999_999_999));
    NinesValue(nines);
    ChainedCalculation(-999_999_999, 8, nines);
    assert Run(Displayed(-999_999_999), second) == Some(Displayed(-1_999_999_998));
    GapValue(gap);
    ChainedCalculation(-1_999_999_998, 8, gap);
    assert Run(Displayed(-1_999_999_998), third) == Some(Displayed(IntMin));
    RunAppend(Initial, first, second);
    RunAppend(Initial, first + second, third);
  }

  /** From a shown -2147483648, / - 1 = asks for IntMin / -1: sscanf reads
      exactly those operands, and the checked division shows 0. */
  lemma QuotientOverflowAtEquals()
    ensures Operands(Decimal.Render(IntMin) + ['/'] + ['-'] + ['1']) == Some(Decimal.Expression(IntMin, '/', -1))
    ensures Run(Displayed(IntMin), [16, 8, 1, EqualsKey]) == Some(Displayed(0))
  {
    var r := Decimal.Render(IntMin);
    var s3 := State(r + ['/'] + ['-'] + ['1'], |r|, 1, true, true, false);
    Decimal.RenderLength(IntMin);
    ResultThenKeys(r);
    QuotientEquals(r, s3);
    RunOne(s3, EqualsKey);
  }

  /** Divide, minus, 1 and equals after a shown result of up to eleven characters. */
  lemma ResultThenKeys(r: seq<Char8>)
    requires 1 <= |r| <= 11
    ensures Run(State(r, |r|, 0, false, false, true), [16, 8, 1, EqualsKey])
         == Run(State(r + ['/'] + ['-'] + ['1'], |r|, 1, true, true, false), [EqualsKey])
  {
    var s0 := State(r, |r|, 0, false, false, true);
    var s1 := State(r + ['/'], |r|, 0, true, false, false);
    var s2 := State(r + ['/'] + ['-'], |r|, 0, true, false, false);
    var s3 := State(r + ['/'] + ['-'] + ['1'], |r|, 1, true, true, false);
    NextOperator(s0, 16);
    assert Next(s0, 16) == s1;
    NextOperator(s1, 8);
    assert Next(s1, 8) == s2;
    NextDigit(s2, 1);
    KeyOne();
    assert Next(s2, 1) == s3;
    RunCons(s2, 1, [EqualsKey]);
    RunCons(s1, 8, [1, EqualsKey]);
    RunCons(s0, 16, [8, 1, EqualsKey]);
  }

  lemma KeyOne()
    ensures KeyChar(1) == '1'
  {
  }

  /** sscanf reads IntMin / -1, and the corrected division shows 0. */
  lemma QuotientEquals(r: seq<Char8>, s3: State)
    requires r == Decimal.Render(IntMin) && s3 == State(r + ['/'] + ['-'] + ['1'], |r|, 1, true, true, false)
    ensures Operands(s3.text) == Some(Decimal.Expression(IntMin, '/', -1))
    ensures Defined(s3, EqualsKey) && Next(s3, EqualsKey) == Displayed(0)
  {
    Decimal.RenderLength(IntMin);
    QuotientScan(r, s3.text);
    DivGuardAdmitsOverflow();
    NextEquals(s3, Decimal.Expression(IntMin, '/', -1));
  }

  /** sscanf on the shown IntMin followed by / - 1. */
  lemma QuotientScan(r: seq<Char8>, text: seq<Char8>)
    requires r == Decimal.Render(IntMin) && text == r + ['/'] + ['-'] + ['1']
    ensures Decimal.ScanExpression(text) == Some(Decimal.Expression(IntMin, '/', -1))
  {
    QuotientConversions();
    Regroup(r, '/', '-', '1');
    Decimal.ScanExpressionOf(text, IntMin, '/', ['-'] + ['1'], -1, []);
  }

  /** The two "%d" conversions of that text, one at a time. */
  lemma QuotientConversions()
    ensures Decimal.ScanDecimal(Decimal.Render(IntMin) + (['/'] + (['-'] + ['1'])))
         == Some(Decimal.Scanned(IntMin, ['/'] + (['-'] + ['1'])))
    ensures Decimal.ScanDecimal(['-'] + ['1']) == Some(Decimal.Scanned(-1, []))
  {
    Decimal.ScanRenderedThenSigned(IntMin, '/', ['1']);
    assert Decimal.DigitsValue(['1']) == 1;
  }

  lemma Regroup(a: seq<char>, x: char, y: char, z: char)
    ensures a + [x] + [y] + [z] == a + ([x] + ([y] + [z]))
  {
  }
}
