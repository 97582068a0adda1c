/** The keypad wiring: which view-model handler each button calls, and
    what holds over whole sequences of key presses. */
module Keypad {
  import opened Wrappers
  import opened Numbers
  import Model
  import opened Service
  import opened ViewModel

  /** `String(Double.pi)` and `String(M_E)`, the text the π and e buttons
      type into the display. */
  const PiText: string := "3.141592653589793"
  const EText: string := "2.718281828459045"

  /** One button press.  `Equals` carries the time it happened at. */
  datatype Key =
    | Digit(token: string)          // "0" ... "9" and "."
    | PiKey
    | EKey
    | Operator(symbol: string)      // "+", "-", "×", "÷"
    | EqualsKey(now: real)
    | ClearKey
    | ToggleSignKey
    | PercentKey
    | FunctionKey(name: string)     // "sin", ..., "x²", "x³", "10ˣ", "∛", "x!"
    | MemoryKey(operation: string)  // "mc", "m+", "m-", "mr"
    | AngleKey
    | AnsKey
    | ParenthesesKey
    | ModeKey(mode: Model.CalculatorMode)

  /** The handler a button runs.  π and e type their digits; "Ans" recalls
      the last result; "()" has an empty action. */
  function Press(env: Env, s: State, key: Key): (r: State)
    ensures !key.EqualsKey? ==> r.stored == s.stored && r.calculationHistory == s.calculationHistory
  {
    match key
    case Digit(token) => NumberInput(s, token)
    case PiKey => NumberInput(s, PiText)
    case EKey => NumberInput(s, EText)
    case Operator(symbol) => Operation(env, s, symbol)
    case EqualsKey(now) => Equals(env, s, now)
    case ClearKey => Cleared(s)
    case ToggleSignKey => SignToggled(env, s)
    case PercentKey => Percent(env, s)
    case FunctionKey(name) => ScientificFunction(env, s, name)
    case MemoryKey(operation) => MemoryOperation(env, s, operation)
    case AngleKey => AngleModeToggled(s)
    case AnsKey => AnswerRecalled(env, s)
    case ParenthesesKey => s
    case ModeKey(mode) => ModeSwitched(s, mode)
  }

  /** Only the mode key changes the calculator mode. */
  lemma PressKeepsMode(env: Env, s: State, key: Key)
    ensures !key.ModeKey? ==> Press(env, s, key).currentMode == s.currentMode
                              && Press(env, s, key).isInScientificMode == s.isInScientificMode
  {
  }

  /** Only the angle key changes the angle mode. */
  lemma PressKeepsAngleMode(env: Env, s: State, key: Key)
    requires !key.AngleKey?
    ensures Press(env, s, key).isInRadianMode == s.isInRadianMode
  {
  }

  /** The state after pressing `keys` in order. */
  function Run(env: Env, s: State, keys: seq<Key>): (r: State)
    ensures (forall i :: 0 <= i < |keys| ==> !keys[i].EqualsKey?) ==>
              r.stored == s.stored && r.calculationHistory == s.calculationHistory
    ensures (forall i :: 0 <= i < |keys| ==> !keys[i].ModeKey?) ==>
              r.currentMode == s.currentMode && r.isInScientificMode == s.isInScientificMode
    decreases |keys|
  {
    if keys == [] then s
    else
      PressKeepsMode(env, s, keys[0]);
      Run(env, Press(env, s, keys[0]), keys[1..])
  }

  lemma RunCons(env: Env, s: State, key: Key, rest: seq<Key>)
    ensures Run(env, s, [key] + rest) == Run(env, Press(env, s, key), rest)
  {
    assert ([key] + rest)[1..] == rest;
  }

  lemma RunAppend(env: Env, s: State, keys: seq<Key>, more: seq<Key>)
    ensures Run(env, s, keys + more) == Run(env, Run(env, s, keys), more)
    decreases |keys|
  {
    if keys == [] {
      assert keys + more == more;
    } else {
      assert (keys + more)[0] == keys[0];
      assert (keys + more)[1..] == keys[1..] + more;
      RunAppend(env, Press(env, s, keys[0]), keys[1..], more);
    }
  }

  /** The "()" button does nothing at all. */
  lemma ParenthesesDoNothing(env: Env, s: State)
    ensures Press(env, s, ParenthesesKey) == s
  {
  }

  // ---------------------------------------------------------------------
  // The operand invariant

  /** A second operand only exists beside a first operand and a pending
      operation. */
  predicate OperandsConsistent(s: State) {
    && (s.secondOperand.Some? ==> s.firstOperand.Some?)
    && (s.currentOperation.None? ==> s.secondOperand.None?)
  }

  lemma InitialConsistent(stored: Stored)
    ensures OperandsConsistent(Initial(stored))
  {
  }

  lemma PressKeepsOperandsConsistent(env: Env, s: State, key: Key)
    requires OperandsConsistent(s)
    ensures OperandsConsistent(Press(env, s, key))
  {
    match key
    case Operator(symbol) => OperationKeepsOperandsConsistent(env, s, symbol);
    case EqualsKey(now) => EqualsKeepsOperandsConsistent(env, s, now);
    case _ =>
  }

  lemma OperationKeepsOperandsConsistent(env: Env, s: State, symbol: string)
    requires OperandsConsistent(s)
    ensures OperandsConsistent(Operation(env, s, symbol))
  {
    if env.parse(s.displayValue).Some? && s.firstOperand.Some? {
      var s1 := s.(currentOperation := Some(symbol), secondOperand := env.parse(s.displayValue));
      assert Perform(env, s1).secondOperand == env.parse(s.displayValue);
    }
  }

  lemma EqualsKeepsOperandsConsistent(env: Env, s: State, now: real)
    requires OperandsConsistent(s)
    ensures OperandsConsistent(Equals(env, s, now))
  {
    if s.firstOperand.Some? && s.currentOperation.Some? {
      var s1 := if s.secondOperand.None? && env.parse(s.displayValue).Some?
                then s.(secondOperand := env.parse(s.displayValue)) else s;
      assert Perform(env, s1).lastResult.Some?;
    }
  }

  /** Every sequence of key presses keeps the operand invariant. */
  lemma {:induction false} RunKeepsOperandsConsistent(env: Env, s: State, keys: seq<Key>)
    requires OperandsConsistent(s)
    ensures OperandsConsistent(Run(env, s, keys))
    decreases |keys|
  {
    if keys != [] {
      PressKeepsOperandsConsistent(env, s, keys[0]);
      RunKeepsOperandsConsistent(env, Press(env, s, keys[0]), keys[1..]);
    }
  }

  /** Once no operation is pending, equals changes nothing until an operator
      key is pressed. */
  lemma EqualsWithoutOperationIsNoOp(env: Env, s: State, now: real)
    requires s.currentOperation.None?
    ensures Press(env, s, EqualsKey(now)) == s
  {
  }

  // ---------------------------------------------------------------------
  // At most one decimal point

  /** The number of '.' characters in `s`. */
  function Dots(s: string): nat
    decreases |s|
  {
    if s == [] then 0 else Dots(s[..|s| - 1]) + (if s[|s| - 1] == '.' then 1 else 0)
  }

  lemma {:induction false} DotsAppend(a: string, b: string)
    ensures Dots(a + b) == Dots(a) + Dots(b)
    decreases |b|
  {
    if b != [] {
      assert (a + b)[..|a + b| - 1] == a + b[..|b| - 1];
      assert (a + b)[|a + b| - 1] == b[|b| - 1];
      DotsAppend(a, b[..|b| - 1]);
    } else {
      assert a + b == a;
    }
  }

  lemma {:induction false} DotsZeroIffNoDot(s: string)
    ensures Dots(s) == 0 <==> '.' !in s
    decreases |s|
  {
    if s != [] {
      DotsZeroIffNoDot(s[..|s| - 1]);
      assert s == s[..|s| - 1] + [s[|s| - 1]];
    }
  }

  /** A key that types exactly one digit or the decimal point. */
  predicate IsSingleCharacterDigitKey(key: Key) {
    key.Digit? && |key.token| == 1 && key.token[0] in "0123456789."
  }

  lemma NumberInputKeepsOneDot(s: State, token: string)
    requires Dots(s.displayValue) <= 1 && |token| == 1 && token[0] in "0123456789."
    ensures Dots(NumberInput(s, token).displayValue) <= 1
  {
    assert Dots(token) == Dots(token[..0]) + (if token[0] == '.' then 1 else 0);
    if !s.isStartingNewInput && !(s.displayValue == "0" && token != ".") && !(token == "." && '.' in s.displayValue) {
      DotsAppend(s.displayValue, token);
      DotsZeroIffNoDot(s.displayValue);
    }
  }

  /** Typing single digits and points never gives a display that already
      holds at most one "." a second one. */
  lemma {:induction false} SingleCharacterKeysKeepOneDot(env: Env, s: State, keys: seq<Key>)
    requires Dots(s.displayValue) <= 1
    requires forall i :: 0 <= i < |keys| ==> IsSingleCharacterDigitKey(keys[i])
    ensures Dots(Run(env, s, keys).displayValue) <= 1
    decreases |keys|
  {
    if keys != [] {
      NumberInputKeepsOneDot(s, keys[0].token);
      SingleCharacterKeysKeepOneDot(env, Press(env, s, keys[0]), keys[1..]);
    }
  }

  /** The π key is not a single character: typed after "1.5" it appends its
      own point and the display holds two. */
  lemma PiAfterDecimalGivesTwoPoints(env: Env, s: State)
    requires !s.isStartingNewInput && s.displayValue == "1.5"
    ensures Press(env, s, PiKey).displayValue == "1.5" + PiText
    ensures Dots(Press(env, s, PiKey).displayValue) >= 2
  {
    DotsAppend("1.5", PiText);
    assert "1.5"[1] == '.' && PiText[1] == '.';
    DotsZeroIffNoDot("1.5");
    DotsZeroIffNoDot(PiText);
  }

  // ---------------------------------------------------------------------
  // Key sequences

  /** "2 + 3 + 4 =" shows 5: the second "+" shows 2 + 3 but keeps 2 as the
      first operand and 3 as the second, and equals reuses the stored 3 in
      preference to the 4 on the display. */
  lemma ChainedOperatorsAreNotFolded(env: Env, s: State, now: real)
    requires env.parse("2") == Some(Finite(2.0)) && env.parse("3") == Some(Finite(3.0))
    ensures var r := Run(env, Cleared(s),
                         [Digit("2"), Operator("+"), Digit("3"), Operator("+"), Digit("4"), EqualsKey(now)]);
      && r.displayValue == Format(env, Finite(5.0))
      && |r.calculationHistory| > 0
      && r.calculationHistory[0].expression == Format(env, Finite(2.0)) + " + " + Format(env, Finite(3.0))
  {
    var s0 := Cleared(s);
    var s1 := Press(env, s0, Digit("2"));
    var s2 := Press(env, s1, Operator("+"));
    assert s2.firstOperand == Some(Finite(2.0)) && s2.secondOperand.None?;
    var s3 := Press(env, s2, Digit("3"));
    var s4 := Press(env, s3, Operator("+"));
    assert s4.firstOperand == Some(Finite(2.0)) && s4.secondOperand == Some(Finite(3.0));
    var s5 := Press(env, s4, Digit("4"));
    assert s5.secondOperand == Some(Finite(3.0)) && s5.currentOperation == Some("+");
    var s6 := Press(env, s5, EqualsKey(now));
    assert s6.displayValue == Format(env, Finite(5.0));
    assert s6.calculationHistory[0].expression == Format(env, Finite(2.0)) + " + " + Format(env, Finite(3.0));
    calc {
      Run(env, s0, [Digit("2"), Operator("+"), Digit("3"), Operator("+"), Digit("4"), EqualsKey(now)]);
      { RunCons(env, s0, Digit("2"), [Operator("+"), Digit("3"), Operator("+"), Digit("4"), EqualsKey(now)]); }
      Run(env, s1, [Operator("+"), Digit("3"), Operator("+"), Digit("4"), EqualsKey(now)]);
      { RunCons(env, s1, Operator("+"), [Digit("3"), Operator("+"), Digit("4"), EqualsKey(now)]); }
      Run(env, s2, [Digit("3"), Operator("+"), Digit("4"), EqualsKey(now)]);
      { RunCons(env, s2, Digit("3"), [Operator("+"), Digit("4"), EqualsKey(now)]); }
      Run(env, s3, [Operator("+"), Digit("4"), EqualsKey(now)]);
      { RunCons(env, s3, Operator("+"), [Digit("4"), EqualsKey(now)]); }
      Run(env, s4, [Digit("4"), EqualsKey(now)]);
      { RunCons(env, s4, Digit("4"), [EqualsKey(now)]); }
      Run(env, s5, [EqualsKey(now)]);
      { RunCons(env, s5, EqualsKey(now), []); }
      Run(env, s6, []);
    }
  }

  /** "7 ÷ 0 =" shows the error text, and clear afterwards shows "0". */
  lemma DivisionByZeroShowsError(env: Env, s: State, now: real)
    requires env.parse("7") == Some(Finite(7.0)) && env.parse("0") == Some(Finite(0.0))
    ensures Run(env, Cleared(s), [Digit("7"), Operator("÷"), Digit("0"), EqualsKey(now)]).displayValue == "错误"
    ensures Run(env, Cleared(s), [Digit("7"), Operator("÷"), Digit("0"), EqualsKey(now), ClearKey]).displayValue == "0"
  {
    var s0 := Cleared(s);
    var s1 := Press(env, s0, Digit("7"));
    var s2 := Press(env, s1, Operator("÷"));
    var s3 := Press(env, s2, Digit("0"));
    assert s3.displayValue == "0" && s3.firstOperand == Some(Finite(7.0));
    var s4 := Press(env, s3, EqualsKey(now));
    assert s4.displayValue == "错误";
    calc {
      Run(env, s0, [Digit("7"), Operator("÷"), Digit("0"), EqualsKey(now), ClearKey]);
      { RunCons(env, s0, Digit("7"), [Operator("÷"), Digit("0"), EqualsKey(now), ClearKey]); }
      Run(env, s1, [Operator("÷"), Digit("0"), EqualsKey(now), ClearKey]);
      { RunCons(env, s1, Operator("÷"), [Digit("0"), EqualsKey(now), ClearKey]); }
      Run(env, s2, [Digit("0"), EqualsKey(now), ClearKey]);
      { RunCons(env, s2, Digit("0"), [EqualsKey(now), ClearKey]); }
      Run(env, s3, [EqualsKey(now), ClearKey]);
      { RunCons(env, s3, EqualsKey(now), [ClearKey]); }
      Run(env, s4, [ClearKey]);
      { RunCons(env, s4, ClearKey, []); }
      Run(env, Cleared(s4), []);
    }
    calc {
      Run(env, s0, [Digit("7"), Operator("÷"), Digit("0"), EqualsKey(now)]);
      { RunCons(env, s0, Digit("7"), [Operator("÷"), Digit("0"), EqualsKey(now)]); }
      Run(env, s1, [Operator("÷"), Digit("0"), EqualsKey(now)]);
      { RunCons(env, s1, Operator("÷"), [Digit("0"), EqualsKey(now)]); }
      Run(env, s2, [Digit("0"), EqualsKey(now)]);
      { RunCons(env, s2, Digit("0"), [EqualsKey(now)]); }
      Run(env, s3, [EqualsKey(now)]);
      { RunCons(env, s3, EqualsKey(now), []); }
      Run(env, s4, []);
    }
  }
}
