/** What each view-model handler does to the calculator state: the guards,
    the resets and what every handler leaves alone. */
module HandlerProperties {
  import opened Wrappers
  import opened Numbers
  import Model
  import opened Service
  import opened ViewModel

  /** Typing clears the new-input flag.  On fresh input the display becomes
      the token; otherwise a lone "0" is replaced by anything but ".", a
      second "." is ignored, and anything else is appended.  Nothing but the
      display and the flag changes. */
  lemma NumberInputEffect(s: State, token: string)
    ensures var r := NumberInput(s, token);
      && !r.isStartingNewInput
      && (s.isStartingNewInput ==> r.displayValue == token)
      && (!s.isStartingNewInput && s.displayValue == "0" && token != "." ==> r.displayValue == token)
      && (!s.isStartingNewInput && s.displayValue != "0" && token != "." ==> r.displayValue == s.displayValue + token)
      && (!s.isStartingNewInput && '.' !in s.displayValue && token == "." ==> r.displayValue == s.displayValue + ".")
      && r.(displayValue := s.displayValue, isStartingNewInput := s.isStartingNewInput) == s
  {
  }

  /** A "." typed while the display already holds one changes nothing. */
  lemma SecondDecimalPointIgnored(s: State)
    requires !s.isStartingNewInput && '.' in s.displayValue
    ensures NumberInput(s, ".") == s
  {
  }

  /** An operator is always stored and always starts new input.  The first
      operand is set only when there is none and is never overwritten; an
      unparsable display leaves both operands alone; otherwise the display
      becomes the second operand and the pending operation is shown applied
      to the unchanged first operand. */
  lemma OperationEffect(env: Env, s: State, operation: string)
    ensures var r := Operation(env, s, operation);
      && r.currentOperation == Some(operation)
      && r.isStartingNewInput
      && (s.firstOperand.Some? ==> r.firstOperand == s.firstOperand)
      && (s.firstOperand.None? && env.parse(s.displayValue).Some? ==> r.firstOperand == env.parse(s.displayValue))
      && (env.parse(s.displayValue).None? ==>
            r.firstOperand == s.firstOperand && r.secondOperand == s.secondOperand && r.displayValue == s.displayValue)
      && (env.parse(s.displayValue).Some? && s.firstOperand.Some? ==>
            && r.secondOperand == env.parse(s.displayValue)
            && r.lastResult == Some(CalculateBasic(s.firstOperand.value, env.parse(s.displayValue), Some(operation)))
            && r.displayValue == Format(env, r.lastResult.value))
      && r.memoryValue == s.memoryValue && r.isInRadianMode == s.isInRadianMode && r.stored == s.stored
  {
  }

  /** Without a first operand or an operation, performing does nothing. */
  lemma PerformNeedsOperandAndOperation(env: Env, s: State)
    requires s.firstOperand.None? || s.currentOperation.None?
    ensures Perform(env, s) == s
  {
  }

  /** Performing uses the stored second operand, else the parsed display,
      else returns the first operand unchanged; it always sets the last
      result and shows it, and changes nothing else. */
  lemma PerformEffect(env: Env, s: State)
    requires s.firstOperand.Some? && s.currentOperation.Some?
    ensures var r := Perform(env, s);
      && r.lastResult.Some?
      && r.displayValue == Format(env, r.lastResult.value)
      && (s.secondOperand.Some? ==>
            r.lastResult.value == CalculateBasic(s.firstOperand.value, s.secondOperand, s.currentOperation))
      && (s.secondOperand.None? && env.parse(s.displayValue).Some? ==>
            r.lastResult.value == CalculateBasic(s.firstOperand.value, env.parse(s.displayValue), s.currentOperation))
      && (s.secondOperand.None? && env.parse(s.displayValue).None? ==> r.lastResult == s.firstOperand)
      && r.(lastResult := s.lastResult, displayValue := s.displayValue) == s
  {
  }

  /** Equals does nothing unless a first operand and an operation are set. */
  lemma EqualsNeedsOperandAndOperation(env: Env, s: State, now: real)
    requires s.firstOperand.None? || s.currentOperation.None?
    ensures Equals(env, s, now) == s
  {
  }

  /** The second operand an equals press uses: the stored one, else the
      parsed display (which may be missing). */
  function SecondUsed(env: Env, s: State): Option<Num> {
    if s.secondOperand.Some? then s.secondOperand else env.parse(s.displayValue)
  }

  /** An effective equals applies the pending operation to the second
      operand in use (or gives the first operand back when there is none),
      shows the result, makes it the new first operand and clears the
      operation and the second operand.  Memory, angle and calculator modes
      are untouched. */
  lemma EqualsEffect(env: Env, s: State, now: real)
    requires s.firstOperand.Some? && s.currentOperation.Some?
    ensures var r := Equals(env, s, now);
      && r.currentOperation.None? && r.secondOperand.None?
      && r.lastResult.Some? && r.firstOperand == r.lastResult
      && r.isStartingNewInput
      && r.displayValue == Format(env, r.lastResult.value)
      && (SecondUsed(env, s).Some? ==>
            r.lastResult.value == CalculateBasic(s.firstOperand.value, SecondUsed(env, s), s.currentOperation))
      && (SecondUsed(env, s).None? ==> r.lastResult == s.firstOperand)
      && r.memoryValue == s.memoryValue && r.isInRadianMode == s.isInRadianMode
      && r.currentMode == s.currentMode && r.isInScientificMode == s.isInScientificMode
  {
  }

  /** Each effective equals puts exactly one entry in front of the history:
      "first op second" (a missing second shown as 0) with the new display as
      its result; the older entries follow in order, at most 100 in all, and
      the shown history is the stored one. */
  lemma EqualsRecordsHistory(env: Env, s: State, now: real)
    requires s.firstOperand.Some? && s.currentOperation.Some?
    ensures var r := Equals(env, s, now);
      && r.stored.Saved?
      && r.calculationHistory == r.stored.items
      && |r.calculationHistory| == (if |Load(s.stored)| < HistoryLimit then |Load(s.stored)| + 1 else HistoryLimit)
      && r.calculationHistory[0] == Model.HistoryItem(
           Expression(env, s.firstOperand.value, s.currentOperation.value, SecondUsed(env, s)), r.displayValue, now)
      && r.calculationHistory[1..] == Load(s.stored)[..|r.calculationHistory| - 1]
  {
  }

  /** Equals clears the operation, so pressing it again changes nothing:
      two presses are one. */
  lemma EqualsTwiceIsOnce(env: Env, s: State, now: real, later: real)
    ensures Equals(env, Equals(env, s, now), later) == Equals(env, s, now)
  {
    if s.firstOperand.Some? && s.currentOperation.Some? {
      EqualsEffect(env, s, now);
    }
  }

  /** Clear shows "0", forgets both operands and the operation and starts
      new input; memory, angle mode, last result, calculator mode and history
      survive. */
  lemma ClearEffect(s: State)
    ensures var r := Cleared(s);
      && r.displayValue == "0" && r.isStartingNewInput
      && r.firstOperand.None? && r.secondOperand.None? && r.currentOperation.None?
      && r.memoryValue == s.memoryValue && r.isInRadianMode == s.isInRadianMode
      && r.lastResult == s.lastResult && r.currentMode == s.currentMode
      && r.calculationHistory == s.calculationHistory && r.stored == s.stored
  {
  }

  lemma ClearIdempotent(s: State)
    ensures Cleared(Cleared(s)) == Cleared(s)
  {
  }

  /** On a display that does not parse, sign, percent, every scientific
      function, m+ and m- change nothing. */
  lemma UnparsableDisplayIgnored(env: Env, s: State, name: string)
    requires env.parse(s.displayValue).None?
    ensures SignToggled(env, s) == s
    ensures Percent(env, s) == s
    ensures ScientificFunction(env, s, name) == s
    ensures MemoryOperation(env, s, "m+") == s
    ensures MemoryOperation(env, s, "m-") == s
  {
  }

  /** The memory keys: "mc" zeroes memory, "m+" and "m-" add and subtract
      the parsed display, "mr" shows memory and starts new input, any other
      name does nothing; nothing but memory, display and flag changes. */
  lemma MemoryOperationEffect(env: Env, s: State, operation: string)
    ensures operation == "mc" ==> MemoryOperation(env, s, operation) == s.(memoryValue := Finite(0.0))
    ensures operation == "mr" ==>
      MemoryOperation(env, s, operation) == s.(displayValue := Format(env, s.memoryValue), isStartingNewInput := true)
    ensures operation == "m+" && env.parse(s.displayValue).Some? ==>
      MemoryOperation(env, s, operation).memoryValue == Add(s.memoryValue, env.parse(s.displayValue).value)
    ensures operation == "m-" && env.parse(s.displayValue).Some? ==>
      MemoryOperation(env, s, operation).memoryValue == Sub(s.memoryValue, env.parse(s.displayValue).value)
    ensures operation !in {"mc", "m+", "m-", "mr"} ==> MemoryOperation(env, s, operation) == s
    ensures operation != "mr" ==> MemoryOperation(env, s, operation).(memoryValue := s.memoryValue) == s
  {
  }

  /** m+ twice then mr shows the memory plus the display added twice. */
  lemma MemoryAccumulates(env: Env, s: State, v: real)
    requires env.parse(s.displayValue) == Some(Finite(v))
    requires s.memoryValue.Finite?
    ensures var r := MemoryOperation(env, MemoryOperation(env, MemoryOperation(env, s, "m+"), "m+"), "mr");
      r.displayValue == Format(env, Finite(s.memoryValue.value + 2.0 * v)) && r.isStartingNewInput
  {
    var m := s.memoryValue.value;
    assert MemoryOperation(env, s, "m+").memoryValue == Finite(m + v);
    assert MemoryOperation(env, MemoryOperation(env, s, "m+"), "m+").memoryValue == Finite(m + v + v);
  }

  /** A scientific function on a parsable display shows and remembers its
      result and starts new input, but leaves the operands and the pending
      operation as they were. */
  lemma ScientificFunctionEffect(env: Env, s: State, name: string)
    requires env.parse(s.displayValue).Some?
    ensures var r := ScientificFunction(env, s, name);
      && r.lastResult == Some(FunctionResult(env.lib, FunctionInput(env.lib, s.isInRadianMode, env.parse(s.displayValue).value, name), name))
      && r.displayValue == Format(env, r.lastResult.value)
      && r.isStartingNewInput
      && r.firstOperand == s.firstOperand && r.secondOperand == s.secondOperand
      && r.currentOperation == s.currentOperation
      && r.memoryValue == s.memoryValue && r.isInRadianMode == s.isInRadianMode
  {
  }

  /** In degree mode sin, cos and tan see the value times pi / 180; in radian
      mode, and for every other function, they see the value itself. */
  lemma DegreeModeConvertsTrigonometry(lib: Libm, radians: bool, d: real, name: string)
    ensures !radians && name in TrigonometricFunctions ==>
      FunctionInput(lib, radians, Finite(d), name) == Finite(d * lib.pi / 180.0)
    ensures radians || name !in TrigonometricFunctions ==>
      FunctionInput(lib, radians, Finite(d), name) == Finite(d)
  {
  }

  /** The "xʸ" key squares, exactly as "x²" does; an unknown function name
      leaves the value as it was. */
  lemma PowerKeySquares(env: Env, s: State)
    ensures ScientificFunction(env, s, "xʸ") == ScientificFunction(env, s, "x²")
  {
  }

  lemma UnknownFunctionKeepsValue(lib: Libm, input: Num, name: string)
    requires name !in ScientificFunctions && name !in {"x²", "x³", "10ˣ", "∛"}
    ensures FunctionResult(lib, input, name) == input
  {
  }

  /** Ans shows the last result and lets typing continue after it; without
      a last result it does nothing. */
  lemma AnswerRecalledEffect(env: Env, s: State)
    ensures s.lastResult.None? ==> AnswerRecalled(env, s) == s
    ensures s.lastResult.Some? ==>
      && AnswerRecalled(env, s).displayValue == Format(env, s.lastResult.value)
      && !AnswerRecalled(env, s).isStartingNewInput
  {
  }

  /** Mode switching sets both mode fields together, and toggling the angle
      mode twice restores it. */
  lemma ModeFieldsAgree(s: State, mode: Model.CalculatorMode)
    ensures ModeSwitched(s, mode).isInScientificMode <==> ModeSwitched(s, mode).currentMode == Model.Scientific
    ensures AngleModeToggled(AngleModeToggled(s)) == s
  {
  }

  /** Clearing the history empties both the store and the shown list;
      loading afterwards gives nothing. */
  lemma HistoryClearedEffect(s: State)
    ensures Load(HistoryCleared(s).stored) == [] && HistoryCleared(s).calculationHistory == []
    ensures HistoryLoaded(HistoryCleared(s)) == HistoryCleared(s)
  {
  }
}
