/** The calculator view model: the keystroke-driven state machine behind
    the calculator screen.

    `State` is the whole state as a value and the functions below give each
    handler's effect on it; `CalculatorViewModel` is the object itself, whose
    methods update its fields step by step and are proved to have exactly
    the effect of those functions.  Parsing `Double(displayValue)`, the
    number formatter and the maths library are collaborators passed in as an
    `Env`. */
module ViewModel {
  import opened Wrappers
  import opened Numbers
  import Model
  import opened Service

  /** The collaborators the view model calls but this model leaves open:
      `Double(_:)` on the display string, the locale formatter for finite
      values, and the maths library. */
  datatype Env = Env(parse: string -> Option<Num>, format: real -> string, lib: Libm)

  /** `formatNumber` with the environment's finite formatter. */
  function Format(env: Env, n: Num): string {
    FormatNumber(env.format, n)
  }

  /** Every field of the view model, plus the persisted history of the
      calculator service it talks to. */
  datatype State = State(
    displayValue: string,
    currentMode: Model.CalculatorMode,
    isInScientificMode: bool,
    calculationHistory: seq<Model.HistoryItem>,
    firstOperand: Option<Num>,
    secondOperand: Option<Num>,
    currentOperation: Option<string>,
    isStartingNewInput: bool,
    lastResult: Option<Num>,
    isInRadianMode: bool,
    memoryValue: Num,
    stored: Stored)

  /** A freshly created view model: it has loaded the stored history. */
  function Initial(stored: Stored): State {
    State("0", Model.Basic, false, Load(stored), None, None, None, true, None, true, Finite(0.0), stored)
  }

  function ModeSwitched(s: State, mode: Model.CalculatorMode): State {
    s.(currentMode := mode, isInScientificMode := mode == Model.Scientific)
  }

  /** A digit, the decimal point or a constant's text typed on the keypad. */
  function NumberInput(s: State, token: string): State {
    if s.isStartingNewInput then s.(displayValue := token, isStartingNewInput := false)
    else if s.displayValue == "0" && token != "." then s.(displayValue := token)
    else if token == "." && '.' in s.displayValue then s
    else s.(displayValue := s.displayValue + token)
  }

  /** The pending operation applied to the stored second operand, else to
      the parsed display, else not at all. */
  function Perform(env: Env, s: State): State {
    if s.firstOperand.Some? && s.currentOperation.Some? then
      var result :=
        if s.secondOperand.Some? then CalculateBasic(s.firstOperand.value, s.secondOperand, s.currentOperation)
        else match env.parse(s.displayValue)
          case Some(input) => CalculateBasic(s.firstOperand.value, Some(input), s.currentOperation)
          case None => s.firstOperand.value;
      s.(lastResult := Some(result), displayValue := Format(env, result))
    else s
  }

  /** An operator key: remember the operator; the display becomes the first
      operand if there is none yet, and otherwise the second operand, which
      is then applied to the (unchanged) first one. */
  function Operation(env: Env, s: State, operation: string): State {
    var s1 := s.(currentOperation := Some(operation));
    var s2 :=
      match env.parse(s.displayValue)
      case None => s1
      case Some(value) =>
        if s1.firstOperand.None? then s1.(firstOperand := Some(value))
        else Perform(env, s1.(secondOperand := Some(value)));
    s2.(isStartingNewInput := true)
  }

  /** The history expression "first op second", a missing second shown as 0. */
  function Expression(env: Env, first: Num, operation: string, second: Option<Num>): string {
    Format(env, first) + " " + operation + " " + Format(env, second.GetOr(Finite(0.0)))
  }

  /** What an effective equals does once the result is shown: the
      calculation "first operation second" goes in front of the persisted
      history, the history is reloaded, and the result becomes the first
      operand of what follows. */
  function Recorded(env: Env, s: State, first: Num, operation: string, now: real): State {
    var item := Model.HistoryItem(Expression(env, first, operation, s.secondOperand), s.displayValue, now);
    var stored := Saved(WithNewest(item, Load(s.stored)));
    s.(stored := stored, calculationHistory := Load(stored),
       firstOperand := s.lastResult, secondOperand := None, currentOperation := None,
       isStartingNewInput := true)
  }

  /** The equals key at time `now`. */
  function Equals(env: Env, s: State, now: real): State {
    if s.firstOperand.Some? && s.currentOperation.Some? then
      var s1 :=
        if s.secondOperand.None? && env.parse(s.displayValue).Some? then s.(secondOperand := env.parse(s.displayValue))
        else s;
      Recorded(env, Perform(env, s1), s.firstOperand.value, s.currentOperation.value, now)
    else s
  }

  function Cleared(s: State): State {
    s.(displayValue := "0", firstOperand := None, secondOperand := None, currentOperation := None,
       isStartingNewInput := true)
  }

  function SignToggled(env: Env, s: State): State {
    match env.parse(s.displayValue)
    case Some(value) => s.(displayValue := Format(env, Neg(value)))
    case None => s
  }

  function Percent(env: Env, s: State): State {
    match env.parse(s.displayValue)
    case Some(value) => s.(displayValue := Format(env, Div(value, Finite(100.0))))
    case None => s
  }

  /** The functions whose argument is converted from degrees in degree mode. */
  const TrigonometricFunctions: set<string> := {"sin", "cos", "tan"}

  /** The argument a function sees: `value * pi / 180` for a trigonometric
      function in degree mode, the value itself otherwise. */
  function FunctionInput(lib: Libm, radians: bool, value: Num, name: string): Num {
    if !radians && name in TrigonometricFunctions then Div(Mul(value, Finite(lib.pi)), Finite(180.0))
    else value
  }

  /** The four powers the view model computes itself before falling back to
      the service's dispatch. */
  function FunctionResult(lib: Libm, input: Num, name: string): Num {
    if name == "x²" then lib.pow(input, Finite(2.0))
    else if name == "x³" then lib.pow(input, Finite(3.0))
    else if name == "10ˣ" then lib.pow(Finite(10.0), input)
    else if name == "∛" then lib.pow(input, Finite(1.0 / 3.0))
    else CalculateScientific(lib, input, name)
  }

  function ScientificFunction(env: Env, s: State, name: string): State {
    match env.parse(s.displayValue)
    case Some(value) =>
      var result := FunctionResult(env.lib, FunctionInput(env.lib, s.isInRadianMode, value, name), name);
      s.(displayValue := Format(env, result), lastResult := Some(result), isStartingNewInput := true)
    case None => s
  }

  function AngleModeToggled(s: State): State {
    s.(isInRadianMode := !s.isInRadianMode)
  }

  function MemoryOperation(env: Env, s: State, operation: string): State {
    if operation == "mc" then s.(memoryValue := Finite(0.0))
    else if operation == "m+" then
      (match env.parse(s.displayValue)
       case Some(value) => s.(memoryValue := Add(s.memoryValue, value))
       case None => s)
    else if operation == "m-" then
      (match env.parse(s.displayValue)
       case Some(value) => s.(memoryValue := Sub(s.memoryValue, value))
       case None => s)
    else if operation == "mr" then s.(displayValue := Format(env, s.memoryValue), isStartingNewInput := true)
    else s
  }

  function HistoryLoaded(s: State): State {
    s.(calculationHistory := Load(s.stored))
  }

  function HistoryCleared(s: State): State {
    s.(stored := Absent, calculationHistory := [])
  }

  /** The "Ans" key: show the last result and keep typing after it. */
  function AnswerRecalled(env: Env, s: State): State {
    if s.lastResult.Some? then s.(displayValue := Format(env, s.lastResult.value), isStartingNewInput := false)
    else s
  }

  class CalculatorViewModel {
    const env: Env
    const service: CalculatorService

    var displayValue: string
    var currentMode: Model.CalculatorMode
    var isInScientificMode: bool
    var calculationHistory: seq<Model.HistoryItem>
    var firstOperand: Option<Num>
    var secondOperand: Option<Num>
    var currentOperation: Option<string>
    var isStartingNewInput: bool
    var lastResult: Option<Num>
    var isInRadianMode: bool
    var memoryValue: Num

    /** The object's state as a value. */
    ghost function Snapshot(): State
      reads this, service
    {
      State(displayValue, currentMode, isInScientificMode, calculationHistory, firstOperand,
            secondOperand, currentOperation, isStartingNewInput, lastResult, isInRadianMode,
            memoryValue, service.stored)
    }

    /** Starts in basic mode with "0" shown, radians on, memory 0, and the
        stored history loaded. */
    constructor (env: Env, service: CalculatorService)
      ensures this.env == env && this.service == service
      ensures Snapshot() == Initial(service.stored)
    {
      this.env := env;
      this.service := service;
      displayValue := "0";
      currentMode := Model.Basic;
      isInScientificMode := false;
      firstOperand := None;
      secondOperand := None;
      currentOperation := None;
      isStartingNewInput := true;
      lastResult := None;
      isInRadianMode := true;
      memoryValue := Finite(0.0);
      new;
      LoadCalculationHistory();
    }

    method SwitchMode(mode: Model.CalculatorMode)
      modifies this
      ensures Snapshot() == ModeSwitched(old(Snapshot()), mode)
      ensures isInScientificMode <==> mode == Model.Scientific
    {
      currentMode := mode;
      isInScientificMode := mode == Model.Scientific;
    }

    method HandleNumberInput(number: string)
      modifies this
      ensures Snapshot() == NumberInput(old(Snapshot()), number)
      ensures !isStartingNewInput
    {
      if isStartingNewInput {
        displayValue := number;
        isStartingNewInput := false;
      } else {
        if displayValue == "0" && number != "." {
          displayValue := number;
        } else {
          if number == "." && '.' in displayValue {
            return;
          }
          displayValue := displayValue + number;
        }
      }
    }

    method HandleOperation(operation: string)
      modifies this
      ensures Snapshot() == Operation(env, old(Snapshot()), operation)
      ensures currentOperation == Some(operation) && isStartingNewInput
      ensures old(firstOperand).Some? ==> firstOperand == old(firstOperand)
    {
      currentOperation := Some(operation);
      match env.parse(displayValue) {
        case Some(value) =>
          if firstOperand.None? {
            firstOperand := Some(value);
          } else {
            secondOperand := Some(value);
            PerformCalculation();
          }
        case None =>
      }
      isStartingNewInput := true;
    }

    method HandleEqual(now: real)
      modifies this, service
      ensures Snapshot() == Equals(env, old(Snapshot()), now)
    {
      if firstOperand.Some? && currentOperation.Some? {
        var first := firstOperand.value;
        var operation := currentOperation.value;
        if secondOperand.None? {
          match env.parse(displayValue) {
            case Some(value) => secondOperand := Some(value);
            case None =>
          }
        }
        PerformCalculation();
        RecordResult(first, operation, now);
      }
    }

    /** The second half of `handleEqual`, after the calculation. */
    method RecordResult(first: Num, operation: string, now: real)
      modifies this, service
      ensures Snapshot() == Recorded(env, old(Snapshot()), first, operation, now)
    {
      var expression := Expression(env, first, operation, secondOperand);
      service.SaveCalculationHistory(expression, displayValue, now);
      LoadCalculationHistory();
      firstOperand := lastResult;
      secondOperand := None;
      currentOperation := None;
      isStartingNewInput := true;
    }

    method PerformCalculation()
      modifies this
      ensures Snapshot() == Perform(env, old(Snapshot()))
    {
      if firstOperand.Some? && currentOperation.Some? {
        var result: Num;
        if secondOperand.Some? {
          result := CalculateBasic(firstOperand.value, secondOperand, currentOperation);
        } else {
          match env.parse(displayValue) {
            case Some(inputValue) => result := CalculateBasic(firstOperand.value, Some(inputValue), currentOperation);
            case None => result := firstOperand.value;
          }
        }
        lastResult := Some(result);
        displayValue := Format(env, result);
      }
    }

    method HandleClear()
      modifies this
      ensures Snapshot() == Cleared(old(Snapshot()))
    {
      displayValue := "0";
      firstOperand := None;
      secondOperand := None;
      currentOperation := None;
      isStartingNewInput := true;
    }

    method HandleToggleSign()
      modifies this
      ensures Snapshot() == SignToggled(env, old(Snapshot()))
    {
      match env.parse(displayValue) {
        case Some(value) => displayValue := Format(env, Neg(value));
        case None =>
      }
    }

    method HandlePercentage()
      modifies this
      ensures Snapshot() == Percent(env, old(Snapshot()))
    {
      match env.parse(displayValue) {
        case Some(value) => displayValue := Format(env, Div(value, Finite(100.0)));
        case None =>
      }
    }

    method HandleScientificFunction(name: string)
      modifies this
      ensures Snapshot() == ScientificFunction(env, old(Snapshot()), name)
    {
      match env.parse(displayValue) {
        case Some(value) =>
          var inputValue := value;
          if !isInRadianMode && (name == "sin" || name == "cos" || name == "tan") {
            inputValue := Div(Mul(value, Finite(env.lib.pi)), Finite(180.0));
          }
          assert inputValue == FunctionInput(env.lib, isInRadianMode, value, name);
          var result: Num;
          if name == "x²" {
            result := env.lib.pow(inputValue, Finite(2.0));
          } else if name == "x³" {
            result := env.lib.pow(inputValue, Finite(3.0));
          } else if name == "10ˣ" {
            result := env.lib.pow(Finite(10.0), inputValue);
          } else if name == "∛" {
            result := env.lib.pow(inputValue, Finite(1.0 / 3.0));
          } else {
            result := CalculateScientific(env.lib, inputValue, name);
          }
          assert result == FunctionResult(env.lib, inputValue, name);
          displayValue := Format(env, result);
          lastResult := Some(result);
          isStartingNewInput := true;
        case None =>
      }
    }

    method ToggleAngleMode()
      modifies this
      ensures Snapshot() == AngleModeToggled(old(Snapshot()))
    {
      isInRadianMode := !isInRadianMode;
    }

    method HandleMemoryOperation(operation: string)
      modifies this
      ensures Snapshot() == MemoryOperation(env, old(Snapshot()), operation)
    {
      if operation == "mc" {
        memoryValue := Finite(0.0);
      } else if operation == "m+" {
        match env.parse(displayValue) {
          case Some(value) => memoryValue := Add(memoryValue, value);
          case None =>
        }
      } else if operation == "m-" {
        match env.parse(displayValue) {
          case Some(value) => memoryValue := Sub(memoryValue, value);
          case None =>
        }
      } else if operation == "mr" {
        displayValue := Format(env, memoryValue);
        isStartingNewInput := true;
      }
    }

    method LoadCalculationHistory()
      modifies this
      ensures Snapshot() == HistoryLoaded(old(Snapshot()))
    {
      calculationHistory := service.LoadCalculationHistory();
    }

    method ClearHistory()
      modifies this, service
      ensures Snapshot() == HistoryCleared(old(Snapshot()))
    {
      service.ClearCalculationHistory();
      calculationHistory := [];
    }

    /** The "Ans" button's action, which the scientific keypad performs on
        the view model's fields directly. */
    method RecallAnswer()
      modifies this
      ensures Snapshot() == AnswerRecalled(env, old(Snapshot()))
    {
      if lastResult.Some? {
        displayValue := Format(env, lastResult.value);
        isStartingNewInput := false;
      }
    }
  }
}
