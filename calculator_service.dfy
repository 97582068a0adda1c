/** The calculator service: binary and scientific operation dispatch, the
    factorial loop, the NaN and infinity branches of number formatting, and
    the newest-first, capped calculation history. */
module Service {
  import opened Wrappers
  import opened Numbers
  import Model

  // ---------------------------------------------------------------------
  // Binary operations

  /** The operation names `CalculateBasic` recognises. */
  const BasicOperations: set<string> := {"+", "-", "×", "÷", "%"}

  /** One binary operation.  A missing operand or operation, or an unknown
      operation name, gives the first operand back; division by zero gives
      NaN instead of trapping; "%" ignores the second operand. */
  function CalculateBasic(first: Num, second: Option<Num>, operation: Option<string>): (r: Num)
    ensures second.None? || operation.None? || operation.value !in BasicOperations ==> r == first
  {
    if second.None? || operation.None? then first
    else
      var b := second.value;
      var op := operation.value;
      if op == "+" then Add(first, b)
      else if op == "-" then Sub(first, b)
      else if op == "×" then Mul(first, b)
      else if op == "÷" then (if b != Finite(0.0) then Div(first, b) else NaN)
      else if op == "%" then Div(first, Finite(100.0))
      else first
  }

  /** On finite operands "+", "-" and "×" give the exact sum, difference and
      product. */
  lemma CalculateBasicOnFinite(a: real, b: real)
    ensures CalculateBasic(Finite(a), Some(Finite(b)), Some("+")) == Finite(a + b)
    ensures CalculateBasic(Finite(a), Some(Finite(b)), Some("-")) == Finite(a - b)
    ensures CalculateBasic(Finite(a), Some(Finite(b)), Some("×")) == Finite(a * b)
  {
  }

  /** On finite operands "÷" gives the exact quotient when the divisor is
      not zero. */
  lemma DivideOnFinite(a: real, b: real)
    requires b != 0.0
    ensures CalculateBasic(Finite(a), Some(Finite(b)), Some("÷")) == Finite(a / b)
  {
  }

  /** Division by zero is NaN whatever the dividend, even NaN or infinity. */
  lemma DivideByZeroIsNaN(first: Num)
    ensures CalculateBasic(first, Some(Finite(0.0)), Some("÷")) == NaN
  {
  }

  /** "%" is first / 100, whatever the second operand is. */
  lemma PercentIgnoresSecondOperand(first: Num, x: Num, y: Num)
    ensures CalculateBasic(first, Some(x), Some("%")) == CalculateBasic(first, Some(y), Some("%"))
    ensures first.Finite? ==> CalculateBasic(first, Some(x), Some("%")) == Finite(first.value / 100.0)
  {
  }

  // ---------------------------------------------------------------------
  // Scientific functions

  /** The function names `CalculateScientific` dispatches on. */
  const ScientificFunctions: set<string> :=
    {"sin", "cos", "tan", "log", "ln", "√", "xʸ", "x!", "1/x", "eˣ"}

  /** One unary scientific function.  "xʸ" has no second operand and squares
      its input; an unknown function name gives the input back. */
  function CalculateScientific(lib: Libm, value: Num, name: string): (r: Num)
    ensures name !in ScientificFunctions ==> r == value
    ensures name == "xʸ" ==> r == lib.pow(value, Finite(2.0))
    ensures name == "x!" ==> r == Factorial(value)
    ensures name == "1/x" && value.Finite? && value.value != 0.0 ==> r == Finite(1.0 / value.value)
  {
    if name == "sin" then lib.sin(value)
    else if name == "cos" then lib.cos(value)
    else if name == "tan" then lib.tan(value)
    else if name == "log" then lib.log10(value)
    else if name == "ln" then lib.ln(value)
    else if name == "√" then lib.sqrt(value)
    else if name == "xʸ" then lib.pow(value, Finite(2.0))
    else if name == "x!" then Factorial(value)
    else if name == "1/x" then Div(Finite(1.0), value)
    else if name == "eˣ" then lib.exp(value)
    else value
  }

  // ---------------------------------------------------------------------
  // Factorial

  /** The mathematical factorial, the reference for the loop below. */
  function Fact(n: nat): (f: real)
    ensures f >= 1.0 && f >= n as real
  {
    if n == 0 then 1.0 else n as real * Fact(n - 1)
  }

  /** A double that is a non-negative whole number. */
  predicate IsWholeNonNegative(n: Num) {
    n.Finite? && n.value >= 0.0 && n.value.Floor as real == n.value
  }

  /** The factorial of a double: NaN unless the input is a non-negative
      whole number (NaN and infinity included), n! otherwise. */
  function Factorial(n: Num): (r: Num)
    ensures !IsWholeNonNegative(n) ==> r == NaN
    ensures IsWholeNonNegative(n) ==> r.Finite? && r.value >= 1.0
  {
    if IsWholeNonNegative(n) then Finite(Fact(n.value.Floor)) else NaN
  }

  /** The factorial loop: rejects negative and fractional input, answers 1
      for 0 and 1, and otherwise multiplies 2, 3, ..., n into an accumulator. */
  method FactorialLoop(n: Num) returns (r: Num)
    ensures r == Factorial(n)
  {
    // guard n >= 0 (false for NaN and -inf)
    if !(n.PosInf? || (n.Finite? && n.value >= 0.0)) {
      return NaN;
    }
    // guard n.truncatingRemainder(dividingBy: 1) == 0 (NaN for +inf)
    if n.PosInf? || n.value.Floor as real != n.value {
      return NaN;
    }
    var nInt: nat := n.value.Floor;
    if nInt == 0 || nInt == 1 {
      return Finite(1.0);
    }
    var result := Finite(1.0);
    for i := 2 to nInt + 1
      invariant result == Finite(Fact(i - 1))
    {
      result := Mul(result, Finite(i as real));
    }
    r := result;
  }

  /** 0! and 1! are 1, and each further factorial is the previous one times
      the new factor. */
  lemma FactorialRecurrence(k: nat)
    ensures Factorial(Finite(0.0)) == Finite(1.0) && Factorial(Finite(1.0)) == Finite(1.0)
    ensures Factorial(Finite((k + 1) as real)) == Mul(Finite((k + 1) as real), Factorial(Finite(k as real)))
  {
    assert ((k + 1) as real).Floor == k + 1;
    assert (k as real).Floor == k;
  }

  // ---------------------------------------------------------------------
  // Number formatting

  const ErrorText: string := "错误"
  const InfinityText: string := "∞"
  const NegativeInfinityText: string := "-∞"

  /** Formats a double for display.  NaN and the two infinities become fixed
      sentinel strings before any numeric formatting; a finite value goes to
      the locale number formatter `finite`, which this model leaves open. */
  function FormatNumber(finite: real -> string, n: Num): (s: string)
    ensures n.Finite? ==> s == finite(n.value)
    ensures !n.Finite? ==> s in {ErrorText, InfinityText, NegativeInfinityText}
  {
    match n
    case NaN => ErrorText
    case PosInf => InfinityText
    case NegInf => NegativeInfinityText
    case Finite(v) => finite(v)
  }

  /** The sentinels do not depend on the number formatter, and are distinct
      from each other. */
  lemma FormatSentinels(f: real -> string, g: real -> string, n: Num)
    ensures !n.Finite? ==> FormatNumber(f, n) == FormatNumber(g, n)
    ensures FormatNumber(f, NaN) == "错误"
    ensures FormatNumber(f, PosInf) == "∞" && FormatNumber(f, NegInf) == "-∞"
    ensures n.Finite? ==> FormatNumber(f, n) == f(n.value)
  {
  }

  // ---------------------------------------------------------------------
  // Calculation history

  const HistoryLimit: nat := 100

  /** What the key-value store holds under the history key. */
  datatype Stored = Absent | Undecodable | Saved(items: seq<Model.HistoryItem>)

  /** The stored history, or none when nothing is stored or it cannot be
      decoded. */
  function Load(s: Stored): (h: seq<Model.HistoryItem>)
    ensures s.Saved? ==> h == s.items
    ensures !s.Saved? ==> h == []
  {
    if s.Saved? then s.items else []
  }

  /** The history with `item` in front, cut to the newest `HistoryLimit`
      entries. */
  function WithNewest(item: Model.HistoryItem, history: seq<Model.HistoryItem>): (r: seq<Model.HistoryItem>)
    ensures |r| == if |history| < HistoryLimit then |history| + 1 else HistoryLimit
    ensures r[0] == item
    ensures r[1..] == history[..|r| - 1]
  {
    var h := [item] + history;
    if |h| > HistoryLimit then h[..HistoryLimit] else h
  }

  /** The in-place update of the local history array: insert at the front,
      then keep the first `HistoryLimit` entries. */
  method InsertNewest(history: seq<Model.HistoryItem>, item: Model.HistoryItem) returns (h: seq<Model.HistoryItem>)
    ensures h == WithNewest(item, history)
  {
    h := history;
    h := [item] + h;
    if |h| > HistoryLimit {
      h := h[..HistoryLimit];
    }
  }

  /** The service object; `stored` is the persisted history. */
  class CalculatorService {
    var stored: Stored

    constructor (stored: Stored)
      ensures this.stored == stored
    {
      this.stored := stored;
    }

    /** The persisted history, newest first. */
    function LoadCalculationHistory(): (h: seq<Model.HistoryItem>)
      reads this
      ensures |h| <= |Load(stored)| && (stored.Saved? ==> h == stored.items)
      ensures stored.Absent? || stored.Undecodable? ==> h == []
    {
      Load(stored)
    }

    /** Loads the history (an undecodable one as empty), puts a new entry in
      front, truncates and stores the result. */
    method SaveCalculationHistory(expression: string, result: string, timestamp: real)
      modifies this
      ensures stored == Saved(WithNewest(Model.HistoryItem(expression, result, timestamp), Load(old(stored))))
      ensures LoadCalculationHistory()[0] == Model.HistoryItem(expression, result, timestamp)
      ensures |LoadCalculationHistory()| <= HistoryLimit
    {
      var history := LoadCalculationHistory();
      history := InsertNewest(history, Model.HistoryItem(expression, result, timestamp));
      stored := Saved(history);
    }

    /** Removes the stored history; loading afterwards gives none. */
    method ClearCalculationHistory()
      modifies this
      ensures stored == Absent
      ensures LoadCalculationHistory() == []
    {
      stored := Absent;
    }
  }

  /** Saving never keeps more than `HistoryLimit` entries, and the entries
      after the new one are the previous ones in order. */
  lemma WithNewestKeepsOrder(item: Model.HistoryItem, history: seq<Model.HistoryItem>, k: nat)
    requires k + 1 < |WithNewest(item, history)|
    ensures WithNewest(item, history)[k + 1] == history[k]
  {
    var r := WithNewest(item, history);
    assert r[k + 1] == r[1..][k];
  }
}
