/** The calculator's value types: the two calculator modes, the buttons and
    the theme slot each button takes its look from, and the history item
    with its keyed encoding. */
module Model {
  import opened Wrappers

  datatype CalculatorMode = Basic | Scientific

  datatype ButtonType =
    // basic keypad
    | Clear | ToggleSign | Percentage
    | Divide | Multiply | Subtract | Add
    | Equal | Decimal
    | Zero | One | Two | Three | Four | Five | Six | Seven | Eight | Nine
    // scientific keypad
    | SecondFunction | LeftParenthesis | RightParenthesis
    | Memory | MemoryPlus | MemoryMinus | MemoryRecall
    | Sin | Cos | Tan | Log | Ln | Power | Sqrt | Exp | Pi | E
    | Reciprocal | Factorial | Rad | Deg
  {
    /** AC, +/- and %. */
    predicate IsFunctionKey() { Clear? || ToggleSign? || Percentage? }

    /** The four binary operators. */
    predicate IsOperator() { Divide? || Multiply? || Subtract? || Add? }

    /** The ten digits and the decimal point. */
    predicate IsDigitOrDecimal() {
      Zero? || One? || Two? || Three? || Four? || Five? || Six? || Seven? || Eight? || Nine? || Decimal?
    }

    /** Functions, constants, 2nd and the parentheses. */
    predicate IsScientificKey() {
      Sin? || Cos? || Tan? || Log? || Ln? || Reciprocal? || Power? || Sqrt? || Exp? || Pi? || E?
      || Factorial? || SecondFunction? || LeftParenthesis? || RightParenthesis?
    }

    predicate IsMemoryKey() { Memory? || MemoryPlus? || MemoryMinus? || MemoryRecall? }

    predicate IsAngleKey() { Rad? || Deg? }

    /** The keys that appear on both keypads. */
    predicate IsKeypadKey() { IsFunctionKey() || IsOperator() || IsDigitOrDecimal() || Equal? }
  }

  const BasicSlots: set<string> := {"TYPE_A", "TYPE_B", "TYPE_C", "TYPE_D"}
  const ScientificSlots: set<string> := {"TYPE_E", "TYPE_F", "TYPE_G", "TYPE_H", "TYPE_I"}

  /** The theme slot a button is drawn from.  The basic keypad uses slots A
      to D (anything that is not on it falls back to A); the scientific keypad
      uses E to I and names every button explicitly. */
  function ThemeButtonType(b: ButtonType, mode: CalculatorMode): (slot: string)
    ensures mode == Basic ==> slot in BasicSlots
    ensures mode == Scientific ==> slot in ScientificSlots
  {
    match mode
    case Basic =>
      if b.IsFunctionKey() then "TYPE_A"
      else if b.IsOperator() then "TYPE_B"
      else if b.IsDigitOrDecimal() then "TYPE_C"
      else if b.Equal? then "TYPE_D"
      else "TYPE_A"
    case Scientific =>
      match b
      case Clear | ToggleSign | Percentage => "TYPE_F"
      case Divide | Multiply | Subtract | Add => "TYPE_G"
      case Zero | One | Two | Three | Four | Five | Six | Seven | Eight | Nine | Decimal => "TYPE_H"
      case Equal => "TYPE_I"
      case Sin | Cos | Tan | Log | Ln | Reciprocal | Power | Sqrt | Exp | Pi | E | Factorial
        | SecondFunction | LeftParenthesis | RightParenthesis => "TYPE_E"
      case Memory | MemoryPlus | MemoryMinus | MemoryRecall => "TYPE_F"
      case Rad | Deg => "TYPE_I"
  }

  /** The parameterless mapping kept for older callers: the basic one. */
  function DefaultThemeButtonType(b: ButtonType): (slot: string)
    ensures slot == ThemeButtonType(b, Basic)
    ensures slot in BasicSlots
  {
    ThemeButtonType(b, Basic)
  }

  /** Each basic slot is taken by exactly one group of buttons; TYPE_A also
      collects every button the basic keypad does not list. */
  lemma BasicSlotGroups(b: ButtonType)
    ensures ThemeButtonType(b, Basic) == "TYPE_B" <==> b.IsOperator()
    ensures ThemeButtonType(b, Basic) == "TYPE_C" <==> b.IsDigitOrDecimal()
    ensures ThemeButtonType(b, Basic) == "TYPE_D" <==> b.Equal?
    ensures ThemeButtonType(b, Basic) == "TYPE_A" <==> !(b.IsOperator() || b.IsDigitOrDecimal() || b.Equal?)
  {
  }

  /** The scientific mapping, slot by slot, in both directions. */
  lemma ScientificSlotGroups(b: ButtonType)
    ensures ThemeButtonType(b, Scientific) == "TYPE_E" <==> b.IsScientificKey()
    ensures ThemeButtonType(b, Scientific) == "TYPE_F" <==> b.IsFunctionKey() || b.IsMemoryKey()
    ensures ThemeButtonType(b, Scientific) == "TYPE_G" <==> b.IsOperator()
    ensures ThemeButtonType(b, Scientific) == "TYPE_H" <==> b.IsDigitOrDecimal()
    ensures ThemeButtonType(b, Scientific) == "TYPE_I" <==> b.Equal? || b.IsAngleKey()
  {
    ScientificSlotE(b);
    ScientificSlotF(b);
    ScientificSlotG(b);
    ScientificSlotH(b);
    ScientificSlotI(b);
  }

  lemma ScientificSlotE(b: ButtonType)
    ensures ThemeButtonType(b, Scientific) == "TYPE_E" <==> b.IsScientificKey()
  {
  }

  lemma ScientificSlotF(b: ButtonType)
    ensures ThemeButtonType(b, Scientific) == "TYPE_F" <==> b.IsFunctionKey() || b.IsMemoryKey()
  {
  }

  lemma ScientificSlotG(b: ButtonType)
    ensures ThemeButtonType(b, Scientific) == "TYPE_G" <==> b.IsOperator()
  {
  }

  lemma ScientificSlotH(b: ButtonType)
    ensures ThemeButtonType(b, Scientific) == "TYPE_H" <==> b.IsDigitOrDecimal()
  {
  }

  lemma ScientificSlotI(b: ButtonType)
    ensures ThemeButtonType(b, Scientific) == "TYPE_I" <==> b.Equal? || b.IsAngleKey()
  {
  }

  /** The slot letter five places further on: A to F, B to G, C to H, D to I. */
  function ShiftSlot(slot: string): string {
    if slot == "TYPE_A" then "TYPE_F"
    else if slot == "TYPE_B" then "TYPE_G"
    else if slot == "TYPE_C" then "TYPE_H"
    else if slot == "TYPE_D" then "TYPE_I"
    else slot
  }

  /** On the keys both keypads share, the scientific slot is the basic slot
      shifted by five letters. */
  lemma KeypadSlotShift(b: ButtonType)
    requires b.IsKeypadKey()
    ensures ThemeButtonType(b, Scientific) == ShiftSlot(ThemeButtonType(b, Basic))
  {
  }

  /** No button gets the same slot in the two modes, and no basic slot is
      ever a scientific one. */
  lemma SlotRangesDisjoint(b1: ButtonType, b2: ButtonType)
    ensures ThemeButtonType(b1, Basic) != ThemeButtonType(b2, Scientific)
  {
    assert BasicSlots !! ScientificSlots;
  }

  // ---------------------------------------------------------------------
  // Calculation history items and their keyed encoding

  /** One entry of the calculation history.  Its random UUID is not part of
      the value: see the codec below. */
  datatype HistoryItem = HistoryItem(expression: string, result: string, timestamp: real)

  /** An encoded value in a keyed container. */
  datatype Field = Text(text: string) | Date(seconds: real)

  /** A keyed encoding container. */
  type Container = map<string, Field>

  datatype DecodingError = KeyNotFound(key: string) | TypeMismatch(key: string)

  const CodingKeys: set<string> := {"id", "expression", "result", "timestamp"}

  /** Writes the four coding keys; `id` is the item's UUID string. */
  function Encode(item: HistoryItem, id: string): (c: Container)
    ensures c.Keys == CodingKeys
    ensures c["id"] == Text(id) && c["timestamp"] == Date(item.timestamp)
    ensures c["expression"] == Text(item.expression) && c["result"] == Text(item.result)
  {
    map["id" := Text(id), "expression" := Text(item.expression),
        "result" := Text(item.result), "timestamp" := Date(item.timestamp)]
  }

  function DecodeText(c: Container, key: string): (r: Result<string, DecodingError>)
    ensures r.Success? <==> key in c && c[key].Text?
    ensures r.Success? ==> r.value == c[key].text
    ensures r.Failure? ==> r.error.key == key
  {
    if key !in c then Failure(KeyNotFound(key))
    else if !c[key].Text? then Failure(TypeMismatch(key))
    else Success(c[key].text)
  }

  function DecodeDate(c: Container, key: string): (r: Result<real, DecodingError>)
    ensures r.Success? <==> key in c && c[key].Date?
    ensures r.Success? ==> r.value == c[key].seconds
    ensures r.Failure? ==> r.error.key == key
  {
    if key !in c then Failure(KeyNotFound(key))
    else if !c[key].Date? then Failure(TypeMismatch(key))
    else Success(c[key].seconds)
  }

  /** True when `c` holds a decodable value under every coding key. */
  predicate Decodable(c: Container) {
    && "id" in c && c["id"].Text?
    && "expression" in c && c["expression"].Text?
    && "result" in c && c["result"].Text?
    && "timestamp" in c && c["timestamp"].Date?
  }

  /** Reads the id (and discards it), then the expression, the result and
      the timestamp, failing at the first key that is missing or of the
      wrong kind.  The decoded item gets a fresh UUID. */
  function Decode(c: Container): (r: Result<HistoryItem, DecodingError>)
    ensures r.Success? <==> Decodable(c)
    ensures r.Success? ==> r.value == HistoryItem(c["expression"].text, c["result"].text, c["timestamp"].seconds)
    ensures r.Failure? ==> r.error.key in CodingKeys
  {
    match DecodeText(c, "id")
    case Failure(e) => Failure(e)
    case Success(_) =>
      match DecodeText(c, "expression")
      case Failure(e) => Failure(e)
      case Success(expression) =>
        match DecodeText(c, "result")
        case Failure(e) => Failure(e)
        case Success(result) =>
          match DecodeDate(c, "timestamp")
          case Failure(e) => Failure(e)
          case Success(timestamp) => Success(HistoryItem(expression, result, timestamp))
  }

  /** Decoding an encoded item gives the item back, whatever its id was. */
  lemma DecodeEncode(item: HistoryItem, id: string)
    ensures Decode(Encode(item, id)) == Success(item)
  {
  }

  /** The stored id has no influence on the decoded item. */
  lemma DecodeIgnoresId(c: Container, id: string)
    ensures Decode(c["id" := Text(id)]).Success? ==> Decode(c["id" := Text(id)]) == Decode(c["id" := Text("")])
  {
  }

  /** A missing coding key makes decoding fail; a missing id, the first key
      read, fails with an error naming it. */
  lemma DecodeMissingKey(c: Container, key: string)
    requires key in CodingKeys && key !in c
    ensures Decode(c).Failure?
    ensures key == "id" ==> Decode(c) == Failure(KeyNotFound("id"))
  {
  }
}
