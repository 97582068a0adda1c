# Theme calculator: a verified model of the calculator core

This project models the core of an iOS calculator app written in Swift.
It proves properties of that model in Dafny. The core consists of:

- **The calculator view model.** This is the state machine behind the keypad:
  - number entry;
  - pending binary operations and equals;
  - clear, sign and percent;
  - scientific functions with degree/radian conversion;
  - the memory register;
  - the calculation history.
- **The calculator service.** It holds:
  - the binary and unary operation dispatch;
  - the factorial loop;
  - the NaN/∞ sentinels of number formatting;
  - the newest-first history, capped at 100 entries.
- **The button model.** Each button is mapped to a theme slot (`TYPE_A` … `TYPE_I`) in each calculator mode. The history item has a keyed encoding.
- **The keypad wiring.** This is which handler each button calls. It includes π and e, which type their digits, "Ans", and the empty "()".
- **The formula line splitter.** It splits the formula into bracket segments and runs of text, each with a bracket depth.
- **The theme helpers.** They cover:
  - hexadecimal colour parsing;
  - first-match lookup of a button's look;
  - fallback colours and font size;
  - the theme-list query parameters;
  - id-plus-version theme equality.

Swift's `Double` is modelled as `Numbers.Num`, which is one of:

- a finite real;
- NaN;
- +∞ or −∞.

Arithmetic on finite values is exact. NaN and the infinities follow the IEEE rules for `+ - × ÷`. Division by zero never reaches `Div`, because the operation dispatch turns it into NaN first, as the source does.

Some collaborators the code calls are left open and passed in as parameters:

- `Double(String)` parsing;
- the locale number formatter for finite values;
- the maths library (`sin`, `cos`, `tan`, `log10`, `log`, `sqrt`, `exp`, `pow`, π).

These are `ViewModel.Env` and `Numbers.Libm`. Every property is proved for all choices of them.

The view model is a class, `ViewModel.CalculatorViewModel`, with the Swift fields. Each handler is a method with two kinds of guarantee:

- Its contract states the new state as a pure function of the old one: `Snapshot() == Equals(env, old(Snapshot()), now)`.
- Its direct guarantees are stated as `ensures` clauses.

The lemmas in `HandlerProperties` and `Keypad` state what each of those functions promises. The persisted history lives in the `CalculatorService` object (`stored`). The view model's `HandleEqual` and `ClearHistory` change it.

Some behaviour a calculator user might expect is absent from the code, and the model follows the code:

- The view model has no formula string and no bracket evaluator.
- The "()" button does nothing.
- Pressing equals again does not re-apply the last operation.
- A second operator does not fold the pending operation into the first operand. After "2 + 3 + 4 =" the display shows 5, which `Keypad.ChainedOperatorsAreNotFolded` proves.
- A scientific function leaves the operands and the pending operation alone.
- A π typed after "1.5" gives a display with two points (`Keypad.PiAfterDecimalGivesTwoPoints`).

## Model

| member | source | states |
|---|---|---|
| Model.ThemeButtonType | themecalculator/Models/CalculatorModel.swift:69-107 | a basic-mode slot is always one of TYPE_A…TYPE_D, a scientific-mode slot always one of TYPE_E…TYPE_I |
| Model.DefaultThemeButtonType | themecalculator/Models/CalculatorModel.swift:110-113 | the parameterless mapping is the basic-mode mapping for every button |
| Model.BasicSlotGroups | themecalculator/Models/CalculatorModel.swift:73-84 | basic mode: TYPE_B iff an operator, TYPE_C iff a digit or ".", TYPE_D iff "=", TYPE_A for everything else (AC, ±, % and every scientific button) |
| Model.ScientificSlotGroups | themecalculator/Models/CalculatorModel.swift:86-105 | scientific mode, in both directions: functions/constants/2nd/parentheses iff TYPE_E, AC ± % and memory iff TYPE_F, operators iff TYPE_G, digits iff TYPE_H, "=" and Rad/Deg iff TYPE_I |
| Model.KeypadSlotShift | themecalculator/Models/CalculatorModel.swift:74-81 | on the shared keypad keys the scientific slot is the basic slot shifted A→F, B→G, C→H, D→I |
| Model.SlotRangesDisjoint | themecalculator/Models/CalculatorModel.swift:69-107 | no basic-mode slot ever equals a scientific-mode slot |
| Model.Encode | themecalculator/Models/CalculatorModel.swift:132-138 | the encoding has exactly the four coding keys, the id as text, expression and result as text, the timestamp as a date |
| Model.Decode | themecalculator/Models/CalculatorModel.swift:141-150 | decoding succeeds iff all four keys hold a value of the right kind, and then yields expression, result and timestamp; a failure names a coding key |
| Model.DecodeText | themecalculator/Models/CalculatorModel.swift:143-146 | a string key decodes iff present and textual; the error names the key |
| Model.DecodeDate | themecalculator/Models/CalculatorModel.swift:147 | a date key decodes iff present and a date; the error names the key |
| Model.DecodeEncode | themecalculator/Models/CalculatorModel.swift:132-150 | decoding an encoded item gives back expression, result and timestamp, whatever the id |
| Model.DecodeIgnoresId | themecalculator/Models/CalculatorModel.swift:143 | the stored id has no influence on the decoded item |
| Model.DecodeMissingKey | themecalculator/Models/CalculatorModel.swift:142-147 | a missing coding key makes decoding fail; a missing id fails first with KeyNotFound("id") |
| Service.CalculateBasic | themecalculator/Services/CalculatorService.swift:78-97 | a missing operand or operation, or an unknown operation name, gives the first operand back |
| Service.CalculateBasicOnFinite | themecalculator/Services/CalculatorService.swift:84-89 | + - × give the exact sum, difference and product |
| Service.DivideOnFinite | themecalculator/Services/CalculatorService.swift:90-91 | ÷ gives the exact quotient for a non-zero divisor |
| Service.DivideByZeroIsNaN | themecalculator/Services/CalculatorService.swift:90-91 | dividing anything (NaN and ∞ included) by zero is NaN, never a trap |
| Service.PercentIgnoresSecondOperand | themecalculator/Services/CalculatorService.swift:92-93 | "%" is first/100 and does not depend on the second operand |
| Service.CalculateScientific | themecalculator/Services/CalculatorService.swift:100-126 | an unknown name gives the input back; "xʸ" is pow(x, 2); "x!" is the factorial; "1/x" of a non-zero finite x is its reciprocal |
| Service.Fact | themecalculator/Services/CalculatorService.swift:138-141 | the reference factorial is at least 1 and at least n |
| Service.Factorial | themecalculator/Services/CalculatorService.swift:129-144 | NaN unless the input is a non-negative whole number (NaN and ±∞ give NaN), otherwise a finite value ≥ 1 |
| Service.FactorialLoop | themecalculator/Services/CalculatorService.swift:129-144 | the guards and the accumulating loop over 2…n compute exactly `Factorial(n)`, i.e. n! |
| Service.FactorialRecurrence | themecalculator/Services/CalculatorService.swift:134-141 | 0! = 1! = 1 and (k+1)! = (k+1)·k! |
| Service.FormatNumber | themecalculator/Services/CalculatorService.swift:147-173 | a finite value is written by the number formatter; NaN and the infinities give one of the three fixed texts |
| Service.FormatSentinels | themecalculator/Services/CalculatorService.swift:154-158 | NaN shows "错误", +∞ "∞", −∞ "-∞", independent of the number formatter; finite values go to the formatter |
| Service.Load | themecalculator/Services/CalculatorService.swift:195-207 | the stored list when one is saved, the empty list when none is stored or it cannot be decoded |
| Service.WithNewest | themecalculator/Services/CalculatorService.swift:183-189 | the new item is first, the length is min(old + 1, 100), and the rest is the old list's prefix in order |
| Service.InsertNewest | themecalculator/Services/CalculatorService.swift:183-189 | the in-place insert-at-front and truncate give exactly `WithNewest` |
| Service.WithNewestKeepsOrder | themecalculator/Services/CalculatorService.swift:184-188 | the entry at k+1 after saving is the entry that was at k |
| Service.CalculatorService.LoadCalculationHistory | themecalculator/Services/CalculatorService.swift:195-207 | the saved list, or empty when nothing is stored or it is undecodable |
| Service.CalculatorService.SaveCalculationHistory | themecalculator/Services/CalculatorService.swift:176-192 | stores `WithNewest(item, old history)`; the new item is at index 0 and at most 100 items are kept |
| Service.CalculatorService.ClearCalculationHistory | themecalculator/Services/CalculatorService.swift:220-222 | removes the stored history; loading afterwards gives the empty list |
| Service.CalculatorService.constructor | themecalculator/Services/CalculatorService.swift:4-12 | the shared service starts over whatever history the store already holds |
| ViewModel.CalculatorViewModel.constructor | themecalculator/ViewModels/CalculatorViewModel.swift:14-41 | the initial state: "0", basic mode, no operands, new input, radians, memory 0, stored history loaded |
| ViewModel.CalculatorViewModel.SwitchMode | themecalculator/ViewModels/CalculatorViewModel.swift:46-49 | sets the mode, and the scientific flag iff the mode is scientific; nothing else changes |
| ViewModel.CalculatorViewModel.HandleNumberInput | themecalculator/ViewModels/CalculatorViewModel.swift:54-72 | the new state is `NumberInput` of the old; the new-input flag is cleared |
| ViewModel.CalculatorViewModel.HandleOperation | themecalculator/ViewModels/CalculatorViewModel.swift:75-90 | the new state is `Operation` of the old; the operator is stored, new input starts, a set first operand is never overwritten |
| ViewModel.CalculatorViewModel.HandleEqual | themecalculator/ViewModels/CalculatorViewModel.swift:93-114 | the new state (persisted history included) is `Equals` of the old |
| ViewModel.CalculatorViewModel.RecordResult | themecalculator/ViewModels/CalculatorViewModel.swift:103-112 | the new state is `Recorded` of the old: the calculation is saved in front of the persisted history, the history is reloaded, and the result becomes the first operand while the operation and the second operand are cleared |
| ViewModel.CalculatorViewModel.PerformCalculation | themecalculator/ViewModels/CalculatorViewModel.swift:117-132 | the new state is `Perform` of the old |
| ViewModel.CalculatorViewModel.HandleClear | themecalculator/ViewModels/CalculatorViewModel.swift:135-141 | the new state is `Cleared` of the old |
| ViewModel.CalculatorViewModel.HandleToggleSign | themecalculator/ViewModels/CalculatorViewModel.swift:144-148 | the new state is `SignToggled` of the old |
| ViewModel.CalculatorViewModel.HandlePercentage | themecalculator/ViewModels/CalculatorViewModel.swift:151-155 | the new state is `Percent` of the old |
| ViewModel.CalculatorViewModel.HandleScientificFunction | themecalculator/ViewModels/CalculatorViewModel.swift:160-189 | the new state is `ScientificFunction` of the old |
| ViewModel.CalculatorViewModel.ToggleAngleMode | themecalculator/ViewModels/CalculatorViewModel.swift:192-194 | the new state is `AngleModeToggled` of the old |
| ViewModel.CalculatorViewModel.HandleMemoryOperation | themecalculator/ViewModels/CalculatorViewModel.swift:197-215 | the new state is `MemoryOperation` of the old |
| ViewModel.CalculatorViewModel.LoadCalculationHistory | themecalculator/ViewModels/CalculatorViewModel.swift:220-222 | the shown history becomes the stored one |
| ViewModel.CalculatorViewModel.ClearHistory | themecalculator/ViewModels/CalculatorViewModel.swift:225-228 | the store and the shown history both become empty |
| ViewModel.CalculatorViewModel.RecallAnswer | themecalculator/Views/Calculator/ScientificCalculatorButtonsView.swift:181-192 | the new state is `AnswerRecalled` of the old |
| HandlerProperties.NumberInputEffect | themecalculator/ViewModels/CalculatorViewModel.swift:54-72 | flag cleared; fresh input shows the token; a lone "0" is replaced by a non-"." token; otherwise the token is appended; nothing else changes |
| HandlerProperties.SecondDecimalPointIgnored | themecalculator/ViewModels/CalculatorViewModel.swift:64-66 | a "." typed mid-input when the display holds a "." leaves the state unchanged |
| HandlerProperties.OperationEffect | themecalculator/ViewModels/CalculatorViewModel.swift:75-90 | operator stored and new input started; first operand set only when absent, never overwritten; unparsable display leaves operands alone; otherwise the second operand is set and the operation is shown applied |
| HandlerProperties.PerformNeedsOperandAndOperation | themecalculator/ViewModels/CalculatorViewModel.swift:118 | without a first operand or operation performing changes nothing |
| HandlerProperties.PerformEffect | themecalculator/ViewModels/CalculatorViewModel.swift:117-132 | stored second operand, else parsed display, else first operand unchanged; last result and display always set together; nothing else changes |
| HandlerProperties.EqualsNeedsOperandAndOperation | themecalculator/ViewModels/CalculatorViewModel.swift:94 | equals is a no-op unless a first operand and an operation are set |
| HandlerProperties.EqualsEffect | themecalculator/ViewModels/CalculatorViewModel.swift:93-114 | afterwards operation and second operand are cleared, the first operand is the last result, new input starts, memory and modes are untouched |
| HandlerProperties.EqualsRecordsHistory | themecalculator/ViewModels/CalculatorViewModel.swift:104-106 | one entry "first op second" (missing second shown as 0) with the new display as result goes in front; older entries follow in order; at most 100 |
| HandlerProperties.EqualsTwiceIsOnce | themecalculator/ViewModels/CalculatorViewModel.swift:93-114 | pressing equals twice is the same as pressing it once |
| HandlerProperties.ClearEffect | themecalculator/ViewModels/CalculatorViewModel.swift:135-141 | display "0", operands and operation gone, new input; memory, angle mode, last result, mode and history kept |
| HandlerProperties.ClearIdempotent | themecalculator/ViewModels/CalculatorViewModel.swift:135-141 | clearing twice is clearing once |
| HandlerProperties.UnparsableDisplayIgnored | themecalculator/ViewModels/CalculatorViewModel.swift:144-155 | on an unparsable display sign, percent, every scientific function, m+ and m- change nothing |
| HandlerProperties.MemoryOperationEffect | themecalculator/ViewModels/CalculatorViewModel.swift:197-215 | mc zeroes memory; m+/m- add/subtract the parsed display; mr shows memory and starts new input; unknown names do nothing |
| HandlerProperties.MemoryAccumulates | themecalculator/ViewModels/CalculatorViewModel.swift:201-211 | m+ twice then mr shows memory plus twice the display |
| HandlerProperties.ScientificFunctionEffect | themecalculator/ViewModels/CalculatorViewModel.swift:160-189 | the result is shown and kept as last result, new input starts, operands, operation, memory and angle mode are untouched |
| HandlerProperties.DegreeModeConvertsTrigonometry | themecalculator/ViewModels/CalculatorViewModel.swift:163-167 | in degree mode sin/cos/tan see value·π/180; otherwise the value itself |
| HandlerProperties.PowerKeySquares | themecalculator/Services/CalculatorService.swift:114-116 | the "xʸ" key gives the same state as "x²" |
| HandlerProperties.UnknownFunctionKeepsValue | themecalculator/Services/CalculatorService.swift:123-124 | an unknown function name returns its input |
| HandlerProperties.AnswerRecalledEffect | themecalculator/Views/Calculator/ScientificCalculatorButtonsView.swift:184-187 | "Ans" shows the last result and lets typing continue; with no last result it does nothing |
| HandlerProperties.ModeFieldsAgree | themecalculator/ViewModels/CalculatorViewModel.swift:46-49 | both mode fields always agree after a switch; toggling the angle mode twice restores it |
| HandlerProperties.HistoryClearedEffect | themecalculator/ViewModels/CalculatorViewModel.swift:225-228 | after clearing, loading gives nothing and the shown history is empty |
| Keypad.Press | themecalculator/Views/Calculator/ScientificCalculatorButtonsView.swift:64-317 | only the equals key touches the history |
| Keypad.PressKeepsMode | themecalculator/Views/Calculator/ScientificCalculatorButtonsView.swift:64-317 | every key but the mode key leaves the calculator mode alone |
| Keypad.PressKeepsAngleMode | themecalculator/Views/Calculator/ScientificCalculatorButtonsView.swift:64-317 | every key but the angle key leaves the angle mode alone |
| Keypad.Run | themecalculator/Views/Calculator/ScientificCalculatorButtonsView.swift:64-317 | a key sequence without an equals key leaves the history alone, and one without a mode key leaves the mode alone |
| Keypad.RunCons | themecalculator/Views/Calculator/ScientificCalculatorButtonsView.swift:213-317 | a key sequence runs its first key, then the rest |
| Keypad.RunAppend | themecalculator/Views/Calculator/ScientificCalculatorButtonsView.swift:213-317 | running two key sequences one after the other is running their concatenation |
| Keypad.ParenthesesDoNothing | themecalculator/Views/Calculator/ScientificCalculatorButtonsView.swift:194-202 | the "()" button changes nothing |
| Keypad.InitialConsistent | themecalculator/ViewModels/CalculatorViewModel.swift:20-22 | the initial state has no second operand without a first operand and an operation |
| Keypad.PressKeepsOperandsConsistent | themecalculator/ViewModels/CalculatorViewModel.swift:75-141 | every key keeps "a second operand only beside a first operand and a pending operation" |
| Keypad.OperationKeepsOperandsConsistent | themecalculator/ViewModels/CalculatorViewModel.swift:75-90 | an operator key keeps "a second operand only beside a first operand and a pending operation" |
| Keypad.EqualsKeepsOperandsConsistent | themecalculator/ViewModels/CalculatorViewModel.swift:93-114 | so does the equals key |
| Keypad.RunKeepsOperandsConsistent | themecalculator/ViewModels/CalculatorViewModel.swift:75-141 | so does every key sequence |
| Keypad.EqualsWithoutOperationIsNoOp | themecalculator/ViewModels/CalculatorViewModel.swift:94 | with no pending operation the equals key changes nothing |
| Keypad.DotsAppend | themecalculator/ViewModels/CalculatorViewModel.swift:69 | appending adds the points of both parts |
| Keypad.DotsZeroIffNoDot | themecalculator/ViewModels/CalculatorViewModel.swift:64 | the point count is zero iff the text holds no "." |
| Keypad.NumberInputKeepsOneDot | themecalculator/ViewModels/CalculatorViewModel.swift:54-72 | typing one digit or "." on a display with at most one point leaves at most one point |
| Keypad.SingleCharacterKeysKeepOneDot | themecalculator/ViewModels/CalculatorViewModel.swift:64-66 | any sequence of single-digit and "." keys keeps at most one point on the display |
| Keypad.PiAfterDecimalGivesTwoPoints | themecalculator/Views/Calculator/ScientificCalculatorButtonsView.swift:171-173 | π typed after "1.5" appends its digits and the display then holds two points |
| Keypad.ChainedOperatorsAreNotFolded | themecalculator/ViewModels/CalculatorViewModel.swift:80-86 | "2 + 3 + 4 =" shows 5 and records "2 + 3" |
| Keypad.DivisionByZeroShowsError | themecalculator/Services/CalculatorService.swift:90-91 | "7 ÷ 0 =" shows "错误" and a following clear shows "0" |
| Formula.DepthPlain | themecalculator/Views/Calculator/CalculatorView.swift:339 | text without brackets does not change the bracket depth |
| Formula.DepthSnoc | themecalculator/Views/Calculator/CalculatorView.swift:320-332 | reading one more character applies one depth step: "(" adds one, ")" subtracts one but not below zero |
| Formula.TextsSnoc | themecalculator/Views/Calculator/CalculatorView.swift:315-333 | appending a segment appends its text |
| Formula.LeveledSnoc | themecalculator/Views/Calculator/CalculatorView.swift:315-333 | a well-placed segment appended to a well-formed split keeps it well formed |
| Formula.FlushedSpells | themecalculator/Views/Calculator/CalculatorView.swift:313-317 | closing the pending run keeps the split spelling what was read and well formed |
| Formula.ReadBracket | themecalculator/Views/Calculator/CalculatorView.swift:312-335 | a bracket closes the pending run and becomes its own segment at the right level |
| Formula.ReadOther | themecalculator/Views/Calculator/CalculatorView.swift:339 | any other character extends the pending run |
| Formula.GetFormattedSegments | themecalculator/Views/Calculator/CalculatorView.swift:305-348 | the segments spell the formula exactly; each bracket is a segment of its own, "(" at the depth before it, ")" at the clamped depth after it; other text comes in non-empty bracket-free runs at the current depth, no two runs adjacent; nothing is highlighted |
| Formula.TextsLength | themecalculator/Views/Calculator/CalculatorView.swift:305-348 | no segment is empty: the text is at least as long as the number of segments |
| Formula.LastCharacter | themecalculator/Views/Calculator/CalculatorView.swift:305-348 | the text is the earlier segments' text followed by the non-empty last segment's text |
| Formula.RunFollowsBracket | themecalculator/Views/Calculator/CalculatorView.swift:313-317 | the character just before a final run of text, when there is one, is a bracket |
| Formula.LeveledUnique | themecalculator/Views/Calculator/CalculatorView.swift:305-348 | two well-formed splits of the same text are equal, so the contract fixes the result completely |
| Formula.SameLastRun | themecalculator/Views/Calculator/CalculatorView.swift:339-345 | splits of the same text that ends in a non-bracket end with the same run |
| Formula.SameLastBracket | themecalculator/Views/Calculator/CalculatorView.swift:312-335 | splits of the same text that ends in a bracket end with the same bracket segment |
| Formula.BracketPairSameLevel | themecalculator/Views/Calculator/CalculatorView.swift:320-333 | "(" directly followed by ")" draws both at the same level |
| Formula.LeveledPrefix | themecalculator/Views/Calculator/CalculatorView.swift:305-348 | every prefix of a well-formed split is well formed |
| Formula.BracketCountAppend | themecalculator/Views/Calculator/CalculatorView.swift:311 | bracket counts add up over concatenation |
| Formula.PlainHasNoBrackets | themecalculator/Views/Calculator/CalculatorView.swift:339 | a run of text holds no bracket |
| Formula.BracketSegmentsCountBrackets | themecalculator/Views/Calculator/CalculatorView.swift:312-335 | the number of bracket segments equals the number of bracket characters |
| ThemeUtils.TrimStart | themecalculator/Utils/ThemeUtils.swift:19-24 | the input is a run of white space followed by the result, which does not start with white space; the scanner skips leading white space with it too |
| ThemeUtils.TrimEnd | themecalculator/Utils/ThemeUtils.swift:19 | the input is the result followed by a run of white space, and the result does not end with white space |
| ThemeUtils.Trim | themecalculator/Utils/ThemeUtils.swift:19 | the input is white space, then the result, then white space; the result has no white space at either end |
| ThemeUtils.RemoveHashes | themecalculator/Utils/ThemeUtils.swift:20 | no "#" anywhere in the result, and every other character occurs exactly as often as in the input |
| ThemeUtils.RemoveHashesAppend | themecalculator/Utils/ThemeUtils.swift:20 | removing "#" from two pieces and joining them is removing it from the whole, so the kept characters stay in order |
| ThemeUtils.RemoveHashesOne | themecalculator/Utils/ThemeUtils.swift:20 | a single "#" disappears and any other single character stays |
| ThemeUtils.Sanitize | themecalculator/Utils/ThemeUtils.swift:19-20 | the input is white space, then a stretch that neither starts nor ends with white space, then white space, and the result is that stretch with its "#" characters removed; no "#" remains |
| ThemeUtils.HexValue | themecalculator/Utils/ThemeUtils.swift:24 | n hexadecimal digits spell a number below 16ⁿ |
| ThemeUtils.HexRun | themecalculator/Utils/ThemeUtils.swift:24 | the longest run of hexadecimal digits at the start |
| ThemeUtils.HexPrefix | themecalculator/Utils/ThemeUtils.swift:24 | a maximal prefix of hexadecimal digits |
| ThemeUtils.ScanHexInt64 | themecalculator/Utils/ThemeUtils.swift:24-26 | fails iff no hexadecimal digit is there; otherwise the value read when it fits in 64 bits, and exactly 2⁶⁴−1 when it does not |
| ThemeUtils.ColorOf | themecalculator/Utils/ThemeUtils.swift:28-32 | an RGB colour whose channels all lie between 0 and 1 |
| ThemeUtils.ColorFrom | themecalculator/Utils/ThemeUtils.swift:14-33 | the default for no string, for "null" and for a string with no readable hex digits; otherwise the colour of the scanned number |
| ThemeUtils.HighBitsIgnored | themecalculator/Utils/ThemeUtils.swift:28-30 | bits above the low 24 never reach a channel |
| ThemeUtils.SixDigitColor | themecalculator/Utils/ThemeUtils.swift:14-33 | "RRGGBB" or "#RRGGBB" gives red, green and blue equal to the three digit pairs over 255 |
| ThemeUtils.SixDigitChannels | themecalculator/Utils/ThemeUtils.swift:28-30 | the channels of a six-digit value are its three digit pairs |
| ThemeUtils.TrimUnchanged | themecalculator/Utils/ThemeUtils.swift:19 | a string with no white space at either end is trimmed to itself |
| ThemeUtils.SanitizeSix | themecalculator/Utils/ThemeUtils.swift:15-20 | sanitising six hex digits only drops a leading "#" |
| ThemeUtils.ScanSix | themecalculator/Utils/ThemeUtils.swift:24 | the scanner reads six hex digits whole |
| ThemeUtils.SixDigitValue | themecalculator/Utils/ThemeUtils.swift:28-30 | six digits are three bytes, most significant first |
| ThemeUtils.HexValueAppend | themecalculator/Utils/ThemeUtils.swift:24 | the value of concatenated digits is the first part shifted plus the second |
| ThemeUtils.ThreeBytes | themecalculator/Utils/ThemeUtils.swift:28-30 | extracting the three bytes of r·2¹⁶+g·2⁸+b gives r, g and b |
| ThemeUtils.FirstOfType | themecalculator/Utils/ThemeUtils.swift:75 | none iff no look has the slot type; otherwise the look at the first index with that type |
| ThemeUtils.GetButtonTheme | themecalculator/Utils/ThemeUtils.swift:73-76 | none iff no look has the button's slot for the mode; otherwise the first look of the theme with that slot |
| ThemeUtils.ForegroundColor | themecalculator/Utils/ThemeUtils.swift:79-85 | white without a look; otherwise the font colour with white as fallback |
| ThemeUtils.BackgroundColor | themecalculator/Utils/ThemeUtils.swift:88-95 | gray without a look; pressed uses the pressed colour (fallback faded gray), released the released colour (fallback gray) |
| ThemeUtils.FontSize | themecalculator/Utils/ThemeUtils.swift:98-104 | 24 without a look, the look's size otherwise |
| ThemeUtils.EmptyThemeFallbacks | themecalculator/Utils/ThemeUtils.swift:79-104 | a theme without looks draws white on gray at size 24 |
| ThemeUtils.ButtonBackgrounds | themecalculator/Utils/ThemeUtils.swift:88-95 | a "#RRGGBB" pressed or released colour is used as such; a missing one falls back to faded gray or gray |
| ThemeUtils.FirstLookWins | themecalculator/Utils/ThemeUtils.swift:75 | looks after the first match of a slot never matter |
| ThemeQuery.NatString | themecalculator/Services/ThemeService.swift:15-16 | non-empty decimal digits without a leading zero |
| ThemeQuery.DecimalString | themecalculator/Services/ThemeService.swift:15-16 | digits, preceded by "-" for a negative number |
| ThemeQuery.NatStringValue | themecalculator/Services/ThemeService.swift:15-16 | the digits of n spell n |
| ThemeQuery.DecimalRoundTrip | themecalculator/Services/ThemeService.swift:15-16 | reading the decimal text of an integer gives the integer back |
| ThemeQuery.DecimalStringInjective | themecalculator/Services/ThemeService.swift:15-16 | different integers are written differently |
| ThemeQuery.GetThemeListQuery | themecalculator/Services/ThemeService.swift:13-25 | "page" and "per_page" are always present as decimal text; "search" iff given, verbatim; "is_paid" iff given, "true"/"false"; no other keys, 2 to 4 in all |
| ThemeQuery.GetDefaultThemeListQuery | themecalculator/Services/ThemeService.swift:13 | with the defaults the query is exactly page "1", per_page "20" |
| Theme.SameIsEquivalence | themecalculator/Models/ThemeModel.swift:42-44 | theme equality is reflexive, symmetric and transitive |
| Theme.Same | themecalculator/Models/ThemeModel.swift:42-44 | equal themes are always the same theme (its partners state what else is) |
| Theme.EqualThemesAreSame | themecalculator/Models/ThemeModel.swift:42-44 | field-by-field equal themes count as the same theme |
| Theme.SameIgnoresOtherFields | themecalculator/Models/ThemeModel.swift:42-44 | only id and version decide equality |
| Theme.RedesignWithoutNewVersionIsSame | themecalculator/Models/ThemeModel.swift:42-44 | a theme with other button looks but the same id and version counts as the same theme |

## Left out

- Floating point: rounding, overflow to ±∞, signed zero and subnormals are not modelled. Finite arithmetic is exact on reals.
- `Service.FactorialLoop`: `Int(n)` traps for values beyond `Int.max`. Products beyond 170! overflow to +∞. Neither is modelled; the loop is exact.
- Number formatting of finite values is left open as the `format` parameter. This covers the locale decimal formatter, the 15 fraction digits and the switch to scientific notation.
- Parsing of the display with `Double(String)` is left open as the `parse` parameter.
- The maths functions (sin, cos, tan, log10, log, sqrt, exp, pow) and the value of π are left open as `Libm`.
- `ViewModel.CalculatorViewModel.HandleEqual` and `Service.CalculatorService.SaveCalculationHistory` take the timestamp `Date()` as a parameter.
- The audio session set up by the service's initialiser and its button sounds are not modelled.
- The persisted history is a value (`Service.Stored`).
- The following are not modelled: UserDefaults, JSON encoding and decoding of the list, and the error printing on a failed decode.
- The `CalculationHistoryItem` id is a random UUID. It is not part of the modelled item. The encoding takes it as a parameter, and decoding reads and discards it.
- The keyed container stands in for the JSON object of one item.
- `ThemeUtils.IsWhitespace`: the set of trimmed and skipped characters is the Unicode white space and line separator set as listed. Foundation's exact character set is not part of this model.
- `ThemeUtils.ScanHexInt64`: Foundation's scanner is approximated in three ways:
  - leading white space is skipped;
  - an optional "0x"/"0X" is skipped only when a hexadecimal digit follows;
  - the longest run of digits is read, saturating at 2⁶⁴−1.
- Colours are values. `Color(red:green:blue:)` and `.opacity` are not rendered.
- `themecalculator/Services/ThemeService.swift`: only the query construction is modelled. The network request itself (`NetworkService.get`) is not part of this model.
- The Combine subscription to theme changes in the view model initialiser is not modelled.
- Audio, image loading and caching, and all SwiftUI layout are not modelled.
- The root-level `Views/…` copies of the keypad views are not modelled. They call view-model methods that do not exist.
- The memory and angle keys are not wired to the view model in the shown keypad view. `Keypad.Press` still lets them be pressed, through the view-model functions.
- Only the "Ans" button's effect is modelled. It writes the view model's fields directly, which is `ViewModel.CalculatorViewModel.RecallAnswer`.
- `Formula.FormulaSegment` leaves out the segment's random `id = UUID()`. `Formula.LeveledUnique` fixes the segments up to those ids.
- `Formula.GetFormattedSegments` walks the formula one `char` at a time. Swift walks it by `Character`, a grapheme cluster; the two agree as long as no character of the formula is a grapheme made of several code points.
- The view model has no formula string, bracket evaluator, parenthesis handler or chained-equals re-application, so none is modelled.
