/** An abstract IEEE double.

    A finite double is modelled by the exact real it denotes; the three
    non-finite values keep their own constructors.  Arithmetic follows the
    IEEE rules for the special values (NaN absorbs, inf - inf is NaN,
    inf * 0 is NaN, x / inf is 0) but is exact on finite operands: rounding,
    overflow to infinity and the sign of zero are not modelled. */
module Numbers {

  datatype Num = Finite(value: real) | NaN | PosInf | NegInf {
    predicate IsZero() { this == Finite(0.0) }
    /** Strictly above zero (only meaningful for non-NaN values). */
    predicate IsPositive() { PosInf? || (Finite? && value > 0.0) }
  }

  function Neg(x: Num): Num {
    match x
    case Finite(v) => Finite(-v)
    case NaN => NaN
    case PosInf => NegInf
    case NegInf => PosInf
  }

  function Add(x: Num, y: Num): Num {
    if x.NaN? || y.NaN? then NaN
    else if (x.PosInf? && y.NegInf?) || (x.NegInf? && y.PosInf?) then NaN
    else if x.PosInf? || y.PosInf? then PosInf
    else if x.NegInf? || y.NegInf? then NegInf
    else Finite(x.value + y.value)
  }

  function Sub(x: Num, y: Num): Num {
    Add(x, Neg(y))
  }

  function Mul(x: Num, y: Num): Num {
    if x.NaN? || y.NaN? then NaN
    else if x.Finite? && y.Finite? then Finite(x.value * y.value)
    else if x.IsZero() || y.IsZero() then NaN
    else if x.IsPositive() == y.IsPositive() then PosInf
    else NegInf
  }

  function Div(x: Num, y: Num): Num {
    if x.NaN? || y.NaN? then NaN
    else if x.Finite? && y.Finite? then
      if y.value != 0.0 then Finite(x.value / y.value)
      else if x.value == 0.0 then NaN
      else if x.value > 0.0 then PosInf
      else NegInf
    else if !x.Finite? && !y.Finite? then NaN
    else if !y.Finite? then Finite(0.0)
    else if y.value < 0.0 then Neg(x)
    else x
  }

  /** The library functions the calculator calls and that this model does
      not define: Foundation's `sin`, `cos`, `tan`, `log10`, `log`, `sqrt`,
      `exp` and `pow`, and the constant `Double.pi`. */
  datatype Libm = Libm(
    sin: Num -> Num,
    cos: Num -> Num,
    tan: Num -> Num,
    log10: Num -> Num,
    ln: Num -> Num,
    sqrt: Num -> Num,
    exp: Num -> Num,
    pow: (Num, Num) -> Num,
    pi: real)
}
