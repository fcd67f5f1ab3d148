/**
 * The `f64` values the plotter computes with, as the expressions that produced
 * them. Every arithmetic operation and every `std` math call is a constructor,
 * so the model takes no stand on rounding: two values proved equal here are equal
 * under any implementation of the operations, and two different terms stand for
 * two computations the program performs differently.
 */
module Float {

  import opened Wrappers

  datatype F64 =
    | Lit(text: string)                /* `text.parse::<f64>()` of a decimal literal */
    | Pi                               /* std::f64::consts::PI */
    | Euler                            /* std::f64::consts::E */
    | Plus(l: F64, r: F64)             /* l + r */
    | Minus(l: F64, r: F64)            /* l - r */
    | Times(l: F64, r: F64)            /* l * r */
    | Over(l: F64, r: F64)             /* l / r */
    | Rem(l: F64, r: F64)              /* l % r */
    | Powf(base: F64, exponent: F64)   /* base.powf(exponent) */
    | Neg(x: F64)                      /* -x */
    | Fact(x: F64)                     /* x.factorial() (the gamma-based one) */
    | Math(name: string, x: F64)       /* x.sin(), x.sqrt(), ... by method name */
    | LogBase(x: F64, base: F64)       /* x.log(base) */

  predicate AllDigits(s: string) { forall i :: 0 <= i < |s| ==> '0' <= s[i] <= '9' }

  /** A run of digits, optionally followed by `.` and another run of digits. */
  predicate IsDecimal(s: string)
  {
    (|s| > 0 && AllDigits(s))
    || exists k :: 0 < k < |s| - 1 && s[k] == '.' && AllDigits(s[..k]) && AllDigits(s[k + 1..])
  }

  /**
   * `s.parse::<f64>()` on the lexemes the scanner hands to it: number lexemes
   * (decimal literals) parse, the keyword lexemes `pi` and `e` do not.
   */
  function ParseF64(s: string): Option<F64>
  {
    if IsDecimal(s) then Some(Lit(s)) else None
  }
}
