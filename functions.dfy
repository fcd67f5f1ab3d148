/** The built-in functions a plotted expression can call (`log(2, x)`, `sin(x)`, ...). */
module Functions {

  import opened Wrappers
  import opened Float
  import opened Text

  /** An unsigned byte, the type of a function index in a `Call` instruction. */
  type U8 = x: int | 0 <= x < 256

  /** The built-in functions, in declaration order (the order fixes their byte ids). */
  datatype Function =
    | None | Sin | Asin | Sinh | Cos | Acos | Cosh | Tan | Atan | Tanh
    | Ln | Log | Sqrt | Abs | Floor | Ceil | Round | Trunc | Exp

  /** `f as u8`: the discriminant, counting from 0 in declaration order. */
  function Repr(f: Function): (id: U8)
    ensures id <= 18
    ensures id == 0 <==> f == Function.None
  {
    match f
    case None => 0   case Sin => 1    case Asin => 2   case Sinh => 3
    case Cos => 4    case Acos => 5   case Cosh => 6   case Tan => 7
    case Atan => 8   case Tanh => 9   case Ln => 10    case Log => 11
    case Sqrt => 12  case Abs => 13   case Floor => 14 case Ceil => 15
    case Round => 16 case Trunc => 17 case Exp => 18
  }

  /** `Function::from_repr(id)`: defined exactly on the ids 0 to 18. */
  function FromRepr(id: int): (r: Option<Function>)
    ensures r.Some? <==> 0 <= id <= 18
  {
    match id
    case 0 => Some(Function.None) case 1 => Some(Sin)    case 2 => Some(Asin)
    case 3 => Some(Sinh)          case 4 => Some(Cos)    case 5 => Some(Acos)
    case 6 => Some(Cosh)          case 7 => Some(Tan)    case 8 => Some(Atan)
    case 9 => Some(Tanh)          case 10 => Some(Ln)    case 11 => Some(Log)
    case 12 => Some(Sqrt)         case 13 => Some(Abs)   case 14 => Some(Floor)
    case 15 => Some(Ceil)         case 16 => Some(Round) case 17 => Some(Trunc)
    case 18 => Some(Exp)          case _ => Option.None
  }

  /** `from_repr` and `as u8` are inverse to each other, in both directions. */
  lemma ReprRoundTrip(f: Function, id: int)
    ensures FromRepr(Repr(f)) == Some(f)
    ensures FromRepr(id).Some? ==> Repr(FromRepr(id).value) == id
  {
  }

  /** `f.as_ref()`: the snake_case spelling of the variant. */
  function Name(f: Function): string
  {
    match f
    case None => "none"   case Sin => "sin"     case Asin => "asin"   case Sinh => "sinh"
    case Cos => "cos"     case Acos => "acos"   case Cosh => "cosh"   case Tan => "tan"
    case Atan => "atan"   case Tanh => "tanh"   case Ln => "ln"       case Log => "log"
    case Sqrt => "sqrt"   case Abs => "abs"     case Floor => "floor" case Ceil => "ceil"
    case Round => "round" case Trunc => "trunc" case Exp => "exp"
  }

  /** The number of arguments a callable function takes: two for `log`, one otherwise. */
  function Arity(f: Function): nat
    requires f != Function.None
  {
    if f == Log then 2 else 1
  }

  /** The value of a callable function at an argument list of its arity. */
  function Apply(f: Function, x: seq<F64>): F64
    requires f != Function.None && |x| == Arity(f)
  {
    if f == Log then LogBase(x[1], x[0]) else Math(Name(f), x[0])
  }

  /** `Function::execute(index, x)`. */
  function Execute(index: U8, x: seq<F64>): (r: Result<F64>)
    ensures FromRepr(index).None? ==>
      r == Err("Function with index " + NatToString(index) + " does not exist")
    ensures index == 0 ==> r == Err("No function provided")
    ensures r.Ok? <==> 1 <= index <= 18 && |x| == Arity(FromRepr(index).value)
    ensures r.Ok? ==> r.value == Apply(FromRepr(index).value, x)
    ensures r.Err? && 1 <= index <= 18 ==>
      r.error == "Function " + Name(FromRepr(index).value) + " expects "
        + NatToString(Arity(FromRepr(index).value)) + " arguments, but "
        + NatToString(|x|) + " were given"
  {
    match FromRepr(index)
    case None => Err("Function with index " + NatToString(index) + " does not exist")
    case Some(f) =>
      if f == Function.None then Err("No function provided")
      else if |x| != Arity(f) then
        Err("Function " + Name(f) + " expects " + NatToString(Arity(f))
          + " arguments, but " + NatToString(|x|) + " were given")
      else Ok(Apply(f, x))
  }

  /** `log(base, x)` is `x.log(base)`: the first argument is the base. */
  lemma LogTakesBaseFirst(base: F64, x: F64)
    ensures Execute(Repr(Log), [base, x]) == Ok(LogBase(x, base))
  {
  }

  /** Distinct functions have distinct names, so the name in a message identifies it. */
  lemma NameInjective(f: Function, g: Function)
    ensures Name(f) == Name(g) ==> f == g
  {
  }
}
