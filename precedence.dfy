/** The Pratt parser's rule table: for each token kind, its prefix and infix handlers and its binding power. */
module ParseRules {

  import opened Functions
  import opened Scanning

  /** Binding powers, weakest first; the derived ordering is declaration order. */
  datatype Precedence = None | Term | Unary | Factor | Power | Factorial | Call | Primary

  function Rank(p: Precedence): nat
  {
    match p
    case None => 0 case Term => 1 case Unary => 2 case Factor => 3
    case Power => 4 case Factorial => 5 case Call => 6 case Primary => 7
  }

  /** `p <= q` for the derived `PartialOrd`. */
  predicate Le(p: Precedence, q: Precedence)
  {
    Rank(p) <= Rank(q)
  }

  /** The derived order is total: distinct levels have distinct ranks. */
  lemma PrecedenceIsTotallyOrdered(p: Precedence, q: Precedence)
    ensures Le(p, q) || Le(q, p)
    ensures Le(p, q) && Le(q, p) ==> p == q
  {
  }

  /** `ParseRule::next_precedence`: the next stronger level; `Primary` is its own successor. */
  function NextPrecedence(p: Precedence): (q: Precedence)
    ensures p != Primary ==> Rank(q) == Rank(p) + 1
    ensures p == Primary ==> q == Primary
  {
    match p
    case None => Term
    case Term => Precedence.Unary
    case Unary => Factor
    case Factor => Precedence.Power
    case Power => Precedence.Factorial
    case Factorial => Precedence.Call
    case Call => Primary
    case Primary => Primary
  }

  /** The parsing handlers a rule can name. */
  datatype ParseFn =
    | None | Unary | Factorial | Grouping | Number | Binary | Variable
    | FunctionCall(fn: Function) | Call

  datatype ParseRule = ParseRule(prefix: ParseFn, infix: ParseFn, precedence: Precedence)

  const RuleNone := ParseRule(ParseFn.None, ParseFn.None, Precedence.None)

  predicate IsBinaryOperator(t: TokenType)
  {
    t in {OperationToken(Add), OperationToken(Subtract), OperationToken(Multiply),
          OperationToken(Divide), OperationToken(Operation.Power)}
  }

  /** `get_rule`. */
  function GetRule(t: TokenType): (r: ParseRule)
    // only `-` has a prefix operator rule; `+` has none
    ensures r.prefix == ParseFn.Unary <==> t == OperationToken(Subtract)
    // `(` and `!` both open a group when they start an expression
    ensures r.prefix == Grouping <==> t in {OperationToken(OpenParenthesis), OperationToken(Operation.Factorial)}
    // the five arithmetic operators are the binary infix ones
    ensures r.infix == Binary <==> IsBinaryOperator(t)
    // infix handlers continue an operand, prefix handlers start one
    ensures r.infix in {ParseFn.None, Binary, ParseFn.Factorial, ParseFn.Call}
    ensures !(r.prefix.Binary? || r.prefix.Factorial? || r.prefix.Call?)
    // a token acts as an infix operator exactly when it binds at all
    ensures r.infix == ParseFn.None <==> r.precedence == Precedence.None
    // binding powers of the infix operators
    ensures t in {OperationToken(Add), OperationToken(Subtract)} ==> r.precedence == Term
    ensures t in {OperationToken(Multiply), OperationToken(Divide)} ==> r.precedence == Factor
    ensures t == OperationToken(Operation.Power) ==> r.precedence == Precedence.Power
    ensures t == OperationToken(Operation.Factorial) ==> r.infix == ParseFn.Factorial && r.precedence == Precedence.Factorial
    ensures t == OperationToken(OpenParenthesis) ==> r.infix == ParseFn.Call && r.precedence == Precedence.Call
    // operands: numbers, names and functions only start expressions
    ensures t.OperationToken? && t.op.Constant? ==> r == ParseRule(Number, ParseFn.None, Precedence.None)
    ensures t == OperationToken(Identifier) ==> r == ParseRule(Variable, ParseFn.None, Precedence.None)
    ensures t.FunctionToken? ==> r == ParseRule(FunctionCall(t.fn), ParseFn.None, Precedence.None)
    // everything else (`%`, `)`, `,`, EOF, error tokens, ...) has no rule at all
    ensures r == RuleNone <==>
      t.OperationToken? && !t.op.Constant?
      && t.op !in {OpenParenthesis, Subtract, Add, Divide, Multiply, Operation.Factorial, Operation.Power, Identifier}
  {
    match t
    case OperationToken(op) =>
      (match op
       case OpenParenthesis => ParseRule(Grouping, ParseFn.Call, Precedence.Call)
       case Subtract => ParseRule(ParseFn.Unary, Binary, Term)
       case Add => ParseRule(ParseFn.None, Binary, Term)
       case Divide => ParseRule(ParseFn.None, Binary, Factor)
       case Multiply => ParseRule(ParseFn.None, Binary, Factor)
       case Constant(_) => ParseRule(Number, ParseFn.None, Precedence.None)
       case Factorial => ParseRule(Grouping, ParseFn.Factorial, Precedence.Factorial)
       case Power => ParseRule(ParseFn.None, Binary, Precedence.Power)
       case Identifier => ParseRule(Variable, ParseFn.None, Precedence.None)
       case _ => RuleNone)
    case FunctionToken(f) => ParseRule(FunctionCall(f), ParseFn.None, Precedence.None)
  }
}
