/**
 * The Pratt parser and code generator, as functions of the compiler's state:
 * each handler takes the fields (scanner, token list, emitted code, symbol
 * table, error text) and returns them as the handler leaves them.
 */
module Compiling {

  import opened Wrappers
  import opened Float
  import opened Functions
  import opened Text
  import opened Scanning
  import opened ParseRules
  import opened Bytecode

  /** The fields of `Compiler`: the scanner, the tokens read so far, the code, the symbol table, the errors. */
  datatype CState = CState(scan: Cursor, tokens: seq<Token>, instr: seq<Operation>,
                           ids: seq<string>, errors: string)

  /** What every handler may rely on: a current token, and EOF only once the text is used up. */
  ghost predicate Inv(s: CState)
  {
    s.scan.Valid() && |s.tokens| >= 1
    && (s.tokens[|s.tokens| - 1].kind == OperationToken(EOF) ==> IsAtEnd(s.scan.code, s.scan.cur))
  }

  /** `current`: the last token read. */
  function Current(s: CState): Token
    requires |s.tokens| >= 1
  {
    s.tokens[|s.tokens| - 1]
  }

  /** `previous`: the token before it. */
  function Previous(s: CState): Token
    requires |s.tokens| >= 2
  {
    s.tokens[|s.tokens| - 2]
  }

  predicate Live(t: Token) { t.kind != OperationToken(EOF) }

  /** The previous token exists and is not EOF: a handler for it may still read on. */
  predicate PrevLive(s: CState)
  {
    |s.tokens| >= 2 && Live(Previous(s))
  }

  /** Work left: the scanner's measure, plus one while the current token is not EOF. */
  function M(s: CState): nat
    requires Inv(s)
  {
    s.scan.Rem() + (if Live(Current(s)) then 1 else 0)
  }

  /** `M`, plus one while the previous token is not EOF. */
  function P(s: CState): nat
    requires Inv(s)
  {
    M(s) + (if PrevLive(s) then 1 else 0)
  }

  /** `r` is `s` after reading on and appending: nothing is ever taken back. */
  ghost predicate Extends(s: CState, r: CState)
  {
    && r.scan.code == s.scan.code
    && s.instr <= r.instr && s.ids <= r.ids && |s.errors| <= |r.errors|
  }

  lemma ExtendsTransitive(a: CState, b: CState, c: CState)
    requires Extends(a, b) && Extends(b, c)
    ensures Extends(a, c)
  {
  }

  /** The code emitted between two states. */
  function Emitted(s: CState, r: CState): seq<Operation>
    requires |s.instr| <= |r.instr|
  {
    r.instr[|s.instr|..]
  }

  /** `error`: one line naming the message and the current token's lexeme. */
  function ErrorAt(s: CState, msg: string): (r: CState)
    requires |s.tokens| >= 1
    ensures r == s.(errors := s.errors + "Error: " + msg + " at " + Current(s).lexeme + "\n")
    ensures |r.errors| > |s.errors|
    ensures Inv(s) ==> Inv(r) && M(r) == M(s)
    ensures Extends(s, r) && |r.tokens| == |s.tokens|
  {
    s.(errors := s.errors + "Error: " + msg + " at " + Current(s).lexeme + "\n")
  }

  /** `push`: append one instruction. */
  function Emit(s: CState, op: Operation): (r: CState)
    ensures Inv(s) ==> Inv(r) && M(r) == M(s)
    ensures Extends(s, r) && |r.tokens| == |s.tokens|
    ensures SymbolsOk(s) && !op.GetVar? ==> SymbolsOk(r)
  {
    s.(instr := s.instr + [op])
  }

  /** `check` */
  predicate Check(s: CState, op: Operation)
    requires |s.tokens| >= 1
  {
    Current(s).kind == OperationToken(op)
  }

  /**
   * `advance`: read the next token; an error token is reported (its lexeme is the
   * message) and skipped by reading once more.
   */
  function Advance(s: CState): (r: CState)
    requires Inv(s)
    ensures Inv(r) && Extends(s, r) && |r.tokens| >= 2
    ensures r.instr == s.instr && r.ids == s.ids
    ensures M(r) + (if PrevLive(r) then 1 else 0) <= M(s)
    ensures Live(Current(s)) ==> M(r) < M(s)
    // error tokens are reported with their message as the lexeme, and skipped
    ensures Current(r).kind != OperationToken(Error) && s.errors <= r.errors
    ensures Clean(s, r) <==> Scan(s.scan).0.kind != OperationToken(Error)
    ensures var t := Scan(s.scan).0;
      t.kind == OperationToken(Error) ==> s.errors + "Error: " + t.lexeme + " at " + t.lexeme + "\n" <= r.errors
    decreases s.scan.Rem()
  {
    var (t, c) := Scan(s.scan);
    var s1 := s.(scan := c, tokens := s.tokens + [t]);
    if t.kind == OperationToken(Error) then Advance(ErrorAt(s1, t.lexeme)) else s1
  }

  /** `consume`: read on, and report `msg` unless the token read is `op`. */
  function Consume(s: CState, op: Operation, msg: string): (r: CState)
    requires Inv(s)
    ensures Inv(r) && Extends(s, r) && |r.tokens| >= 2 && M(r) <= M(s)
    ensures r.instr == s.instr && r.ids == s.ids
    // a clean `consume` has just read `op`; any other token is reported
    ensures Clean(s, r) ==> PreviousIs(r, op)
    ensures !PreviousIs(Advance(s), op) ==> |r.errors| > |s.errors|
    ensures PreviousIs(Advance(s), op) ==> r == Advance(s)
  {
    var s1 := Advance(s);
    if !PreviousIs(s1, op) then ErrorAt(s1, msg) else s1
  }

  /** The token just read is `op`. */
  predicate PreviousIs(s: CState, op: Operation)
    requires |s.tokens| >= 2
  {
    Previous(s).kind == OperationToken(op)
  }

  /** `match_cur`: read on only when the current token is `op`. */
  function MatchCur(s: CState, op: Operation): (r: (bool, CState))
    requires Inv(s)
    ensures Inv(r.1) && Extends(s, r.1) && M(r.1) <= M(s)
    ensures r.1.instr == s.instr && r.1.ids == s.ids
    ensures r.0 ==> Live(Current(s)) || op == EOF
    ensures r.0 && op != EOF ==> M(r.1) < M(s)
  {
    if !Check(s, op) then (false, s) else (true, Advance(s))
  }

  /** No error was recorded between `s` and `r`. */
  predicate Clean(s: CState, r: CState)
  {
    |r.errors| == |s.errors|
  }

  /** No name is in the symbol table twice. */
  ghost predicate NoDuplicates(ids: seq<string>)
  {
    forall i, j :: 0 <= i < j < |ids| ==> ids[i] != ids[j]
  }

  /** Every `GetVar` in `instr` names a slot of a table with `n` entries. */
  ghost predicate SlotsDefined(instr: seq<Operation>, n: nat)
  {
    forall i :: 0 <= i < |instr| && instr[i].GetVar? ==> instr[i].slot < n
  }

  /** The symbol table invariant: first-seen names once each, and every load refers to one of them. */
  ghost predicate SymbolsOk(s: CState)
  {
    NoDuplicates(s.ids) && SlotsDefined(s.instr, |s.ids|)
  }

  /** The handlers that continue an operand already on the stack. */
  predicate IsInfix(f: ParseFn)
  {
    f in {ParseFn.Binary, ParseFn.Factorial, ParseFn.Call}
  }

  lemma EmittedSplit(a: CState, b: CState, c: CState)
    requires Extends(a, b) && Extends(b, c)
    ensures Extends(a, c) && Emitted(a, c) == Emitted(a, b) + Emitted(b, c)
  {
  }

  /** `expression`: one expression at the weakest binding level. */
  function Expression(s: CState): (r: CState)
    requires Inv(s)
    ensures Inv(r) && Extends(s, r) && M(r) <= M(s)
    ensures Clean(s, r) ==> IsExpression(Emitted(s, r))
    ensures SymbolsOk(s) ==> SymbolsOk(r)
    decreases M(s), 6
  {
    ParsePrecedence(s, Term)
  }

  /**
   * `parse_precedence`: read a token and run its prefix handler, then keep
   * running infix handlers while the current token binds at least as tightly
   * as `prec`.
   */
  function ParsePrecedence(s: CState, prec: Precedence): (r: CState)
    requires Inv(s) && prec != Precedence.None
    ensures Inv(r) && Extends(s, r) && M(r) <= M(s)
    ensures Clean(s, r) ==> IsExpression(Emitted(s, r))
    ensures SymbolsOk(s) ==> SymbolsOk(r)
    decreases M(s), 5
  {
    var s1 := Handle(s, false);
    var r := InfixLoop(s1, prec);
    EmittedSplit(s, s1, r);
    if Clean(s, r) then
      ExpressionThenContinuation(Emitted(s, s1), Emitted(s1, r));
      r
    else r
  }

  /** A token that binds at a real level is not EOF, so the infix loop reads on. */
  lemma EndDoesNotBind(t: TokenType, prec: Precedence)
    requires prec != Precedence.None
    ensures t == OperationToken(EOF) ==> !Le(prec, GetRule(t).precedence)
  {
  }

  /** The `while` loop of `parse_precedence`. */
  function InfixLoop(s: CState, prec: Precedence): (r: CState)
    requires Inv(s) && prec != Precedence.None
    ensures Inv(r) && Extends(s, r) && M(r) <= M(s)
    ensures Clean(s, r) ==> IsContinuation(Emitted(s, r))
    ensures SymbolsOk(s) ==> SymbolsOk(r)
    decreases M(s), 4
  {
    if Le(prec, GetRule(Current(s).kind).precedence) then
      var s1 := Handle(s, true);
      var r := InfixLoop(s1, prec);
      EmittedSplit(s, s1, r);
      if Clean(s, r) then
        ContinuationThenContinuation(Emitted(s, s1), Emitted(s1, r));
        r
      else r
    else
      assert Emitted(s, s) == [];
      s
  }

  /**
   * Read a token and run the handler its rule gives: the infix one inside the
   * loop of `parse_precedence`, the prefix one before it.
   */
  function Handle(s: CState, infix: bool): (r: CState)
    requires Inv(s)
    ensures Inv(r) && Extends(s, r) && M(r) <= M(s)
    ensures Live(Current(s)) ==> M(r) < M(s)
    ensures Clean(s, r) && infix ==> IsContinuation(Emitted(s, r))
    ensures Clean(s, r) && !infix ==> IsExpression(Emitted(s, r))
    ensures SymbolsOk(s) ==> SymbolsOk(r)
    decreases M(s), 3
  {
    var s1 := Advance(s);
    var r := CallParseFn(s1, HandlerOf(s1, infix));
    EmittedSplit(s, s1, r);
    r
  }

  /**
   * The handler the rule of the previous token gives, infix or prefix; EOF has
   * neither, so a handler only ever runs on a token that is not EOF.
   */
  function HandlerOf(s: CState, infix: bool): (f: ParseFn)
    requires |s.tokens| >= 2
    ensures f != ParseFn.None ==> PrevLive(s)
  {
    var rule := GetRule(Previous(s).kind);
    if infix then rule.infix else rule.prefix
  }

  /** `call_parse_fn`: dispatch to a handler; no handler means "Expected expression". */
  function CallParseFn(s: CState, f: ParseFn): (r: CState)
    requires Inv(s) && |s.tokens| >= 2 && (f != ParseFn.None ==> PrevLive(s))
    ensures Inv(r) && Extends(s, r) && M(r) <= M(s)
    ensures Clean(s, r) ==> f != ParseFn.None
    ensures Clean(s, r) && IsInfix(f) ==> IsContinuation(Emitted(s, r))
    ensures Clean(s, r) && !IsInfix(f) ==> IsExpression(Emitted(s, r))
    ensures SymbolsOk(s) ==> SymbolsOk(r)
    decreases P(s), 2
  {
    match f
    case None => ErrorAt(s, "Expected expression")
    case Binary => Binary(s)
    case Grouping => Grouping(s)
    case Unary => Unary(s)
    case Number => Number(s)
    case Call => Call(s)
    case FunctionCall(fun) => FunctionCall(s, fun)
    case Variable => Variable(s)
    case Factorial => Factorial(s)
  }

  /** `factorial`: the postfix `!` applies to the operand already emitted. */
  function Factorial(s: CState): (r: CState)
    requires Inv(s)
    ensures Inv(r) && Extends(s, r) && M(r) == M(s) && Clean(s, r)
    ensures Emitted(s, r) == [Operation.Factorial] && IsContinuation(Emitted(s, r))
    ensures SymbolsOk(s) ==> SymbolsOk(r)
  {
    var r := Emit(s, Operation.Factorial);
    assert Emitted(s, r) == [Operation.Factorial] && [Operation.Factorial][1..] == [];
    r
  }

  /** `call`: the infix rule of `(` emits nothing; `f(x)` after an operand is not a call. */
  function Call(s: CState): (r: CState)
    requires Inv(s)
    ensures r == s && Emitted(s, r) == [] && IsContinuation(Emitted(s, r))
  {
    assert Emitted(s, s) == [];
    s
  }

  /** `binary`: the right operand one level tighter, then the operator. */
  function Binary(s: CState): (r: CState)
    requires Inv(s) && PrevLive(s)
    ensures Inv(r) && Extends(s, r) && M(r) <= M(s)
    ensures Clean(s, r) ==> IsContinuation(Emitted(s, r))
    ensures SymbolsOk(s) ==> SymbolsOk(r)
    decreases P(s), 1
  {
    var operator := Previous(s).kind;
    var s1 := ParsePrecedence(s, NextPrecedence(GetRule(operator).precedence));
    if IsBinaryOperator(operator) then
      var r := Emit(s1, operator.op);
      EmittedSplit(s, s1, r);
      if Clean(s, r) then
        ExpressionThenOperator(Emitted(s, s1), operator.op, 1);
        r
      else r
    else ErrorAt(s1, "Invalid binary operator")
  }

  /** `unary`: the operand at the unary level, then `Negate` for a `-`. */
  function Unary(s: CState): (r: CState)
    requires Inv(s) && PrevLive(s)
    ensures Inv(r) && Extends(s, r) && M(r) <= M(s)
    ensures Clean(s, r) ==> IsExpression(Emitted(s, r))
    ensures SymbolsOk(s) ==> SymbolsOk(r)
    decreases P(s), 1
  {
    var operator := Previous(s).kind;
    var s1 := ParsePrecedence(s, Precedence.Unary);
    if operator == OperationToken(Subtract) then
      var r := Emit(s1, Negate);
      EmittedSplit(s, s1, r);
      if Clean(s, r) then
        ExpressionThenOperator(Emitted(s, s1), Negate, 0);
        r
      else r
    else s1
  }

  /** `grouping`: an expression and its closing parenthesis. */
  function Grouping(s: CState): (r: CState)
    requires Inv(s) && PrevLive(s)
    ensures Inv(r) && Extends(s, r) && M(r) <= M(s)
    ensures Clean(s, r) ==> IsExpression(Emitted(s, r))
    ensures SymbolsOk(s) ==> SymbolsOk(r)
    decreases P(s), 1
  {
    var s1 := Expression(s);
    var r := Consume(s1, CloseParenthesis, "Expected ')' after expression");
    EmittedSplit(s, s1, r);
    r
  }

  /**
   * The infix loop stops, emitting nothing and reporting nothing, at a token
   * whose rule has no precedence (`)`, `,`, `%`, a number, EOF, ...): whatever
   * follows such a token is left unread.
   */
  lemma InfixLoopStopsAtUnboundToken(s: CState, prec: Precedence)
    requires Inv(s) && prec != Precedence.None
    requires GetRule(Current(s).kind).precedence == Precedence.None
    ensures InfixLoop(s, prec) == s
  {
    assert !Le(prec, Precedence.None);
  }

  /**
   * The infix loop also stops, emitting and reporting nothing, at an operator
   * that binds more loosely than `prec`: `1 - 2 - 3` groups as `(1 - 2) - 3`,
   * since the right operand of the first `-` is parsed one level tighter.
   */
  lemma InfixLoopStopsAtLowerPrecedence(s: CState, prec: Precedence)
    requires Inv(s) && prec != Precedence.None
    requires !Le(prec, GetRule(Current(s).kind).precedence)
    ensures InfixLoop(s, prec) == s
  {
  }

  /**
   * A clean `binary` emits the right operand, parsed one level tighter than the
   * operator, and then the operator itself; the left operand was emitted before.
   */
  lemma BinaryEmitsOperatorLast(s: CState)
    requires Inv(s) && PrevLive(s)
    ensures var s1 := ParsePrecedence(s, NextPrecedence(GetRule(Previous(s).kind).precedence));
      var r := Binary(s);
      Clean(s, r) ==>
        && IsBinaryOperator(Previous(s).kind)
        && Extends(s, s1) && IsExpression(Emitted(s, s1))
        && Emitted(s, r) == Emitted(s, s1) + [Previous(s).kind.op]
  {
    var s1 := ParsePrecedence(s, NextPrecedence(GetRule(Previous(s).kind).precedence));
    if IsBinaryOperator(Previous(s).kind) {
      EmittedSplit(s, s1, Emit(s1, Previous(s).kind.op));
    }
  }

  /** A `-` prefix emits its operand, parsed at the unary level, and then `Negate`. */
  lemma MinusEmitsNegateLast(s: CState)
    requires Inv(s) && PrevLive(s) && PreviousIs(s, Subtract)
    ensures var s1 := ParsePrecedence(s, Precedence.Unary);
      Extends(s, s1) && Emitted(s, Unary(s)) == Emitted(s, s1) + [Negate]
  {
    var s1 := ParsePrecedence(s, Precedence.Unary);
    EmittedSplit(s, s1, Emit(s1, Negate));
  }

  /**
   * A parenthesised expression emits only the inner expression's code, and it is
   * clean only when the token after that expression is `)`.
   */
  lemma GroupingNeedsCloseParenthesis(s: CState)
    requires Inv(s) && PrevLive(s)
    ensures var s1 := Expression(s);
      var r := Grouping(s);
      && Emitted(s, r) == Emitted(s, s1)
      && (Clean(s, r) ==> PreviousIs(r, CloseParenthesis))
  {
  }

  /** One instruction that pushes a value and pops none is an expression. */
  lemma SingleOperand(op: Operation)
    requires Executable(op) && Pops(op) == 0 && Pushes(op) == 1
    ensures IsExpression([op])
  {
    assert [op][1..] == [];
  }

  /**
   * `number`: the value of the lexeme when it parses as an `f64`, otherwise the
   * value the token carries (`pi`, `e`).
   */
  function Number(s: CState): (r: CState)
    requires Inv(s) && |s.tokens| >= 2
    ensures Inv(r) && Extends(s, r) && M(r) == M(s)
    ensures Clean(s, r) ==> IsExpression(Emitted(s, r))
    // the lexeme's own value first, then the value a `pi` or `e` token carries
    ensures ParseF64(Previous(s).lexeme).Some? ==>
      Emitted(s, r) == [Constant(ParseF64(Previous(s).lexeme).value)]
    ensures ParseF64(Previous(s).lexeme).None? && IsConstantToken(Previous(s).kind) ==>
      Emitted(s, r) == [Constant(Previous(s).kind.op.value)]
    // otherwise "Invalid number" is reported and nothing is emitted
    ensures Clean(s, r) <==> ParseF64(Previous(s).lexeme).Some? || IsConstantToken(Previous(s).kind)
    ensures !Clean(s, r) ==> r == ErrorAt(s, "Invalid number")
    ensures SymbolsOk(s) ==> SymbolsOk(r)
  {
    var prev := Previous(s);
    match ParseF64(prev.lexeme)
    case Some(v) =>
      SingleOperand(Constant(v));
      Emit(s, Constant(v))
    case None =>
      if IsConstantToken(prev.kind) then
        SingleOperand(Constant(prev.kind.op.value));
        Emit(s, Constant(prev.kind.op.value))
      else ErrorAt(s, "Invalid number")
  }
  /** A token that already carries its value (`pi`, `e`). */
  predicate IsConstantToken(k: TokenType)
  {
    k.OperationToken? && k.op.Constant?
  }

  /** The first index of `name` in `ids`. */
  function Position(ids: seq<string>, name: string): (r: Option<nat>)
    ensures r.Some? ==>
      (r.value < |ids| && ids[r.value] == name && forall j :: 0 <= j < r.value ==> ids[j] != name)
    ensures r.None? ==> name !in ids
  {
    if |ids| == 0 then Option.None
    else if ids[0] == name then Some(0)
    else match Position(ids[1..], name)
      case None => Option.None
      case Some(i) => Some(i + 1)
  }

  /**
   * `identifier_constant`: the slot of `name` in the symbol table, appending it
   * when it is new.
   */
  function IdentifierConstant(ids: seq<string>, name: string): (r: (nat, seq<string>))
    ensures ids <= r.1 && r.0 < |r.1| && r.1[r.0] == name
    ensures name in ids ==> r.1 == ids && forall j :: 0 <= j < r.0 ==> ids[j] != name
    ensures name !in ids ==> r.1 == ids + [name]
    ensures NoDuplicates(ids) ==> NoDuplicates(r.1)
  {
    match Position(ids, name)
    case Some(i) => (i, ids)
    case None => (|ids|, ids + [name])
  }

  /** `variable`: load the variable named by the previous token. */
  function Variable(s: CState): (r: CState)
    requires Inv(s) && |s.tokens| >= 2
    ensures Inv(r) && Extends(s, r) && M(r) == M(s) && Clean(s, r)
    ensures Emitted(s, r) == [GetVar(IdentifierConstant(s.ids, Previous(s).lexeme).0)]
    ensures IsExpression(Emitted(s, r))
    ensures SymbolsOk(s) ==> SymbolsOk(r)
  {
    var (slot, ids) := IdentifierConstant(s.ids, Previous(s).lexeme);
    SingleOperand(GetVar(slot));
    s.(ids := ids, instr := s.instr + [GetVar(slot)])
  }

  /** `function_call`: `(`, the arguments, then `Call(id, n)`. */
  function FunctionCall(s: CState, f: Function): (r: CState)
    requires Inv(s) && PrevLive(s)
    ensures Inv(r) && Extends(s, r) && M(r) <= M(s)
    ensures Clean(s, r) ==> IsExpression(Emitted(s, r))
    // clean: the name was followed by `(`, and the code is the arguments, leaving
    // `n` values, then `Call` of this function with `n` arguments
    ensures Clean(s, r) ==> PreviousIs(Advance(s), OpenParenthesis)
    ensures Clean(s, r) ==> var e := Emitted(s, r);
      |e| >= 1 && e[|e| - 1].Call? && e[|e| - 1] == Operation.Call(Repr(f), e[|e| - 1].arity)
      && Runs(e[..|e| - 1], 0) && Net(e[..|e| - 1]) == e[|e| - 1].arity
    ensures SymbolsOk(s) ==> SymbolsOk(r)
    decreases P(s), 1
  {
    var s1 := Consume(s, OpenParenthesis, "Expected '(' after function name");
    var (count, s2) := ArgumentList(s1);
    var r := Emit(s2, Operation.Call(Repr(f), count));
    EmittedSplit(s, s1, s2);
    EmittedSplit(s, s2, r);
    if Clean(s, r) then
      var e := Emitted(s, r);
      assert e[..|e| - 1] == Emitted(s, s2);
      CallAfterArguments(Emitted(s, s2), Repr(f), count);
      r
    else r
  }

  /** `n` values followed by a call that takes `n` arguments leave one value. */
  lemma CallAfterArguments(args: seq<Operation>, index: U8, n: nat)
    requires Runs(args, 0) && Net(args) == n
    ensures IsExpression(args + [Operation.Call(index, n)])
  {
    var call := Operation.Call(index, n);
    assert Runs([call], n) by { assert [call][1..] == []; }
    RunsAppend(args, [call], 0);
    NetAppend(args, [call]);
    assert [call][1..] == [];
  }

  /** `argument_list`: comma-separated expressions up to `)`; returns how many. */
  function ArgumentList(s: CState): (r: (nat, CState))
    requires Inv(s)
    ensures Inv(r.1) && Extends(s, r.1) && M(r.1) <= M(s)
    ensures Clean(s, r.1) ==> Runs(Emitted(s, r.1), 0) && Net(Emitted(s, r.1)) == r.0
    ensures SymbolsOk(s) ==> SymbolsOk(r.1)
    decreases M(s), 9
  {
    var (count, s1) := if !Check(s, CloseParenthesis) then ArgLoop(s, 0) else (assert Emitted(s, s) == []; (0, s));
    var r := Consume(s1, CloseParenthesis, "Expected ')' after function argument list");
    EmittedSplit(s, s1, r);
    (count, r)
  }

  /** The `loop` of `argument_list`, with `count` arguments already read. */
  function ArgLoop(s: CState, count: nat): (r: (nat, CState))
    requires Inv(s)
    ensures Inv(r.1) && Extends(s, r.1) && M(r.1) <= M(s)
    ensures r.0 > count
    ensures Clean(s, r.1) ==> Runs(Emitted(s, r.1), 0) && Net(Emitted(s, r.1)) == r.0 - count
    ensures SymbolsOk(s) ==> SymbolsOk(r.1)
    decreases M(s), 8
  {
    var (more, s1) := Argument(s, count);
    if !more then (count + 1, s1)
    else
      var r := ArgLoop(s1, count + 1);
      EmittedSplit(s, s1, r.1);
      if Clean(s, r.1) then
        ExpressionThenExpressions(Emitted(s, s1), Emitted(s1, r.1));
        r
      else r
  }

  /**
   * One pass of that loop: an argument, the error for a 256th one, and whether
   * a comma follows.
   */
  function Argument(s: CState, count: nat): (r: (bool, CState))
    requires Inv(s)
    ensures Inv(r.1) && Extends(s, r.1) && M(r.1) <= M(s)
    ensures r.0 ==> M(r.1) < M(s)
    ensures Clean(s, r.1) ==> IsExpression(Emitted(s, r.1))
    ensures count >= 255 && Clean(s, r.1) ==> count != 255
    ensures SymbolsOk(s) ==> SymbolsOk(r.1)
    decreases M(s), 7
  {
    var s1 := Expression(s);
    var s2 := if count == 255 then ErrorAt(s1, "Cannot have more than 255 arguments") else s1;
    var (more, s3) := MatchCur(s2, Comma);
    ExtendsTransitive(s1, s2, s3);
    EmittedSplit(s, s1, s3);
    assert Emitted(s, s3) == Emitted(s, s1);
    (more, s3)
  }

  /**
   * `compile`, on a compiler whose fields hold `tokens`, `instr`, `ids` and
   * `errors` from earlier calls (all empty for a new one): blanks are removed,
   * a fresh scanner reads the first token (not checked for an error), and one
   * expression is parsed. Nothing checks that the text was used up.
   */
  function CompileState(tokens: seq<Token>, instr: seq<Operation>, ids: seq<string>, errors: string,
                        code: string): (r: CState)
  {
    var (t, c) := Scan(Cursor(Without(code, ' '), 0, 0, false));
    Expression(CState(c, tokens + [t], instr, ids, errors))
  }

  /** What `compile` returns: the code and the symbol table when no error was ever recorded, else the errors. */
  function CompileResult(r: CState): (res: Result<(seq<Operation>, seq<string>)>)
    ensures res.Ok? <==> r.errors == ""
    ensures res.Ok? ==> res.value == (r.instr, r.ids)
    ensures res.Err? ==> res.error == r.errors
  {
    if r.errors == "" then Ok((r.instr, r.ids)) else Err(r.errors)
  }

  /** `compile` on a new compiler. */
  function CompileSource(code: string): Result<(seq<Operation>, seq<string>)>
  {
    CompileResult(CompileState([], [], [], "", code))
  }

  /**
   * Whatever the text, code that compiles without error is one expression that
   * runs without underflow and leaves one value, its symbol table holds each
   * name once, and every load refers to an entry of the table.
   */
  lemma CompiledCodeIsWellFormed(code: string)
    requires CompileSource(code).Ok?
    ensures var (instr, ids) := CompileSource(code).value;
      IsExpression(instr) && |instr| >= 1 && NoDuplicates(ids) && SlotsDefined(instr, |ids|)
  {
    var (t, c) := Scan(Cursor(Without(code, ' '), 0, 0, false));
    var s0 := CState(c, [t], [], [], "");
    var r := Expression(s0);
    assert SymbolsOk(s0);
    assert Emitted(s0, r) == r.instr;
    if |r.instr| == 0 {
      assert Net(r.instr) == 0;
    }
  }
}
