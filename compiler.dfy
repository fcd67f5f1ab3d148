/**
 * The compiler object: its handlers append to the code, the token list, the
 * symbol table and the error text in place, and each is proved to leave the
 * fields exactly as the matching function of `Compiling` computes them.
 */
module Compilers {

  import opened Wrappers
  import opened Functions
  import opened Text
  import opened Scanning
  import opened ParseRules
  import opened Compiling
  import opened Float
  import opened Machine
  import opened Optimizing

  class Compiler {
    var instr: seq<Operation>
    var parser: Parser
    var tokens: seq<Token>
    var identifierConstants: seq<string>
    var errorMessage: string

    /** The fields as a value. */
    function State(): CState
      reads this, parser
    {
      CState(parser.State(), tokens, instr, identifierConstants, errorMessage)
    }

    /** `Compiler::new`: nothing compiled, a scanner over the empty text. */
    constructor ()
      ensures State() == CState(Cursor("", 0, 0, false), [], [], [], "")
    {
      instr, tokens, identifierConstants, errorMessage := [], [], [], "";
      parser := new Parser("");
    }

    /** `push` */
    method Push(op: Operation)
      modifies this
      ensures parser == old(parser) && State() == Emit(old(State()), op)
    {
      instr := instr + [op];
    }

    /**
     * `compile`: the fields left by earlier calls are kept, so only a new
     * compiler gives `CompileSource(code)`.
     */
    method Compile(code: string) returns (r: Result<(seq<Operation>, seq<string>)>)
      modifies this
      ensures State() == CompileState(old(tokens), old(instr), old(identifierConstants), old(errorMessage), code)
      ensures r == CompileResult(State())
    {
      parser := new Parser(Without(code, ' '));
      var t := parser.ScanToken();
      tokens := tokens + [t];
      Expression();
      if errorMessage == "" {
        r := Ok((instr, identifierConstants));
      } else {
        r := Err(errorMessage);
      }
    }

    /**
     * `optimized_compile`: compile, then fold constants; a compile error is
     * returned before anything is folded.
     */
    method OptimizedCompile(code: string, mode: Mode) returns (r: Outcome<(seq<Operation>, seq<string>)>)
      modifies this
      ensures var s := CompileState(old(tokens), old(instr), old(identifierConstants), old(errorMessage), code);
        match CompileResult(s)
        case Err(e) => r == Fails(e) && State() == s
        case Ok(_) =>
          match Optimizing.Optimize(s.instr, mode)
          case Done(folded) => State() == s.(instr := folded) && r == Done((folded, s.ids))
          case Fails(e) => State() == s && r == Fails(e)
          case Panics => r.Panics?
    {
      var compiled := Compile(code);
      if compiled.Err? {
        return Fails(compiled.error);
      }
      r := Optimize(mode);
    }

    /**
     * `optimize`: one pass over the code with a stack of known values and kept
     * instructions, then the stack written back as the new code. `mode` chooses
     * the folding order of `Power` and calls: `AsWritten` is the order of the
     * source, `Intended` the order of the machine.
     */
    method Optimize(mode: Mode) returns (r: Outcome<(seq<Operation>, seq<string>)>)
      modifies this
      ensures parser == old(parser) && tokens == old(tokens)
      ensures identifierConstants == old(identifierConstants) && errorMessage == old(errorMessage)
      ensures match Optimizing.Optimize(old(instr), mode)
        case Done(folded) => instr == folded && r == Done((folded, identifierConstants))
        case Fails(e) => instr == old(instr) && r == Fails(e)
        case Panics => instr == old(instr) && r.Panics?
    {
      var code := instr;
      if |code| == 0 {
        return Fails(NoInstructions);
      }
      var stack: seq<Entry> := [];
      var current := 0;
      while current < |code|
        invariant 0 <= current <= |code|
        invariant OptExec(code, [], mode) == OptExec(code[current..], stack, mode)
      {
        var op := code[current];
        assert code[current..][0] == op && code[current..][1..] == code[current + 1..];
        ghost var before := stack;
        if op in {Add, Subtract, Multiply, Divide, Operation.Power, Modulo} {
          if |stack| < 2 {
            return Panics;
          }
          var a, b := stack[|stack| - 1], stack[|stack| - 2];
          stack := stack[..|stack| - 2];
          if a.Known? && b.Known? {
            var v := if op == Operation.Power then FoldedPower(b.value, a.value, mode) else BinaryValue(op, b.value, a.value);
            stack := stack + [Known(v)];
          } else {
            stack := stack + [b, a, Pending(op)];
            assert stack == before + [Pending(op)];
          }
        } else if op in {Negate, Operation.Factorial} {
          if |stack| < 1 {
            return Panics;
          }
          var a := stack[|stack| - 1];
          stack := stack[..|stack| - 1];
          if a.Known? {
            stack := stack + [Known(UnaryValue(op, a.value))];
          } else {
            stack := stack + [a, Pending(op)];
            assert stack == before + [Pending(op)];
          }
        } else if op.Constant? {
          stack := stack + [Known(op.value)];
        } else if op.Call? {
          if op.arity > |stack| {
            return Panics;
          }
          var args := stack[|stack| - op.arity..];
          stack := stack[..|stack| - op.arity];
          if !AllKnown(args) {
            stack := stack + args + [Pending(op)];
            assert stack == before + [Pending(op)];
          } else {
            var result := Execute(op.index, FoldedArguments(Values(args), mode));
            if result.Err? {
              return Fails(result.error);
            }
            stack := stack + [Known(result.value)];
          }
        } else if op.GetVar? {
          stack := stack + [Pending(op)];
        } else {
          return Fails(InvalidInstruction);
        }
        assert OptStep(before, op, mode) == Done(stack);
        current := current + 1;
      }
      assert code[|code|..] == [];
      instr := Flatten(stack);
      r := Done((instr, identifierConstants));
    }

    /** `advance` */
    method Advance()
      requires Inv(State())
      modifies this, parser
      ensures parser == old(parser) && State() == Compiling.Advance(old(State()))
      decreases State().scan.Rem()
    {
      var t := parser.ScanToken();
      tokens := tokens + [t];
      if t.kind == OperationToken(Operation.Error) {
        Error(t.lexeme);
        Advance();
      }
    }

    /** `match_cur` */
    method MatchCur(op: Operation) returns (matched: bool)
      requires Inv(State())
      modifies this, parser
      ensures parser == old(parser) && (matched, State()) == Compiling.MatchCur(old(State()), op)
    {
      if !Check(State(), op) {
        return false;
      }
      Advance();
      return true;
    }

    /** `error` */
    method Error(msg: string)
      requires |tokens| >= 1
      modifies this
      ensures parser == old(parser) && State() == ErrorAt(old(State()), msg)
    {
      errorMessage := errorMessage + "Error: " + msg + " at " + tokens[|tokens| - 1].lexeme + "\n";
    }

    /** `consume` */
    method Consume(op: Operation, msg: string)
      requires Inv(State())
      modifies this, parser
      ensures parser == old(parser) && State() == Compiling.Consume(old(State()), op, msg)
    {
      Advance();
      if !PreviousIs(State(), op) {
        Error(msg);
      }
    }

    /** `expression` */
    method Expression()
      requires Inv(State())
      modifies this, parser
      ensures parser == old(parser) && State() == Compiling.Expression(old(State()))
      decreases M(State()), 6
    {
      ParsePrecedence(Term);
    }

    /** `parse_precedence`, with its loop. */
    method ParsePrecedence(prec: Precedence)
      requires Inv(State()) && prec != Precedence.None
      modifies this, parser
      ensures parser == old(parser) && State() == Compiling.ParsePrecedence(old(State()), prec)
      decreases M(State()), 5
    {
      ghost var s0 := State();
      Handle(false);
      ghost var s1 := State();
      while Le(prec, GetRule(Current(State()).kind).precedence)
        invariant parser == old(parser) && Inv(State()) && M(State()) <= M(s0)
        invariant InfixLoop(State(), prec) == InfixLoop(s1, prec)
        decreases M(State())
      {
        EndDoesNotBind(Current(State()).kind, prec);
        Handle(true);
      }
    }

    /** One round of `parse_precedence`: read a token and run its prefix or infix handler. */
    method Handle(infix: bool)
      requires Inv(State())
      modifies this, parser
      ensures parser == old(parser) && State() == Compiling.Handle(old(State()), infix)
      decreases M(State()), 3
    {
      Advance();
      CallParseFn(HandlerOf(State(), infix));
    }

    /** `call_parse_fn` */
    method CallParseFn(f: ParseFn)
      requires Inv(State()) && |tokens| >= 2 && (f != ParseFn.None ==> PrevLive(State()))
      modifies this, parser
      ensures parser == old(parser) && State() == Compiling.CallParseFn(old(State()), f)
      decreases P(State()), 2
    {
      match f {
        case None => Error("Expected expression");
        case Binary => Binary();
        case Grouping => Grouping();
        case Unary => Unary();
        case Number => Number();
        case Call => Call();
        case FunctionCall(fun) => FunctionCall(fun);
        case Variable => Variable();
        case Factorial => Factorial();
      }
    }

    /** `factorial` */
    method Factorial()
      requires Inv(State())
      modifies this
      ensures parser == old(parser) && State() == Compiling.Factorial(old(State()))
    {
      Push(Operation.Factorial);
    }

    /** `call`: nothing to do. */
    method Call()
      requires Inv(State())
      ensures State() == Compiling.Call(State())
    {
    }

    /** `variable` */
    method Variable()
      requires Inv(State()) && |tokens| >= 2
      modifies this
      ensures parser == old(parser) && State() == Compiling.Variable(old(State()))
    {
      var index := IdentifierConstant(tokens[|tokens| - 2].lexeme);
      Push(GetVar(index));
    }

    /** `identifier_constant`: the first slot holding `name`, appended when there is none. */
    method IdentifierConstant(name: string) returns (index: nat)
      modifies this
      ensures parser == old(parser) && tokens == old(tokens) && instr == old(instr)
      ensures errorMessage == old(errorMessage)
      ensures (index, identifierConstants) == Compiling.IdentifierConstant(old(identifierConstants), name)
    {
      match Position(identifierConstants, name) {
        case Some(i) => index := i;
        case None =>
          identifierConstants := identifierConstants + [name];
          index := |identifierConstants| - 1;
      }
    }

    /** `function_call` */
    method FunctionCall(fun: Function)
      requires Inv(State()) && PrevLive(State())
      modifies this, parser
      ensures parser == old(parser) && State() == Compiling.FunctionCall(old(State()), fun)
      decreases P(State()), 1
    {
      Consume(OpenParenthesis, "Expected '(' after function name");
      var argCount := ArgumentList();
      Push(Operation.Call(Repr(fun), argCount));
    }

    /** `argument_list`, with its loop. */
    method ArgumentList() returns (argCount: nat)
      requires Inv(State())
      modifies this, parser
      ensures parser == old(parser) && (argCount, State()) == Compiling.ArgumentList(old(State()))
      decreases M(State()), 9
    {
      ghost var s0 := State();
      argCount := 0;
      if !Check(State(), CloseParenthesis) {
        var more := true;
        while more
          invariant parser == old(parser) && Inv(State()) && M(State()) <= M(s0)
          invariant more ==> ArgLoop(State(), argCount) == ArgLoop(s0, 0)
          invariant !more ==> (argCount, State()) == ArgLoop(s0, 0)
          decreases M(State()), more
        {
          Expression();
          if argCount == 255 {
            Error("Cannot have more than 255 arguments");
          }
          argCount := argCount + 1;
          more := MatchCur(Comma);
        }
      }
      Consume(CloseParenthesis, "Expected ')' after function argument list");
    }

    /** `number` */
    method Number()
      requires Inv(State()) && |tokens| >= 2
      modifies this
      ensures parser == old(parser) && State() == Compiling.Number(old(State()))
    {
      var prev := tokens[|tokens| - 2];
      match Float.ParseF64(prev.lexeme) {
        case Some(v) => Push(Constant(v));
        case None =>
          if prev.kind.OperationToken? && prev.kind.op.Constant? {
            Push(Constant(prev.kind.op.value));
          } else {
            Error("Invalid number");
          }
      }
    }

    /** `grouping` */
    method Grouping()
      requires Inv(State()) && PrevLive(State())
      modifies this, parser
      ensures parser == old(parser) && State() == Compiling.Grouping(old(State()))
      decreases P(State()), 1
    {
      Expression();
      Consume(CloseParenthesis, "Expected ')' after expression");
    }

    /** `unary` */
    method Unary()
      requires Inv(State()) && PrevLive(State())
      modifies this, parser
      ensures parser == old(parser) && State() == Compiling.Unary(old(State()))
      decreases P(State()), 1
    {
      ghost var s := State();
      var operatorType := tokens[|tokens| - 2].kind;
      assert operatorType == Previous(s).kind;
      ParsePrecedence(Precedence.Unary);
      assert State() == Compiling.ParsePrecedence(s, Precedence.Unary);
      if operatorType == OperationToken(Subtract) {
        Push(Negate);
      }
    }

    /** `binary` */
    method Binary()
      requires Inv(State()) && PrevLive(State())
      modifies this, parser
      ensures parser == old(parser) && State() == Compiling.Binary(old(State()))
      decreases P(State()), 1
    {
      ghost var s := State();
      var operator := tokens[|tokens| - 2].kind;
      assert operator == Previous(s).kind;
      ParsePrecedence(NextPrecedence(GetRule(operator).precedence));
      ghost var s1 := State();
      assert s1 == Compiling.ParsePrecedence(s, NextPrecedence(GetRule(operator).precedence));
      if IsBinaryOperator(operator) {
        Push(operator.op);
      } else {
        Error("Invalid binary operator");
      }
    }
  }
}
