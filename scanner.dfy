/**
 * The formula scanner: turns the text of a formula into tokens one at a time,
 * with a cursor into the text and one flag, `mult`, that inserts the `*` of an
 * implicit multiplication (`3x`, `2(x+1)`, `x y`).
 */
module Scanning {

  import opened Wrappers
  import opened Float
  import opened Functions

  /** The instructions of the expression machine, and the token kinds of the scanner. */
  datatype Operation =
    | None | Add | Subtract | Multiply | Divide | Power | Negate | Factorial | Modulo
    | Constant(value: F64)
    | OpenParenthesis | CloseParenthesis | Comma | EOF | Error
    | Call(index: U8, arity: nat)      /* function id and number of arguments */
    | Identifier
    | GetVar(slot: nat)                /* index into the symbol table */

  datatype TokenType = OperationToken(op: Operation) | FunctionToken(fn: Function)

  datatype Token = Token(kind: TokenType, startPos: nat, lexeme: string)

  /** The scanner's fields: the text, the cursor, the start of the current token, `mult`. */
  datatype Cursor = Cursor(code: string, cur: nat, start: nat, mult: bool)
  {
    ghost predicate Valid() { start <= cur <= |code| }

    /** A measure every non-EOF token decreases: twice the characters left, plus `mult`. */
    function Rem(): nat
      requires Valid()
    {
      2 * (|code| - cur) + (if mult then 1 else 0)
    }
  }

  const IdentifierKind := OperationToken(Identifier)

  /** Letters and `_`. */
  predicate IsAlpha(c: char) { 'a' <= c <= 'z' || 'A' <= c <= 'Z' || c == '_' }

  predicate IsDigit(c: char) { '0' <= c <= '9' }

  predicate IsWordChar(c: char) { IsAlpha(c) || IsDigit(c) }

  /** `is_at_end` */
  predicate IsAtEnd(code: string, cur: nat) { cur >= |code| }

  /** `peek`: the character under the cursor, NUL at the end. */
  function Peek(code: string, cur: nat): char
  {
    if IsAtEnd(code, cur) then '\0' else code[cur]
  }

  /** `peek_next`: the character after the cursor, NUL when there is none. */
  function PeekNext(code: string, cur: nat): char
  {
    if IsAtEnd(code, cur) || cur + 1 >= |code| then '\0' else code[cur + 1]
  }

  /** `create_token`: the lexeme is the text between the token start and the cursor. */
  function CreateToken(code: string, start: nat, cur: nat, kind: TokenType): Token
    requires start <= cur <= |code|
  {
    Token(kind, start, code[start..cur])
  }

  /** `error_token`: the lexeme is the message. */
  function ErrorToken(start: nat, message: string): Token
  {
    Token(OperationToken(Error), start, message)
  }

  /** Where the digit run starting at `i` ends: the first index at or after `i` not holding a digit. */
  function DigitsEnd(code: string, i: nat): (e: nat)
    requires i <= |code|
    ensures i <= e <= |code|
    ensures forall k :: i <= k < e ==> IsDigit(code[k])
    ensures !IsDigit(Peek(code, e))
    decreases |code| - i
  {
    if IsDigit(Peek(code, i)) then DigitsEnd(code, i + 1) else i
  }

  /**
   * Where a number whose first digit is just before `i` ends: the rest of the
   * digit run, then `.` and a second digit run only when a digit follows the `.`.
   */
  function NumberEnd(code: string, i: nat): nat
    requires i <= |code|
  {
    var j := DigitsEnd(code, i);
    if Peek(code, j) == '.' && IsDigit(PeekNext(code, j)) then DigitsEnd(code, j + 1) else j
  }

  /** Where the run of letters, digits and `_` starting at `i` ends. */
  function WordEnd(code: string, i: nat): (e: nat)
    requires i <= |code|
    ensures i <= e <= |code|
    ensures forall k :: i <= k < e ==> IsWordChar(code[k])
    ensures !IsWordChar(Peek(code, e))
    decreases |code| - i
  {
    if IsWordChar(Peek(code, i)) then WordEnd(code, i + 1) else i
  }

  /**
   * `check_for_keyword`: the identifier between `start` and `cur` is `kind` when it is
   * exactly `offset + length` long and its last `length` characters spell `rest`;
   * otherwise a plain identifier.
   */
  function CheckForKeyword(code: string, start: nat, cur: nat, offset: nat, length: nat,
                           rest: string, kind: TokenType): TokenType
    requires start <= cur <= |code|
  {
    if cur - start == offset + length && code[start + offset..start + offset + length] == rest then kind
    else IdentifierKind
  }

  /**
   * `identifier_type`: which keyword, if any, the identifier between `start` and
   * `cur` is. The families sin/sinh, cos/cosh and tan/tanh are decided by the
   * third and fourth characters of the text from `start`, not by the identifier.
   */
  function IdentifierType(code: string, start: nat, cur: nat): TokenType
    requires start < cur <= |code|
  {
    var long := cur - start > 1;
    match code[start]
    case 'a' =>
      if !long then IdentifierKind
      else (match code[start + 1]
        case 'b' => CheckForKeyword(code, start, cur, 2, 1, "s", FunctionToken(Abs))
        case 'c' => CheckForKeyword(code, start, cur, 2, 2, "os", FunctionToken(Acos))
        case 's' => CheckForKeyword(code, start, cur, 2, 2, "in", FunctionToken(Asin))
        case 't' => CheckForKeyword(code, start, cur, 2, 2, "an", FunctionToken(Atan))
        case _ => IdentifierKind)
    case 'f' =>
      if long && code[start + 1] == 'l' then CheckForKeyword(code, start, cur, 2, 3, "oor", FunctionToken(Floor))
      else IdentifierKind
    case 'r' => CheckForKeyword(code, start, cur, 1, 4, "ound", FunctionToken(Round))
    case 's' =>
      if !long then IdentifierKind
      else (match code[start + 1]
        case 'i' => HyperbolicFamily(code, start, 'n', Sin, Sinh)
        case 'q' => CheckForKeyword(code, start, cur, 2, 2, "rt", FunctionToken(Sqrt))
        case _ => IdentifierKind)
    case 'c' =>
      if !long then IdentifierKind
      else (match code[start + 1]
        case 'o' => HyperbolicFamily(code, start, 's', Cos, Cosh)
        case 'e' => CheckForKeyword(code, start, cur, 2, 2, "il", FunctionToken(Ceil))
        case _ => IdentifierKind)
    case 't' =>
      if !long then IdentifierKind
      else (match code[start + 1]
        case 'r' => CheckForKeyword(code, start, cur, 2, 2, "unc", FunctionToken(Trunc))
        case 'a' => HyperbolicFamily(code, start, 'n', Tan, Tanh)
        case _ => IdentifierKind)
    case 'l' =>
      if !long then IdentifierKind
      else (match code[start + 1]
        case 'n' => CheckForKeyword(code, start, cur, 2, 0, "", FunctionToken(Ln))
        case 'o' => CheckForKeyword(code, start, cur, 2, 1, "g", FunctionToken(Log))
        case _ => IdentifierKind)
    case 'p' => CheckForKeyword(code, start, cur, 1, 1, "i", OperationToken(Constant(Pi)))
    case 'e' =>
      if long then
        (if code[start + 1] == 'x' then CheckForKeyword(code, start, cur, 2, 1, "p", FunctionToken(Exp))
         else IdentifierKind)
      else CheckForKeyword(code, start, cur, 1, 0, "", OperationToken(Constant(Euler)))
    case _ => IdentifierKind
  }

  /**
   * The sin/cos/tan branch of `identifier_type` once the first two characters
   * matched: the third character of the text must be `third`, and the fourth
   * decides between the plain and the hyperbolic function; text that ends
   * before either gives a plain identifier.
   */
  function HyperbolicFamily(code: string, start: nat, third: char, plain: Function,
                            hyperbolic: Function): TokenType
  {
    if |code| < start + 3 then IdentifierKind
    else if code[start + 2] != third then IdentifierKind
    else if |code| < start + 4 then IdentifierKind
    else if code[start + 3] == 'h' then FunctionToken(hyperbolic)
    else FunctionToken(plain)
  }

  /** The token `scan_token` makes for a character that is neither a digit nor a letter. */
  function OperatorToken(code: string, start: nat, ch: char, mult: bool): (Token, nat)
    requires start < |code|
  {
    match ch
    case '+' => (CreateToken(code, start, start + 1, OperationToken(Add)), start + 1)
    case '-' => (CreateToken(code, start, start + 1, OperationToken(Subtract)), start + 1)
    case '*' => (CreateToken(code, start, start + 1, OperationToken(Multiply)), start + 1)
    case '/' => (CreateToken(code, start, start + 1, OperationToken(Divide)), start + 1)
    case '^' => (CreateToken(code, start, start + 1, OperationToken(Power)), start + 1)
    case '(' =>
      if mult then (CreateToken(code, start, start, OperationToken(Multiply)), start)
      else (CreateToken(code, start, start + 1, OperationToken(OpenParenthesis)), start + 1)
    case ')' => (CreateToken(code, start, start + 1, OperationToken(CloseParenthesis)), start + 1)
    case ',' => (CreateToken(code, start, start + 1, OperationToken(Comma)), start + 1)
    case '!' => (CreateToken(code, start, start + 1, OperationToken(Factorial)), start + 1)
    case '%' => (CreateToken(code, start, start + 1, OperationToken(Modulo)), start + 1)
    case _ => (ErrorToken(start, "Unexpected character"), start + 1)
  }

  /** The identifier or keyword starting at `start`, and the cursor after it. */
  function WordToken(code: string, start: nat): (r: (Token, Cursor))
    requires start < |code|
    ensures r.1.Valid() && r.1.code == code && r.1.start == start == r.0.startPos < r.1.cur
    ensures r.0.kind != OperationToken(EOF) && r.0.kind != OperationToken(Error)
    ensures r.0.lexeme == code[start..r.1.cur]
  {
    var e := WordEnd(code, start + 1);
    var kind := IdentifierType(code, start, e);
    (CreateToken(code, start, e, kind), Cursor(code, e, start, kind == IdentifierKind))
  }

  /** `scan_token`: the next token and the scanner's fields afterwards. */
  function Scan(c: Cursor): (r: (Token, Cursor))
    requires c.Valid()
    ensures r.1.Valid() && r.1.code == c.code && r.1.start == c.cur == r.0.startPos
    ensures IsAtEnd(c.code, c.cur) ==> r == (Token(OperationToken(EOF), c.cur, ""), c.(start := c.cur))
    ensures !IsAtEnd(c.code, c.cur) ==> r.0.kind != OperationToken(EOF) && r.1.Rem() < c.Rem()
    ensures r.0.kind != OperationToken(Error) ==> r.0.lexeme == c.code[c.cur..r.1.cur]
  {
    var code, start := c.code, c.cur;
    if IsAtEnd(code, start) then
      assert code[start..start] == "";
      (CreateToken(code, start, start, OperationToken(EOF)), c.(start := start))
    else
      var ch := code[start];
      if IsDigit(ch) then
        var e := NumberEnd(code, start + 1);
        (CreateToken(code, start, e, OperationToken(Constant(Lit(code[start..e])))),
         Cursor(code, e, start, true))
      else if IsAlpha(ch) then
        if c.mult then (CreateToken(code, start, start, OperationToken(Multiply)), Cursor(code, start, start, false))
        else WordToken(code, start)
      else
        var (t, e) := OperatorToken(code, start, ch, c.mult);
        (t, Cursor(code, e, start, false))
  }

  /** The scanner object (`Parser` in the source): its fields change as tokens are read. */
  class Parser {
    var curPos: nat
    var code: string
    var startPos: nat
    var mult: bool

    ghost predicate Valid()
      reads this
    {
      startPos <= curPos <= |code|
    }

    /** The fields as a value. */
    function State(): Cursor
      reads this
    {
      Cursor(code, curPos, startPos, mult)
    }

    /** `Parser::new`: both positions at 0 and no pending multiplication. */
    constructor (text: string)
      ensures Valid() && State() == Cursor(text, 0, 0, false)
    {
      curPos, code, startPos, mult := 0, text, 0, false;
    }

    /** `advance`: the character under the cursor (NUL at the end), then one step on. */
    method Advance() returns (c: char)
      modifies this
      ensures c == Peek(old(code), old(curPos))
      ensures State() == old(State()).(cur := old(curPos) + 1)
    {
      c := Peek(code, curPos);
      curPos := curPos + 1;
    }

    /** `number`, called just after the first digit was consumed. */
    method Number() returns (t: Token)
      requires Valid() && startPos < curPos
      modifies this
      ensures Valid() && State() == old(State()).(cur := NumberEnd(old(code), old(curPos)))
      ensures t == CreateToken(code, startPos, curPos, OperationToken(Constant(Lit(code[startPos..curPos]))))
    {
      SkipDigits();
      if Peek(code, curPos) == '.' && IsDigit(PeekNext(code, curPos)) {
        var _ := Advance();
        SkipDigits();
      }
      t := CreateToken(code, startPos, curPos, OperationToken(Constant(Lit(code[startPos..curPos]))));
    }

    /** One of the two `while` loops of `number`: step over a run of digits. */
    method SkipDigits()
      requires Valid()
      modifies this
      ensures Valid() && State() == old(State()).(cur := DigitsEnd(old(code), old(curPos)))
    {
      while IsDigit(Peek(code, curPos))
        invariant Valid() && State() == old(State()).(cur := curPos)
        invariant DigitsEnd(code, curPos) == DigitsEnd(code, old(curPos))
        decreases |code| - curPos
      {
        var _ := Advance();
      }
    }

    /**
     * `identifier`, called just after the first letter was consumed and with `mult`
     * set: a keyword clears `mult`, a plain identifier leaves it.
     */
    method Identifier() returns (t: Token)
      requires Valid() && startPos < curPos
      modifies this
      ensures Valid() && code == old(code) && startPos == old(startPos)
      ensures curPos == WordEnd(code, old(curPos))
      ensures t == CreateToken(code, startPos, curPos, IdentifierType(code, startPos, curPos))
      ensures mult == (old(mult) && t.kind == IdentifierKind)
    {
      while IsWordChar(Peek(code, curPos))
        invariant Valid() && State() == old(State()).(cur := curPos)
        invariant WordEnd(code, curPos) == WordEnd(code, old(curPos))
        decreases |code| - curPos
      {
        var _ := Advance();
      }
      var tokenType := IdentifierType(code, startPos, curPos);
      if tokenType != IdentifierKind {
        mult := false;
      }
      t := CreateToken(code, startPos, curPos, tokenType);
    }

    /** `scan_token`. */
    method ScanToken() returns (t: Token)
      requires Valid()
      modifies this
      ensures Valid() && (t, State()) == Scan(old(State()))
    {
      var wasPos := curPos;
      startPos := curPos;
      if IsAtEnd(code, curPos) {
        t := CreateToken(code, startPos, curPos, OperationToken(EOF));
        return;
      }
      var c := Advance();
      if IsDigit(c) {
        mult := true;
        t := Number();
        return;
      }
      if IsAlpha(c) {
        if mult {
          mult := false;
          curPos := wasPos;
          t := CreateToken(code, startPos, curPos, OperationToken(Multiply));
          return;
        }
        mult := true;
        t := Identifier();
        return;
      }
      t := Operator(c, wasPos);
    }

    /** The part of `scan_token` after a character other than a digit or a letter was consumed. */
    method Operator(c: char, wasPos: nat) returns (t: Token)
      requires Valid() && wasPos == startPos < |code| && curPos == startPos + 1 && c == code[startPos]
      modifies this
      ensures Valid()
      ensures State() == old(State()).(cur := curPos, mult := false)
      ensures (t, curPos) == OperatorToken(old(code), old(startPos), c, old(mult))
    {
      match c {
        case '+' => t := CreateToken(code, startPos, curPos, OperationToken(Add));
        case '-' => t := CreateToken(code, startPos, curPos, OperationToken(Subtract));
        case '*' => t := CreateToken(code, startPos, curPos, OperationToken(Multiply));
        case '/' => t := CreateToken(code, startPos, curPos, OperationToken(Divide));
        case '^' => t := CreateToken(code, startPos, curPos, OperationToken(Power));
        case '(' =>
          if mult {
            mult := false;
            curPos := wasPos;
            t := CreateToken(code, startPos, curPos, OperationToken(Multiply));
          } else {
            t := CreateToken(code, startPos, curPos, OperationToken(OpenParenthesis));
          }
        case ')' => t := CreateToken(code, startPos, curPos, OperationToken(CloseParenthesis));
        case ',' => t := CreateToken(code, startPos, curPos, OperationToken(Comma));
        case '!' => t := CreateToken(code, startPos, curPos, OperationToken(Factorial));
        case '%' => t := CreateToken(code, startPos, curPos, OperationToken(Modulo));
        case _ => t := ErrorToken(startPos, "Unexpected character");
      }
      mult := false;
    }
  }
}
