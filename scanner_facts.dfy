/** What the scanner promises: end of input, number and identifier shapes, `mult`, keywords. */
module ScannerFacts {

  import opened Wrappers
  import opened Float
  import opened Functions
  import opened Scanning

  /** At the end of the text every call returns EOF and leaves the cursor where it is. */
  lemma EndOfInputRepeats(c: Cursor)
    requires c.Valid() && IsAtEnd(c.code, c.cur)
    ensures Scan(c).0.kind == OperationToken(EOF) && Scan(c).1.cur == c.cur
    ensures Scan(Scan(c).1) == Scan(c)
  {
  }

  /**
   * A number token is a maximal digit run, followed by `.` and a second digit run
   * only when a digit follows the `.`; its lexeme parses as an `f64` literal and
   * `mult` is set after it.
   */
  lemma NumberTokenIsMaximal(c: Cursor)
    requires c.Valid() && !IsAtEnd(c.code, c.cur) && IsDigit(c.code[c.cur])
    ensures var (t, d) := Scan(c);
      && t.kind == OperationToken(Constant(Lit(t.lexeme)))
      && ParseF64(t.lexeme) == Some(Lit(t.lexeme))
      && d.mult && d.cur == c.cur + |t.lexeme|
      && !IsDigit(Peek(c.code, d.cur))
      && ('.' !in t.lexeme ==> !(Peek(c.code, d.cur) == '.' && IsDigit(PeekNext(c.code, d.cur))))
  {
    NumberTextIsDecimal(c.code, c.cur);
  }

  /** The text `NumberEnd` delimits is a decimal literal that cannot be extended. */
  lemma {:induction false} NumberTextIsDecimal(code: string, i: nat)
    requires i < |code| && IsDigit(code[i])
    ensures var e := NumberEnd(code, i + 1);
      && IsDecimal(code[i..e]) && !IsDigit(Peek(code, e))
      && ('.' !in code[i..e] ==> !(Peek(code, e) == '.' && IsDigit(PeekNext(code, e))))
  {
    var j := DigitsEnd(code, i + 1);
    if Peek(code, j) == '.' && IsDigit(PeekNext(code, j)) {
      var e := DigitsEnd(code, j + 1);
      assert DigitsEnd(code, j + 1) == DigitsEnd(code, j + 2);
      TwoDigitRunsAreDecimal(code, i, j, e);
      assert NumberEnd(code, i + 1) == e && code[i..e][j - i] == '.';
    } else {
      DigitRunIsDecimal(code, i, j);
      assert NumberEnd(code, i + 1) == j;
    }
  }

  /** A non-empty run of digits is a decimal literal without a dot. */
  lemma DigitRunIsDecimal(code: string, i: nat, j: nat)
    requires i < j <= |code|
    requires forall k :: i <= k < j ==> IsDigit(code[k])
    ensures IsDecimal(code[i..j]) && '.' !in code[i..j]
  {
    var s := code[i..j];
    assert AllDigits(s);
  }

  /** Two non-empty digit runs joined by a dot make a decimal literal. */
  lemma TwoDigitRunsAreDecimal(code: string, i: nat, j: nat, e: nat)
    requires i < j && j + 1 < e <= |code| && code[j] == '.'
    requires forall k :: i <= k < j ==> IsDigit(code[k])
    requires forall k :: j + 1 <= k < e ==> IsDigit(code[k])
    ensures IsDecimal(code[i..e])
  {
    var s := code[i..e];
    assert s[j - i] == '.';
    assert s[..j - i] == code[i..j] && s[j - i + 1..] == code[j + 1..e];
    assert AllDigits(s[..j - i]) && AllDigits(s[j - i + 1..]);
  }

  /** In "3." the dot is not part of the number. */
  lemma TrailingDotStaysUnconsumed()
    ensures Scan(Cursor("3.", 0, 0, false))
      == (Token(OperationToken(Constant(Lit("3"))), 0, "3"), Cursor("3.", 1, 0, true))
  {
    assert DigitsEnd("3.", 1) == 1;
    assert "3."[0..1] == "3";
  }

  /**
   * With `mult` set, a letter or `(` first yields a `*` with an empty lexeme and
   * leaves the cursor on that character with `mult` cleared; the next call then
   * reads the character as if no multiplication had been pending.
   */
  lemma ImplicitMultiplication(c: Cursor)
    requires c.Valid() && c.mult && !IsAtEnd(c.code, c.cur)
    requires IsAlpha(c.code[c.cur]) || c.code[c.cur] == '('
    ensures Scan(c) == (Token(OperationToken(Multiply), c.cur, ""), c.(start := c.cur, mult := false))
    ensures Scan(Scan(c).1) == Scan(c.(mult := false))
    ensures Scan(Scan(c).1).0.kind != OperationToken(Multiply)
  {
    assert c.code[c.cur..c.cur] == "";
  }

  /**
   * An identifier is a maximal run of letters, digits and `_` that starts with a
   * letter or `_`; a keyword clears `mult`, a plain identifier sets it.
   */
  lemma IdentifierTokenIsMaximal(c: Cursor)
    requires c.Valid() && !c.mult && !IsAtEnd(c.code, c.cur) && IsAlpha(c.code[c.cur])
    ensures var (t, d) := Scan(c);
      && c.cur < d.cur && t.lexeme == c.code[c.cur..d.cur]
      && (forall k :: c.cur <= k < d.cur ==> IsWordChar(c.code[k]))
      && !IsWordChar(Peek(c.code, d.cur))
      && t.kind == IdentifierType(c.code, c.cur, d.cur)
      && (d.mult <==> t.kind == IdentifierKind)
  {
  }

  /** The scanner does not skip white space: a blank is an unexpected character. */
  lemma BlankIsAnError(c: Cursor)
    requires c.Valid() && !IsAtEnd(c.code, c.cur) && c.code[c.cur] == ' '
    ensures Scan(c) == (ErrorToken(c.cur, "Unexpected character"), Cursor(c.code, c.cur + 1, c.cur, false))
  {
  }

  /** The character an operator token is spelled with. */
  function OperatorChar(kind: TokenType): Option<char>
  {
    match kind
    case OperationToken(Add) => Some('+')
    case OperationToken(Subtract) => Some('-')
    case OperationToken(Multiply) => Some('*')
    case OperationToken(Divide) => Some('/')
    case OperationToken(Power) => Some('^')
    case OperationToken(OpenParenthesis) => Some('(')
    case OperationToken(CloseParenthesis) => Some(')')
    case OperationToken(Comma) => Some(',')
    case OperationToken(Factorial) => Some('!')
    case OperationToken(Modulo) => Some('%')
    case _ => Option.None
  }

  /** The characters that spell an operator. */
  const OperatorChars: set<char> := {'+', '-', '*', '/', '^', '(', ')', ',', '!', '%'}

  /**
   * A character that is neither a digit nor a letter is a one-character operator
   * token spelled with that very character, or an error token with the message
   * "Unexpected character"; the exception is `(` with `mult` set, which first
   * gives the implicit `*`. `mult` is cleared in every case.
   */
  lemma OperatorCharacters(c: Cursor)
    requires c.Valid() && !IsAtEnd(c.code, c.cur)
    requires !IsDigit(c.code[c.cur]) && !IsAlpha(c.code[c.cur])
    ensures var (t, d) := Scan(c);
      && !d.mult
      && (t.kind == OperationToken(Error) <==> c.code[c.cur] !in OperatorChars)
      && (t.kind == OperationToken(Error) ==> t.lexeme == "Unexpected character" && d.cur == c.cur + 1)
      && (t.kind != OperationToken(Error) ==>
            || (t.lexeme == [c.code[c.cur]] && OperatorChar(t.kind) == Some(c.code[c.cur]))
            || (t.lexeme == "" && c.code[c.cur] == '(' && c.mult && t.kind == OperationToken(Multiply)))
  {
    var code, i := c.code, c.cur;
    var ch := code[i];
    assert code[i..i + 1] == [ch];
    assert code[i..i] == "";
    var (t, e) := OperatorToken(code, i, ch, c.mult);
    assert Scan(c) == (t, Cursor(code, e, i, false));
    match ch
    case '+' => case '-' => case '*' => case '/' => case '^' => case '(' =>
    case ')' => case ',' => case '!' => case '%' =>
    case _ => assert ch !in OperatorChars;
  }

  /** The keywords `check_for_keyword` decides: they match only at their exact length. */
  function ExactKeyword(w: string): Option<TokenType>
  {
    match w
    case "abs" => Some(FunctionToken(Abs))
    case "acos" => Some(FunctionToken(Acos))
    case "asin" => Some(FunctionToken(Asin))
    case "atan" => Some(FunctionToken(Atan))
    case "floor" => Some(FunctionToken(Floor))
    case "round" => Some(FunctionToken(Round))
    case "sqrt" => Some(FunctionToken(Sqrt))
    case "ceil" => Some(FunctionToken(Ceil))
    case "ln" => Some(FunctionToken(Ln))
    case "log" => Some(FunctionToken(Log))
    case "exp" => Some(FunctionToken(Exp))
    case "pi" => Some(OperationToken(Constant(Pi)))
    case "e" => Some(OperationToken(Constant(Euler)))
    case _ => Option.None
  }

  predicate IsExactKind(k: TokenType)
  {
    k in {FunctionToken(Abs), FunctionToken(Acos), FunctionToken(Asin), FunctionToken(Atan),
          FunctionToken(Floor), FunctionToken(Round), FunctionToken(Sqrt), FunctionToken(Ceil),
          FunctionToken(Ln), FunctionToken(Log), FunctionToken(Exp),
          OperationToken(Constant(Pi)), OperationToken(Constant(Euler))}
  }

  /** For those keywords, an identifier spelled like the keyword is that keyword. */
  lemma ExactKeywordIsRecognised(code: string, s: nat, e: nat)
    requires s < e <= |code|
    ensures ExactKeyword(code[s..e]).Some? ==> IdentifierType(code, s, e) == ExactKeyword(code[s..e]).value
  {
    var w := code[s..e];
    if e - s >= 1 { assert w[1..] == code[s + 1..e]; }
    if e - s >= 2 { assert w[2..] == code[s + 2..e]; }
  }

  /**
   * Conversely, the identifier is recognised as one of those keywords only when it
   * is spelled exactly like it: a longer or shorter identifier is a plain variable.
   */
  lemma ExactKeywordIsSpelledOut(code: string, s: nat, e: nat)
    requires s < e <= |code|
    ensures IsExactKind(IdentifierType(code, s, e)) ==> ExactKeyword(code[s..e]) == Some(IdentifierType(code, s, e))
  {
    if code[s] == 'a' {
      SpelledOutFromA(code, s, e);
    } else if code[s] in "frsc" {
      SpelledOutRounding(code, s, e);
    } else {
      SpelledOutOtherwise(code, s, e);
    }
  }

  /** The keywords starting with `a`: abs, acos, asin and atan. */
  lemma SpelledOutFromA(code: string, s: nat, e: nat)
    requires s < e <= |code| && code[s] == 'a'
    ensures IsExactKind(IdentifierType(code, s, e)) ==> ExactKeyword(code[s..e]) == Some(IdentifierType(code, s, e))
  {
    var w := code[s..e];
    if e - s >= 2 { assert w == [w[0], w[1]] + w[2..]; }
    var k := IdentifierType(code, s, e);
    if k == FunctionToken(Abs) { assert w == "abs"; }
    else if k == FunctionToken(Acos) { assert w == "acos"; }
    else if k == FunctionToken(Asin) { assert w == "asin"; }
    else if k == FunctionToken(Atan) { assert w == "atan"; }
  }

  /** The keywords starting with `f`, `r`, `s` or `c`: floor, round, sqrt and ceil. */
  lemma SpelledOutRounding(code: string, s: nat, e: nat)
    requires s < e <= |code| && code[s] in "frsc"
    ensures IsExactKind(IdentifierType(code, s, e)) ==> ExactKeyword(code[s..e]) == Some(IdentifierType(code, s, e))
  {
    var w := code[s..e];
    assert w == [w[0]] + w[1..];
    if e - s >= 2 { assert w == [w[0], w[1]] + w[2..]; }
    var k := IdentifierType(code, s, e);
    if k == FunctionToken(Floor) { assert w == "floor"; }
    else if k == FunctionToken(Round) { assert w == "round"; }
    else if k == FunctionToken(Sqrt) { assert w == "sqrt"; }
    else if k == FunctionToken(Ceil) { assert w == "ceil"; }
  }

  /** The other exactly matched keywords: ln, log, exp, pi and e. */
  lemma SpelledOutOtherwise(code: string, s: nat, e: nat)
    requires s < e <= |code| && code[s] != 'a' && code[s] !in "frsc"
    ensures IsExactKind(IdentifierType(code, s, e)) ==> ExactKeyword(code[s..e]) == Some(IdentifierType(code, s, e))
  {
    var w := code[s..e];
    assert w == [w[0]] + w[1..];
    if e - s >= 2 { assert w == [w[0], w[1]] + w[2..]; }
    var k := IdentifierType(code, s, e);
    if k == FunctionToken(Ln) { assert w == "ln"; }
    else if k == FunctionToken(Log) { assert w == "log"; }
    else if k == FunctionToken(Exp) { assert w == "exp"; }
    else if k == OperationToken(Constant(Pi)) { assert w == "pi"; }
    else if k == OperationToken(Constant(Euler)) { assert w == "e"; }
  }

  /** `trunc` is never recognised: its check compares a 2-character slice with "unc". */
  lemma TruncIsNeverRecognised(code: string, s: nat, e: nat)
    requires s < e <= |code|
    ensures IdentifierType(code, s, e) != FunctionToken(Trunc)
  {
  }

  /**
   * sin, cos and tan match by prefix: the identifier must start with the three
   * letters and the text must go on after them; a fourth letter `h` selects the
   * hyperbolic function, anything else the plain one ("sinx" is `sin`, and "sin"
   * at the very end of the text is a variable).
   */
  lemma SineMatchesByPrefix(code: string, s: nat, e: nat)
    requires s < e <= |code| && e == WordEnd(code, s + 1)
    ensures IdentifierType(code, s, e) == FunctionToken(Sin)
      <==> e - s >= 3 && code[s..s + 3] == "sin" && s + 4 <= |code| && code[s + 3] != 'h'
    ensures IdentifierType(code, s, e) == FunctionToken(Sinh)
      <==> e - s >= 4 && code[s..s + 4] == "sinh"
  {
    PrefixLetters(code, s, e);
  }

  /** The cosine family, matched by prefix in the same way as the sine family. */
  lemma CosineMatchesByPrefix(code: string, s: nat, e: nat)
    requires s < e <= |code| && e == WordEnd(code, s + 1)
    ensures IdentifierType(code, s, e) == FunctionToken(Cos)
      <==> e - s >= 3 && code[s..s + 3] == "cos" && s + 4 <= |code| && code[s + 3] != 'h'
    ensures IdentifierType(code, s, e) == FunctionToken(Cosh)
      <==> e - s >= 4 && code[s..s + 4] == "cosh"
  {
    PrefixLetters(code, s, e);
  }

  /** The tangent family, matched by prefix in the same way as the sine family. */
  lemma TangentMatchesByPrefix(code: string, s: nat, e: nat)
    requires s < e <= |code| && e == WordEnd(code, s + 1)
    ensures IdentifierType(code, s, e) == FunctionToken(Tan)
      <==> e - s >= 3 && code[s..s + 3] == "tan" && s + 4 <= |code| && code[s + 3] != 'h'
    ensures IdentifierType(code, s, e) == FunctionToken(Tanh)
      <==> e - s >= 4 && code[s..s + 4] == "tanh"
  {
    PrefixLetters(code, s, e);
  }

  /** The first three and four characters of an identifier, letter by letter. */
  lemma PrefixLetters(code: string, s: nat, e: nat)
    requires s < e <= |code|
    ensures e - s >= 3 ==> code[s..s + 3] == [code[s], code[s + 1], code[s + 2]]
    ensures e - s >= 4 ==> code[s..s + 4] == [code[s], code[s + 1], code[s + 2], code[s + 3]]
  {
    if e - s >= 3 {
      assert code[s..s + 3] == [code[s], code[s + 1], code[s + 2]];
    }
    if e - s >= 4 {
      assert code[s..s + 4] == [code[s], code[s + 1], code[s + 2], code[s + 3]];
    }
  }
}
