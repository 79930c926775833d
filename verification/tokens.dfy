/** The evaluator's fixed tables (operators, precedences, functions), the
    character classes of the lexer, the token predicates `isNumber` and
    `isVariable`, and the arithmetic applied to values. */
module Tokens {

  /** Every way an evaluation can fail: each `IllegalArgumentException` the
      evaluator throws, plus the console running out of values. */
  datatype Error =
    | InvalidCharacter(ch: char)              // lexer: a character outside the token alphabet
    | UnbalancedParens                        // converter: ")" without "(", or "(" never closed
    | UnknownToken(token: string)             // converter: a token of no known kind
    | MissingFunctionArgument(name: string)   // evaluator: a function meets an empty stack
    | MissingOperand(op: string)              // evaluator: an operator meets fewer than two values
    | DivisionByZero                          // "/" with right operand 0
    | UnknownOperation(op: string)            // applyOperator's default branch
    | MalformedExpression                     // final value stack does not hold exactly one value
    | InputExhausted                          // no console value left for a new variable

  datatype Result<T> = Ok(value: T) | Err(error: Error)

  /** Numbers are modelled by mathematical reals. */
  type Value = real

  /** The numeric library the evaluator calls into: `Math.pow` for "^" and
      the five functions of the FUNCTIONS table. They are left abstract. */
  datatype MathLib = MathLib(
    pow: (real, real) -> real,
    sin: real -> real,
    cos: real -> real,
    tan: real -> real,
    sqrt: real -> real,
    abs: real -> real)

  // ----- Character classes (ASCII) -----

  predicate IsDigit(c: char) { '0' <= c <= '9' }

  predicate IsLetter(c: char) { 'a' <= c <= 'z' || 'A' <= c <= 'Z' }

  /** Characters grouped into numeric runs: digits and the decimal point. */
  predicate IsNumberChar(c: char) { IsDigit(c) || c == '.' }

  /** Characters that form a token on their own. */
  predicate IsSymbol(c: char) { c in "+-*/^()," }

  /** Characters the lexer accepts at all. */
  predicate IsTokenChar(c: char) { IsNumberChar(c) || IsLetter(c) || IsSymbol(c) }

  /** The regular-expression class `\s`: space, tab, line feed, vertical tab,
      form feed and carriage return. */
  predicate IsWhitespace(c: char) { c == ' ' || 9 <= c as int <= 13 }

  // ----- Tables -----

  const Operators: set<string> := {"+", "-", "*", "/", "^"}

  const Functions: set<string> := {"sin", "cos", "tan", "sqrt", "abs"}

  /** The PRECEDENCE table: "+" "-" bind loosest, "^" tightest. It is only
      consulted for operators; other strings get 0. */
  function Precedence(op: string): nat {
    if |op| != 1 then 0
    else if op[0] == '+' || op[0] == '-' then 1
    else if op[0] == '*' || op[0] == '/' then 2
    else if op[0] == '^' then 3
    else 0
  }

  /** `OPERATORS.contains(t)`, decided on the token's one character. */
  predicate IsOperator(t: string) {
    |t| == 1 && (t[0] == '+' || t[0] == '-' || t[0] == '*' || t[0] == '/' || t[0] == '^')
  }

  lemma OperatorTable(t: string)
    ensures IsOperator(t) <==> t in Operators
    ensures IsOperator(t) <==> Precedence(t) > 0
  {
    if IsOperator(t) {
      assert t == [t[0]];
    }
  }

  predicate IsFunction(t: string) { t in Functions }

  // ----- Token predicates -----

  predicate AllDigits(s: string) { forall i :: 0 <= i < |s| ==> IsDigit(s[i]) }

  /** Position of the first '.' of `t`, or `|t|` when it has none. */
  function DotIndex(t: string): (k: nat)
    ensures k <= |t|
    ensures forall i :: 0 <= i < k ==> t[i] != '.'
    ensures k < |t| ==> t[k] == '.'
  {
    if t == [] || t[0] == '.' then 0 else 1 + DotIndex(t[1..])
  }

  /** `isNumber`: the token matches `\d+(\.\d+)?`. */
  predicate IsNumber(t: string) {
    var k := DotIndex(t);
    0 < k && AllDigits(t[..k]) && (k == |t| || (k + 1 < |t| && AllDigits(t[k + 1..])))
  }

  /** `isVariable`: the token matches `[a-zA-Z]+` and is not a function name. */
  predicate IsVariable(t: string) {
    |t| > 0 && (forall i :: 0 <= i < |t| ==> IsLetter(t[i])) && t !in Functions
  }

  /** A number is made of digits and points and starts and ends with a
      digit; a variable starts with a letter, so it is neither a number nor
      a function name. */
  lemma {:induction false} TokenClasses(t: string)
    ensures IsNumber(t) ==>
      |t| > 0 && IsDigit(t[0]) && IsDigit(t[|t| - 1]) && forall i :: 0 <= i < |t| ==> IsNumberChar(t[i])
    ensures IsVariable(t) ==> !IsNumber(t) && !IsFunction(t)
  {
    var k := DotIndex(t);
    if IsNumber(t) {
      assert t[0] == t[..k][0];
      forall i | 0 <= i < |t| ensures IsNumberChar(t[i]) {
        if i < k { assert t[i] == t[..k][i]; }
        else if i > k { assert t[i] == t[k + 1..][i - k - 1]; }
      }
      if k < |t| { assert t[|t| - 1] == t[k + 1..][|t| - k - 2]; } else { assert t[|t| - 1] == t[..k][k - 1]; }
    }
    if IsVariable(t) && 0 < k {
      assert t[..k][0] == t[0];
    }
  }

  /** `IsNumber` is exactly the pattern `\d+(\.\d+)?`: a non-empty digit
      string, or two non-empty digit strings joined by one '.'. */
  lemma IsNumberIsPattern(t: string)
    ensures IsNumber(t) <==>
      (|t| > 0 && AllDigits(t)) ||
      (exists k :: 0 < k < |t| - 1 && t[k] == '.' && AllDigits(t[..k]) && AllDigits(t[k + 1..]))
  {
    var d := DotIndex(t);
    if |t| > 0 && AllDigits(t) {
      assert d < |t| ==> IsDigit(t[d]);
      assert t[..d] == t;
    }
    if k :| 0 < k < |t| - 1 && t[k] == '.' && AllDigits(t[..k]) && AllDigits(t[k + 1..]) {
      assert forall i :: 0 <= i < k ==> t[..k][i] == t[i];
      assert d == k;
    }
    if IsNumber(t) && d < |t| {
      assert 0 < d < |t| - 1 && t[d] == '.';
    }
  }

  // ----- Numeric value of a number token (Double.parseDouble) -----

  function DigitValue(c: char): nat
    requires IsDigit(c)
  {
    c as int - '0' as int
  }

  function DigitsValue(s: string): nat
    requires AllDigits(s)
  {
    if s == [] then 0 else 10 * DigitsValue(s[..|s| - 1]) + DigitValue(s[|s| - 1])
  }

  function Pow10(n: nat): (p: nat)
    ensures p >= 1
  {
    if n == 0 then 1 else 10 * Pow10(n - 1)
  }

  /** The exact decimal value of a number token; never negative, since
      literals carry no sign. */
  function NumberValue(t: string): (v: Value)
    requires IsNumber(t)
    ensures v >= 0.0
    ensures AllDigits(t) ==> v == DigitsValue(t) as real
  {
    var k := DotIndex(t);
    if k == |t| then
      assert t[..k] == t;
      DigitsValue(t) as real
    else
      DigitsValue(t[..k]) as real + DigitsValue(t[k + 1..]) as real / Pow10(|t| - k - 1) as real
  }

  /** A number with a point is worth its digits read without the point,
      divided by ten to the number of digits after the point. */
  lemma {:induction false} NumberValueFraction(t: string)
    requires IsNumber(t)
    ensures var k := DotIndex(t);
      k < |t| ==>
        AllDigits(t[..k] + t[k + 1..]) &&
        NumberValue(t) == DigitsValue(t[..k] + t[k + 1..]) as real / Pow10(|t| - k - 1) as real
  {
    var k := DotIndex(t);
    if k < |t| {
      DigitsAppend(t[..k], t[k + 1..]);
      Shift(DigitsValue(t[..k]), DigitsValue(t[k + 1..]), Pow10(|t| - k - 1));
    }
  }

  /** A digit string followed by another is worth the first shifted left by
      the second's length, plus the second. */
  lemma {:induction false} DigitsAppend(a: string, b: string)
    requires AllDigits(a) && AllDigits(b)
    ensures AllDigits(a + b)
    ensures DigitsValue(a + b) == DigitsValue(a) * Pow10(|b|) + DigitsValue(b)
    decreases |b|
  {
    var c := a + b;
    if b == [] {
      assert c == a;
    } else {
      var b' := b[..|b| - 1];
      assert c[..|c| - 1] == a + b' && c[|c| - 1] == b[|b| - 1];
      DigitsAppend(a, b');
      DigitsShift(DigitsValue(a), Pow10(|b'|), DigitsValue(b'), DigitValue(b[|b| - 1]));
    }
  }

  lemma DigitsShift(x: nat, p: nat, y: nat, d: nat)
    ensures 10 * (x * p + y) + d == x * (10 * p) + (10 * y + d)
  {
  }

  /** `w + f / p` written over the common denominator `p`. */
  lemma Shift(w: nat, f: nat, p: nat)
    requires p >= 1
    ensures w as real + f as real / p as real == (w * p + f) as real / p as real
  {
  }

  // ----- Arithmetic -----

  /** FUNCTIONS.get(name).apply(x). */
  function ApplyFunction(lib: MathLib, name: string, x: Value): Value
    requires name in Functions
  {
    if name == "sin" then lib.sin(x)
    else if name == "cos" then lib.cos(x)
    else if name == "tan" then lib.tan(x)
    else if name == "sqrt" then lib.sqrt(x)
    else lib.abs(x)
  }

  /** `applyOperator(op, a, b)`: `a` is the left operand, `b` the right one. */
  function ApplyOperator(op: string, a: Value, b: Value, lib: MathLib): (r: Result<Value>)
    ensures r.Err? <==> op !in Operators || (op == "/" && b == 0.0)
    ensures r.Err? ==> r.error == (if op == "/" then DivisionByZero else UnknownOperation(op))
    ensures op == "+" ==> r.Ok? && r.value - b == a
    ensures op == "-" ==> r.Ok? && r.value + b == a
    ensures op == "*" ==> r.Ok? && (b != 0.0 ==> r.value / b == a) && (b == 0.0 ==> r.value == 0.0)
    ensures op == "/" && b != 0.0 ==> r.Ok? && r.value * b == a
    ensures op == "^" ==> r.Ok? && r.value == lib.pow(a, b)
  {
    if op == "+" then Ok(a + b)
    else if op == "-" then Ok(a - b)
    else if op == "*" then Ok(a * b)
    else if op == "/" then (if b == 0.0 then Err(DivisionByZero) else Ok(a / b))
    else if op == "^" then Ok(lib.pow(a, b))
    else Err(UnknownOperation(op))
  }
}
