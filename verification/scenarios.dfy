/** Whole evaluations of concrete expressions: the examples the evaluator is
    checked against, left associativity of "^", a function call, the two
    error cases, and a variable read once from the console and then cached. */
module Scenarios {
  import opened Tokens
  import opened Lexer
  import opened ShuntingYard
  import opened Postfix
  import opened Evaluation
  import opened Shapes

  // ----- Lexing text whose tokens are single characters -----

  /** Each character of `s` as a token of its own. */
  function Singles(s: string): (ts: seq<string>)
    ensures |ts| == |s|
    ensures forall k :: 0 <= k < |s| ==> ts[k] == [s[k]]
  {
    if s == [] then [] else [[s[0]]] + Singles(s[1..])
  }

  /** A character that is a token on its own unless a neighbour extends it. */
  predicate SingleChar(c: char) {
    IsSymbol(c) || IsDigit(c) || IsLetter(c)
  }

  /** `c` followed by `d` would be read as one number or one word. */
  predicate Joined(c: char, d: char) {
    (IsDigit(c) && IsDigit(d)) || (IsLetter(c) && IsLetter(d))
  }

  /** `s` holds symbols, digits and letters, no two digits and no two
      letters side by side. */
  predicate Singly(s: string)
    decreases |s|
  {
    s == [] || (SingleChar(s[0]) && (|s| > 1 ==> !Joined(s[0], s[1])) && Singly(s[1..]))
  }

  lemma {:induction false} SinglyChars(s: string)
    requires Singly(s)
    ensures forall k :: 0 <= k < |s| ==> SingleChar(s[k])
    decreases |s|
  {
    if s != [] {
      SinglyChars(s[1..]);
      assert forall k :: 1 <= k < |s| ==> s[k] == s[1..][k - 1];
    }
  }

  /** A single-character token ends right after its character. */
  lemma {:induction false} SingleEnd(s: string, i: nat)
    requires i < |s| && Singly(s[i..])
    ensures TokenEnd(s, i) == i + 1
  {
    assert s[i..][0] == s[i];
    if i + 1 < |s| {
      assert s[i..][1] == s[i + 1];
    }
    if IsDigit(s[i]) {
      if i + 1 < |s| {
        assert !IsNumberChar(s[i + 1]);
      }
      assert RunEnd(s, i + 1, NumberRun) == i + 1;
    } else if IsLetter(s[i]) {
      assert RunEnd(s, i + 1, WordRun) == i + 1;
    } else {
      assert !IsNumberChar(s[i]) && !IsLetter(s[i]);
    }
  }

  /** Such text is scanned one character per token. */
  lemma {:induction false} ScanSingles(s: string, i: nat)
    requires i <= |s| && Singly(s[i..])
    ensures Scan(s, i) == Ok(Singles(s[i..]))
    decreases |s| - i
  {
    if i < |s| {
      assert s[i..][0] == s[i] && s[i..][1..] == s[i + 1..];
      assert IsTokenChar(s[i]);
      SingleEnd(s, i);
      ScanUnfold(s, i);
      ScanSingles(s, i + 1);
      assert s[i..i + 1] == [s[i]];
      assert Singles(s[i..]) == [[s[i]]] + Singles(s[i + 1..]);
    }
  }

  /** Such text has no whitespace to strip and is scanned one character per
      token. */
  lemma {:induction false} TokenizeSingles(s: string, ts: seq<string>)
    requires Singly(s) && Singles(s) == ts
    ensures StripWhitespace(s) == s
    ensures Tokenize(s) == Ok(ts)
  {
    SinglyChars(s);
    assert forall k :: 0 <= k < |s| ==> !IsWhitespace(s[k]);
    assert s[0..] == s;
    ScanSingles(s, 0);
  }

  // ----- Lexing a function call -----

  lemma {:induction false} FunctionLetters(f: string)
    requires IsFunction(f)
    ensures |f| > 0 && forall m :: 0 <= m < |f| ==> IsLetter(f[m])
  {
  }

  /** A maximal run of letters is read as one token. */
  lemma {:induction false} WordAt(s: string, i: nat, w: string)
    requires |w| > 0 && i + |w| <= |s| && s[i..i + |w|] == w
    requires forall m :: 0 <= m < |w| ==> IsLetter(w[m])
    requires i + |w| == |s| || !IsLetter(s[i + |w|])
    ensures Scan(s, i) == Prepend([w], Scan(s, i + |w|))
  {
    var j := i + |w|;
    assert forall m :: i <= m < j ==> s[m] == w[m - i];
    assert IsLetter(s[i]) && !IsNumberChar(s[i]);
    assert RunEnd(s, i, WordRun) == j;
  }

  /** A maximal run of digits is read as one token. */
  lemma {:induction false} DigitsAt(s: string, i: nat, n: string)
    requires |n| > 0 && i + |n| <= |s| && s[i..i + |n|] == n && AllDigits(n)
    requires i + |n| == |s| || !IsNumberChar(s[i + |n|])
    ensures Scan(s, i) == Prepend([n], Scan(s, i + |n|))
  {
    var j := i + |n|;
    assert forall m :: i <= m < j ==> s[m] == n[m - i];
    assert IsNumberChar(s[i]);
    assert RunEnd(s, i, NumberRun) == j;
  }

  lemma {:induction false} SymbolAt(s: string, i: nat)
    requires i < |s| && IsSymbol(s[i])
    ensures Scan(s, i) == Prepend([[s[i]]], Scan(s, i + 1))
  {
    assert !IsNumberChar(s[i]) && !IsLetter(s[i]);
  }

  /** From the "(" on, `text` is read as "(", `n`, ")". */
  lemma {:induction false} ArgumentTokens(text: string, i: nat, n: string)
    requires |n| > 0 && AllDigits(n) && |text| == i + |n| + 2
    requires text[i] == '(' && text[i + 1..i + 1 + |n|] == n && text[i + 1 + |n|] == ')'
    ensures Scan(text, i) == Ok(["(", n, ")"])
  {
    var e := i + 1 + |n|;
    SymbolAt(text, e);
    assert Scan(text, e + 1) == Ok([]);
    assert [text[e]] == ")" && [")"] + [] == [")"];
    DigitsAt(text, i + 1, n);
    assert [n] + [")"] == [n, ")"];
    SymbolAt(text, i);
    assert [text[i]] == "(" && ["("] + [n, ")"] == ["(", n, ")"];
  }

  lemma {:induction false} CallPieces(f: string, n: string)
    ensures var text := f + "(" + n + ")"; var i := |f|;
      |text| == i + |n| + 2 && text[0..i] == f && text[i] == '(' &&
      text[i + 1..i + 1 + |n|] == n && text[i + 1 + |n|] == ')'
  {
  }

  /** `f(n)`, with `n` a digit string, is read as `f`, "(", `n`, ")". */
  lemma {:induction false} CallTokens(f: string, n: string)
    requires IsFunction(f) && |n| > 0 && AllDigits(n)
    ensures Tokenize(f + "(" + n + ")") == Ok([f, "(", n, ")"])
  {
    var text := f + "(" + n + ")";
    var i := |f|;
    FunctionLetters(f);
    CallPieces(f, n);
    ArgumentTokens(text, i, n);
    WordAt(text, 0, f);
    assert [f] + ["(", n, ")"] == [f, "(", n, ")"];
  }

  lemma {:induction false} CallStripped(f: string, n: string)
    requires IsFunction(f) && |n| > 0 && AllDigits(n)
    ensures StripWhitespace(f + "(" + n + ")") == f + "(" + n + ")"
  {
    var text := f + "(" + n + ")";
    FunctionLetters(f);
    assert forall k :: 0 <= k < |f| ==> text[k] == f[k];
    assert forall k :: |f| < k < |f| + 1 + |n| ==> text[k] == n[k - |f| - 1];
    assert forall k :: 0 <= k < |text| ==> !IsWhitespace(text[k]);
  }

  /** `f(n)` applies the library function `f` to the number `n`. */
  lemma {:induction false} CallExample(f: string, n: string, s: Session, lib: MathLib)
    requires IsFunction(f) && |n| > 0 && AllDigits(n)
    ensures EvaluateIn(f + "(" + n + ")", s, lib) == (Ok(ApplyFunction(lib, f, DigitsValue(n) as real)), s)
  {
    CallStripped(f, n);
    CallTokens(f, n);
    IsNumberIsPattern(n);
    Call(f, n);
    RunCall(n, f, s, lib);
  }

  // ----- Whitespace -----

  /** A whitespace character anywhere in an expression changes nothing. */
  lemma {:induction false} WhitespaceIgnored(x: string, c: char, y: string, s: Session, lib: MathLib)
    requires IsWhitespace(c)
    ensures EvaluateIn(x + [c] + y, s, lib) == EvaluateIn(x + y, s, lib)
  {
    StripAppend(x + [c], y);
    StripAppend(x, [c]);
    StripAppend(x, y);
    assert StripWhitespace([c]) == [];
    assert StripWhitespace(x) + [] == StripWhitespace(x);
  }

  // ----- Literals -----

  lemma {:induction false} Digit(c: char)
    requires IsDigit(c)
    ensures IsNumber([c]) && IsOperand([c]) && NumberValue([c]) == DigitValue(c) as real
  {
    assert DotIndex([c]) == 1 by {
      assert [c][1..] == [];
    }
    assert [c][..1] == [c];
    assert DigitsValue([c]) == 10 * DigitsValue([]) + DigitValue(c) by {
      assert [c][..0] == [];
    }
  }

  // ----- "2 + 3 * 4 - 4" -----

  lemma PrecedenceText()
    ensures Singly("2+3*4-4")
  {
  }

  lemma PrecedenceSingles()
    ensures Singles("2+3*4-4") == ["2", "+", "3", "*", "4", "-", "4"]
  {
  }

  lemma PrecedencePostfix()
    ensures ToPostfix(["2", "+", "3", "*", "4", "-", "4"]) == Ok(["2", "3", "4", "*", "+", "4", "-"])
  {
    Digit('2');
    Digit('3');
    Digit('4');
    TighterInTheMiddle("2", "+", "3", "*", "4", "-", "4");
  }

  lemma PrecedenceRun(s: Session, lib: MathLib)
    ensures Run(["2", "3", "4", "*", "+", "4", "-"], s, lib) == (Ok(10.0), s)
  {
    Digit('2');
    Digit('3');
    Digit('4');
    RunTighterInTheMiddle("2", "3", "4", "*", "+", "4", "-", 12.0, 14.0, 10.0, s, lib);
  }

  /** "2 + 3 * 4 - 4" evaluates to 10 and leaves the session as it was. */
  lemma PrecedenceExample(s: Session, lib: MathLib)
    ensures EvaluateIn("2+3*4-4", s, lib) == (Ok(10.0), s)
  {
    PrecedenceText();
    PrecedenceSingles();
    TokenizeSingles("2+3*4-4", ["2", "+", "3", "*", "4", "-", "4"]);
    PrecedencePostfix();
    PrecedenceRun(s, lib);
  }

  // ----- "(2 + 3) * 4" -----

  lemma ParenthesesText()
    ensures Singly("(2+3)*4")
  {
  }

  lemma ParenthesesSingles()
    ensures Singles("(2+3)*4") == ["(", "2", "+", "3", ")", "*", "4"]
  {
  }

  lemma ParenthesesPostfix()
    ensures ToPostfix(["(", "2", "+", "3", ")", "*", "4"]) == Ok(["2", "3", "+", "4", "*"])
  {
    Digit('2');
    Digit('3');
    Digit('4');
    Grouped("2", "+", "3", "*", "4");
  }

  lemma ParenthesesRun(s: Session, lib: MathLib)
    ensures Run(["2", "3", "+", "4", "*"], s, lib) == (Ok(20.0), s)
  {
    Digit('2');
    Digit('3');
    Digit('4');
    RunLeftFirst("2", "3", "+", "4", "*", 5.0, 20.0, s, lib);
  }

  /** "(2 + 3) * 4" evaluates to 20: the parentheses make "+" apply first. */
  lemma ParenthesesExample(s: Session, lib: MathLib)
    ensures EvaluateIn("(2+3)*4", s, lib) == (Ok(20.0), s)
  {
    ParenthesesText();
    ParenthesesSingles();
    TokenizeSingles("(2+3)*4", ["(", "2", "+", "3", ")", "*", "4"]);
    ParenthesesPostfix();
    ParenthesesRun(s, lib);
  }

  // ----- "3 * 2 + 1" -----

  lemma OrderText()
    ensures Singly("3*2+1")
  {
  }

  lemma OrderSingles()
    ensures Singles("3*2+1") == ["3", "*", "2", "+", "1"]
  {
  }

  lemma OrderPostfix()
    ensures ToPostfix(["3", "*", "2", "+", "1"]) == Ok(["3", "2", "*", "1", "+"])
  {
    Digit('3');
    Digit('2');
    Digit('1');
    LeftFirst("3", "*", "2", "+", "1");
  }

  lemma OrderRun(s: Session, lib: MathLib)
    ensures Run(["3", "2", "*", "1", "+"], s, lib) == (Ok(7.0), s)
  {
    Digit('3');
    Digit('2');
    Digit('1');
    RunLeftFirst("3", "2", "*", "1", "+", 6.0, 7.0, s, lib);
  }

  /** "3 * 2 + 1" evaluates to 7. */
  lemma OrderExample(s: Session, lib: MathLib)
    ensures EvaluateIn("3*2+1", s, lib) == (Ok(7.0), s)
  {
    OrderText();
    OrderSingles();
    TokenizeSingles("3*2+1", ["3", "*", "2", "+", "1"]);
    OrderPostfix();
    OrderRun(s, lib);
  }

  // ----- "2 ^ 3 ^ 2" -----

  lemma PowerText()
    ensures Singly("2^3^2")
  {
  }

  lemma PowerSingles()
    ensures Singles("2^3^2") == ["2", "^", "3", "^", "2"]
  {
  }

  lemma PowerPostfix()
    ensures ToPostfix(["2", "^", "3", "^", "2"]) == Ok(["2", "3", "^", "2", "^"])
  {
    Digit('2');
    Digit('3');
    LeftFirst("2", "^", "3", "^", "2");
  }

  lemma PowerRun(s: Session, lib: MathLib)
    ensures Run(["2", "3", "^", "2", "^"], s, lib) == (Ok(lib.pow(lib.pow(2.0, 3.0), 2.0)), s)
  {
    Digit('2');
    Digit('3');
    RunLeftFirst("2", "3", "^", "2", "^", lib.pow(2.0, 3.0), lib.pow(lib.pow(2.0, 3.0), 2.0), s, lib);
  }

  /** "2 ^ 3 ^ 2" groups to the left, as (2 ^ 3) ^ 2, since an operator on the
      stack of equal precedence is popped before the new one is pushed. */
  lemma PowerExample(s: Session, lib: MathLib)
    ensures EvaluateIn("2^3^2", s, lib) == (Ok(lib.pow(lib.pow(2.0, 3.0), 2.0)), s)
  {
    PowerText();
    PowerSingles();
    TokenizeSingles("2^3^2", ["2", "^", "3", "^", "2"]);
    PowerPostfix();
    PowerRun(s, lib);
  }

  // ----- "2 + * 3" -----

  lemma MissingOperandText()
    ensures Singly("2+*3")
  {
  }

  lemma MissingOperandSingles()
    ensures Singles("2+*3") == ["2", "+", "*", "3"]
  {
  }

  lemma MissingOperandPostfix()
    ensures ToPostfix(["2", "+", "*", "3"]) == Ok(["2", "3", "*", "+"])
  {
    Digit('2');
    Digit('3');
    OperatorPair("2", "+", "*", "3");
  }

  lemma MissingOperandRun(s: Session, lib: MathLib)
    ensures Run(["2", "3", "*", "+"], s, lib) == (Err(MissingOperand("+")), s)
  {
    Digit('2');
    Digit('3');
    RunOperatorPair("2", "3", "*", "+", 6.0, s, lib);
  }

  /** "2 + * 3" is rejected: "+" finds only one value when its turn comes. */
  lemma MissingOperandExample(s: Session, lib: MathLib)
    ensures EvaluateIn("2+*3", s, lib) == (Err(MissingOperand("+")), s)
  {
    MissingOperandText();
    MissingOperandSingles();
    TokenizeSingles("2+*3", ["2", "+", "*", "3"]);
    MissingOperandPostfix();
    MissingOperandRun(s, lib);
  }

  // ----- "4 / 0" -----

  lemma DivisionText()
    ensures Singly("4/0")
  {
  }

  lemma DivisionSingles()
    ensures Singles("4/0") == ["4", "/", "0"]
  {
  }

  lemma DivisionPostfix()
    ensures ToPostfix(["4", "/", "0"]) == Ok(["4", "0", "/"])
  {
    Digit('4');
    Digit('0');
    OneOperator("4", "/", "0");
  }

  lemma DivisionRun(s: Session, lib: MathLib)
    ensures Run(["4", "0", "/"], s, lib) == (Err(DivisionByZero), s)
  {
    Digit('4');
    Digit('0');
    RunOneOperator("4", "0", "/", s, lib);
  }

  /** "4 / 0" is rejected as a division by zero. */
  lemma DivisionExample(s: Session, lib: MathLib)
    ensures EvaluateIn("4/0", s, lib) == (Err(DivisionByZero), s)
  {
    DivisionText();
    DivisionSingles();
    TokenizeSingles("4/0", ["4", "/", "0"]);
    DivisionPostfix();
    DivisionRun(s, lib);
  }

  // ----- Function calls -----

  /** "sin(0)" is the library sine at 0. */
  lemma SineExample(s: Session, lib: MathLib)
    ensures EvaluateIn("sin(0)", s, lib) == (Ok(lib.sin(0.0)), s)
  {
    assert "sin" + "(" + "0" + ")" == "sin(0)";
    assert DigitsValue("0") == 0;
    CallExample("sin", "0", s, lib);
  }

  /** "cos(0)" is the library cosine at 0. */
  lemma CosineExample(s: Session, lib: MathLib)
    ensures EvaluateIn("cos(0)", s, lib) == (Ok(lib.cos(0.0)), s)
  {
    assert "cos" + "(" + "0" + ")" == "cos(0)";
    assert DigitsValue("0") == 0;
    CallExample("cos", "0", s, lib);
  }

  /** "sqrt(25)" is the library square root at 25. */
  lemma SquareRootExample(s: Session, lib: MathLib)
    ensures EvaluateIn("sqrt(25)", s, lib) == (Ok(lib.sqrt(25.0)), s)
  {
    assert "sqrt" + "(" + "25" + ")" == "sqrt(25)";
    assert DigitsValue("25") == 25;
    CallExample("sqrt", "25", s, lib);
  }

  // ----- "x * x" -----

  lemma SquareText()
    ensures Singly("x*x") && Singles("x*x") == ["x", "*", "x"]
  {
  }

  lemma SquarePostfix()
    ensures ToPostfix(["x", "*", "x"]) == Ok(["x", "x", "*"])
  {
    assert IsVariable("x");
    OneOperator("x", "*", "x");
  }

  lemma SquareRun(s: Session, lib: MathLib)
    requires Lookup(s, "x").0.Ok?
    ensures Run(["x", "x", "*"], s, lib) ==
      (Ok(Lookup(s, "x").0.value * Lookup(s, "x").0.value), Lookup(s, "x").1)
  {
    assert IsVariable("x");
    RunRepeatedVariable("x", "*", s, lib);
  }

  /** "x * x" looks "x" up once: from the cache if it is there, otherwise
      from the next console value, which is then cached; the second "x" is
      answered from the cache, so at most one console value is read. */
  lemma SquareExample(s: Session, lib: MathLib)
    requires Lookup(s, "x").0.Ok?
    ensures EvaluateIn("x*x", s, lib) ==
      (Ok(Lookup(s, "x").0.value * Lookup(s, "x").0.value), Lookup(s, "x").1)
  {
    SquareText();
    TokenizeSingles("x*x", ["x", "*", "x"]);
    SquarePostfix();
    SquareRun(s, lib);
  }

  /** With an empty cache and console values 3 and 5, "x * x" reads 3,
      caches it as "x" and yields 9, leaving 5 unread. */
  lemma FirstSquareExample(lib: MathLib)
    ensures EvaluateIn("x*x", Session(map[], [3.0, 5.0]), lib) == (Ok(9.0), Session(map["x" := 3.0], [5.0]))
  {
    var s := Session(map[], [3.0, 5.0]);
    assert Lookup(s, "x") == (Ok(3.0), Session(map["x" := 3.0], [5.0]));
    SquareExample(s, lib);
  }

  /** Evaluated again, "x * x" yields 9 from the cache and reads nothing. */
  lemma CachedSquareExample(lib: MathLib)
    ensures EvaluateIn("x*x", Session(map["x" := 3.0], [5.0]), lib) == (Ok(9.0), Session(map["x" := 3.0], [5.0]))
  {
    var s := Session(map["x" := 3.0], [5.0]);
    assert Lookup(s, "x") == (Ok(3.0), s);
    SquareExample(s, lib);
  }

  lemma SquareRunExhausted(s: Session, lib: MathLib)
    requires "x" !in s.vars && s.input == []
    ensures Run(["x", "x", "*"], s, lib) == (Err(InputExhausted), s)
  {
    assert DotIndex("x") == 1 && !AllDigits("x"[..1]);
    assert Lookup(s, "x") == (Err(InputExhausted), s);
    assert EvalStep("x", [], s, lib) == Err(InputExhausted);
  }

  /** "x * x" with "x" not cached and nothing left on the console fails
      and leaves the session as it was. */
  lemma SquareExhausted(s: Session, lib: MathLib)
    requires "x" !in s.vars && s.input == []
    ensures EvaluateIn("x*x", s, lib) == (Err(InputExhausted), s)
  {
    SquareText();
    TokenizeSingles("x*x", ["x", "*", "x"]);
    SquarePostfix();
    SquareRunExhausted(s, lib);
  }
}
