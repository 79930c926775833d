/** A reference semantics for the expressions the evaluator reads: expression
    trees, the infix tokens each one is written as, and its value computed
    directly on the tree. The converter followed by the postfix run computes
    exactly that value, so precedence, left association, grouping and calls
    are honoured for every expression, not only for fixed shapes. */
module Grammar {
  import opened Tokens
  import opened ShuntingYard
  import opened Postfix
  import opened Lexer
  import opened Evaluation

  /** An expression: a number or variable, a binary operation, a
      parenthesised expression, or a call of a named function. */
  datatype Expr =
    | Leaf(token: string)
    | Binary(op: string, left: Expr, right: Expr)
    | Group(inner: Expr)
    | Call(name: string, arg: Expr)

  /** How tightly the root of `e` binds: its operator's precedence, or more
      tightly than any operator for a leaf, a group or a call. */
  function Binding(e: Expr): nat {
    if e.Binary? then Precedence(e.op) else 4
  }

  /** `e` is built from the evaluator's tokens and nests as its text is read
      under the usual conventions: each operand of an operator binds more
      tightly than the operator, except that the LEFT operand may bind
      equally, so operators of equal precedence associate to the left. Any
      other nesting must be written as a group. */
  predicate Canonical(e: Expr) {
    match e
    case Leaf(t) => IsOperand(t)
    case Binary(op, l, r) =>
      IsOperator(op) && Canonical(l) && Canonical(r) &&
      Binding(l) >= Precedence(op) && Binding(r) > Precedence(op)
    case Group(x) => Canonical(x)
    case Call(f, x) => IsFunction(f) && Canonical(x)
  }

  /** The infix tokens `e` is written as. */
  function Infix(e: Expr): seq<string> {
    match e
    case Leaf(t) => [t]
    case Binary(op, l, r) => Infix(l) + [op] + Infix(r)
    case Group(x) => ["("] + Infix(x) + [")"]
    case Call(f, x) => [f, "("] + Infix(x) + [")"]
  }

  /** The postfix tokens of `e`: both operands, then their operator. */
  function Postorder(e: Expr): seq<string> {
    match e
    case Leaf(t) => [t]
    case Binary(op, l, r) => Postorder(l) + Postorder(r) + [op]
    case Group(x) => Postorder(x)
    case Call(f, x) => Postorder(x) + [f]
  }

  /** The value of `e`, evaluated on the tree: the left operand before the
      right one, each variable looked up in the session as it is met. The
      first failure is the result, with the session reached at that point. */
  function Eval(e: Expr, s: Session, lib: MathLib): (Result<Value>, Session)
    requires Canonical(e)
  {
    match e
    case Leaf(t) => if IsNumber(t) then (Ok(NumberValue(t)), s) else Lookup(s, t)
    case Binary(op, l, r) =>
      var a := Eval(l, s, lib);
      if a.0.Err? then a
      else
        var b := Eval(r, a.1, lib);
        if b.0.Err? then b
        else (ApplyOperator(op, a.0.value, b.0.value, lib), b.1)
    case Group(x) => Eval(x, s, lib)
    case Call(f, x) =>
      var a := Eval(x, s, lib);
      if a.0.Err? then a else (Ok(ApplyFunction(lib, f, a.0.value)), a.1)
  }

  // ----- Sequence helpers -----

  lemma Regroup<T>(a: seq<T>, b: seq<T>, c: seq<T>, d: seq<T>)
    ensures (a + b + c) + d == a + (b + (c + d))
    ensures a + (b + c) == a + b + c
  {
  }

  lemma Assoc<T>(a: seq<T>, b: seq<T>, c: seq<T>)
    ensures a + b + c == a + (b + c)
  {
  }

  /** Reversing a stack whose bottom is `x` emits `x` last. */
  lemma {:induction false} ReversedCons(x: string, p: seq<string>)
    ensures Reversed([x] + p) == Reversed(p) + [x]
    decreases |p|
  {
    var s := [x] + p;
    if p == [] {
      assert s == [x] && DropLast(s) == [];
    } else {
      assert Last(s) == Last(p) && DropLast(s) == [x] + DropLast(p);
      ReversedCons(x, DropLast(p));
      assert Reversed(p) == [Last(p)] + Reversed(DropLast(p));
    }
  }

  // ----- What converting an expression leaves behind -----

  /** The tokens converting `Infix(e)` emits to the output. */
  function Settled(e: Expr): seq<string>
    requires Canonical(e)
  {
    match e
    case Leaf(t) => [t]
    case Binary(op, l, r) => Settled(l) + Reversed(Pending(l)) + Settled(r)
    case Group(x) => Postorder(x)
    case Call(f, x) => Postorder(x) + [f]
  }

  /** The operators converting `Infix(e)` leaves on the stack, bottom first:
      the root operator and those down the right spine. They bind at least
      as tightly as `e`'s root. */
  function Pending(e: Expr): (p: seq<string>)
    requires Canonical(e)
    ensures forall k :: 0 <= k < |p| ==> IsOperator(p[k]) && Precedence(p[k]) >= Binding(e)
  {
    if e.Binary? then [e.op] + Pending(e.right) else []
  }

  /** Settled output followed by the pending operators, popped, is the
      postfix form. */
  lemma {:induction false} SettledPending(e: Expr)
    requires Canonical(e)
    ensures Settled(e) + Reversed(Pending(e)) == Postorder(e)
  {
    match e
    case Leaf(t) =>
      assert Settled(e) + [] == Settled(e);
    case Binary(op, l, r) =>
      SettledPending(l);
      SettledPending(r);
      ReversedCons(op, Pending(r));
      var a, b, c, d := Settled(l), Reversed(Pending(l)), Settled(r), Reversed(Pending(r));
      calc {
        Settled(e) + Reversed(Pending(e));
        (a + b + c) + (d + [op]);
        { Regroup(a, b, c, d + [op]); }
        a + (b + (c + (d + [op])));
        { Regroup(c, d, [op], []); assert c + (d + [op]) == (c + d) + [op]; }
        a + (b + ((c + d) + [op]));
        { Regroup(a, b, (c + d) + [op], []); }
        (a + b) + ((c + d) + [op]);
        Postorder(l) + (Postorder(r) + [op]);
        { Regroup(Postorder(l), Postorder(r), [op], []); }
        Postorder(e);
      }
    case Group(x) =>
      assert Settled(e) + [] == Settled(e);
    case Call(f, x) =>
      assert Settled(e) + [] == Settled(e);
  }

  /** A stack under which an expression binding at least as tightly as `b`
      can be converted without disturbing it: empty, an open group, or an
      operator binding strictly less tightly. */
  predicate Admits(stack: seq<string>, b: nat) {
    stack == [] || Last(stack) == "(" || (IsOperator(Last(stack)) && Precedence(Last(stack)) < b)
  }

  /** No function name is on top of a stack that admits an expression. */
  lemma {:induction false} AdmitsNoFunction(stack: seq<string>, b: nat)
    requires Admits(stack, b)
    ensures stack == [] || !IsFunction(Last(stack))
  {
    if stack != [] && IsOperator(Last(stack)) {
      KindsAreDisjoint(Last(stack));
      if IsFunction(Last(stack)) {
        FunctionNameIsLong(Last(stack));
      }
    }
  }

  // ----- The converter on an expression -----

  lemma {:induction false} ConvertCons(t: string, rest: seq<string>, st: Converter)
    ensures ConvertFrom([t] + rest, st) ==
      match Step(st, t)
      case Err(e) => Err(e)
      case Ok(next) => ConvertFrom(rest, next)
  {
    assert ([t] + rest)[0] == t && ([t] + rest)[1..] == rest;
  }

  /** The operator rule pops exactly the operators above `stack`, when all of
      them outrank `op` and the entry beneath them does not. */
  lemma {:induction false} PopHigherExactly(output: seq<string>, stack: seq<string>, p: seq<string>, op: string)
    requires forall k :: 0 <= k < |p| ==> Outranks(p[k], op)
    requires stack == [] || !Outranks(Last(stack), op)
    ensures PopHigher(Converter(output, stack + p), op) == Converter(output + Reversed(p), stack)
    decreases |p|
  {
    if p == [] {
      assert stack + p == stack && output + Reversed(p) == output;
    } else {
      var all := stack + p;
      assert Last(all) == Last(p) == p[|p| - 1] && DropLast(all) == stack + DropLast(p);
      PopHigherExactly(output + [Last(p)], stack, DropLast(p), op);
      Regroup(output, [Last(p)], Reversed(DropLast(p)), []);
    }
  }

  /** The pop loop of the ")" rule stops at the "(" beneath `p`. */
  lemma {:induction false} PopToParenExactly(output: seq<string>, stack: seq<string>, p: seq<string>)
    requires forall k :: 0 <= k < |p| ==> p[k] != "("
    ensures PopToParen(Converter(output, stack + ["("] + p)) == Converter(output + Reversed(p), stack + ["("])
    decreases |p|
  {
    var below := stack + ["("];
    if p == [] {
      assert below + p == below && output + Reversed(p) == output;
    } else {
      var all := below + p;
      assert Last(all) == Last(p) == p[|p| - 1] && DropLast(all) == below + DropLast(p);
      PopToParenExactly(output + [Last(p)], stack, DropLast(p));
      Regroup(output, [Last(p)], Reversed(DropLast(p)), []);
    }
  }

  /** The ")" closing a group: everything above its "(" is emitted and the
      "(" is dropped; no function name is beneath it. */
  lemma {:induction false} CloseGroupExactly(output: seq<string>, stack: seq<string>, p: seq<string>)
    requires forall k :: 0 <= k < |p| ==> p[k] != "("
    requires stack == [] || !IsFunction(Last(stack))
    ensures CloseParen(Converter(output, stack + ["("] + p)) == Ok(Converter(output + Reversed(p), stack))
  {
    PopToParenExactly(output, stack, p);
    assert DropLast(stack + ["("]) == stack;
  }

  /** The ")" closing a call: the function name beneath the "(" is emitted
      after the argument. */
  lemma {:induction false} CloseCallExactly(output: seq<string>, stack: seq<string>, f: string, p: seq<string>)
    requires forall k :: 0 <= k < |p| ==> p[k] != "("
    requires IsFunction(f)
    ensures CloseParen(Converter(output, stack + [f] + ["("] + p)) ==
      Ok(Converter(output + Reversed(p) + [f], stack))
  {
    PopToParenExactly(output, stack + [f], p);
    assert DropLast(stack + [f] + ["("]) == stack + [f];
    assert Last(stack + [f]) == f && DropLast(stack + [f]) == stack;
  }

  /** The tokens of the converter's kinds that an expression uses. */
  lemma {:induction false} SymbolKinds()
    ensures !IsOperand("(") && !IsFunction("(") && !IsOperator("(")
    ensures !IsOperand(")") && !IsFunction(")") && !IsOperator(")")
  {
    KindsAreDisjoint("(");
    KindsAreDisjoint(")");
  }

  /** An operator is neither an operand, a function name, "(" nor ")". */
  lemma {:induction false} OperatorKind(op: string)
    requires IsOperator(op)
    ensures !IsOperand(op) && !IsFunction(op) && op != "," && op != "(" && op != ")"
  {
    KindsAreDisjoint(op);
    if IsFunction(op) {
      FunctionNameIsLong(op);
    }
  }

  /** The operator rule, when `p` are operators that all outrank `op` and
      the entry beneath them does not. */
  lemma {:induction false} OperatorStepExactly(op: string, tail: seq<string>, output: seq<string>, stack: seq<string>, p: seq<string>)
    requires IsOperator(op)
    requires forall k :: 0 <= k < |p| ==> Outranks(p[k], op)
    requires stack == [] || !Outranks(Last(stack), op)
    ensures ConvertFrom([op] + tail, Converter(output, stack + p)) ==
      ConvertFrom(tail, Converter(output + Reversed(p), stack + [op]))
  {
    OperatorKind(op);
    ConvertCons(op, tail, Converter(output, stack + p));
    PopHigherExactly(output, stack, p, op);
  }

  /** The rules for "(" and function names push the token. */
  lemma {:induction false} PushStepExactly(t: string, tail: seq<string>, st: Converter)
    requires t == "(" || IsFunction(t)
    ensures ConvertFrom([t] + tail, st) == ConvertFrom(tail, Converter(st.output, st.stack + [t]))
  {
    KindsAreDisjoint(t);
    if t == "(" {
      SymbolKinds();
    }
    ConvertCons(t, tail, st);
  }

  lemma {:induction false} CloseStepExactly(tail: seq<string>, st: Converter, next: Converter)
    requires CloseParen(st) == Ok(next)
    ensures ConvertFrom([")"] + tail, st) == ConvertFrom(tail, next)
  {
    SymbolKinds();
    KindsAreDisjoint(")");
    ConvertCons(")", tail, st);
  }

  /** The operator rule between two operands: it pops the operators the left
      operand left pending and pushes `op`. */
  lemma {:induction false} ConvertBinary(op: string, l: Expr, r: Expr, rest: seq<string>, output: seq<string>, stack: seq<string>)
    requires Canonical(Binary(op, l, r)) && Admits(stack, Precedence(op))
    requires ConvertFrom(Infix(l) + ([op] + (Infix(r) + rest)), Converter(output, stack)) ==
      ConvertFrom([op] + (Infix(r) + rest), Converter(output + Settled(l), stack + Pending(l)))
    requires ConvertFrom(Infix(r) + rest, Converter(output + Settled(l) + Reversed(Pending(l)), stack + [op])) ==
      ConvertFrom(rest, Converter(output + Settled(l) + Reversed(Pending(l)) + Settled(r), stack + [op] + Pending(r)))
    ensures ConvertFrom(Infix(Binary(op, l, r)) + rest, Converter(output, stack)) ==
      ConvertFrom(rest, Converter(output + Settled(Binary(op, l, r)), stack + Pending(Binary(op, l, r))))
  {
    var e := Binary(op, l, r);
    var out1 := output + Settled(l);
    var out2 := out1 + Reversed(Pending(l));
    calc {
      ConvertFrom(Infix(e) + rest, Converter(output, stack));
      { Regroup(Infix(l), [op], Infix(r), rest); }
      ConvertFrom(Infix(l) + ([op] + (Infix(r) + rest)), Converter(output, stack));
      ConvertFrom([op] + (Infix(r) + rest), Converter(out1, stack + Pending(l)));
      { assert stack == [] || !Outranks(Last(stack), op);
        OperatorStepExactly(op, Infix(r) + rest, out1, stack, Pending(l)); }
      ConvertFrom(Infix(r) + rest, Converter(out2, stack + [op]));
      ConvertFrom(rest, Converter(out2 + Settled(r), stack + [op] + Pending(r)));
      { Regroup(output, Settled(l), Reversed(Pending(l)), Settled(r));
        Regroup(Settled(l), Reversed(Pending(l)), Settled(r), []);
        Regroup(stack, [op], Pending(r), []); }
      ConvertFrom(rest, Converter(output + Settled(e), stack + Pending(e)));
    }
  }

  /** A group: "(" is pushed, the inner expression converted above it, and
      ")" pops everything down to the "(". */
  lemma {:induction false} ConvertGroup(x: Expr, rest: seq<string>, output: seq<string>, stack: seq<string>)
    requires Canonical(x) && Admits(stack, 4)
    requires ConvertFrom(Infix(x) + ([")"] + rest), Converter(output, stack + ["("])) ==
      ConvertFrom([")"] + rest, Converter(output + Settled(x), stack + ["("] + Pending(x)))
    ensures ConvertFrom(Infix(Group(x)) + rest, Converter(output, stack)) ==
      ConvertFrom(rest, Converter(output + Settled(Group(x)), stack + Pending(Group(x))))
  {
    var out1 := output + Settled(x);
    calc {
      ConvertFrom(Infix(Group(x)) + rest, Converter(output, stack));
      { Regroup(["("], Infix(x), [")"], rest); }
      ConvertFrom(["("] + (Infix(x) + ([")"] + rest)), Converter(output, stack));
      { PushStepExactly("(", Infix(x) + ([")"] + rest), Converter(output, stack)); }
      ConvertFrom(Infix(x) + ([")"] + rest), Converter(output, stack + ["("]));
      ConvertFrom([")"] + rest, Converter(out1, stack + ["("] + Pending(x)));
      { AdmitsNoFunction(stack, 4);
        CloseGroupExactly(out1, stack, Pending(x));
        CloseStepExactly(rest, Converter(out1, stack + ["("] + Pending(x)), Converter(out1 + Reversed(Pending(x)), stack)); }
      ConvertFrom(rest, Converter(out1 + Reversed(Pending(x)), stack));
      { SettledPending(x);
        Assoc(output, Settled(x), Reversed(Pending(x)));
        assert Settled(Group(x)) == Postorder(x) && Pending(Group(x)) == [];
        assert stack + [] == stack; }
      ConvertFrom(rest, Converter(output + Settled(Group(x)), stack + Pending(Group(x))));
    }
  }

  /** A call: the function name and "(" are pushed, the argument converted
      above them, and ")" pops down to the "(" and then emits the name. */
  lemma {:induction false} ConvertCall(f: string, x: Expr, rest: seq<string>, output: seq<string>, stack: seq<string>)
    requires IsFunction(f) && Canonical(x)
    requires ConvertFrom(Infix(x) + ([")"] + rest), Converter(output, stack + [f] + ["("])) ==
      ConvertFrom([")"] + rest, Converter(output + Settled(x), stack + [f] + ["("] + Pending(x)))
    ensures ConvertFrom(Infix(Call(f, x)) + rest, Converter(output, stack)) ==
      ConvertFrom(rest, Converter(output + Settled(Call(f, x)), stack + Pending(Call(f, x))))
  {
    var tail := [")"] + rest;
    var out1 := output + Settled(x);
    calc {
      ConvertFrom(Infix(Call(f, x)) + rest, Converter(output, stack));
      { Regroup([f, "("], Infix(x), [")"], rest);
        assert [f, "("] == [f] + ["("];
        Regroup([f], ["("], Infix(x) + tail, []); }
      ConvertFrom([f] + (["("] + (Infix(x) + tail)), Converter(output, stack));
      { PushStepExactly(f, ["("] + (Infix(x) + tail), Converter(output, stack)); }
      ConvertFrom(["("] + (Infix(x) + tail), Converter(output, stack + [f]));
      { PushStepExactly("(", Infix(x) + tail, Converter(output, stack + [f])); }
      ConvertFrom(Infix(x) + tail, Converter(output, stack + [f] + ["("]));
      ConvertFrom(tail, Converter(out1, stack + [f] + ["("] + Pending(x)));
      { CloseCallExactly(out1, stack, f, Pending(x));
        CloseStepExactly(rest, Converter(out1, stack + [f] + ["("] + Pending(x)), Converter(out1 + Reversed(Pending(x)) + [f], stack)); }
      ConvertFrom(rest, Converter(out1 + Reversed(Pending(x)) + [f], stack));
      { SettledPending(x);
        var p := Settled(x) + Reversed(Pending(x));
        Assoc(output, Settled(x), Reversed(Pending(x)));
        Assoc(output, p, [f]);
        assert Settled(Call(f, x)) == p + [f] && Pending(Call(f, x)) == [];
        assert stack + [] == stack; }
      ConvertFrom(rest, Converter(output + Settled(Call(f, x)), stack + Pending(Call(f, x))));
    }
  }

  /** Converting `Infix(e)` from a stack that admits `e` appends `Settled(e)`
      to the output and leaves `Pending(e)` on top of the stack. */
  lemma {:induction false} ConvertInfix(e: Expr, rest: seq<string>, output: seq<string>, stack: seq<string>)
    requires Canonical(e) && Admits(stack, Binding(e))
    ensures ConvertFrom(Infix(e) + rest, Converter(output, stack)) ==
      ConvertFrom(rest, Converter(output + Settled(e), stack + Pending(e)))
    decreases e
  {
    match e
    case Leaf(t) =>
      ConvertCons(t, rest, Converter(output, stack));
      assert stack + [] == stack;
    case Binary(op, l, r) =>
      ConvertInfix(l, [op] + (Infix(r) + rest), output, stack);
      ConvertInfix(r, rest, output + Settled(l) + Reversed(Pending(l)), stack + [op]);
      ConvertBinary(op, l, r, rest, output, stack);
    case Group(x) =>
      ConvertInfix(x, [")"] + rest, output, stack + ["("]);
      ConvertGroup(x, rest, output, stack);
    case Call(f, x) =>
      ConvertInfix(x, [")"] + rest, output, stack + [f] + ["("]);
      ConvertCall(f, x, rest, output, stack);
  }

  /** The converter turns every expression into its postfix form. */
  lemma {:induction false} InfixToPostfix(e: Expr)
    requires Canonical(e)
    ensures ToPostfix(Infix(e)) == Ok(Postorder(e))
  {
    ConvertInfix(e, [], [], []);
    assert Infix(e) + [] == Infix(e);
    assert "(" !in Pending(e) by {
      SymbolKinds();
    }
    assert [] + Settled(e) == Settled(e) && [] + Pending(e) == Pending(e);
    SettledPending(e);
  }

  // ----- The postfix run of an expression -----

  lemma {:induction false} RunCons(t: string, rest: seq<string>, stack: seq<Value>, s: Session, lib: MathLib)
    ensures RunFrom([t] + rest, stack, s, lib) ==
      match EvalStep(t, stack, s, lib)
      case Err(e) => (Err(e), s)
      case Ok((stack', s')) => RunFrom(rest, stack', s', lib)
  {
    assert ([t] + rest)[0] == t && ([t] + rest)[1..] == rest;
  }

  /** Running `Postorder(e)` pushes the value of `e`, or stops with its
      failure. */
  lemma {:induction false} RunPostorder(e: Expr, rest: seq<string>, stack: seq<Value>, s: Session, lib: MathLib)
    requires Canonical(e)
    ensures RunFrom(Postorder(e) + rest, stack, s, lib) ==
      if Eval(e, s, lib).0.Err? then Eval(e, s, lib)
      else RunFrom(rest, stack + [Eval(e, s, lib).0.value], Eval(e, s, lib).1, lib)
    decreases e
  {
    match e
    case Leaf(t) =>
      RunCons(t, rest, stack, s, lib);
    case Binary(op, l, r) =>
      Regroup(Postorder(l), Postorder(r), [op], rest);
      RunPostorder(l, Postorder(r) + ([op] + rest), stack, s, lib);
      var a := Eval(l, s, lib);
      if a.0.Ok? {
        RunPostorder(r, [op] + rest, stack + [a.0.value], a.1, lib);
        var b := Eval(r, a.1, lib);
        if b.0.Ok? {
          assert stack + [a.0.value] + [b.0.value] == stack + [a.0.value, b.0.value];
          RunCons(op, rest, stack + [a.0.value, b.0.value], b.1, lib);
          OperatorStep(op, stack, a.0.value, b.0.value, b.1, lib);
        }
      }
    case Group(x) =>
      RunPostorder(x, rest, stack, s, lib);
    case Call(f, x) =>
      KindsAreDisjoint(f);
      Regroup(Postorder(x), [f], rest, []);
      RunPostorder(x, [f] + rest, stack, s, lib);
      var a := Eval(x, s, lib);
      if a.0.Ok? {
        RunCons(f, rest, stack + [a.0.value], a.1, lib);
        assert Last(stack + [a.0.value]) == a.0.value && DropLast(stack + [a.0.value]) == stack;
      }
  }

  /** Converting an expression and running the postfix form computes the
      expression's value on the tree: with the session that evaluation
      leaves, and with its first failure if it fails. */
  lemma {:induction false} InfixEvaluation(e: Expr, s: Session, lib: MathLib)
    requires Canonical(e)
    ensures ToPostfix(Infix(e)) == Ok(Postorder(e))
    ensures Run(Postorder(e), s, lib) == Eval(e, s, lib)
  {
    InfixToPostfix(e);
    RunPostorder(e, [], [], s, lib);
    assert Postorder(e) + [] == Postorder(e);
    var v := Eval(e, s, lib);
    if v.0.Ok? {
      assert [] + [v.0.value] == [v.0.value];
      assert RunFrom([], [v.0.value], v.1, lib) == (Ok(v.0.value), v.1);
    }
  }

  // ----- From text -----

  /** A token made of one symbol character. */
  predicate IsSymbolToken(t: string) { |t| == 1 && IsSymbol(t[0]) }

  /** Of every two neighbouring tokens at least one is a symbol, so no two
      runs touch. */
  predicate Separated(ts: seq<string>) {
    forall k :: 0 <= k < |ts| - 1 ==> IsSymbolToken(ts[k]) || IsSymbolToken(ts[k + 1])
  }

  lemma {:induction false} SymbolChars(c: char)
    requires IsSymbol(c)
    ensures !IsNumberChar(c) && !IsLetter(c) && !IsWhitespace(c)
  {
    assert c == '+' || c == '-' || c == '*' || c == '/' || c == '^' || c == '(' || c == ')' || c == ',';
  }

  lemma {:induction false} JoinLexemes(a: seq<string>, b: seq<string>)
    requires AllLexemes(a) && AllLexemes(b)
    ensures AllLexemes(a + b)
  {
    var c := a + b;
    forall k | 0 <= k < |c| ensures IsLexeme(c[k]) {
      if k < |a| { assert c[k] == a[k]; } else { assert c[k] == b[k - |a|]; }
    }
  }

  lemma {:induction false} JoinSeparated(a: seq<string>, b: seq<string>)
    requires Separated(a) && Separated(b)
    requires a != [] && b != [] ==> IsSymbolToken(a[|a| - 1]) || IsSymbolToken(b[0])
    ensures Separated(a + b)
  {
    var c := a + b;
    forall k | 0 <= k < |c| - 1 ensures IsSymbolToken(c[k]) || IsSymbolToken(c[k + 1]) {
      if k + 1 < |a| {
        assert c[k] == a[k] && c[k + 1] == a[k + 1];
      } else if k >= |a| {
        assert c[k] == b[k - |a|] && c[k + 1] == b[k + 1 - |a|];
      } else {
        assert c[k] == a[|a| - 1] && c[k + 1] == b[0];
      }
    }
  }

  /** Separated tokens never split a run. */
  lemma {:induction false} SeparatedMaximal(ts: seq<string>)
    requires Separated(ts)
    ensures MaximalRuns(ts)
  {
    forall k | 0 <= k < |ts| - 1
      ensures !(IsRunOf(ts[k], NumberRun) && IsRunOf(ts[k + 1], NumberRun)) &&
              !(IsRunOf(ts[k], WordRun) && IsRunOf(ts[k + 1], WordRun))
    {
      var t := if IsSymbolToken(ts[k]) then ts[k] else ts[k + 1];
      SymbolChars(t[0]);
      assert !InRun(t[0], NumberRun) && !InRun(t[0], WordRun);
    }
  }

  lemma {:induction false} SymbolLexeme(t: string)
    requires t == "(" || t == ")" || IsOperator(t)
    ensures IsSymbolToken(t) && IsLexeme(t)
  {
  }

  /** A number, a variable or a function name is a run the lexer reads
      whole. */
  lemma {:induction false} WordLexeme(t: string)
    requires IsOperand(t) || IsFunction(t)
    ensures IsLexeme(t)
  {
    if IsFunction(t) {
      assert t == "sin" || t == "cos" || t == "tan" || t == "sqrt" || t == "abs";
      assert IsRunOf(t, WordRun);
    } else if IsNumber(t) {
      TokenClasses(t);
      assert IsRunOf(t, NumberRun);
    } else {
      assert IsRunOf(t, WordRun);
    }
  }

  /** The tokens an expression is written as are lexemes, separated by
      symbols. */
  lemma {:induction false} InfixTokens(e: Expr)
    requires Canonical(e)
    ensures Infix(e) != [] && AllLexemes(Infix(e)) && Separated(Infix(e))
  {
    match e
    case Leaf(t) =>
      WordLexeme(t);
    case Binary(op, l, r) =>
      InfixTokens(l);
      InfixTokens(r);
      SymbolLexeme(op);
      JoinLexemes(Infix(l), [op]);
      JoinSeparated(Infix(l), [op]);
      JoinLexemes(Infix(l) + [op], Infix(r));
      JoinSeparated(Infix(l) + [op], Infix(r));
    case Group(x) =>
      InfixTokens(x);
      SymbolLexeme("(");
      SymbolLexeme(")");
      JoinLexemes(["("], Infix(x));
      JoinSeparated(["("], Infix(x));
      JoinLexemes(["("] + Infix(x), [")"]);
      JoinSeparated(["("] + Infix(x), [")"]);
    case Call(f, x) =>
      InfixTokens(x);
      WordLexeme(f);
      SymbolLexeme("(");
      SymbolLexeme(")");
      JoinLexemes([f, "("], Infix(x));
      JoinSeparated([f, "("], Infix(x));
      JoinLexemes([f, "("] + Infix(x), [")"]);
      JoinSeparated([f, "("] + Infix(x), [")"]);
  }

  /** Evaluating the TEXT of an expression, in any session, computes the
      expression's value on the tree: the text is read back as exactly the
      expression's tokens, and converting and running them gives `Eval`. */
  lemma {:induction false} TextEvaluation(e: Expr, s: Session, lib: MathLib)
    requires Canonical(e)
    ensures Tokenize(Concat(Infix(e))) == Ok(Infix(e))
    ensures EvaluateIn(Concat(Infix(e)), s, lib) == Eval(e, s, lib)
  {
    var text := Concat(Infix(e));
    InfixTokens(e);
    SeparatedMaximal(Infix(e));
    TokenizeExactly(text, Infix(e));
    ScanFails(text, 0);
    forall i | 0 <= i < |text| ensures !IsWhitespace(text[i]) {
      assert IsTokenChar(text[i]);
      if IsSymbol(text[i]) {
        SymbolChars(text[i]);
      }
    }
    InfixEvaluation(e, s, lib);
  }
}
