/** The infix-to-postfix converter (`convertToPostfix`): Dijkstra's
    shunting-yard algorithm over an operator stack. Stacks are sequences
    whose top is the LAST element. */
module ShuntingYard {
  import opened Tokens

  function Last<T>(s: seq<T>): T
    requires s != []
  {
    s[|s| - 1]
  }

  function DropLast<T>(s: seq<T>): seq<T>
    requires s != []
  {
    s[..|s| - 1]
  }

  /** The order in which a stack's entries leave it: top first. */
  function Reversed(s: seq<string>): (r: seq<string>)
    ensures |r| == |s|
  {
    if s == [] then [] else [Last(s)] + Reversed(DropLast(s))
  }

  /** Popping the top of `stack` and then the entries from `n` up emits the
      entries from `n` up, top first. */
  lemma {:induction false} PoppedStep(stack: seq<string>, n: nat)
    requires n < |stack|
    ensures Reversed(stack[n..]) == [Last(stack)] + Reversed(DropLast(stack)[n..])
  {
    var popped := stack[n..];
    assert Last(popped) == Last(stack);
    assert DropLast(popped) == DropLast(stack)[n..];
  }

  /** Tokens that go straight to the output. */
  predicate IsOperand(t: string) { IsNumber(t) || IsVariable(t) }

  /** Tokens the converter accepts. */
  predicate Recognized(t: string) {
    IsOperand(t) || IsFunction(t) || t == "," || IsOperator(t) || t == "(" || t == ")"
  }

  /** Tokens that reach the output of a successful conversion: all but
      parentheses and commas. */
  predicate Emitted(t: string) { t != "(" && t != ")" && t != "," }

  /** The emitted tokens of `ts`, in order. */
  function Kept(ts: seq<string>): seq<string> {
    if ts == [] then [] else Kept(DropLast(ts)) + (if Emitted(Last(ts)) then [Last(ts)] else [])
  }

  /** The numbers and variables of `ts`, in order. */
  function Operands(ts: seq<string>): seq<string> {
    if ts == [] then [] else Operands(DropLast(ts)) + (if IsOperand(Last(ts)) then [Last(ts)] else [])
  }

  /** Number of "(" in `ts`. */
  function Opens(ts: seq<string>): nat {
    if ts == [] then 0 else Opens(DropLast(ts)) + (if Last(ts) == "(" then 1 else 0)
  }

  /** The converter's working state: `output` and the operator stack. */
  datatype Converter = Converter(output: seq<string>, stack: seq<string>)

  /** `output.add(stack.pop())`. */
  function PopOne(st: Converter): Converter
    requires st.stack != []
  {
    Converter(st.output + [Last(st.stack)], DropLast(st.stack))
  }

  /** What is left after popping further from `PopOne(st)` is what is left
      after popping from `st`, with the top of `st` emitted first. */
  lemma {:induction false} PoppedOne(st: Converter, r: Converter)
    requires st.stack != []
    requires |r.stack| <= |DropLast(st.stack)| && r.stack == DropLast(st.stack)[..|r.stack|]
    requires r.output == PopOne(st).output + Reversed(DropLast(st.stack)[|r.stack|..])
    ensures |r.stack| <= |st.stack| && r.stack == st.stack[..|r.stack|]
    ensures r.output == st.output + Reversed(st.stack[|r.stack|..])
  {
    var n := |r.stack|;
    PoppedStep(st.stack, n);
    assert DropLast(st.stack)[..n] == st.stack[..n];
    var x, y := [Last(st.stack)], Reversed(DropLast(st.stack)[n..]);
    assert (st.output + x) + y == st.output + (x + y);
  }

  /** Pop entries to the output until a "(" is on top or the stack is empty:
      the "," rule and the first half of the ")" rule. */
  function PopToParen(st: Converter): (r: Converter)
    ensures |r.stack| <= |st.stack| && r.stack == st.stack[..|r.stack|]
    ensures r.stack == [] || Last(r.stack) == "("
    ensures forall k :: |r.stack| <= k < |st.stack| ==> st.stack[k] != "("
    ensures r.output == st.output + Reversed(st.stack[|r.stack|..])
    decreases |st.stack|
  {
    if st.stack == [] || Last(st.stack) == "(" then
      assert st.stack[|st.stack|..] == [];
      st
    else
      var r := PopToParen(PopOne(st));
      PoppedOne(st, r);
      r
  }

  /** `top` is an operator that binds at least as tightly as `op`. */
  predicate Outranks(top: string, op: string) {
    IsOperator(top) && Precedence(top) >= Precedence(op)
  }

  /** Before `op` is pushed: pop every operator of greater or equal
      precedence from the top of the stack. */
  function PopHigher(st: Converter, op: string): (r: Converter)
    ensures |r.stack| <= |st.stack| && r.stack == st.stack[..|r.stack|]
    ensures r.stack == [] || !Outranks(Last(r.stack), op)
    ensures forall k :: |r.stack| <= k < |st.stack| ==> Outranks(st.stack[k], op)
    ensures r.output == st.output + Reversed(st.stack[|r.stack|..])
    decreases |st.stack|
  {
    if st.stack != [] && Outranks(Last(st.stack), op) then
      var r := PopHigher(PopOne(st), op);
      PoppedOne(st, r);
      r
    else
      assert st.stack[|st.stack|..] == [];
      st
  }

  /** The ")" rule: pop to the matching "(", discard it, and emit the
      function name beneath it if there is one. */
  function CloseParen(st: Converter): Result<Converter> {
    var p := PopToParen(st);
    if p.stack == [] then Err(UnbalancedParens)
    else
      var q := Converter(p.output, DropLast(p.stack));
      if q.stack != [] && IsFunction(Last(q.stack)) then Ok(PopOne(q)) else Ok(q)
  }

  /** One iteration of the converter's main loop. */
  function Step(st: Converter, t: string): Result<Converter> {
    if IsOperand(t) then Ok(Converter(st.output + [t], st.stack))
    else if IsFunction(t) then Ok(Converter(st.output, st.stack + [t]))
    else if t == "," then Ok(PopToParen(st))
    else if IsOperator(t) then
      var p := PopHigher(st, t);
      Ok(Converter(p.output, p.stack + [t]))
    else if t == "(" then Ok(Converter(st.output, st.stack + [t]))
    else if t == ")" then CloseParen(st)
    else Err(UnknownToken(t))
  }

  /** The final loop: pop everything, failing on a "(" left open. */
  function Drain(st: Converter): (r: Result<seq<string>>)
    ensures r.Ok? <==> "(" !in st.stack
    ensures r.Ok? ==> r.value == st.output + Reversed(st.stack)
    ensures r.Err? ==> r.error == UnbalancedParens
    decreases |st.stack|
  {
    if st.stack == [] then Ok(st.output)
    else if Last(st.stack) == "(" then Err(UnbalancedParens)
    else
      var r := Drain(PopOne(st));
      assert st.stack == DropLast(st.stack) + [Last(st.stack)];
      r
  }

  /** The conversion of the remaining `tokens` from state `st`. */
  function ConvertFrom(tokens: seq<string>, st: Converter): Result<seq<string>>
    decreases |tokens|
  {
    if tokens == [] then Drain(st)
    else
      match Step(st, tokens[0])
      case Err(e) => Err(e)
      case Ok(next) => ConvertFrom(tokens[1..], next)
  }

  function ToPostfix(tokens: seq<string>): Result<seq<string>> {
    ConvertFrom(tokens, Converter([], []))
  }

  // ----- Invariants of the converter state -----

  predicate IsStackEntry(t: string) { t == "(" || IsOperator(t) || IsFunction(t) }

  /** The stack holds only "(", operators and function names, and along every
      pair of adjacent operators precedence strictly increases toward the top. */
  predicate StackShape(stack: seq<string>) {
    (forall k :: 0 <= k < |stack| ==> IsStackEntry(stack[k])) &&
    (forall k :: 0 <= k < |stack| - 1 && IsOperator(stack[k]) && IsOperator(stack[k + 1]) ==>
       Precedence(stack[k]) < Precedence(stack[k + 1]))
  }

  /** After `consumed` has been read, every emitted token of it is either in
      the output or on the stack, exactly once; the operands are in the output
      in their input order; the output holds no parenthesis or comma. */
  predicate Accounts(st: Converter, consumed: seq<string>) {
    multiset(st.output) + multiset(Kept(st.stack)) == multiset(Kept(consumed)) &&
    Operands(st.output) == Operands(consumed) &&
    AllEmitted(st.output)
  }

  predicate AllEmitted(ts: seq<string>) {
    forall k :: 0 <= k < |ts| ==> Emitted(ts[k])
  }

  lemma {:induction false} AllEmittedAppend(ts: seq<string>, t: string)
    requires AllEmitted(ts) && Emitted(t)
    ensures AllEmitted(ts + [t])
  {
    assert forall k :: 0 <= k < |ts| ==> (ts + [t])[k] == ts[k];
  }

  /** No parenthesis, comma, operator or function name is a number or a
      variable. */
  lemma {:induction false} KindsAreDisjoint(t: string)
    requires t == "(" || t == ")" || t == "," || IsOperator(t) || IsFunction(t)
    ensures !IsOperand(t)
  {
    var k := DotIndex(t);
    assert 0 < k ==> t[..k][0] == t[0];
  }

  lemma {:induction false} KeptAppend(ts: seq<string>, t: string)
    ensures Kept(ts + [t]) == Kept(ts) + (if Emitted(t) then [t] else [])
  {
    assert DropLast(ts + [t]) == ts;
  }

  lemma {:induction false} OperandsAppend(ts: seq<string>, t: string)
    ensures Operands(ts + [t]) == Operands(ts) + (if IsOperand(t) then [t] else [])
  {
    assert DropLast(ts + [t]) == ts;
  }

  lemma {:induction false} OpensAppend(ts: seq<string>, t: string)
    ensures Opens(ts + [t]) == Opens(ts) + (if t == "(" then 1 else 0)
  {
    assert DropLast(ts + [t]) == ts;
  }

  /** Moving an emitted entry from the top of the stack to the output
      leaves the combined multiset unchanged. */
  lemma {:induction false} MoveAccounts(output: seq<string>, rest: seq<string>, x: string)
    requires Emitted(x)
    ensures multiset(output + [x]) + multiset(Kept(rest)) == multiset(output) + multiset(Kept(rest + [x]))
  {
    KeptAppend(rest, x);
    calc {
      multiset(output) + multiset(Kept(rest + [x]));
      multiset(output) + multiset(Kept(rest) + [x]);
      multiset(output) + (multiset(Kept(rest)) + multiset{x});
      (multiset(output) + multiset{x}) + multiset(Kept(rest));
      multiset(output + [x]) + multiset(Kept(rest));
    }
  }

  /** What every state of a conversion satisfies after `consumed` has been
      read. */
  predicate Invariant(st: Converter, consumed: seq<string>) {
    StackShape(st.stack) && Accounts(st, consumed)
  }

  lemma {:induction false} DropShape(stack: seq<string>)
    requires stack != [] && StackShape(stack)
    ensures StackShape(DropLast(stack))
  {
    var d := DropLast(stack);
    assert forall k :: 0 <= k < |d| ==> d[k] == stack[k];
  }

  lemma FunctionNameIsLong(t: string)
    requires IsFunction(t)
    ensures |t| >= 3 && t != "(" && t != ")" && !IsOperator(t)
  {
  }

  lemma {:induction false} OperandStart(t: string)
    requires IsOperand(t)
    ensures |t| > 0 && (IsDigit(t[0]) || IsLetter(t[0]))
  {
    if IsNumber(t) {
      var k := DotIndex(t);
      assert t[..k][0] == t[0];
    }
  }

  lemma {:induction false} PopOneKeeps(st: Converter, consumed: seq<string>)
    requires st.stack != [] && Last(st.stack) != "("
    requires Invariant(st, consumed)
    ensures Invariant(PopOne(st), consumed)
  {
    var x := Last(st.stack);
    var rest := DropLast(st.stack);
    assert st.stack == rest + [x];
    assert IsStackEntry(x) && Emitted(x);
    DropShape(st.stack);
    assert multiset(st.output + [x]) + multiset(Kept(rest)) == multiset(Kept(consumed)) by {
      MoveAccounts(st.output, rest, x);
    }
    assert Operands(st.output + [x]) == Operands(consumed) by {
      KindsAreDisjoint(x);
      OperandsAppend(st.output, x);
    }
    AllEmittedAppend(st.output, x);
  }

  lemma {:induction false} PopToParenKeeps(st: Converter, consumed: seq<string>)
    requires Invariant(st, consumed)
    ensures Invariant(PopToParen(st), consumed)
    decreases |st.stack|
  {
    if st.stack != [] && Last(st.stack) != "(" {
      PopOneKeeps(st, consumed);
      PopToParenKeeps(PopOne(st), consumed);
    }
  }

  lemma {:induction false} PopHigherKeeps(st: Converter, op: string, consumed: seq<string>)
    requires Invariant(st, consumed)
    ensures Invariant(PopHigher(st, op), consumed)
    decreases |st.stack|
  {
    if st.stack != [] && Outranks(Last(st.stack), op) {
      PopOneKeeps(st, consumed);
      PopHigherKeeps(PopOne(st), op, consumed);
    }
  }

  /** Pushing a stack entry keeps the shape when it does not put an operator
      directly above one of equal or higher precedence. */
  lemma {:induction false} PushShape(stack: seq<string>, t: string)
    requires StackShape(stack) && IsStackEntry(t)
    requires stack != [] && IsOperator(t) && IsOperator(Last(stack)) ==> Precedence(Last(stack)) < Precedence(t)
    ensures StackShape(stack + [t])
  {
    var s := stack + [t];
    forall k | 0 <= k < |s| ensures IsStackEntry(s[k]) {
      if k < |stack| { assert s[k] == stack[k]; }
    }
    forall k | 0 <= k < |s| - 1 && IsOperator(s[k]) && IsOperator(s[k + 1])
      ensures Precedence(s[k]) < Precedence(s[k + 1])
    {
      assert s[k] == stack[k];
      if k + 1 < |stack| { assert s[k + 1] == stack[k + 1]; }
    }
  }

  lemma MultisetShift(output: seq<string>, kept: seq<string>, consumed: seq<string>, x: seq<string>)
    requires multiset(output) + multiset(kept) == multiset(consumed)
    ensures multiset(output) + multiset(kept + x) == multiset(consumed + x)
  {
  }

  /** Pushing a token that is not an operand onto the stack keeps the accounting. */
  lemma {:induction false} PushAccounts(st: Converter, consumed: seq<string>, t: string)
    requires Accounts(st, consumed) && !IsOperand(t)
    ensures Accounts(Converter(st.output, st.stack + [t]), consumed + [t])
  {
    var x := if Emitted(t) then [t] else [];
    KeptAppend(st.stack, t);
    KeptAppend(consumed, t);
    MultisetShift(st.output, Kept(st.stack), Kept(consumed), x);
    OperandsAppend(consumed, t);
    assert Operands(consumed) + [] == Operands(consumed);
  }

  lemma {:induction false} PushKeeps(st: Converter, consumed: seq<string>, t: string)
    requires Invariant(st, consumed)
    requires t == "(" || IsFunction(t)
    ensures Invariant(Converter(st.output, st.stack + [t]), consumed + [t])
  {
    KindsAreDisjoint(t);
    assert !IsOperator(t) by { if IsFunction(t) { FunctionNameIsLong(t); } }
    PushShape(st.stack, t);
    PushAccounts(st, consumed, t);
  }

  /** Reading a token that is neither emitted nor an operand (a parenthesis
      or a comma) changes nothing in the accounting. */
  lemma {:induction false} SkipAccounts(st: Converter, consumed: seq<string>, t: string)
    requires Accounts(st, consumed) && (t == "(" || t == ")" || t == ",")
    ensures Accounts(st, consumed + [t])
  {
    KindsAreDisjoint(t);
    KeptAppend(consumed, t);
    OperandsAppend(consumed, t);
    assert Kept(consumed) + [] == Kept(consumed);
    assert Operands(consumed) + [] == Operands(consumed);
  }

  /** Emitting an operand keeps the accounting. */
  lemma {:induction false} EmitAccounts(st: Converter, consumed: seq<string>, t: string)
    requires Accounts(st, consumed) && IsOperand(t)
    ensures Accounts(Converter(st.output + [t], st.stack), consumed + [t])
  {
    assert Emitted(t) by { OperandStart(t); }
    assert multiset(st.output + [t]) + multiset(Kept(st.stack)) == multiset(Kept(consumed + [t])) by {
      KeptAppend(consumed, t);
      calc {
        multiset(st.output + [t]) + multiset(Kept(st.stack));
        multiset(st.output) + multiset{t} + multiset(Kept(st.stack));
        multiset(Kept(consumed)) + multiset{t};
        multiset(Kept(consumed) + [t]);
        multiset(Kept(consumed + [t]));
      }
    }
    assert Operands(st.output + [t]) == Operands(consumed + [t]) by {
      OperandsAppend(st.output, t);
      OperandsAppend(consumed, t);
    }
    AllEmittedAppend(st.output, t);
  }

  /** Discarding the "(" on top of the stack keeps the invariant. */
  lemma {:induction false} DropParenKeeps(p: Converter, consumed: seq<string>)
    requires p.stack != [] && Last(p.stack) == "("
    requires Invariant(p, consumed)
    ensures Invariant(Converter(p.output, DropLast(p.stack)), consumed)
  {
    var rest := DropLast(p.stack);
    assert p.stack == rest + ["("];
    KeptAppend(rest, "(");
    assert Kept(rest) + [] == Kept(rest);
    DropShape(p.stack);
  }

  /** The ")" rule keeps the invariant. */
  lemma {:induction false} CloseKeeps(st: Converter, consumed: seq<string>)
    requires Invariant(st, consumed)
    requires CloseParen(st).Ok?
    ensures Invariant(CloseParen(st).value, consumed + [")"])
  {
    var p := PopToParen(st);
    assert Invariant(p, consumed + [")"]) by {
      PopToParenKeeps(st, consumed);
      SkipAccounts(p, consumed, ")");
    }
    var q := Converter(p.output, DropLast(p.stack));
    assert Invariant(q, consumed + [")"]) by {
      DropParenKeeps(p, consumed + [")"]);
    }
    if q.stack != [] && IsFunction(Last(q.stack)) {
      var r := PopOne(q);
      assert Invariant(r, consumed + [")"]) by {
        FunctionNameIsLong(Last(q.stack));
        PopOneKeeps(q, consumed + [")"]);
      }
      assert CloseParen(st) == Ok(r);
    } else {
      assert CloseParen(st) == Ok(q);
    }
  }

  /** The operator rule keeps the invariant. */
  lemma {:induction false} OperatorKeeps(st: Converter, consumed: seq<string>, t: string)
    requires Invariant(st, consumed) && IsOperator(t)
    ensures var p := PopHigher(st, t); Invariant(Converter(p.output, p.stack + [t]), consumed + [t])
  {
    var p := PopHigher(st, t);
    PopHigherKeeps(st, t, consumed);
    KindsAreDisjoint(t);
    PushShape(p.stack, t);
    PushAccounts(p, consumed, t);
  }

  /** The rules that push: operands, function names and "(". */
  lemma {:induction false} PushStepKeeps(st: Converter, consumed: seq<string>, t: string)
    requires Invariant(st, consumed)
    requires IsOperand(t) || IsFunction(t) || t == "("
    ensures Step(st, t).Ok? && Invariant(Step(st, t).value, consumed + [t])
  {
    if IsOperand(t) {
      assert Step(st, t) == Ok(Converter(st.output + [t], st.stack));
      EmitAccounts(st, consumed, t);
    } else {
      assert Step(st, t) == Ok(Converter(st.output, st.stack + [t]));
      PushKeeps(st, consumed, t);
    }
  }

  /** The rules that pop: ",", operators and ")". */
  lemma {:induction false} PopStepKeeps(st: Converter, consumed: seq<string>, t: string)
    requires Invariant(st, consumed)
    requires !IsOperand(t) && !IsFunction(t) && t != "("
    requires Step(st, t).Ok?
    ensures Invariant(Step(st, t).value, consumed + [t])
  {
    if t == "," {
      var n := PopToParen(st);
      assert Step(st, t) == Ok(n);
      PopToParenKeeps(st, consumed);
      SkipAccounts(n, consumed, t);
    } else if IsOperator(t) {
      var p := PopHigher(st, t);
      assert Step(st, t) == Ok(Converter(p.output, p.stack + [t]));
      OperatorKeeps(st, consumed, t);
    } else {
      assert t == ")" && Step(st, t) == CloseParen(st);
      CloseKeeps(st, consumed);
    }
  }

  /** Every step keeps the stack's shape and the token accounting. */
  lemma {:induction false} StepKeeps(st: Converter, consumed: seq<string>, t: string)
    requires Invariant(st, consumed)
    requires Step(st, t).Ok?
    ensures Invariant(Step(st, t).value, consumed + [t])
  {
    if IsOperand(t) || IsFunction(t) || t == "(" {
      PushStepKeeps(st, consumed, t);
    } else {
      PopStepKeeps(st, consumed, t);
    }
  }

  // ----- Open parentheses on the stack -----

  lemma {:induction false} OpensZero(s: seq<string>)
    ensures Opens(s) == 0 <==> "(" !in s
  {
    if s != [] {
      assert s == DropLast(s) + [Last(s)];
      OpensZero(DropLast(s));
    }
  }

  lemma {:induction false} PopOneOpens(st: Converter)
    requires st.stack != [] && Last(st.stack) != "("
    ensures Opens(PopOne(st).stack) == Opens(st.stack)
  {
    assert st.stack == DropLast(st.stack) + [Last(st.stack)];
    OpensAppend(DropLast(st.stack), Last(st.stack));
  }

  lemma {:induction false} PopToParenOpens(st: Converter)
    ensures Opens(PopToParen(st).stack) == Opens(st.stack)
    decreases |st.stack|
  {
    if st.stack != [] && Last(st.stack) != "(" {
      PopOneOpens(st);
      PopToParenOpens(PopOne(st));
    }
  }

  lemma {:induction false} PopHigherOpens(st: Converter, op: string)
    ensures Opens(PopHigher(st, op).stack) == Opens(st.stack)
    decreases |st.stack|
  {
    if st.stack != [] && Outranks(Last(st.stack), op) {
      PopOneOpens(st);
      PopHigherOpens(PopOne(st), op);
    }
  }

  /** How reading `t` changes the number of "(" on the stack. */
  function OpensDelta(t: string): int {
    if t == "(" then 1 else if t == ")" then -1 else 0
  }

  lemma {:induction false} CloseOpens(st: Converter)
    requires CloseParen(st).Ok?
    ensures Opens(CloseParen(st).value.stack) == Opens(st.stack) - 1
  {
    var p := PopToParen(st);
    PopToParenOpens(st);
    var q := Converter(p.output, DropLast(p.stack));
    assert p.stack == q.stack + ["("];
    OpensAppend(q.stack, "(");
    if q.stack != [] && IsFunction(Last(q.stack)) {
      FunctionNameIsLong(Last(q.stack));
      PopOneOpens(q);
      assert CloseParen(st) == Ok(PopOne(q));
    } else {
      assert CloseParen(st) == Ok(q);
    }
  }

  /** A "(" opens one parenthesis, a ")" closes one, and no other token
      changes how many are open. */
  lemma {:induction false} StepOpens(st: Converter, t: string)
    requires Step(st, t).Ok?
    ensures Opens(Step(st, t).value.stack) == Opens(st.stack) + OpensDelta(t)
  {
    if IsOperand(t) {
      assert Step(st, t) == Ok(Converter(st.output + [t], st.stack));
      OperandStart(t);
    } else if IsFunction(t) || t == "(" {
      assert Step(st, t) == Ok(Converter(st.output, st.stack + [t]));
      if IsFunction(t) { FunctionNameIsLong(t); }
      OpensAppend(st.stack, t);
    } else if t == "," {
      assert Step(st, t) == Ok(PopToParen(st));
      PopToParenOpens(st);
    } else if IsOperator(t) {
      var p := PopHigher(st, t);
      assert Step(st, t) == Ok(Converter(p.output, p.stack + [t]));
      PopHigherOpens(st, t);
      OpensAppend(p.stack, t);
    } else {
      assert t == ")" && Step(st, t) == CloseParen(st);
      CloseOpens(st);
    }
  }

  // ----- What a successful conversion produces -----

  /** `out` holds every emitted token of `tokens` exactly once (so no
      parenthesis or comma), with the numbers and variables in input order. */
  predicate Rearranges(out: seq<string>, tokens: seq<string>) {
    AllEmitted(out) &&
    multiset(out) == multiset(Kept(tokens)) &&
    Operands(out) == Operands(tokens)
  }

  /** The final drain hands over what the stack still holds. */
  lemma {:induction false} DrainSound(st: Converter, consumed: seq<string>)
    requires Invariant(st, consumed)
    requires Drain(st).Ok?
    ensures Rearranges(Drain(st).value, consumed)
    decreases |st.stack|
  {
    if st.stack != [] {
      PopOneKeeps(st, consumed);
      DrainSound(PopOne(st), consumed);
    } else {
      assert multiset(Kept(st.stack)) == multiset{};
    }
  }

  /** Unfolding a conversion by one successful step. */
  lemma {:induction false} StepForward(tokens: seq<string>, st: Converter, consumed: seq<string>)
    returns (next: Converter)
    requires tokens != [] && Step(st, tokens[0]).Ok?
    ensures Step(st, tokens[0]) == Ok(next)
    ensures ConvertFrom(tokens, st) == ConvertFrom(tokens[1..], next)
    ensures (consumed + [tokens[0]]) + tokens[1..] == consumed + tokens
  {
    next := Step(st, tokens[0]).value;
    assert tokens == [tokens[0]] + tokens[1..];
  }

  lemma {:induction false} ConvertFromSound(tokens: seq<string>, st: Converter, consumed: seq<string>)
    requires Invariant(st, consumed)
    requires ConvertFrom(tokens, st).Ok?
    ensures Rearranges(ConvertFrom(tokens, st).value, consumed + tokens)
    decreases |tokens|
  {
    if tokens == [] {
      assert consumed + tokens == consumed;
      DrainSound(st, consumed);
    } else {
      var next := StepForward(tokens, st, consumed);
      StepKeeps(st, consumed, tokens[0]);
      ConvertFromSound(tokens[1..], next, consumed + [tokens[0]]);
    }
  }

  /** A successful conversion drops exactly the parentheses and commas and
      keeps the operands in order. */
  lemma ToPostfixSound(tokens: seq<string>)
    requires ToPostfix(tokens).Ok?
    ensures Rearranges(ToPostfix(tokens).value, tokens)
  {
    var st := Converter([], []);
    assert Accounts(st, []);
    assert [] + tokens == tokens;
    ConvertFromSound(tokens, st, []);
  }

  // ----- When a conversion fails -----

  predicate AllRecognized(tokens: seq<string>) {
    forall i :: 0 <= i < |tokens| ==> Recognized(tokens[i])
  }

  /** Reading `ts` with `d` parentheses already open never closes one that is
      not open and leaves none open at the end. */
  predicate BalancedFrom(ts: seq<string>, d: nat)
    decreases |ts|
  {
    if ts == [] then d == 0
    else if ts[0] == "(" then BalancedFrom(ts[1..], d + 1)
    else if ts[0] == ")" then d > 0 && BalancedFrom(ts[1..], d - 1)
    else BalancedFrom(ts[1..], d)
  }

  predicate Balanced(ts: seq<string>) { BalancedFrom(ts, 0) }

  /** The errors the converter reports: unbalanced parentheses, or a token
      of the input that is of no known kind. */
  predicate ConversionError(tokens: seq<string>, e: Error) {
    e == UnbalancedParens ||
    exists i :: 0 <= i < |tokens| && !Recognized(tokens[i]) && e == UnknownToken(tokens[i])
  }

  /** The ")" rule finds a "(" exactly when one is open. */
  lemma {:induction false} PopToParenFinds(st: Converter)
    ensures PopToParen(st).stack == [] <==> Opens(st.stack) == 0
  {
    var r := PopToParen(st);
    OpensZero(st.stack);
    if r.stack != [] {
      assert st.stack[|r.stack| - 1] == "(";
    }
  }

  /** A step fails on a token of no known kind, and on a ")" with no "("
      open; on every other token it succeeds. */
  lemma {:induction false} StepFails(st: Converter, t: string)
    ensures !Recognized(t) ==> Step(st, t) == Err(UnknownToken(t))
    ensures Recognized(t) ==> (Step(st, t).Ok? <==> t != ")" || Opens(st.stack) > 0)
    ensures Recognized(t) && Step(st, t).Err? ==> Step(st, t).error == UnbalancedParens
  {
    if t == ")" {
      KindsAreDisjoint(t);
      assert !IsFunction(t) && !IsOperator(t);
      assert Step(st, t) == CloseParen(st);
      PopToParenFinds(st);
    }
  }

  lemma {:induction false} ConvertFromErrors(tokens: seq<string>, st: Converter)
    ensures ConvertFrom(tokens, st).Err? ==> ConversionError(tokens, ConvertFrom(tokens, st).error)
    decreases |tokens|
  {
    if tokens != [] {
      var t := tokens[0];
      StepFails(st, t);
      if Step(st, t).Ok? {
        var next := StepForward(tokens, st, []);
        ConvertFromErrors(tokens[1..], next);
        if ConvertFrom(tokens, st).Err? && ConvertFrom(tokens, st).error != UnbalancedParens {
          var e := ConvertFrom(tokens, st).error;
          var i :| 0 <= i < |tokens[1..]| && !Recognized(tokens[1..][i]) && e == UnknownToken(tokens[1..][i]);
          assert tokens[i + 1] == tokens[1..][i];
        }
      }
    }
  }

  lemma {:induction false} ConvertFromUnknown(tokens: seq<string>, st: Converter)
    requires !AllRecognized(tokens)
    ensures ConvertFrom(tokens, st).Err?
    decreases |tokens|
  {
    var t := tokens[0];
    StepFails(st, t);
    if Step(st, t).Ok? {
      var next := StepForward(tokens, st, []);
      assert !AllRecognized(tokens[1..]) by {
        var i :| 0 <= i < |tokens| && !Recognized(tokens[i]);
        assert tokens[1..][i - 1] == tokens[i];
      }
      ConvertFromUnknown(tokens[1..], next);
    }
  }

  /** Balance after one token, in terms of the change it makes to the
      number of open parentheses. */
  lemma {:induction false} BalancedStep(ts: seq<string>, d: nat)
    requires ts != []
    ensures BalancedFrom(ts, d) <==>
      d + OpensDelta(ts[0]) >= 0 && BalancedFrom(ts[1..], d + OpensDelta(ts[0]))
  {
  }

  lemma {:induction false} ConvertFromBalanced(tokens: seq<string>, st: Converter)
    requires AllRecognized(tokens)
    ensures ConvertFrom(tokens, st).Ok? <==> BalancedFrom(tokens, Opens(st.stack))
    decreases |tokens|
  {
    if tokens == [] {
      OpensZero(st.stack);
    } else {
      var t := tokens[0];
      assert Recognized(t);
      BalancedStep(tokens, Opens(st.stack));
      StepFails(st, t);
      if Step(st, t).Ok? {
        var next := StepForward(tokens, st, []);
        StepOpens(st, t);
        assert AllRecognized(tokens[1..]) by {
          assert forall i :: 1 <= i < |tokens| ==> tokens[i] == tokens[1..][i - 1];
        }
        ConvertFromBalanced(tokens[1..], next);
        assert ConvertFrom(tokens, st).Ok? == ConvertFrom(tokens[1..], next).Ok?;
      } else {
        assert ConvertFrom(tokens, st).Err?;
        assert Opens(st.stack) + OpensDelta(t) < 0;
      }
    }
  }

  /** Conversion fails with one of its two errors; it fails whenever a token
      is unknown; and on known tokens it succeeds exactly when the
      parentheses are balanced. */
  lemma ToPostfixFails(tokens: seq<string>)
    ensures ToPostfix(tokens).Err? ==> ConversionError(tokens, ToPostfix(tokens).error)
    ensures !AllRecognized(tokens) ==> ToPostfix(tokens).Err?
    ensures AllRecognized(tokens) ==> (ToPostfix(tokens).Ok? <==> Balanced(tokens))
  {
    var st := Converter([], []);
    assert Accounts(st, []);
    ConvertFromErrors(tokens, st);
    if !AllRecognized(tokens) {
      ConvertFromUnknown(tokens, st);
    } else {
      ConvertFromBalanced(tokens, st);
    }
  }

  // ----- The converter's loops -----

  /** The inner loop of the "," and ")" rules. */
  method PopUntilParen(output0: seq<string>, stack0: seq<string>) returns (output: seq<string>, stack: seq<string>)
    ensures Converter(output, stack) == PopToParen(Converter(output0, stack0))
  {
    output, stack := output0, stack0;
    while stack != [] && Last(stack) != "("
      invariant PopToParen(Converter(output, stack)) == PopToParen(Converter(output0, stack0))
      decreases |stack|
    {
      output, stack := output + [Last(stack)], DropLast(stack);
    }
  }

  /** The inner loop of the operator rule. */
  method PopWhileHigher(output0: seq<string>, stack0: seq<string>, op: string)
    returns (output: seq<string>, stack: seq<string>)
    ensures Converter(output, stack) == PopHigher(Converter(output0, stack0), op)
  {
    output, stack := output0, stack0;
    while stack != [] && IsOperator(Last(stack)) && Precedence(Last(stack)) >= Precedence(op)
      invariant PopHigher(Converter(output, stack), op) == PopHigher(Converter(output0, stack0), op)
      decreases |stack|
    {
      output, stack := output + [Last(stack)], DropLast(stack);
    }
  }

  /** `convertToPostfix`: one pass over the tokens with an operator stack,
      then the stack is emptied onto the output. */
  method ConvertToPostfix(tokens: seq<string>) returns (r: Result<seq<string>>)
    ensures r == ToPostfix(tokens)
    ensures r.Ok? ==> Rearranges(r.value, tokens)
    ensures r.Err? ==> ConversionError(tokens, r.error)
    ensures AllRecognized(tokens) ==> (r.Ok? <==> Balanced(tokens))
  {
    ToPostfixFails(tokens);
    if ToPostfix(tokens).Ok? { ToPostfixSound(tokens); }
    var output: seq<string> := [];
    var stack: seq<string> := [];
    for i := 0 to |tokens|
      invariant ToPostfix(tokens) == ConvertFrom(tokens[i..], Converter(output, stack))
    {
      var token := tokens[i];
      ghost var st := Converter(output, stack);
      assert ConvertFrom(tokens[i..], st) ==
        match Step(st, token) case Err(e) => Err(e) case Ok(next) => ConvertFrom(tokens[i + 1..], next) by {
        assert tokens[i..][1..] == tokens[i + 1..];
      }
      if IsNumber(token) || IsVariable(token) {
        output := output + [token];
      } else if IsFunction(token) {
        stack := stack + [token];
      } else if token == "," {
        output, stack := PopUntilParen(output, stack);
      } else if IsOperator(token) {
        output, stack := PopWhileHigher(output, stack, token);
        stack := stack + [token];
      } else if token == "(" {
        stack := stack + [token];
      } else if token == ")" {
        output, stack := PopUntilParen(output, stack);
        if stack == [] {
          return Err(UnbalancedParens);
        }
        stack := DropLast(stack);
        if stack != [] && IsFunction(Last(stack)) {
          output, stack := output + [Last(stack)], DropLast(stack);
        }
      } else {
        return Err(UnknownToken(token));
      }
    }
    assert tokens[|tokens|..] == [];
    while stack != []
      invariant ToPostfix(tokens) == Drain(Converter(output, stack))
      decreases |stack|
    {
      if Last(stack) == "(" {
        return Err(UnbalancedParens);
      }
      output, stack := output + [Last(stack)], DropLast(stack);
    }
    r := Ok(output);
  }
}
