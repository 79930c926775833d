/** The postfix evaluator (`evaluatePostfix`) and the variable lookup it
    calls (`getVariableValue`), as functions of the evaluator's session: the
    variable cache and the values still waiting on the console. */
module Postfix {
  import opened Tokens
  import opened ShuntingYard

  /** The evaluator state a postfix run reads and updates: the `variables`
      cache, and the values the console will deliver, in order. */
  datatype Session = Session(vars: map<string, Value>, input: seq<Value>)

  /** `later` keeps every binding of `earlier`. */
  predicate Extends(earlier: map<string, Value>, later: map<string, Value>) {
    forall name :: name in earlier ==> name in later && later[name] == earlier[name]
  }

  /** `later` is what is left of the console input `earlier` after some
      values have been read from its front. */
  predicate ReadFrom(earlier: seq<Value>, later: seq<Value>) {
    |later| <= |earlier| && later == earlier[|earlier| - |later|..]
  }

  /** `getVariableValue`: a cached variable is answered from the cache; an
      unknown one reads the next console value and caches it. */
  function Lookup(s: Session, name: string): (r: (Result<Value>, Session))
    ensures r.0.Ok? <==> name in s.vars || s.input != []
    ensures r.0.Ok? ==> name in r.1.vars && r.1.vars[name] == r.0.value
    ensures r.0.Err? ==> r.0.error == InputExhausted && r.1 == s
    ensures name in s.vars ==> r.1 == s
    ensures name !in s.vars && r.0.Ok? ==>
      r.0.value == s.input[0] && r.1.input == s.input[1..] && r.1.vars.Keys == s.vars.Keys + {name}
    ensures Extends(s.vars, r.1.vars) && ReadFrom(s.input, r.1.input)
    ensures |r.1.vars| + |r.1.input| == |s.vars| + |s.input|
  {
    if name in s.vars then (Ok(s.vars[name]), s)
    else if s.input == [] then (Err(InputExhausted), s)
    else (Ok(s.input[0]), Session(s.vars[name := s.input[0]], s.input[1..]))
  }

  /** One iteration of `evaluatePostfix`'s loop: the value stack (top last)
      and the session after `t`. A token of no known kind is skipped. A
      failing step leaves the session as it was. */
  function EvalStep(t: string, stack: seq<Value>, s: Session, lib: MathLib): Result<(seq<Value>, Session)> {
    if IsNumber(t) then Ok((stack + [NumberValue(t)], s))
    else if IsVariable(t) then
      var (v, s') := Lookup(s, t);
      if v.Err? then Err(v.error) else Ok((stack + [v.value], s'))
    else if IsFunction(t) then
      if stack == [] then Err(MissingFunctionArgument(t))
      else Ok((DropLast(stack) + [ApplyFunction(lib, t, Last(stack))], s))
    else if IsOperator(t) then
      if |stack| < 2 then Err(MissingOperand(t))
      else
        var b := Last(stack);
        var a := Last(DropLast(stack));
        match ApplyOperator(t, a, b, lib)
        case Err(e) => Err(e)
        case Ok(v) => Ok((DropLast(DropLast(stack)) + [v], s))
    else Ok((stack, s))
  }

  /** The final check: exactly one value must be left. */
  function Finish(stack: seq<Value>): (r: Result<Value>)
    ensures r.Ok? <==> |stack| == 1
    ensures r.Ok? ==> r.value == stack[0]
    ensures r.Err? ==> r.error == MalformedExpression
  {
    if |stack| != 1 then Err(MalformedExpression) else Ok(stack[0])
  }

  /** The run of the postfix `tokens` from the value stack `stack` in session
      `s`: the result and the session afterwards. */
  function RunFrom(tokens: seq<string>, stack: seq<Value>, s: Session, lib: MathLib): (r: (Result<Value>, Session))
    decreases |tokens|
  {
    if tokens == [] then (Finish(stack), s)
    else
      match EvalStep(tokens[0], stack, s, lib)
      case Err(e) => (Err(e), s)
      case Ok((stack', s')) => RunFrom(tokens[1..], stack', s', lib)
  }

  function Run(tokens: seq<string>, s: Session, lib: MathLib): (Result<Value>, Session) {
    RunFrom(tokens, [], s, lib)
  }

  /** An operator takes the top value as its right operand and the one below
      it as its left operand, and pushes the result in their place. */
  lemma {:induction false} OperatorStep(op: string, stack: seq<Value>, a: Value, b: Value, s: Session, lib: MathLib)
    requires IsOperator(op)
    ensures EvalStep(op, stack + [a, b], s, lib) ==
      match ApplyOperator(op, a, b, lib)
      case Ok(v) => Ok((stack + [v], s))
      case Err(e) => Err(e)
  {
    assert !IsNumber(op) && !IsVariable(op) && !IsFunction(op) by {
      KindsAreDisjoint(op);
      if IsFunction(op) {
        FunctionNameIsLong(op);
      }
    }
    var st := stack + [a, b];
    assert Last(st) == b && DropLast(st) == stack + [a];
    assert Last(DropLast(st)) == a && DropLast(DropLast(st)) == stack;
  }

  // ----- The variable cache -----

  lemma {:induction false} ReadTwice(a: seq<Value>, b: seq<Value>, c: seq<Value>)
    requires ReadFrom(a, b) && ReadFrom(b, c)
    ensures ReadFrom(a, c)
  {
    assert c == a[|a| - |b|..][|b| - |c|..];
  }

  /** A session only ever grows its cache, and it grows it by exactly as
      many variables as it reads console values. */
  predicate Advances(s: Session, s': Session) {
    Extends(s.vars, s'.vars) && ReadFrom(s.input, s'.input) &&
    |s'.vars| + |s'.input| == |s.vars| + |s.input|
  }

  lemma {:induction false} StepAdvances(t: string, stack: seq<Value>, s: Session, lib: MathLib)
    requires EvalStep(t, stack, s, lib).Ok?
    ensures Advances(s, EvalStep(t, stack, s, lib).value.1)
  {
    var s' := EvalStep(t, stack, s, lib).value.1;
    if !IsNumber(t) && IsVariable(t) {
      assert s' == Lookup(s, t).1;
    } else {
      assert s' == s;
      assert s.input[|s.input| - |s.input|..] == s.input;
    }
  }

  /** Every run keeps the cached bindings, reads the console only from the
      front, and reads exactly one value per variable it adds. */
  lemma {:induction false} RunAdvances(tokens: seq<string>, stack: seq<Value>, s: Session, lib: MathLib)
    ensures Advances(s, RunFrom(tokens, stack, s, lib).1)
    decreases |tokens|
  {
    if tokens != [] {
      var step := EvalStep(tokens[0], stack, s, lib);
      if step.Ok? {
        var (stack', s') := step.value;
        StepAdvances(tokens[0], stack, s, lib);
        RunAdvances(tokens[1..], stack', s', lib);
        ReadTwice(s.input, s'.input, RunFrom(tokens[1..], stack', s', lib).1.input);
      }
    }
  }

  // ----- Arity -----

  /** How many values `t` takes from the stack. */
  function Needs(t: string): nat {
    if IsNumber(t) || IsVariable(t) then 0
    else if IsFunction(t) then 1
    else if IsOperator(t) then 2
    else 0
  }

  /** How `t` changes the number of values on the stack. */
  function Effect(t: string): int {
    if IsNumber(t) || IsVariable(t) then 1
    else if IsOperator(t) then -1
    else 0
  }

  /** Reading `ts` with `d` values on the stack: every token finds the
      values it needs, and exactly one value is left at the end. */
  predicate WellFormedFrom(ts: seq<string>, d: nat)
    decreases |ts|
  {
    if ts == [] then d == 1
    else Needs(ts[0]) <= d && WellFormedFrom(ts[1..], d + Effect(ts[0]))
  }

  predicate WellFormed(ts: seq<string>) { WellFormedFrom(ts, 0) }

  /** A step fails for want of values exactly when `t` needs more than the
      stack holds; otherwise it fails only by dividing by zero or running out
      of console input, and on success it changes the stack height by
      `Effect(t)`. */
  lemma {:induction false} StepArity(t: string, stack: seq<Value>, s: Session, lib: MathLib)
    ensures Needs(t) > |stack| ==> EvalStep(t, stack, s, lib).Err?
    ensures Needs(t) <= |stack| && EvalStep(t, stack, s, lib).Err? ==>
      EvalStep(t, stack, s, lib).error in {DivisionByZero, InputExhausted}
    ensures EvalStep(t, stack, s, lib).Ok? ==> |EvalStep(t, stack, s, lib).value.0| == |stack| + Effect(t)
  {
    if IsOperator(t) && !IsNumber(t) && !IsVariable(t) && !IsFunction(t) {
      OperatorTable(t);
    }
  }

  /** A run succeeds only on a well-formed postfix sequence; on a well-formed
      one it can fail only by dividing by zero or running out of input. */
  lemma {:induction false} RunFromArity(tokens: seq<string>, stack: seq<Value>, s: Session, lib: MathLib)
    ensures RunFrom(tokens, stack, s, lib).0.Ok? ==> WellFormedFrom(tokens, |stack|)
    ensures WellFormedFrom(tokens, |stack|) && RunFrom(tokens, stack, s, lib).0.Err? ==>
      RunFrom(tokens, stack, s, lib).0.error in {DivisionByZero, InputExhausted}
    decreases |tokens|
  {
    if tokens != [] {
      var step := EvalStep(tokens[0], stack, s, lib);
      StepArity(tokens[0], stack, s, lib);
      if step.Ok? {
        RunFromArity(tokens[1..], step.value.0, step.value.1, lib);
      }
    }
  }

  /** The errors a postfix run can report: a function or operator short of
      values, a division by zero, an exhausted console, or a stack that does
      not end with one value. `applyOperator`'s unknown-operation branch is
      never reached, since only operators are handed to it. */
  predicate IsRunError(e: Error) {
    e.MissingOperand? || e.MissingFunctionArgument? ||
    e == DivisionByZero || e == InputExhausted || e == MalformedExpression
  }

  lemma {:induction false} StepErrors(t: string, stack: seq<Value>, s: Session, lib: MathLib)
    requires EvalStep(t, stack, s, lib).Err?
    ensures IsRunError(EvalStep(t, stack, s, lib).error)
  {
    if IsOperator(t) && !IsNumber(t) && !IsVariable(t) && !IsFunction(t) {
      OperatorTable(t);
    }
  }

  lemma {:induction false} RunFromErrors(tokens: seq<string>, stack: seq<Value>, s: Session, lib: MathLib)
    requires RunFrom(tokens, stack, s, lib).0.Err?
    ensures IsRunError(RunFrom(tokens, stack, s, lib).0.error)
    decreases |tokens|
  {
    if tokens != [] {
      var step := EvalStep(tokens[0], stack, s, lib);
      if step.Ok? {
        RunFromErrors(tokens[1..], step.value.0, step.value.1, lib);
      } else {
        StepErrors(tokens[0], stack, s, lib);
      }
    }
  }

  lemma RunArity(tokens: seq<string>, s: Session, lib: MathLib)
    ensures Run(tokens, s, lib).0.Ok? ==> WellFormed(tokens)
    ensures WellFormed(tokens) && Run(tokens, s, lib).0.Err? ==>
      Run(tokens, s, lib).0.error in {DivisionByZero, InputExhausted}
  {
    RunFromArity(tokens, [], s, lib);
  }
}
