/** The `Evaluator` class: an expression is stripped of whitespace, split
    into tokens, converted to postfix and run against the variable cache,
    which asks the console for each variable the first time it is met. */
module Evaluation {
  import opened Tokens
  import opened Lexer
  import opened ShuntingYard
  import opened Postfix

  /** `evaluate(expression)` in session `s`: the result and the session
      afterwards. Lexing and conversion errors leave the session unchanged. */
  function EvaluateIn(expression: string, s: Session, lib: MathLib): (Result<Value>, Session) {
    match Tokenize(StripWhitespace(expression))
    case Err(e) => (Err(e), s)
    case Ok(tokens) =>
      match ToPostfix(tokens)
      case Err(e) => (Err(e), s)
      case Ok(postfix) => Run(postfix, s, lib)
  }

  /** Which stage an evaluation error comes from: the lexer reports the
      first character outside the token alphabet, and does so exactly when
      there is one; the converter reports unbalanced parentheses or an
      unknown token of the input; the postfix run reports the rest. */
  lemma EvaluateErrors(expression: string, s: Session, lib: MathLib)
    ensures var text := StripWhitespace(expression); var r := EvaluateIn(expression, s, lib).0;
      (r.Err? && r.error.InvalidCharacter?) <==> exists m :: 0 <= m < |text| && !IsTokenChar(text[m])
    ensures var text := StripWhitespace(expression); var r := EvaluateIn(expression, s, lib).0;
      r.Err? && r.error.InvalidCharacter? ==>
        exists m :: 0 <= m < |text| && r.error == InvalidCharacter(text[m]) &&
          forall p :: 0 <= p < m ==> IsTokenChar(text[p])
    ensures var text := StripWhitespace(expression); var r := EvaluateIn(expression, s, lib).0;
      Tokenize(text).Ok? && ToPostfix(Tokenize(text).value).Err? ==>
        r.Err? && ConversionError(Tokenize(text).value, r.error)
    ensures var text := StripWhitespace(expression); var r := EvaluateIn(expression, s, lib).0;
      Tokenize(text).Ok? && ToPostfix(Tokenize(text).value).Ok? && r.Err? ==> IsRunError(r.error)
  {
    var text := StripWhitespace(expression);
    ScanFails(text, 0);
    if Tokenize(text).Ok? {
      var tokens := Tokenize(text).value;
      ToPostfixFails(tokens);
      if ToPostfix(tokens).Ok? {
        if Run(ToPostfix(tokens).value, s, lib).0.Err? {
          RunFromErrors(ToPostfix(tokens).value, [], s, lib);
        }
      }
    }
  }

  /** An evaluation keeps every cached variable, reads the console from the
      front, and reads one value per variable it adds to the cache. */
  lemma EvaluateAdvances(expression: string, s: Session, lib: MathLib)
    ensures Advances(s, EvaluateIn(expression, s, lib).1)
  {
    var text := StripWhitespace(expression);
    if Tokenize(text).Ok? && ToPostfix(Tokenize(text).value).Ok? {
      RunAdvances(ToPostfix(Tokenize(text).value).value, [], s, lib);
    }
  }

  class Evaluator {
    /** The variable cache. */
    var variables: map<string, Value>
    /** The values the console will deliver, in order. */
    var input: seq<Value>
    /** The numeric library behind "^" and the named functions. */
    const lib: MathLib

    constructor(input: seq<Value>, lib: MathLib)
      ensures variables == map[] && this.input == input && this.lib == lib
    {
      variables := map[];
      this.input := input;
      this.lib := lib;
    }

    function State(): Session
      reads this
    {
      Session(variables, input)
    }

    /** `getVariableValue`. */
    method GetVariableValue(name: string) returns (r: Result<Value>)
      modifies this
      ensures (r, State()) == Lookup(old(State()), name)
    {
      if name !in variables {
        if input == [] {
          return Err(InputExhausted);
        }
        var value := input[0];
        input := input[1..];
        variables := variables[name := value];
      }
      r := Ok(variables[name]);
    }

    /** `evaluatePostfix`: one pass over the postfix tokens with a value
      stack. */
    method EvaluatePostfix(tokens: seq<string>) returns (r: Result<Value>)
      modifies this
      ensures (r, State()) == Run(tokens, old(State()), lib)
    {
      var stack: seq<Value> := [];
      for i := 0 to |tokens|
        invariant Run(tokens, old(State()), lib) == RunFrom(tokens[i..], stack, State(), lib)
      {
        var token := tokens[i];
        ghost var before := State();
        assert RunFrom(tokens[i..], stack, before, lib) ==
          match EvalStep(token, stack, before, lib)
          case Err(e) => (Err(e), before)
          case Ok((stack', s')) => RunFrom(tokens[i + 1..], stack', s', lib) by {
          assert tokens[i..][1..] == tokens[i + 1..];
        }
        if IsNumber(token) {
          stack := stack + [NumberValue(token)];
        } else if IsVariable(token) {
          var value := GetVariableValue(token);
          if value.Err? {
            return Err(value.error);
          }
          stack := stack + [value.value];
        } else if IsFunction(token) {
          if stack == [] {
            return Err(MissingFunctionArgument(token));
          }
          var arg := Last(stack);
          stack := DropLast(stack);
          stack := stack + [ApplyFunction(lib, token, arg)];
        } else if IsOperator(token) {
          if |stack| < 2 {
            return Err(MissingOperand(token));
          }
          var b := Last(stack);
          stack := DropLast(stack);
          var a := Last(stack);
          stack := DropLast(stack);
          var value := ApplyOperator(token, a, b, lib);
          if value.Err? {
            return Err(value.error);
          }
          stack := stack + [value.value];
        }
      }
      assert tokens[|tokens|..] == [];
      if |stack| != 1 {
        return Err(MalformedExpression);
      }
      r := Ok(stack[0]);
    }

    /** `evaluate`. */
    method Evaluate(expression: string) returns (r: Result<Value>)
      modifies this
      ensures (r, State()) == EvaluateIn(expression, old(State()), lib)
    {
      var tokens := ParseTokens(StripWhitespace(expression));
      if tokens.Err? {
        return Err(tokens.error);
      }
      var postfix := ConvertToPostfix(tokens.value);
      if postfix.Err? {
        return Err(postfix.error);
      }
      r := EvaluatePostfix(postfix.value);
    }
  }
}
