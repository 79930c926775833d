/** What the converter and the postfix run do with expressions of a few fixed
    shapes, for any operands, operators and function names: precedence, left
    associativity, grouping, function calls, and the arity error. */
module Shapes {
  import opened Tokens
  import opened ShuntingYard
  import opened Postfix

  // ----- One converter step at a time -----

  lemma {:induction false} MovesAt(ts: seq<string>, k: nat, st: Converter, next: Converter)
    requires k < |ts| && Step(st, ts[k]) == Ok(next)
    ensures ConvertFrom(ts[k..], st) == ConvertFrom(ts[k + 1..], next)
  {
    assert ts[k..][1..] == ts[k + 1..];
  }

  lemma {:induction false} OperandAt(ts: seq<string>, k: nat, st: Converter, output: seq<string>)
    requires k < |ts| && IsOperand(ts[k]) && output == st.output + [ts[k]]
    ensures ConvertFrom(ts[k..], st) == ConvertFrom(ts[k + 1..], Converter(output, st.stack))
  {
    MovesAt(ts, k, st, Converter(output, st.stack));
  }

  lemma {:induction false} OperatorAt(ts: seq<string>, k: nat, st: Converter, next: Converter)
    requires k < |ts| && IsOperator(ts[k])
    requires next == Converter(PopHigher(st, ts[k]).output, PopHigher(st, ts[k]).stack + [ts[k]])
    ensures ConvertFrom(ts[k..], st) == ConvertFrom(ts[k + 1..], next)
  {
    KindsAreDisjoint(ts[k]);
    if IsFunction(ts[k]) {
      FunctionNameIsLong(ts[k]);
    }
    MovesAt(ts, k, st, next);
  }

  /** A function name or "(" is pushed as it is. */
  lemma {:induction false} PushAt(ts: seq<string>, k: nat, st: Converter, stack: seq<string>)
    requires k < |ts| && (IsFunction(ts[k]) || ts[k] == "(") && stack == st.stack + [ts[k]]
    ensures ConvertFrom(ts[k..], st) == ConvertFrom(ts[k + 1..], Converter(st.output, stack))
  {
    KindsAreDisjoint(ts[k]);
    MovesAt(ts, k, st, Converter(st.output, stack));
  }

  lemma {:induction false} CloseAt(ts: seq<string>, k: nat, st: Converter, next: Converter)
    requires k < |ts| && ts[k] == ")" && CloseParen(st) == Ok(next)
    ensures ConvertFrom(ts[k..], st) == ConvertFrom(ts[k + 1..], next)
  {
    KindsAreDisjoint(ts[k]);
    assert !IsFunction(ts[k]) && !IsOperator(ts[k]);
    MovesAt(ts, k, st, next);
  }

  lemma {:induction false} PopHigherStops(output: seq<string>, stack: seq<string>, op: string)
    requires stack == [] || !Outranks(Last(stack), op)
    ensures PopHigher(Converter(output, stack), op) == Converter(output, stack)
  {
  }

  lemma {:induction false} PopHigherOne(output: seq<string>, x: string, op: string)
    requires Outranks(x, op)
    ensures PopHigher(Converter(output, [x]), op) == Converter(output + [x], [])
  {
    var s0 := Converter(output, [x]);
    var s1 := Converter(output + [x], []);
    assert PopOne(s0) == s1 by {
      assert Last(s0.stack) == x && DropLast(s0.stack) == [];
    }
    assert PopHigher(s1, op) == s1;
  }

  lemma {:induction false} PopHigherTwo(output: seq<string>, x: string, y: string, op: string)
    requires Outranks(x, op) && Outranks(y, op)
    ensures PopHigher(Converter(output, [x, y]), op) == Converter(output + [y, x], [])
  {
    var s0 := Converter(output, [x, y]);
    var s1 := Converter(output + [y], [x]);
    assert PopOne(s0) == s1 by {
      assert Last(s0.stack) == y && DropLast(s0.stack) == [x];
    }
    PopHigherOne(output + [y], x, op);
    assert output + [y] + [x] == output + [y, x];
  }

  lemma {:induction false} DrainOne(output: seq<string>, x: string)
    requires x != "("
    ensures Drain(Converter(output, [x])) == Ok(output + [x])
  {
    assert PopOne(Converter(output, [x])) == Converter(output + [x], []);
  }

  lemma {:induction false} DrainTwo(output: seq<string>, x: string, y: string)
    requires x != "(" && y != "("
    ensures Drain(Converter(output, [x, y])) == Ok(output + [y, x])
  {
    var s0 := Converter(output, [x, y]);
    assert PopOne(s0) == Converter(output + [y], [x]) by {
      assert Last(s0.stack) == y && DropLast(s0.stack) == [x];
    }
    DrainOne(output + [y], x);
    assert output + [y] + [x] == output + [y, x];
  }

  // ----- Conversion shapes -----

  lemma {:induction false} TwoOperatorsFront(ts: seq<string>, a: string, op1: string, b: string)
    requires |ts| >= 3 && ts[..3] == [a, op1, b]
    requires IsOperand(a) && IsOperand(b) && IsOperator(op1)
    ensures ConvertFrom(ts, Converter([], [])) == ConvertFrom(ts[3..], Converter([a, b], [op1]))
  {
    assert ts[0..] == ts;
    assert ts[0] == a && ts[1] == op1 && ts[2] == b by {
      assert ts[..3][0] == ts[0] && ts[..3][1] == ts[1] && ts[..3][2] == ts[2];
    }
    OperandAt(ts, 0, Converter([], []), [a]);
    PopHigherStops([a], [], op1);
    OperatorAt(ts, 1, Converter([a], []), Converter([a], [op1]));
    OperandAt(ts, 2, Converter([a], [op1]), [a, b]);
  }

  /** `a op b` becomes `a b op`. */
  lemma {:induction false} OneOperator(a: string, op: string, b: string)
    requires IsOperand(a) && IsOperand(b) && IsOperator(op)
    ensures ToPostfix([a, op, b]) == Ok([a, b, op])
  {
    var ts := [a, op, b];
    assert ts[..3] == ts;
    TwoOperatorsFront(ts, a, op, b);
    assert ts[3..] == [];
    DrainOne([a, b], op);
    assert [a, b] + [op] == [a, b, op];
  }

  lemma {:induction false} LeftFirstBack(ts: seq<string>, a: string, op1: string, b: string, op2: string, c: string)
    requires |ts| == 5 && ts[3] == op2 && ts[4] == c
    requires IsOperand(c) && IsOperator(op1) && IsOperator(op2) && Precedence(op1) >= Precedence(op2)
    ensures ConvertFrom(ts[3..], Converter([a, b], [op1])) == Ok([a, b, op1, c, op2])
  {
    PopHigherOne([a, b], op1, op2);
    OperatorAt(ts, 3, Converter([a, b], [op1]), Converter([a, b, op1], [op2]));
    OperandAt(ts, 4, Converter([a, b, op1], [op2]), [a, b, op1, c]);
    assert ts[5..] == [];
    DrainOne([a, b, op1, c], op2);
    assert [a, b, op1, c] + [op2] == [a, b, op1, c, op2];
  }

  /** Left associativity: in `a op1 b op2 c`, when `op1` binds at least as
      tightly as `op2`, `op1` is applied first. Equal precedence includes
      "^" after "^". */
  lemma {:induction false} LeftFirst(a: string, op1: string, b: string, op2: string, c: string)
    requires IsOperand(a) && IsOperand(b) && IsOperand(c)
    requires IsOperator(op1) && IsOperator(op2) && Precedence(op1) >= Precedence(op2)
    ensures ToPostfix([a, op1, b, op2, c]) == Ok([a, b, op1, c, op2])
  {
    var ts := [a, op1, b, op2, c];
    assert ts[..3] == [a, op1, b];
    TwoOperatorsFront(ts, a, op1, b);
    LeftFirstBack(ts, a, op1, b, op2, c);
  }

  /** In `a op1 b op2 c`, when `op2` binds more tightly, `op2` is applied
      first. */
  lemma {:induction false} RightFirst(a: string, op1: string, b: string, op2: string, c: string)
    requires IsOperand(a) && IsOperand(b) && IsOperand(c)
    requires IsOperator(op1) && IsOperator(op2) && Precedence(op1) < Precedence(op2)
    ensures ToPostfix([a, op1, b, op2, c]) == Ok([a, b, c, op2, op1])
  {
    var ts := [a, op1, b, op2, c];
    assert ts[..3] == [a, op1, b];
    TwoOperatorsFront(ts, a, op1, b);
    PopHigherStops([a, b], [op1], op2);
    OperatorAt(ts, 3, Converter([a, b], [op1]), Converter([a, b], [op1, op2]));
    OperandAt(ts, 4, Converter([a, b], [op1, op2]), [a, b, c]);
    assert ts[5..] == [];
    DrainTwo([a, b, c], op1, op2);
    assert [a, b, c] + [op2, op1] == [a, b, c, op2, op1];
  }

  lemma {:induction false} TighterInTheMiddleBack(ts: seq<string>, a: string, b: string, c: string, op1: string, op2: string, op3: string, d: string)
    requires |ts| == 7 && ts[3] == op2 && ts[4] == c && ts[5] == op3 && ts[6] == d
    requires IsOperand(c) && IsOperand(d) && IsOperator(op1) && IsOperator(op2) && IsOperator(op3)
    requires Precedence(op3) <= Precedence(op1) < Precedence(op2)
    ensures ConvertFrom(ts[3..], Converter([a, b], [op1])) ==
      ConvertFrom(ts[6..], Converter([a, b, c, op2, op1], [op3]))
  {
    PopHigherStops([a, b], [op1], op2);
    OperatorAt(ts, 3, Converter([a, b], [op1]), Converter([a, b], [op1, op2]));
    OperandAt(ts, 4, Converter([a, b], [op1, op2]), [a, b, c]);
    PopHigherTwo([a, b, c], op1, op2, op3);
    assert [a, b, c] + [op2, op1] == [a, b, c, op2, op1];
    OperatorAt(ts, 5, Converter([a, b, c], [op1, op2]), Converter([a, b, c, op2, op1], [op3]));
  }

  /** `a op1 b op2 c op3 d` where `op2` binds more tightly than `op1` and
      `op3` no more tightly than `op1`: `op2` first, then `op1`, then `op3`. */
  lemma {:induction false} TighterInTheMiddle(a: string, op1: string, b: string, op2: string, c: string, op3: string, d: string)
    requires IsOperand(a) && IsOperand(b) && IsOperand(c) && IsOperand(d)
    requires IsOperator(op1) && IsOperator(op2) && IsOperator(op3)
    requires Precedence(op3) <= Precedence(op1) < Precedence(op2)
    ensures ToPostfix([a, op1, b, op2, c, op3, d]) == Ok([a, b, c, op2, op1, d, op3])
  {
    var ts := [a, op1, b, op2, c, op3, d];
    assert ts[..3] == [a, op1, b];
    TwoOperatorsFront(ts, a, op1, b);
    TighterInTheMiddleBack(ts, a, b, c, op1, op2, op3, d);
    OperandAt(ts, 6, Converter([a, b, c, op2, op1], [op3]), [a, b, c, op2, op1, d]);
    assert ts[7..] == [];
    DrainOne([a, b, c, op2, op1, d], op3);
    assert [a, b, c, op2, op1, d] + [op3] == [a, b, c, op2, op1, d, op3];
  }

  lemma {:induction false} GroupedFront(ts: seq<string>, a: string, op1: string, b: string)
    requires |ts| >= 4 && ts[0] == "(" && ts[1] == a && ts[2] == op1 && ts[3] == b
    requires IsOperand(a) && IsOperand(b) && IsOperator(op1)
    ensures ConvertFrom(ts, Converter([], [])) == ConvertFrom(ts[4..], Converter([a, b], ["(", op1]))
  {
    assert ts[0..] == ts;
    PushAt(ts, 0, Converter([], []), ["("]);
    OperandAt(ts, 1, Converter([], ["("]), [a]);
    PopHigherStops([a], ["("], op1);
    OperatorAt(ts, 2, Converter([a], ["("]), Converter([a], ["(", op1]));
    OperandAt(ts, 3, Converter([a], ["(", op1]), [a, b]);
  }

  /** ")" after `( a op1 b`: the operator goes to the output and the "(" is
      dropped. */
  lemma {:induction false} CloseGroup(a: string, op1: string, b: string)
    requires IsOperator(op1)
    ensures CloseParen(Converter([a, b], ["(", op1])) == Ok(Converter([a, b, op1], []))
  {
    var st := Converter([a, b], ["(", op1]);
    var p := Converter([a, b, op1], ["("]);
    assert PopOne(st) == p by {
      assert Last(st.stack) == op1 && DropLast(st.stack) == ["("];
    }
    assert PopToParen(p) == p;
    assert PopToParen(st) == p;
    assert DropLast(p.stack) == [];
  }

  lemma {:induction false} GroupedBack(ts: seq<string>, a: string, op1: string, b: string, op2: string, c: string)
    requires |ts| == 7 && ts[4] == ")" && ts[5] == op2 && ts[6] == c
    requires IsOperand(c) && IsOperator(op1) && IsOperator(op2)
    ensures ConvertFrom(ts[4..], Converter([a, b], ["(", op1])) == Ok([a, b, op1, c, op2])
  {
    CloseGroup(a, op1, b);
    CloseAt(ts, 4, Converter([a, b], ["(", op1]), Converter([a, b, op1], []));
    PopHigherStops([a, b, op1], [], op2);
    OperatorAt(ts, 5, Converter([a, b, op1], []), Converter([a, b, op1], [op2]));
    OperandAt(ts, 6, Converter([a, b, op1], [op2]), [a, b, op1, c]);
    assert ts[7..] == [];
    DrainOne([a, b, op1, c], op2);
    assert [a, b, op1, c] + [op2] == [a, b, op1, c, op2];
  }

  /** Parentheses come first: `( a op1 b ) op2 c` applies `op1` before `op2`
      whatever their precedences. */
  lemma {:induction false} Grouped(a: string, op1: string, b: string, op2: string, c: string)
    requires IsOperand(a) && IsOperand(b) && IsOperand(c)
    requires IsOperator(op1) && IsOperator(op2)
    ensures ToPostfix(["(", a, op1, b, ")", op2, c]) == Ok([a, b, op1, c, op2])
  {
    var ts := ["(", a, op1, b, ")", op2, c];
    GroupedFront(ts, a, op1, b);
    GroupedBack(ts, a, op1, b, op2, c);
  }

  /** ")" after `f ( a`: the "(" is dropped and the function name follows its
      argument to the output. */
  lemma {:induction false} CloseCall(f: string, a: string)
    requires IsFunction(f)
    ensures CloseParen(Converter([a], [f, "("])) == Ok(Converter([a, f], []))
  {
    var st := Converter([a], [f, "("]);
    assert PopToParen(st) == st;
    var q := Converter([a], [f]);
    assert DropLast(st.stack) == q.stack;
    assert PopOne(q) == Converter([a, f], []) by {
      assert Last(q.stack) == f && DropLast(q.stack) == [];
    }
  }

  /** A call `f ( a )` becomes `a f`. */
  lemma {:induction false} Call(f: string, a: string)
    requires IsFunction(f) && IsOperand(a)
    ensures ToPostfix([f, "(", a, ")"]) == Ok([a, f])
  {
    var ts := [f, "(", a, ")"];
    assert ts[0..] == ts;
    PushAt(ts, 0, Converter([], []), [f]);
    PushAt(ts, 1, Converter([], [f]), [f, "("]);
    OperandAt(ts, 2, Converter([], [f, "("]), [a]);
    CloseCall(f, a);
    CloseAt(ts, 3, Converter([a], [f, "("]), Converter([a, f], []));
    assert ts[4..] == [];
  }

  lemma {:induction false} OperatorPairBack(ts: seq<string>, a: string, op1: string, op2: string, b: string)
    requires |ts| == 4 && ts[2] == op2 && ts[3] == b
    requires IsOperand(b) && IsOperator(op1) && IsOperator(op2) && Precedence(op1) < Precedence(op2)
    ensures ConvertFrom(ts[2..], Converter([a], [op1])) == Ok([a, b, op2, op1])
  {
    PopHigherStops([a], [op1], op2);
    OperatorAt(ts, 2, Converter([a], [op1]), Converter([a], [op1, op2]));
    OperandAt(ts, 3, Converter([a], [op1, op2]), [a, b]);
    assert ts[4..] == [];
    DrainTwo([a, b], op1, op2);
    assert [a, b] + [op2, op1] == [a, b, op2, op1];
  }

  /** Two operators in a row, `a op1 op2 b` with `op2` binding more tightly,
      are passed through as `a b op2 op1`. */
  lemma {:induction false} OperatorPair(a: string, op1: string, op2: string, b: string)
    requires IsOperand(a) && IsOperand(b)
    requires IsOperator(op1) && IsOperator(op2) && Precedence(op1) < Precedence(op2)
    ensures ToPostfix([a, op1, op2, b]) == Ok([a, b, op2, op1])
  {
    var ts := [a, op1, op2, b];
    assert ts[0..] == ts;
    OperandAt(ts, 0, Converter([], []), [a]);
    PopHigherStops([a], [], op1);
    OperatorAt(ts, 1, Converter([a], []), Converter([a], [op1]));
    OperatorPairBack(ts, a, op1, op2, b);
  }

  // ----- One postfix step at a time -----

  lemma {:induction false} RunNumberAt(ts: seq<string>, k: nat, stack: seq<Value>, s: Session, lib: MathLib)
    requires k < |ts| && IsNumber(ts[k])
    ensures RunFrom(ts[k..], stack, s, lib) == RunFrom(ts[k + 1..], stack + [NumberValue(ts[k])], s, lib)
  {
    assert ts[k..][1..] == ts[k + 1..];
  }

  /** A variable pushes the value `getVariableValue` finds for it and moves
      to the session that lookup leaves. */
  lemma {:induction false} RunVariableAt(ts: seq<string>, k: nat, stack: seq<Value>, s: Session, lib: MathLib)
    requires k < |ts| && IsVariable(ts[k]) && Lookup(s, ts[k]).0.Ok?
    ensures RunFrom(ts[k..], stack, s, lib) ==
      RunFrom(ts[k + 1..], stack + [Lookup(s, ts[k]).0.value], Lookup(s, ts[k]).1, lib)
  {
    assert !IsNumber(ts[k]) by {
      var d := DotIndex(ts[k]);
      assert 0 < d ==> ts[k][..d][0] == ts[k][0];
    }
    assert ts[k..][1..] == ts[k + 1..];
  }

  lemma {:induction false} RunOperatorAt(ts: seq<string>, k: nat, stack: seq<Value>, a: Value, b: Value, s: Session, lib: MathLib)
    requires k < |ts| && IsOperator(ts[k])
    ensures RunFrom(ts[k..], stack + [a, b], s, lib) ==
      match ApplyOperator(ts[k], a, b, lib)
      case Ok(v) => RunFrom(ts[k + 1..], stack + [v], s, lib)
      case Err(e) => (Err(e), s)
  {
    OperatorStep(ts[k], stack, a, b, s, lib);
    assert ts[k..][1..] == ts[k + 1..];
  }

  // ----- Run shapes, on numbers -----

  lemma {:induction false} RunTwoNumbers(ts: seq<string>, s: Session, lib: MathLib)
    requires |ts| >= 2 && IsNumber(ts[0]) && IsNumber(ts[1])
    ensures RunFrom(ts, [], s, lib) == RunFrom(ts[2..], [NumberValue(ts[0]), NumberValue(ts[1])], s, lib)
  {
    var x := NumberValue(ts[0]);
    assert ts[0..] == ts;
    RunNumberAt(ts, 0, [], s, lib);
    assert [] + [x] == [x];
    RunNumberAt(ts, 1, [x], s, lib);
    assert [x] + [NumberValue(ts[1])] == [x, NumberValue(ts[1])];
  }

  /** `a b op` leaves `a op b`, or its error. */
  lemma {:induction false} RunOneOperator(a: string, b: string, op: string, s: Session, lib: MathLib)
    requires IsNumber(a) && IsNumber(b) && IsOperator(op)
    ensures Run([a, b, op], s, lib) == (ApplyOperator(op, NumberValue(a), NumberValue(b), lib), s)
  {
    var ts := [a, b, op];
    var x, y := NumberValue(a), NumberValue(b);
    RunTwoNumbers(ts, s, lib);
    assert [x, y] == [] + [x, y];
    RunOperatorAt(ts, 2, [], x, y, s, lib);
    assert ts[3..] == [];
  }

  /** A number and then an operator applied to the value below it and the
      number. */
  lemma {:induction false} RunNumberOperatorAt(ts: seq<string>, k: nat, v: Value, w: Value, s: Session, lib: MathLib)
    requires k + 1 < |ts| && IsNumber(ts[k]) && IsOperator(ts[k + 1])
    requires ApplyOperator(ts[k + 1], v, NumberValue(ts[k]), lib) == Ok(w)
    ensures RunFrom(ts[k..], [v], s, lib) == RunFrom(ts[k + 2..], [w], s, lib)
  {
    var z := NumberValue(ts[k]);
    RunNumberAt(ts, k, [v], s, lib);
    assert [v] + [z] == [] + [v, z];
    RunOperatorAt(ts, k + 1, [], v, z, s, lib);
    assert [] + [w] == [w];
  }

  /** The first five tokens `a b op1 c op2` leave `(a op1 b) op2 c`. */
  lemma {:induction false} RunLeftFirstFrom(ts: seq<string>, v: Value, w: Value, s: Session, lib: MathLib)
    requires |ts| >= 5 && IsNumber(ts[0]) && IsNumber(ts[1]) && IsNumber(ts[3])
    requires IsOperator(ts[2]) && IsOperator(ts[4])
    requires ApplyOperator(ts[2], NumberValue(ts[0]), NumberValue(ts[1]), lib) == Ok(v)
    requires ApplyOperator(ts[4], v, NumberValue(ts[3]), lib) == Ok(w)
    ensures RunFrom(ts, [], s, lib) == RunFrom(ts[5..], [w], s, lib)
  {
    var x, y := NumberValue(ts[0]), NumberValue(ts[1]);
    RunTwoNumbers(ts, s, lib);
    assert [x, y] == [] + [x, y];
    RunOperatorAt(ts, 2, [], x, y, s, lib);
    assert [] + [v] == [v];
    RunNumberOperatorAt(ts, 3, v, w, s, lib);
  }

  /** `a b op1 c op2` leaves `(a op1 b) op2 c`. */
  lemma {:induction false} RunLeftFirst(a: string, b: string, op1: string, c: string, op2: string, v: Value, w: Value, s: Session, lib: MathLib)
    requires IsNumber(a) && IsNumber(b) && IsNumber(c) && IsOperator(op1) && IsOperator(op2)
    requires ApplyOperator(op1, NumberValue(a), NumberValue(b), lib) == Ok(v)
    requires ApplyOperator(op2, v, NumberValue(c), lib) == Ok(w)
    ensures Run([a, b, op1, c, op2], s, lib) == (Ok(w), s)
  {
    var ts := [a, b, op1, c, op2];
    RunLeftFirstFrom(ts, v, w, s, lib);
    assert ts[5..] == [];
  }

  lemma {:induction false} RunRightFirstBack(ts: seq<string>, x: Value, y: Value, v: Value, w: Value, s: Session, lib: MathLib)
    requires |ts| >= 5 && IsNumber(ts[2]) && IsOperator(ts[3]) && IsOperator(ts[4])
    requires ApplyOperator(ts[3], y, NumberValue(ts[2]), lib) == Ok(v)
    requires ApplyOperator(ts[4], x, v, lib) == Ok(w)
    ensures RunFrom(ts[2..], [x, y], s, lib) == RunFrom(ts[5..], [w], s, lib)
  {
    var z := NumberValue(ts[2]);
    RunNumberAt(ts, 2, [x, y], s, lib);
    assert [x, y] + [z] == [x] + [y, z];
    RunOperatorAt(ts, 3, [x], y, z, s, lib);
    assert [x] + [v] == [] + [x, v];
    RunOperatorAt(ts, 4, [], x, v, s, lib);
    assert [] + [w] == [w];
  }

  /** The first five tokens `a b c op2 op1` leave `a op1 (b op2 c)`. */
  lemma {:induction false} RunRightFirstFrom(ts: seq<string>, v: Value, w: Value, s: Session, lib: MathLib)
    requires |ts| >= 5 && IsNumber(ts[0]) && IsNumber(ts[1]) && IsNumber(ts[2])
    requires IsOperator(ts[3]) && IsOperator(ts[4])
    requires ApplyOperator(ts[3], NumberValue(ts[1]), NumberValue(ts[2]), lib) == Ok(v)
    requires ApplyOperator(ts[4], NumberValue(ts[0]), v, lib) == Ok(w)
    ensures RunFrom(ts, [], s, lib) == RunFrom(ts[5..], [w], s, lib)
  {
    RunTwoNumbers(ts, s, lib);
    RunRightFirstBack(ts, NumberValue(ts[0]), NumberValue(ts[1]), v, w, s, lib);
  }

  /** `a b c op2 op1` leaves `a op1 (b op2 c)`. */
  lemma {:induction false} RunRightFirst(a: string, b: string, c: string, op2: string, op1: string, v: Value, w: Value, s: Session, lib: MathLib)
    requires IsNumber(a) && IsNumber(b) && IsNumber(c) && IsOperator(op1) && IsOperator(op2)
    requires ApplyOperator(op2, NumberValue(b), NumberValue(c), lib) == Ok(v)
    requires ApplyOperator(op1, NumberValue(a), v, lib) == Ok(w)
    ensures Run([a, b, c, op2, op1], s, lib) == (Ok(w), s)
  {
    var ts := [a, b, c, op2, op1];
    RunRightFirstFrom(ts, v, w, s, lib);
    assert ts[5..] == [];
  }

  /** `a b c op2 op1 d op3` leaves `(a op1 (b op2 c)) op3 d`. */
  lemma {:induction false} RunTighterInTheMiddle(a: string, b: string, c: string, op2: string, op1: string, d: string, op3: string,
                                                 v: Value, w: Value, u: Value, s: Session, lib: MathLib)
    requires IsNumber(a) && IsNumber(b) && IsNumber(c) && IsNumber(d)
    requires IsOperator(op1) && IsOperator(op2) && IsOperator(op3)
    requires ApplyOperator(op2, NumberValue(b), NumberValue(c), lib) == Ok(v)
    requires ApplyOperator(op1, NumberValue(a), v, lib) == Ok(w)
    requires ApplyOperator(op3, w, NumberValue(d), lib) == Ok(u)
    ensures Run([a, b, c, op2, op1, d, op3], s, lib) == (Ok(u), s)
  {
    var ts := [a, b, c, op2, op1, d, op3];
    RunRightFirstFrom(ts, v, w, s, lib);
    RunNumberOperatorAt(ts, 5, w, u, s, lib);
    assert ts[7..] == [];
  }

  /** `a f` leaves `f(a)`. */
  lemma {:induction false} RunCall(a: string, f: string, s: Session, lib: MathLib)
    requires IsNumber(a) && IsFunction(f)
    ensures Run([a, f], s, lib) == (Ok(ApplyFunction(lib, f, NumberValue(a))), s)
  {
    var ts := [a, f];
    assert ts[0..] == ts;
    RunNumberAt(ts, 0, [], s, lib);
    assert !IsNumber(f) && !IsVariable(f) by {
      KindsAreDisjoint(f);
    }
    assert ts[1..][1..] == [];
    assert DropLast([] + [NumberValue(a)]) == [];
  }

  /** `a b op2 op1`: after `op2` only one value is left for `op1`. */
  lemma {:induction false} RunOperatorPair(a: string, b: string, op2: string, op1: string, v: Value, s: Session, lib: MathLib)
    requires IsNumber(a) && IsNumber(b) && IsOperator(op1) && IsOperator(op2)
    requires ApplyOperator(op2, NumberValue(a), NumberValue(b), lib) == Ok(v)
    ensures Run([a, b, op2, op1], s, lib) == (Err(MissingOperand(op1)), s)
  {
    var ts := [a, b, op2, op1];
    var x, y := NumberValue(a), NumberValue(b);
    RunTwoNumbers(ts, s, lib);
    assert [x, y] == [] + [x, y];
    RunOperatorAt(ts, 2, [], x, y, s, lib);
    assert ts[3..] == [op1] && ts[3..][1..] == [];
    assert !IsNumber(op1) && !IsVariable(op1) && !IsFunction(op1) by {
      KindsAreDisjoint(op1);
      if IsFunction(op1) {
        FunctionNameIsLong(op1);
      }
    }
  }

  // ----- Run shapes, on variables -----

  /** `x x op`: the first `x` is looked up, possibly reading the console;
      the second is answered from the cache and reads nothing more. */
  lemma {:induction false} RunRepeatedVariable(x: string, op: string, s: Session, lib: MathLib)
    requires IsVariable(x) && IsOperator(op) && Lookup(s, x).0.Ok?
    ensures var (v, s') := Lookup(s, x);
      Run([x, x, op], s, lib) == (ApplyOperator(op, v.value, v.value, lib), s')
  {
    var ts := [x, x, op];
    var (v, s') := Lookup(s, x);
    assert ts[0..] == ts;
    RunVariableAt(ts, 0, [], s, lib);
    assert [] + [v.value] == [v.value];
    assert Lookup(s', x) == (v, s');
    RunVariableAt(ts, 1, [v.value], s', lib);
    assert [v.value] + [v.value] == [] + [v.value, v.value];
    RunOperatorAt(ts, 2, [], v.value, v.value, s', lib);
    assert ts[3..] == [];
  }
}
