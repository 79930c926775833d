# Evaluator: a verified model of an infix expression evaluator

The `Evaluator` class of Lapa2 computes arithmetic expressions with numbers, variables, the functions
`sin`, `cos`, `tan`, `sqrt` and `abs`, and the operators `+ - * / ^`. `evaluate` runs a strictly
sequential pipeline with four parts:

1. It strips whitespace from the expression.
2. `parseTokens` splits the text into tokens. Each token is a run of digits and `.`, a run of letters,
   or one of `+-*/^(),`.
3. `convertToPostfix` turns the tokens into postfix order. It uses the shunting-yard algorithm with an
   operator stack.
4. `evaluatePostfix` runs the postfix tokens on a value stack. A variable is looked up with
   `getVariableValue`. That method reads the value from the console the first time the name is met and
   keeps it in the evaluator's `variables` map.

The Dafny project follows that structure:

| file | module | contents |
|---|---|---|
| `tokens.dfy` | `Tokens` | the error kinds, the `OPERATORS`, `PRECEDENCE` and `FUNCTIONS` tables, the character classes, `isNumber`, `isVariable`, the numeric value of a number token, `applyOperator` |
| `lexer.dfy` | `Lexer` | whitespace stripping, the scan as a function (`Tokenize`), and `parseTokens` as a method with its loops (`ParseTokens`) |
| `shunting_yard.dfy` | `ShuntingYard` | the converter as a function of its state (`ToPostfix`), the stack invariants, the error analysis, and `convertToPostfix` as a method with its loops (`ConvertToPostfix`) |
| `postfix.dfy` | `Postfix` | `getVariableValue` (`Lookup`) and `evaluatePostfix` (`Run`) as functions of a session: the variable cache plus the console values still to come. Also the arity, error and cache-growth lemmas |
| `evaluator.dfy` | `Evaluation` | `evaluate` as a function (`EvaluateIn`), and the class `Evaluator`. Its fields `variables` and `input` are updated in place by `GetVariableValue`, `EvaluatePostfix` and `Evaluate`, each proved equal to the functional model |
| `shapes.dfy` | `Shapes` | what the converter and the value stack do on small expression shapes: precedence, left associativity, grouping, a function call, a missing operand, a repeated variable |
| `grammar.dfy` | `Grammar` | a reference semantics: expression trees, the tokens and text each one is written as, and its value computed on the tree. The whole pipeline computes that value for every tree, so precedence, left association, grouping and calls hold in general |
| `scenarios.dfy` | `Scenarios` | whole evaluations of concrete expressions: the repository's test cases, `2^3^2`, and the variable cache at work |

Numeric values are Dafny `real`s. `+ - * /` are exact, and the `b == 0` test of `/` is kept. `Math.pow`,
`Math.sin`, `Math.cos`, `Math.tan`, `Math.sqrt` and `Math.abs` are fields of a `MathLib` value that every
operation takes as a parameter, so each result holds for any choice of those functions. Every
`IllegalArgumentException` of the source is an `Err` value of a `Result`, with one `Error` kind per
exception message. The two unbalanced-parenthesis throws share `UnbalancedParens`. `InputExhausted`
stands for the exception `Scanner` raises when the console has no value left.

The model follows the code in two places where a reader might expect otherwise:

- `^` is left-associative, as the code pops operators of equal precedence before pushing. `2^3^2` is
  `(2^3)^2` (`Shapes.LeftFirst`, `Scenarios.PowerExample`).
- There is no separate malformed-number error. `1.2.3` or `.5` is lexed as one token, and the converter
  rejects it as an unknown token, since it matches neither `isNumber` nor `isVariable`.

## Model

| member | source | states |
|---|---|---|
| Tokens.OperatorTable | src/main/java/Evaluator/Evaluator.java:21-26 | a token is an operator exactly when it is in `OPERATORS`, and exactly when `PRECEDENCE` gives it a positive rank |
| Tokens.Precedence | src/main/java/Evaluator/Evaluator.java:23-26 | definition of `PRECEDENCE`: `+` and `-` rank 1, `*` and `/` rank 2, `^` rank 3 |
| Tokens.IsNumber | src/main/java/Evaluator/Evaluator.java:193-195 | definition of `isNumber`, by the first `.` of the token; `IsNumberIsPattern` and `TokenClasses` characterise it |
| Tokens.IsVariable | src/main/java/Evaluator/Evaluator.java:203-205 | definition of `isVariable`: a non-empty run of letters that is not a function name |
| Tokens.TokenClasses | src/main/java/Evaluator/Evaluator.java:193-205 | a number is a non-empty string of digits and `.` that starts and ends with a digit; a variable is neither a number nor a function name |
| Tokens.IsNumberIsPattern | src/main/java/Evaluator/Evaluator.java:193-195 | `isNumber` holds exactly for the strings of `\d+(\.\d+)?`: a non-empty digit string, or two non-empty digit strings joined by one `.` |
| Tokens.NumberValue | src/main/java/Evaluator/Evaluator.java:146 | a number token denotes a non-negative value; a digits-only token denotes its decimal integer value (the fractional case is `NumberValueFraction`) |
| Tokens.NumberValueFraction | src/main/java/Evaluator/Evaluator.java:146 | a token with a `.` denotes its digits read without the `.`, divided by ten to the number of digits after the `.` |
| Tokens.DigitsAppend | src/main/java/Evaluator/Evaluator.java:146 | positional notation: a digit string followed by another is worth the first times ten to the length of the second, plus the second |
| Tokens.ApplyFunction | src/main/java/Evaluator/Evaluator.java:29-35 | definition of `FUNCTIONS.get(name).apply(x)`: each of the five names selects its library function |
| Tokens.ApplyOperator | src/main/java/Evaluator/Evaluator.java:173-185 | fails exactly for an unknown operator (`UnknownOperation`) or `/` by zero (`DivisionByZero`); otherwise `a + b`, `a - b`, `a * b` and `a / b` are characterised by their inverses, and `^` is the library power |
| Lexer.StripWhitespace | src/main/java/Evaluator/Evaluator.java:44 | the result holds no whitespace and only characters of the input; text without whitespace is returned unchanged |
| Lexer.StripAppend | src/main/java/Evaluator/Evaluator.java:44 | removing whitespace distributes over concatenation, so it works character by character |
| Lexer.Scan | src/main/java/Evaluator/Evaluator.java:55-84 | definition of the scan: a run of digits and `.`, a run of letters or one symbol at a time, failing on the first character of none of these kinds |
| Lexer.Tokenize | src/main/java/Evaluator/Evaluator.java:55-84 | definition of `parseTokens` on the whole text |
| Lexer.ReadRun | src/main/java/Evaluator/Evaluator.java:63-74 | the inner loop collects exactly the maximal run of digits and `.` (or of letters) starting at `i`, and stops where it ends |
| Lexer.ScanConcat | src/main/java/Evaluator/Evaluator.java:55-84 | a successful scan's tokens concatenate back to the scanned text |
| Lexer.ScanSound | src/main/java/Evaluator/Evaluator.java:55-84 | a successful scan yields tokens that are each a single symbol, a run of digits and `.`, or a run of letters; no two neighbouring tokens are runs of the same kind; the first token starts with the first character |
| Lexer.ScanFails | src/main/java/Evaluator/Evaluator.java:75-79 | the scan fails exactly when a character outside the token alphabet occurs, and the error names the first such character |
| Lexer.SplitUnique | src/main/java/Evaluator/Evaluator.java:55-84 | a text has at most one split into lexemes that never splits a run |
| Lexer.ScanComplete | src/main/java/Evaluator/Evaluator.java:55-84 | the converse of `ScanSound`: lexemes that concatenate to the text and never split a run are exactly what the scan returns |
| Lexer.TokenizeExactly | src/main/java/Evaluator/Evaluator.java:55-84 | `parseTokens` returns `ts` exactly when `ts` concatenates to the text, consists of lexemes and never splits a run |
| Lexer.ParseTokens | src/main/java/Evaluator/Evaluator.java:55-84 | the loop computes the scan; on success the tokens concatenate to the input, are lexemes and are maximal runs; it fails exactly when the input holds a character outside the token alphabet |
| ShuntingYard.PopToParen | src/main/java/Evaluator/Evaluator.java:102-104 | pops exactly the entries above the nearest `(` (all of them when there is none) onto the output, top first, and leaves the rest of the stack in place |
| ShuntingYard.PopHigher | src/main/java/Evaluator/Evaluator.java:106-109 | pops exactly the top run of operators with precedence at least that of the incoming operator, top first; what remains has no such operator on top |
| ShuntingYard.Drain | src/main/java/Evaluator/Evaluator.java:127-131 | the final loop fails with `UnbalancedParens` exactly when a `(` is left on the stack; otherwise the output is followed by the stack from top to bottom |
| ShuntingYard.KindsAreDisjoint | src/main/java/Evaluator/Evaluator.java:97-113 | parentheses, commas, operators and function names are never numbers or variables, so the operand branch never captures them |
| ShuntingYard.FunctionNameIsLong | src/main/java/Evaluator/Evaluator.java:29-35 | a function name has at least three characters, so it is never `(`, `)` or an operator: with `KindsAreDisjoint`, the converter's branches are mutually exclusive |
| ShuntingYard.CloseParen | src/main/java/Evaluator/Evaluator.java:113-121 | definition of the `)` rule: pop to the nearest `(`, fail with `UnbalancedParens` when there is none, drop the `(`, then emit a function name found beneath it |
| ShuntingYard.Step | src/main/java/Evaluator/Evaluator.java:96-125 | definition of one iteration of the conversion loop, with the branches in the source's order |
| ShuntingYard.ConvertFrom | src/main/java/Evaluator/Evaluator.java:96-131 | definition of the conversion loop followed by the final drain |
| ShuntingYard.ToPostfix | src/main/java/Evaluator/Evaluator.java:92-133 | definition of `convertToPostfix`: the loop from an empty output and stack |
| ShuntingYard.StepKeeps | src/main/java/Evaluator/Evaluator.java:96-125 | each step keeps the stack invariant: the stack holds only `(`, operators and function names; adjacent operators strictly increase in precedence toward the top; every emitted token read so far is in the output or on the stack exactly once, with operands in the output in input order |
| ShuntingYard.StepOpens | src/main/java/Evaluator/Evaluator.java:111-121 | a `(` adds one open parenthesis to the stack, a `)` removes one, and every other token leaves the count unchanged |
| ShuntingYard.PopToParenFinds | src/main/java/Evaluator/Evaluator.java:114-117 | the `)` rule finds a `(` exactly when one is open on the stack |
| ShuntingYard.StepFails | src/main/java/Evaluator/Evaluator.java:96-124 | a step fails with `UnknownToken` on a token of no known kind, and with `UnbalancedParens` on a `)` when no `(` is open; every other step succeeds |
| ShuntingYard.ToPostfixSound | src/main/java/Evaluator/Evaluator.java:92-133 | a successful conversion outputs no `(`, `)` or `,`, holds every other input token exactly once (as multisets), and keeps the numbers and variables in input order |
| ShuntingYard.ToPostfixFails | src/main/java/Evaluator/Evaluator.java:113-128 | conversion fails only with `UnbalancedParens` or `UnknownToken` of an input token; it fails whenever a token is of no known kind; on known tokens it succeeds exactly when the parentheses are balanced |
| ShuntingYard.PopUntilParen | src/main/java/Evaluator/Evaluator.java:102-104 | the pop loop of the `,` and `)` rules computes `PopToParen` |
| ShuntingYard.PopWhileHigher | src/main/java/Evaluator/Evaluator.java:106-109 | the pop loop of the operator rule computes `PopHigher` |
| ShuntingYard.ConvertToPostfix | src/main/java/Evaluator/Evaluator.java:92-133 | the method computes `ToPostfix`; its output rearranges the input as above; its errors are conversion errors; on known tokens it succeeds exactly when the parentheses are balanced |
| Postfix.EvalStep | src/main/java/Evaluator/Evaluator.java:144-158 | definition of one iteration of the postfix loop: push a number's value or a variable's lookup, apply a function to the top value, or an operator to the top two |
| Postfix.RunFrom | src/main/java/Evaluator/Evaluator.java:144-162 | definition of the postfix loop followed by the final one-value check |
| Postfix.Run | src/main/java/Evaluator/Evaluator.java:141-163 | definition of `evaluatePostfix`: the loop from an empty value stack |
| Postfix.Lookup | src/main/java/Evaluator/Evaluator.java:213-220 | a cached name is answered from the cache with nothing changed; an unknown name takes the next console value, binds it and drops it from the input; with no input left the lookup fails and changes nothing; no binding is ever changed |
| Postfix.Finish | src/main/java/Evaluator/Evaluator.java:161-162 | the run succeeds exactly when one value is left, and returns it; otherwise it fails with `MalformedExpression` |
| Postfix.OperatorStep | src/main/java/Evaluator/Evaluator.java:153-157 | an operator takes the top value as its right operand and the one below as its left, and replaces both with `applyOperator`'s result or fails with its error |
| Postfix.StepArity | src/main/java/Evaluator/Evaluator.java:144-158 | a step fails when the token needs more values than the stack holds (two for an operator, one for a function); otherwise it can fail only by division by zero or exhausted input; on success it changes the stack height by the token's effect |
| Postfix.RunArity | src/main/java/Evaluator/Evaluator.java:141-163 | a run succeeds only on a well-formed postfix sequence (every token finds its operands, exactly one value is left); on a well-formed one it fails only by division by zero or exhausted input |
| Postfix.RunFromErrors | src/main/java/Evaluator/Evaluator.java:141-163 | a run fails only with a missing operand or function argument, division by zero, exhausted input or a malformed final stack; never with `UnknownOperation` |
| Postfix.RunAdvances | src/main/java/Evaluator/Evaluator.java:213-219 | a run keeps every cached binding, reads the console only from the front, and adds exactly one binding per value it reads |
| Evaluation.EvaluateIn | src/main/java/Evaluator/Evaluator.java:43-47 | definition of `evaluate`: strip whitespace, tokenize, convert, run; the first error of a stage is the result |
| Evaluation.EvaluateErrors | src/main/java/Evaluator/Evaluator.java:43-47 | an evaluation reports `InvalidCharacter` exactly when the stripped text holds a character outside the token alphabet, naming the first one; a conversion failure is a conversion error; a failure after conversion is a run error |
| Evaluation.EvaluateAdvances | src/main/java/Evaluator/Evaluator.java:43-47 | across a whole `evaluate`, cached bindings are kept, console values are read from the front, and one binding is added per value read |
| Evaluation.Evaluator.constructor | src/main/java/Evaluator/Evaluator.java:15-18 | a new evaluator has an empty variable cache and the given console input |
| Evaluation.Evaluator.GetVariableValue | src/main/java/Evaluator/Evaluator.java:213-220 | the method's result and the new `variables` and `input` fields are those of `Lookup` on the old ones |
| Evaluation.Evaluator.EvaluatePostfix | src/main/java/Evaluator/Evaluator.java:141-163 | the loop's result and the new fields are those of `Run` on the postfix tokens from the old fields |
| Evaluation.Evaluator.Evaluate | src/main/java/Evaluator/Evaluator.java:43-47 | the result and the new fields are those of `EvaluateIn`: strip, tokenize, convert, run; a lexing or conversion error leaves the fields unchanged |
| Grammar.Eval | src/main/java/Evaluator/Evaluator.java:144-157 | definition of the reference value of an expression tree, computed on the tree with the same number values, lookups, functions and `applyOperator` as the postfix loop |
| Grammar.PopHigherExactly | src/main/java/Evaluator/Evaluator.java:106-109 | above a stack whose top admits the incoming operator, the operator loop pops exactly the pending run of higher-or-equal operators, top first |
| Grammar.PopToParenExactly | src/main/java/Evaluator/Evaluator.java:114-116 | the `)` loop pops exactly the operators above the nearest `(`, top first |
| Grammar.CloseCallExactly | src/main/java/Evaluator/Evaluator.java:113-121 | the `)` closing a call emits the argument's pending operators and then the function name, and removes the `(` and the name from the stack |
| Grammar.SettledPending | src/main/java/Evaluator/Evaluator.java:106-110 | what the converter has emitted for a subexpression, followed by its pending operators popped top first, is the subexpression's postfix order |
| Grammar.ConvertInfix | src/main/java/Evaluator/Evaluator.java:96-125 | converting the tokens of any expression tree on top of a stack that admits it emits the tree's settled part and leaves only its pending operators above that stack |
| Grammar.InfixToPostfix | src/main/java/Evaluator/Evaluator.java:92-133 | for every expression tree written by the usual conventions, the converter outputs the tree's postfix order: operands first, each operator after both of its operands, each function name after its argument |
| Grammar.RunPostorder | src/main/java/Evaluator/Evaluator.java:141-163 | running a tree's postfix order computes the tree's value: left operand before right, each variable looked up as it is met, the first failure and its session as the result |
| Grammar.InfixEvaluation | src/main/java/Evaluator/Evaluator.java:45-46 | for every expression tree, converting its tokens and running the result gives the value computed on the tree |
| Grammar.InfixTokens | src/main/java/Evaluator/Evaluator.java:55-84 | the tokens of an expression tree are lexemes, and of two neighbouring tokens one is a symbol |
| Grammar.TextEvaluation | src/main/java/Evaluator/Evaluator.java:43-47 | the text of every expression tree is read back as exactly its tokens, and `evaluate` on it gives the value computed on the tree: precedence, left association, grouping and calls hold for all expressions |
| Shapes.OneOperator | src/main/java/Evaluator/Evaluator.java:105-110 | `a op b` converts to `a b op` |
| Shapes.LeftFirst | src/main/java/Evaluator/Evaluator.java:106-110 | `a op1 b op2 c` with `op1` binding at least as tightly as `op2` (equal precedence included) converts to `a b op1 c op2`: left association |
| Shapes.RightFirst | src/main/java/Evaluator/Evaluator.java:106-110 | `a op1 b op2 c` with `op2` binding more tightly converts to `a b c op2 op1` |
| Shapes.TighterInTheMiddle | src/main/java/Evaluator/Evaluator.java:106-110 | `a op1 b op2 c op3 d` with `op3 <= op1 < op2` in precedence converts to `a b c op2 op1 d op3` |
| Shapes.Grouped | src/main/java/Evaluator/Evaluator.java:111-121 | `(a op1 b) op2 c` converts to `a b op1 c op2` whatever the precedences |
| Shapes.Call | src/main/java/Evaluator/Evaluator.java:99-121 | `f ( a )` converts to `a f`: the function name is emitted when its group closes |
| Shapes.OperatorPair | src/main/java/Evaluator/Evaluator.java:105-110 | `a op1 op2 b` with `op2` binding more tightly converts to `a b op2 op1` |
| Shapes.RunOneOperator | src/main/java/Evaluator/Evaluator.java:153-157 | the postfix run of `a b op` is `applyOperator(op, a, b)`, error included |
| Shapes.RunLeftFirst | src/main/java/Evaluator/Evaluator.java:141-163 | the run of `a b op1 c op2` is `(a op1 b) op2 c` |
| Shapes.RunRightFirst | src/main/java/Evaluator/Evaluator.java:141-163 | the run of `a b c op2 op1` is `a op1 (b op2 c)` |
| Shapes.RunTighterInTheMiddle | src/main/java/Evaluator/Evaluator.java:141-163 | the run of `a b c op2 op1 d op3` is `(a op1 (b op2 c)) op3 d` |
| Shapes.RunCall | src/main/java/Evaluator/Evaluator.java:149-152 | the run of `a f` is the library function `f` applied to `a` |
| Shapes.RunOperatorPair | src/main/java/Evaluator/Evaluator.java:153-154 | when `op2` succeeds on `a` and `b`, the run of `a b op2 op1` fails with a missing operand for `op1`, the error `2+*3` meets |
| Shapes.RunVariableAt | src/main/java/Evaluator/Evaluator.java:147-148 | a variable pushes the value `getVariableValue` finds and moves the run to the session that lookup leaves |
| Shapes.RunRepeatedVariable | src/main/java/Evaluator/Evaluator.java:213-219 | in `x x op` the second `x` is answered from the cache: the whole run reads the console at most once |
| Scenarios.WhitespaceIgnored | src/main/java/Evaluator/Evaluator.java:44 | inserting a whitespace character anywhere in an expression does not change the evaluation |
| Scenarios.CallExample | src/main/java/Evaluator/Evaluator.java:149-152 | `f(n)` with a digit string `n` evaluates to the library function `f` at the value of `n` |
| Scenarios.PrecedenceExample | src/test/java/EvaluatorTest.java:10 | `2+3*4-4` evaluates to 10 and leaves the session unchanged |
| Scenarios.ParenthesesExample | src/test/java/EvaluatorTest.java:16 | `(2+3)*4` evaluates to 20 |
| Scenarios.SineExample | src/test/java/EvaluatorTest.java:22 | `sin(0)` evaluates to the library sine at 0 |
| Scenarios.CosineExample | src/test/java/EvaluatorTest.java:23 | `cos(0)` evaluates to the library cosine at 0 |
| Scenarios.SquareRootExample | src/test/java/EvaluatorTest.java:24 | `sqrt(25)` evaluates to the library square root at 25 |
| Scenarios.MissingOperandExample | src/test/java/EvaluatorTest.java:30 | `2+*3` fails: `+` finds only one value |
| Scenarios.DivisionExample | src/test/java/EvaluatorTest.java:36 | `4/0` fails with `DivisionByZero` |
| Scenarios.OrderExample | src/test/java/EvaluatorTest.java:42 | `3*2+1` evaluates to 7 |
| Scenarios.PowerPostfix | src/main/java/Evaluator/Evaluator.java:106-110 | `2 ^ 3 ^ 2` converts to `2 3 ^ 2 ^` |
| Scenarios.PowerExample | src/main/java/Evaluator/Evaluator.java:106-110 | `2^3^2` evaluates to `pow(pow(2, 3), 2)` |
| Scenarios.SquareExample | src/main/java/Evaluator/Evaluator.java:213-219 | `x*x` evaluates to the square of the value looked up for `x`, in the session that one lookup leaves |
| Scenarios.FirstSquareExample | src/main/java/Evaluator/Evaluator.java:213-219 | with an empty cache and console values 3 and 5, `x*x` is 9, binds `x` to 3 and leaves 5 unread |
| Scenarios.CachedSquareExample | src/main/java/Evaluator/Evaluator.java:213-219 | with `x` bound to 3, `x*x` is 9 and reads nothing |
| Scenarios.SquareExhausted | src/main/java/Evaluator/Evaluator.java:214-216 | with `x` unbound and no console input, `x*x` fails with `InputExhausted` and changes nothing |

## Left out

- Floating point: values are exact reals. `Double.parseDouble` is the exact decimal value of the token,
  and IEEE rounding, infinities and NaN are not modelled.
- `Math.pow`, `Math.sin`, `Math.cos`, `Math.tan`, `Math.sqrt`, `Math.abs` are arbitrary functions
  supplied as a `MathLib`. The expected values 0, 1 and 5 of the `sin(0)`, `cos(0)` and `sqrt(25)` tests
  are properties of the real library; the model states the library's value at 0, 0 and 25.
- `Character.isDigit` and `Character.isLetter` are restricted to ASCII digits and letters. Unicode
  digits and letters, which the Java lexer accepts, are not modelled.
- The console: `Scanner.nextDouble` is a sequence of values fixed when the evaluator is made. The prompt
  printed by `getVariableValue` is not modelled. A console that has run out becomes the `InputExhausted`
  error, and a console entry that is not a number is not modelled.
- Exception messages: each message is an `Error` kind (the two unbalanced-parenthesis throws share one).
  The Russian message texts are not modelled.
- `Scenarios`: the test expressions are proved without their spaces (`2+3*4-4` for `"2 + 3 * 4 - 4"`);
  `Scenarios.WhitespaceIgnored` shows that spaces do not change an evaluation.
- ShuntingYard.ConvertToPostfix: precedence and association are proved for every token sequence written from
  an expression tree (`Grammar.InfixEvaluation`, `Grammar.TextEvaluation`). For a balanced token
  sequence that no tree writes, such as `2 3 +` or `2 +`, only the error, arity and rearrangement lemmas
  say what the converter does. The model does not prove that every sequence the run accepts is written by some tree.
- Grammar.Canonical: calls take one argument, as every entry of `FUNCTIONS` does, so no tree is written
  with a `,`; the comma rule is modelled in `ShuntingYard.Step` only. A tree that needs parentheses to be
  read as intended (such as `a - (b - c)`) is canonical only with its `Group`.
- `src/main/java/org/example/Main.java` (the console driver) is not part of this model.
