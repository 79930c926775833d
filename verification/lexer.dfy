/** The tokenizer (`parseTokens`) and the whitespace removal that precedes it. */
module Lexer {
  import opened Tokens

  /** The two kinds of multi-character token: runs of digits and '.', and
      runs of letters. */
  datatype RunKind = NumberRun | WordRun

  predicate InRun(c: char, kind: RunKind) {
    match kind
    case NumberRun => IsNumberChar(c)
    case WordRun => IsLetter(c)
  }

  /** `expression.replaceAll("\\s+", "")`. */
  function StripWhitespace(s: string): (r: string)
    ensures forall i :: 0 <= i < |r| ==> !IsWhitespace(r[i])
    ensures forall i :: 0 <= i < |r| ==> r[i] in s
    ensures (forall i :: 0 <= i < |s| ==> !IsWhitespace(s[i])) ==> r == s
  {
    if s == [] then []
    else (if IsWhitespace(s[0]) then [] else [s[0]]) + StripWhitespace(s[1..])
  }

  lemma Associative(p: string, a: string, b: string)
    ensures p + (a + b) == (p + a) + b
  {
  }

  /** Removing whitespace distributes over concatenation. */
  lemma {:induction false} StripAppend(x: string, y: string)
    ensures StripWhitespace(x + y) == StripWhitespace(x) + StripWhitespace(y)
    decreases |x|
  {
    if x == [] {
      assert x + y == y;
    } else {
      var z := x + y;
      assert z[0] == x[0] && z[1..] == x[1..] + y;
      StripAppend(x[1..], y);
      var a, b := StripWhitespace(x[1..]), StripWhitespace(y);
      if IsWhitespace(x[0]) {
        assert StripWhitespace(z) == a + b;
        assert StripWhitespace(x) == a;
      } else {
        assert StripWhitespace(z) == [x[0]] + (a + b);
        assert StripWhitespace(x) == [x[0]] + a;
        Associative([x[0]], a, b);
      }
      assert StripWhitespace(z) == StripWhitespace(x) + b;
    }
  }

  /** The end of the maximal run of `kind` characters starting at `i`. */
  function RunEnd(s: string, i: nat, kind: RunKind): (j: nat)
    requires i <= |s|
    ensures i <= j <= |s|
    ensures forall m :: i <= m < j ==> InRun(s[m], kind)
    ensures j == |s| || !InRun(s[j], kind)
    decreases |s| - i
  {
    if i < |s| && InRun(s[i], kind) then RunEnd(s, i + 1, kind) else i
  }

  function Prepend(ts: seq<string>, r: Result<seq<string>>): Result<seq<string>> {
    match r
    case Ok(rest) => Ok(ts + rest)
    case Err(e) => Err(e)
  }

  /** The tokens of `s[i..]`, read left to right. */
  function Scan(s: string, i: nat): Result<seq<string>>
    requires i <= |s|
    decreases |s| - i
  {
    if i == |s| then Ok([])
    else if IsNumberChar(s[i]) then
      var j := RunEnd(s, i, NumberRun);
      Prepend([s[i..j]], Scan(s, j))
    else if IsLetter(s[i]) then
      var j := RunEnd(s, i, WordRun);
      Prepend([s[i..j]], Scan(s, j))
    else if IsSymbol(s[i]) then
      Prepend([[s[i]]], Scan(s, i + 1))
    else
      Err(InvalidCharacter(s[i]))
  }

  lemma PrependTwice(ts: seq<string>, us: seq<string>, r: Result<seq<string>>)
    ensures Prepend(ts, Prepend(us, r)) == Prepend(ts + us, r)
    ensures Prepend([], r) == r
  {
    if r.Ok? {
      assert ts + (us + r.value) == (ts + us) + r.value;
      assert [] + r.value == r.value;
    }
  }

  function Tokenize(s: string): Result<seq<string>> {
    Scan(s, 0)
  }

  // ----- What a successful scan produces -----

  function Concat(ts: seq<string>): string {
    if ts == [] then [] else ts[0] + Concat(ts[1..])
  }

  predicate IsRunOf(t: string, kind: RunKind) {
    |t| > 0 && forall i :: 0 <= i < |t| ==> InRun(t[i], kind)
  }

  /** A token the lexer can emit: one symbol, or a non-empty run. */
  predicate IsLexeme(t: string) {
    (|t| == 1 && IsSymbol(t[0])) || IsRunOf(t, NumberRun) || IsRunOf(t, WordRun)
  }

  /** No two neighbouring tokens are runs of the same kind. */
  predicate MaximalRuns(ts: seq<string>) {
    forall i :: 0 <= i < |ts| - 1 ==>
      !(IsRunOf(ts[i], NumberRun) && IsRunOf(ts[i + 1], NumberRun)) &&
      !(IsRunOf(ts[i], WordRun) && IsRunOf(ts[i + 1], WordRun))
  }

  /** Where the token starting at `s[i]` ends. */
  function TokenEnd(s: string, i: nat): (j: nat)
    requires i < |s|
    ensures i < j <= |s|
  {
    if IsNumberChar(s[i]) then RunEnd(s, i, NumberRun)
    else if IsLetter(s[i]) then RunEnd(s, i, WordRun)
    else i + 1
  }

  /** One step of the scan from a token character: the token read is a
      lexeme starting with `s[i]` whose run, if any, `s[j]` cannot extend. */
  lemma {:induction false} ScanUnfold(s: string, i: nat)
    requires i < |s| && IsTokenChar(s[i])
    ensures var j := TokenEnd(s, i);
      Scan(s, i) == Prepend([s[i..j]], Scan(s, j)) &&
      IsLexeme(s[i..j]) && s[i..j][0] == s[i] &&
      (j < |s| && IsRunOf(s[i..j], NumberRun) ==> !IsNumberChar(s[j])) &&
      (j < |s| && IsRunOf(s[i..j], WordRun) ==> !IsLetter(s[j]))
  {
    var j := TokenEnd(s, i);
    if !IsNumberChar(s[i]) && !IsLetter(s[i]) {
      assert s[i..j] == [s[i]];
      assert !InRun(s[i], NumberRun) && !InRun(s[i], WordRun);
    }
  }

  lemma {:induction false} MaximalCons(head: string, rest: seq<string>)
    requires MaximalRuns(rest)
    requires rest != [] ==>
      !(IsRunOf(head, NumberRun) && IsRunOf(rest[0], NumberRun)) &&
      !(IsRunOf(head, WordRun) && IsRunOf(rest[0], WordRun))
    ensures MaximalRuns([head] + rest)
  {
    var ts := [head] + rest;
    forall i | 0 <= i < |ts| - 1
      ensures !(IsRunOf(ts[i], NumberRun) && IsRunOf(ts[i + 1], NumberRun)) &&
              !(IsRunOf(ts[i], WordRun) && IsRunOf(ts[i + 1], WordRun))
    {
      if i > 0 { assert ts[i] == rest[i - 1] && ts[i + 1] == rest[i]; }
    }
  }

  lemma SliceSplit(s: string, i: nat, j: nat)
    requires i <= j <= |s|
    ensures s[i..] == s[i..j] + s[j..]
  {
  }

  lemma {:induction false} ConcatCons(head: string, rest: seq<string>)
    ensures Concat([head] + rest) == head + Concat(rest)
  {
    assert ([head] + rest)[1..] == rest;
  }

  /** On success the tokens concatenate back to the scanned text. */
  lemma {:induction false} ScanConcat(s: string, i: nat)
    requires i <= |s| && Scan(s, i).Ok?
    ensures Concat(Scan(s, i).value) == s[i..]
    decreases |s| - i
  {
    if i < |s| {
      assert IsTokenChar(s[i]);
      var j := TokenEnd(s, i);
      var head := s[i..j];
      ScanUnfold(s, i);
      ScanConcat(s, j);
      var rest := Scan(s, j).value;
      assert Scan(s, i).value == [head] + rest;
      ConcatCons(head, rest);
      SliceSplit(s, i, j);
    }
  }

  /** On success the tokens are lexemes, concatenate back to the scanned
      text, start with its first character and never split a run. */
  lemma {:induction false} ScanSound(s: string, i: nat)
    requires i <= |s| && Scan(s, i).Ok?
    ensures Concat(Scan(s, i).value) == s[i..]
    ensures forall t :: t in Scan(s, i).value ==> IsLexeme(t)
    ensures MaximalRuns(Scan(s, i).value)
    ensures i < |s| ==> Scan(s, i).value != [] && Scan(s, i).value[0][0] == s[i]
    decreases |s| - i
  {
    ScanConcat(s, i);
    if i < |s| {
      assert IsTokenChar(s[i]);
      var j := TokenEnd(s, i);
      var head := s[i..j];
      ScanUnfold(s, i);
      ScanSound(s, j);
      var rest := Scan(s, j).value;
      assert Scan(s, i).value == [head] + rest;
      if rest != [] {
        // the next token starts with s[j], which cannot extend this token's run
        assert rest[0][0] == s[j];
      }
      MaximalCons(head, rest);
    }
  }

  /** A scan fails exactly when some character is outside the token alphabet,
      and it reports the first such character. */
  lemma {:induction false} ScanFails(s: string, i: nat)
    requires i <= |s|
    ensures Scan(s, i).Err? <==> exists m :: i <= m < |s| && !IsTokenChar(s[m])
    ensures Scan(s, i).Err? ==>
      exists m :: i <= m < |s| && !IsTokenChar(s[m]) &&
        Scan(s, i).error == InvalidCharacter(s[m]) &&
        forall p :: i <= p < m ==> IsTokenChar(s[p])
    decreases |s| - i
  {
    if i < |s| && IsTokenChar(s[i]) {
      var j := if IsNumberChar(s[i]) then RunEnd(s, i, NumberRun)
               else if IsLetter(s[i]) then RunEnd(s, i, WordRun)
               else i + 1;
      assert forall p :: i <= p < j ==> IsTokenChar(s[p]);
      assert Scan(s, i).Err? == Scan(s, j).Err?;
      ScanFails(s, j);
    }
  }

  /** A run's end is the first position, at or after `i`, that the run
      cannot cover. */
  lemma {:induction false} RunEndAt(s: string, i: nat, j: nat, kind: RunKind)
    requires i <= j <= |s|
    requires forall m :: i <= m < j ==> InRun(s[m], kind)
    requires j == |s| || !InRun(s[j], kind)
    ensures RunEnd(s, i, kind) == j
    decreases j - i
  {
    if i < j {
      RunEndAt(s, i + 1, j, kind);
    }
  }

  predicate AllLexemes(ts: seq<string>) {
    forall k :: 0 <= k < |ts| ==> IsLexeme(ts[k])
  }

  /** Every token a lexeme, and no run split between two tokens. */
  predicate Lexemes(ts: seq<string>) {
    AllLexemes(ts) && MaximalRuns(ts)
  }

  lemma {:induction false} LexemesTail(ts: seq<string>)
    requires ts != [] && Lexemes(ts)
    ensures IsLexeme(ts[0]) && Lexemes(ts[1..])
  {
    var rest := ts[1..];
    forall k | 0 <= k < |rest| ensures IsLexeme(rest[k]) {
      assert rest[k] == ts[k + 1];
    }
    forall k | 0 <= k < |rest| - 1
      ensures !(IsRunOf(rest[k], NumberRun) && IsRunOf(rest[k + 1], NumberRun)) &&
              !(IsRunOf(rest[k], WordRun) && IsRunOf(rest[k + 1], WordRun))
    {
      assert rest[k] == ts[k + 1] && rest[k + 1] == ts[k + 2];
    }
  }

  /** The token a lexeme at `s[i..]` occupies is the one the scan reads
      there, provided the next token (if any) does not continue its run. */
  lemma {:induction false} TokenEndAt(s: string, i: nat, h: string, rest: seq<string>)
    requires IsLexeme(h) && i + |h| <= |s| && s[i..i + |h|] == h
    requires rest != [] ==> IsLexeme(rest[0])
    requires rest != [] ==>
      !(IsRunOf(h, NumberRun) && IsRunOf(rest[0], NumberRun)) &&
      !(IsRunOf(h, WordRun) && IsRunOf(rest[0], WordRun))
    requires i + |h| < |s| ==> rest != [] && s[i + |h|] == rest[0][0]
    ensures TokenEnd(s, i) == i + |h|
  {
    var j := i + |h|;
    assert s[i] == h[0];
    if IsRunOf(h, NumberRun) {
      forall m | i <= m < j ensures InRun(s[m], NumberRun) {
        assert s[m] == h[m - i];
      }
      if j < |s| {
        var next := rest[0];
        assert !IsRunOf(next, NumberRun);
        assert !IsNumberChar(next[0]);
      }
      RunEndAt(s, i, j, NumberRun);
    } else if IsRunOf(h, WordRun) {
      forall m | i <= m < j ensures InRun(s[m], WordRun) {
        assert s[m] == h[m - i];
      }
      if j < |s| {
        var next := rest[0];
        assert !IsRunOf(next, WordRun);
        assert !IsLetter(next[0]);
      }
      assert !IsNumberChar(s[i]);
      RunEndAt(s, i, j, WordRun);
    } else {
      assert !IsNumberChar(s[i]) && !IsLetter(s[i]);
    }
  }

  /** Where the text is `h` followed by the concatenation of `rest`, `h`
      occupies the first `|h|` characters and `rest` starts right after. */
  lemma {:induction false} ConcatSplit(s: string, i: nat, h: string, rest: seq<string>)
    requires i <= |s| && h + Concat(rest) == s[i..]
    ensures i + |h| <= |s| && s[i..i + |h|] == h && s[i + |h|..] == Concat(rest)
  {
    assert |s[i..]| == |h| + |Concat(rest)|;
    assert s[i..][..|h|] == h;
    assert s[i..][|h|..] == Concat(rest);
  }

  /** The first of several lexemes concatenated at `s[j..]` starts with
      `s[j]`, and there is one exactly when `s[j..]` is not empty. */
  lemma {:induction false} NextLexeme(s: string, j: nat, rest: seq<string>)
    requires j <= |s| && Concat(rest) == s[j..]
    requires forall k :: 0 <= k < |rest| ==> IsLexeme(rest[k])
    ensures j < |s| <==> rest != []
    ensures rest != [] ==> IsLexeme(rest[0]) && s[j] == rest[0][0]
  {
    if rest != [] {
      assert rest == [rest[0]] + rest[1..];
      ConcatCons(rest[0], rest[1..]);
      assert IsLexeme(rest[0]);
      assert rest[0][0] == Concat(rest)[0];
    }
  }

  /** The first of several maximal lexemes at `s[i..]` occupies the text up
      to where the scan's token starting at `s[i]` ends, and the rest of
      them cover the text after it. */
  lemma {:induction false} HeadEnd(s: string, i: nat, ts: seq<string>)
    requires ts != [] && i <= |s| && Concat(ts) == s[i..] && Lexemes(ts)
    ensures i + |ts[0]| <= |s| && s[i..i + |ts[0]|] == ts[0]
    ensures Concat(ts[1..]) == s[i + |ts[0]|..]
    ensures TokenEnd(s, i) == i + |ts[0]|
  {
    var h, rest := ts[0], ts[1..];
    assert ts == [h] + rest;
    LexemesTail(ts);
    ConcatCons(h, rest);
    ConcatSplit(s, i, h, rest);
    var j := i + |h|;
    if rest != [] {
      assert rest[0] == ts[1];
    }
    NextLexeme(s, j, rest);
    TokenEndAt(s, i, h, rest);
  }

  /** A text has at most one split into lexemes that never splits a run. */
  lemma {:induction false} SplitUnique(s: string, i: nat, ts: seq<string>, us: seq<string>)
    requires i <= |s| && Concat(ts) == s[i..] && Lexemes(ts)
    requires Concat(us) == s[i..] && Lexemes(us)
    ensures ts == us
    decreases |ts|
  {
    NextLexeme(s, i, ts);
    NextLexeme(s, i, us);
    if ts != [] {
      HeadEnd(s, i, ts);
      HeadEnd(s, i, us);
      LexemesTail(ts);
      LexemesTail(us);
      SplitUnique(s, i + |ts[0]|, ts[1..], us[1..]);
      assert ts == [ts[0]] + ts[1..] && us == [us[0]] + us[1..];
    }
  }

  /** Every character of a concatenation of lexemes is a token character. */
  lemma {:induction false} LexemeChars(ts: seq<string>)
    requires forall k :: 0 <= k < |ts| ==> IsLexeme(ts[k])
    ensures forall m :: 0 <= m < |Concat(ts)| ==> IsTokenChar(Concat(ts)[m])
    decreases |ts|
  {
    if ts != [] {
      var h, rest := ts[0], ts[1..];
      assert ts == [h] + rest;
      ConcatCons(h, rest);
      forall k | 0 <= k < |rest| ensures IsLexeme(rest[k]) {
        assert rest[k] == ts[k + 1];
      }
      LexemeChars(rest);
      assert IsLexeme(h);
      forall m | 0 <= m < |Concat(ts)| ensures IsTokenChar(Concat(ts)[m]) {
        if m < |h| {
          assert Concat(ts)[m] == h[m];
        } else {
          assert Concat(ts)[m] == Concat(rest)[m - |h|];
        }
      }
    }
  }

  /** The converse of `ScanSound`: lexemes that concatenate to `s[i..]` and
      never split a run are exactly what the scan returns. */
  lemma ScanComplete(s: string, i: nat, ts: seq<string>)
    requires i <= |s| && Concat(ts) == s[i..] && Lexemes(ts)
    ensures Scan(s, i) == Ok(ts)
  {
    LexemeChars(ts);
    forall m | i <= m < |s| ensures IsTokenChar(s[m]) {
      assert s[m] == Concat(ts)[m - i];
    }
    ScanFails(s, i);
    ScanSound(s, i);
    var us := Scan(s, i).value;
    forall k | 0 <= k < |us| ensures IsLexeme(us[k]) {
      assert us[k] in us;
    }
    SplitUnique(s, i, us, ts);
  }

  /** `parseTokens` succeeds with `ts` exactly when `ts` splits the text into
      lexemes without splitting a run: the tokenization is unique. */
  lemma {:induction false} TokenizeExactly(s: string, ts: seq<string>)
    ensures Tokenize(s) == Ok(ts) <==> Concat(ts) == s && AllLexemes(ts) && MaximalRuns(ts)
  {
    assert s[0..] == s;
    if Tokenize(s) == Ok(ts) {
      ScanSound(s, 0);
      forall k | 0 <= k < |ts| ensures IsLexeme(ts[k]) {
        assert ts[k] in ts;
      }
    }
    if Concat(ts) == s && AllLexemes(ts) && MaximalRuns(ts) {
      ScanComplete(s, 0, ts);
    }
  }

  /** The inner loop of `parseTokens`: append characters of `kind` to a
      fresh buffer while they last. */
  method ReadRun(input: string, i: nat, kind: RunKind) returns (sb: string, j: nat)
    requires i <= |input|
    ensures j == RunEnd(input, i, kind) && sb == input[i..j]
  {
    sb, j := "", i;
    while j < |input| && InRun(input[j], kind)
      invariant i <= j <= |input|
      invariant sb == input[i..j]
      invariant RunEnd(input, i, kind) == RunEnd(input, j, kind)
    {
      sb := sb + [input[j]];
      j := j + 1;
    }
  }

  /** `parseTokens`: a single left-to-right scan that groups maximal runs of
      digits and '.', maximal runs of letters, and one-character symbols. */
  method ParseTokens(input: string) returns (r: Result<seq<string>>)
    ensures r == Tokenize(input)
    ensures r.Ok? ==> Concat(r.value) == input && forall t :: t in r.value ==> IsLexeme(t)
    ensures r.Ok? ==> MaximalRuns(r.value)
    ensures r.Err? <==> exists m :: 0 <= m < |input| && !IsTokenChar(input[m])
  {
    var tokens: seq<string> := [];
    var i := 0;
    PrependTwice([], [], Scan(input, 0));
    while i < |input|
      invariant 0 <= i <= |input|
      invariant Tokenize(input) == Prepend(tokens, Scan(input, i))
    {
      var ch := input[i];
      if IsNumberChar(ch) || IsLetter(ch) {
        var kind := if IsNumberChar(ch) then NumberRun else WordRun;
        var sb, j := ReadRun(input, i, kind);
        PrependTwice(tokens, [sb], Scan(input, j));
        tokens, i := tokens + [sb], j;
      } else if IsSymbol(ch) {
        PrependTwice(tokens, [[ch]], Scan(input, i + 1));
        tokens, i := tokens + [[ch]], i + 1;
      } else {
        assert Scan(input, i) == Err(InvalidCharacter(ch));
        r := Err(InvalidCharacter(ch));
        ScanFails(input, 0);
        return;
      }
    }
    assert tokens + [] == tokens;
    r := Ok(tokens);
    ScanFails(input, 0);
    ScanSound(input, 0);
  }
}
