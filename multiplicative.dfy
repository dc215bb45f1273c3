/** The multiplicative calculator of main.cpp: a `Lexer` object walks the text one
    character at a time, and an `Interpreter` holding its own copy of the lexer
    folds `*` and `/` from left to right. */
module Multiplicative {
  import opened Outcomes
  import opened Scanning

  // ---------------------------------------------------------------------------
  // Tokens

  datatype TokenType = EndOfLine | Integer | Mul | Div

  /** A token; an operator token carries its character code as its value, the
      end-of-line token carries 0. */
  datatype Token = Token(kind: TokenType, value: int)

  predicate IsOperator(kind: TokenType) {
    kind == Mul || kind == Div
  }

  /** The tokens this lexer produces: integers are non-negative and every other
      token carries the value the lexer gives it. */
  predicate IsLexerToken(t: Token) {
    match t.kind
    case EndOfLine => t.value == 0
    case Integer => t.value >= 0
    case Mul => t.value == '*' as int
    case Div => t.value == '/' as int
  }

  // ---------------------------------------------------------------------------
  // The lexer as a function of the text and the cursor

  datatype Option<T> = None | Some(value: T)

  /** `get_next_token` as written: after the whitespace it returns a token or
      throws, and at the end of the text control runs off the end of the function
      without a return statement, shown here as `None`. */
  function NextTokenAsWritten(text: string, pos: nat): Option<(Result<Token>, nat)>
    requires pos <= |text|
  {
    var s := Scan(text, pos);
    match s.lexeme
    case EndOfText => None
    case Number(n) => Some((Ok(Token(Integer, n)), s.end))
    case Symbol(c) =>
      if c == '*' then Some((Ok(Token(Mul, '*' as int)), s.end))
      else if c == '/' then Some((Ok(Token(Div, '/' as int)), s.end))
      else Some((Err(InvalidCharacter), s.start))
  }

  /** `get_next_token` with the missing return supplied: at the end of the text it
      returns the end-of-line token, as the additive calculator's lexer does. */
  function NextToken(text: string, pos: nat): (r: (Result<Token>, nat))
    requires pos <= |text|
    ensures pos <= r.1 <= |text|
    ensures r.0.Ok? ==> IsLexerToken(r.0.value)
    ensures r.0.Ok? && r.0.value.kind != EndOfLine ==> pos < r.1
    ensures r.0.Ok? && r.0.value.kind == EndOfLine ==> r.1 == |text|
  {
    var s := Scan(text, pos);
    match s.lexeme
    case EndOfText => (Ok(Token(EndOfLine, 0)), s.start)
    case Number(n) => (Ok(Token(Integer, n)), s.end)
    case Symbol(c) =>
      if c == '*' then (Ok(Token(Mul, '*' as int)), s.end)
      else if c == '/' then (Ok(Token(Div, '/' as int)), s.end)
      else (Err(InvalidCharacter), s.start)
  }

  /** The function as written runs off its end exactly when only whitespace is
      left; everywhere else the repaired lexer does what it does. */
  lemma AsWrittenFallsOffAtEnd(text: string, pos: nat)
    requires pos <= |text|
    ensures NextTokenAsWritten(text, pos).None?
        <==> forall k :: pos <= k < |text| ==> IsSpace(text[k])
    ensures NextTokenAsWritten(text, pos).Some? ==> NextTokenAsWritten(text, pos).value == NextToken(text, pos)
    ensures NextTokenAsWritten(text, pos).None? ==> NextToken(text, pos) == (Ok(Token(EndOfLine, 0)), |text|)
  {
    var s := Scan(text, pos);
    assert s.lexeme.EndOfText? <==> forall k :: pos <= k < |text| ==> IsSpace(text[k]);
  }

  /** After the one integer of the line "3", `factor` asks for the next token, and
      the lexer as written reaches the end of `get_next_token` without returning. */
  lemma FallsOffAfterLastToken(text: string)
    requires text == "3"
    ensures NextToken(text, 0) == (Ok(Token(Integer, 3)), 1)
    ensures NextTokenAsWritten(text, 1).None?
    ensures NextToken(text, 1) == (Ok(Token(EndOfLine, 0)), 1)
  {
    assert DecimalValue(text[0..1]) == 3 by {
      assert text[0..1][..0] == [];
    }
  }

  /** One lexing step described on the text itself. */
  lemma NextTokenMeaning(text: string, pos: nat)
    requires pos <= |text|
    ensures NextToken(text, pos).0 == Ok(Token(EndOfLine, 0))
        <==> forall k :: pos <= k < |text| ==> IsSpace(text[k])
    ensures var (r, next) := NextToken(text, pos);
      r.Ok? && r.value.kind == EndOfLine ==> next == |text|
    ensures var (r, next) := NextToken(text, pos);
      r.Ok? && r.value.kind == Integer ==>
        var q := SkipSpaces(text, pos);
        q < next && AllDigits(text[q..next]) && (next == |text| || !IsDigit(text[next]))
        && r.value.value == DecimalValue(text[q..next])
    ensures var (r, next) := NextToken(text, pos);
      r.Ok? && IsOperator(r.value.kind) ==>
        next == SkipSpaces(text, pos) + 1
        && text[next - 1] == (if r.value.kind == Mul then '*' else '/')
    ensures var (r, next) := NextToken(text, pos);
      r.Err? ==>
        r.error == InvalidCharacter && next == SkipSpaces(text, pos) && next < |text|
        && !IsSpace(text[next]) && !IsDigit(text[next]) && text[next] != '*' && text[next] != '/'
  {
    var s := Scan(text, pos);
    assert s.lexeme.EndOfText? <==> forall k :: pos <= k < |text| ==> IsSpace(text[k]);
  }

  /** At the end of the text the (repaired) lexer keeps returning end-of-line. */
  lemma EndOfLineIsSticky(text: string, pos: nat)
    requires pos <= |text|
    requires NextToken(text, pos).0 == Ok(Token(EndOfLine, 0))
    ensures NextToken(text, pos).1 == |text|
    ensures NextToken(text, |text|) == (Ok(Token(EndOfLine, 0)), |text|)
  {
  }

  // ---------------------------------------------------------------------------
  // Token streams

  /** Successive `get_next_token` results: tokens other than end-of-line, closed by
      end-of-line or by a lexing error. */
  predicate IsStream(s: seq<Result<Token>>) {
    |s| > 0
    && (s[|s| - 1].Err? || s[|s| - 1].value.kind == EndOfLine)
    && forall k :: 0 <= k < |s| - 1 ==> s[k].Ok? && s[k].value.kind != EndOfLine
  }

  lemma StreamSuffix(s: seq<Result<Token>>, n: nat)
    requires IsStream(s) && n < |s|
    ensures IsStream(s[n..])
  {
    assert forall k :: 0 <= k < |s| - n ==> s[n..][k] == s[n + k];
  }

  /** The results of calling `get_next_token` again and again from `pos`. */
  function LexFrom(text: string, pos: nat): (s: seq<Result<Token>>)
    requires pos <= |text|
    ensures IsStream(s)
    ensures s[0] == NextToken(text, pos).0
    ensures forall k :: 0 <= k < |s| && s[k].Ok? ==> IsLexerToken(s[k].value)
    decreases |text| - pos
  {
    var (r, next) := NextToken(text, pos);
    if r.Err? || r.value.kind == EndOfLine then [r]
    else
      var rest := LexFrom(text, next);
      StreamCons(r.value, rest);
      [r] + rest
  }

  /** A token that does not end the line, in front of a stream of lexer tokens. */
  lemma StreamCons(t: Token, rest: seq<Result<Token>>)
    requires t.kind != EndOfLine && IsLexerToken(t) && IsStream(rest)
    requires forall k :: 0 <= k < |rest| && rest[k].Ok? ==> IsLexerToken(rest[k].value)
    ensures IsStream([Ok(t)] + rest) && ([Ok(t)] + rest)[0] == Ok(t)
    ensures forall k :: 0 <= k < |rest| + 1 && ([Ok(t)] + rest)[k].Ok? ==>
      IsLexerToken(([Ok(t)] + rest)[k].value)
  {
    assert forall k :: 1 <= k < |rest| + 1 ==> ([Ok(t)] + rest)[k] == rest[k - 1];
  }

  lemma LexFromStep(text: string, pos: nat, t: Token, next: nat)
    requires pos <= |text|
    requires NextToken(text, pos) == (Ok(t), next) && t.kind != EndOfLine
    ensures next <= |text|
    ensures LexFrom(text, pos) == [Ok(t)] + LexFrom(text, next)
  {
  }

  /** The stream seen from a cursor, with `t` already fetched as the current token. */
  ghost function Ahead(t: Token, text: string, pos: nat): (s: seq<Result<Token>>)
    requires pos <= |text|
    ensures IsStream(s) && s[0] == Ok(t)
  {
    if t.kind == EndOfLine then [Ok(t)]
    else
      var rest := LexFrom(text, pos);
      assert forall k :: 1 <= k < |rest| + 1 ==> ([Ok(t)] + rest)[k] == rest[k - 1];
      [Ok(t)] + rest
  }

  /** Fetching the next token moves the lookahead one place down the stream. */
  lemma AheadStep(text: string, pos: nat, t: Token, next: nat)
    requires pos <= |text| && NextToken(text, pos) == (Ok(t), next)
    ensures next <= |text| && Ahead(t, text, next) == LexFrom(text, pos)
  {
    if t.kind != EndOfLine {
      LexFromStep(text, pos, t, next);
    }
  }

  // ---------------------------------------------------------------------------
  // Evaluation of a token stream

  /** `result / factor` on `long`s: C++ division truncates toward zero. */
  function Quotient(a: int, b: int): int
    requires b != 0
  {
    var q := (if a < 0 then -a else a) / (if b < 0 then -b else b);
    if (a < 0) != (b < 0) then -q else q
  }

  /** On the non-negative values this calculator computes, truncating division is
      the floor of the exact quotient. */
  lemma QuotientOfNaturals(a: int, b: int)
    requires a >= 0 && b > 0
    ensures Quotient(a, b) == a / b
    ensures Quotient(a, b) * b <= a < (Quotient(a, b) + 1) * b
  {
  }

  /** `result *= factor()` and `result /= factor()`. */
  function Apply(op: TokenType, left: int, right: int): int
    requires IsOperator(op) && (op == Div ==> right != 0)
  {
    if op == Mul then left * right else Quotient(left, right)
  }

  /** `expr` over its stream: `factor` demands an integer first, then the loop runs. */
  function Evaluate(s: seq<Result<Token>>): Result<int>
    requires IsStream(s)
  {
    match s[0]
    case Err(e) => Err(e)
    case Ok(t) =>
      if t.kind != Integer then Err(InvalidSyntax)
      else
        StreamSuffix(s, 1);
        Continue(t.value, s[1..])
  }

  /** The loop of `expr`, with `acc` the result so far and `s[0]` the current token.
      A token other than `*` or `/` ends it, whatever that token is. Otherwise the
      operand must be an integer, and `factor` fetches the token after it before
      the operation is applied, so a lexing error there comes before a division by
      zero. */
  function Continue(acc: int, s: seq<Result<Token>>): Result<int>
    requires IsStream(s)
    decreases |s|
  {
    match s[0]
    case Err(e) => Err(e)
    case Ok(t) =>
      if !IsOperator(t.kind) then Ok(acc)
      else
        match s[1]
        case Err(e) => Err(e)
        case Ok(operand) =>
          if operand.kind != Integer then Err(InvalidSyntax)
          else
            match s[2]
            case Err(e) => Err(e)
            case Ok(_) =>
              if t.kind == Div && operand.value == 0 then Err(DivisionByZero)
              else
                StreamSuffix(s, 2);
                Continue(Apply(t.kind, acc, operand.value), s[2..])
  }

  /** What `expr` computes on a line of text, the first token fetched by the
      interpreter's construction. */
  function Interpret(text: string): Result<int> {
    Evaluate(LexFrom(text, 0))
  }

  // ---------------------------------------------------------------------------
  // The grammar `INTEGER ((MUL | DIV) INTEGER)*` followed by any other token

  datatype Step = Step(op: Token, operand: int)

  /** Pairs whose operators are `*` or `/`, with no division by zero. */
  predicate Defined(steps: seq<Step>) {
    forall k :: 0 <= k < |steps| ==>
      IsOperator(steps[k].op.kind) && (steps[k].op.kind == Div ==> steps[k].operand != 0)
  }

  function Ops(steps: seq<Step>): (s: seq<Result<Token>>)
    ensures |s| == 2 * |steps|
  {
    if steps == [] then []
    else [Ok(steps[0].op), Ok(Token(Integer, steps[0].operand))] + Ops(steps[1..])
  }

  function Sentence(first: int, steps: seq<Step>): seq<Result<Token>> {
    [Ok(Token(Integer, first))] + Ops(steps)
  }

  /** `(...((first op1 n1) op2 n2)...) opk nk`. */
  function Value(first: int, steps: seq<Step>): int
    requires Defined(steps)
  {
    if steps == [] then first
    else
      var last := steps[|steps| - 1];
      Apply(last.op.kind, Value(first, steps[..|steps| - 1]), last.operand)
  }

  lemma {:induction false} ValueFront(first: int, step: Step, steps: seq<Step>)
    requires IsOperator(step.op.kind) && (step.op.kind == Div ==> step.operand != 0)
    requires Defined(steps)
    ensures Defined([step] + steps)
    ensures Value(first, [step] + steps) == Value(Apply(step.op.kind, first, step.operand), steps)
  {
    var all := [step] + steps;
    assert forall k :: 1 <= k < |all| ==> all[k] == steps[k - 1];
    if steps != [] {
      assert all[..|all| - 1] == [step] + steps[..|steps| - 1];
      ValueFront(first, step, steps[..|steps| - 1]);
    }
  }

  /** The loop consumes whole `op operand` pairs and goes on with what follows the
      last one, a lexing error included. */
  lemma {:induction false} ContinueOps(acc: int, steps: seq<Step>, rest: seq<Result<Token>>)
    requires Defined(steps) && IsStream(Ops(steps) + rest) && rest != []
    ensures IsStream(rest)
    ensures Continue(acc, Ops(steps) + rest) == Continue(Value(acc, steps), rest)
    decreases |steps|
  {
    if steps == [] {
      assert Ops(steps) + rest == rest;
    } else {
      var s := Ops(steps) + rest;
      var st := steps[0];
      assert s == [Ok(st.op), Ok(Token(Integer, st.operand))] + (Ops(steps[1..]) + rest);
      assert s[2..] == Ops(steps[1..]) + rest;
      if steps[1..] == [] && rest[0].Err? {
        // `factor` meets the error fetching the token after the last operand
        assert s[2] == rest[0];
      } else {
        assert s[2].Ok? by {
          if steps[1..] == [] {
            assert s[2] == rest[0];
          } else {
            assert s[2] == Ok(steps[1].op);
          }
        }
        StreamSuffix(s, 2);
        assert steps == [st] + steps[1..];
        ValueFront(acc, st, steps[1..]);
        ContinueOps(Apply(st.op.kind, acc, st.operand), steps[1..], rest);
      }
    }
  }

  lemma SentencePrefix(first: int, steps: seq<Step>, rest: seq<Result<Token>>)
    requires Defined(steps) && IsStream(Sentence(first, steps) + rest) && rest != []
    ensures IsStream(rest)
    ensures Evaluate(Sentence(first, steps) + rest) == Continue(Value(first, steps), rest)
  {
    var s := Sentence(first, steps) + rest;
    assert s[1..] == Ops(steps) + rest;
    StreamSuffix(s, 1);
    ContinueOps(first, steps, rest);
  }

  /** A sentence followed by any token other than `*` and `/` evaluates to its
      left-grouped value; what comes after that token is never looked at. */
  lemma EvaluateSentence(first: int, steps: seq<Step>, stop: Token, rest: seq<Result<Token>>)
    requires Defined(steps) && !IsOperator(stop.kind)
    requires IsStream(Sentence(first, steps) + [Ok(stop)] + rest)
    ensures Evaluate(Sentence(first, steps) + [Ok(stop)] + rest) == Ok(Value(first, steps))
  {
    var tail := [Ok(stop)] + rest;
    assert Sentence(first, steps) + [Ok(stop)] + rest == Sentence(first, steps) + tail;
    SentencePrefix(first, steps, tail);
  }

  /** `s` starts with the pairs `steps`, then a token that is not an operator, and
      folding the pairs onto `acc` gives `v`. */
  predicate PairsThenStop(acc: int, s: seq<Result<Token>>, steps: seq<Step>, v: int) {
    Defined(steps) && 2 * |steps| < |s| && s[..2 * |steps|] == Ops(steps)
    && s[2 * |steps|].Ok? && !IsOperator(s[2 * |steps|].value.kind)
    && v == Value(acc, steps)
  }

  lemma PrefixSplit<T>(s: seq<T>, i: nat, n: nat)
    requires i <= n <= |s|
    ensures s[..n] == s[..i] + s[i..][..n - i]
  {
  }

  /** The loop succeeds only on whole pairs followed by a token that is not an
      operator. */
  lemma {:induction false} ContinueOkShape(acc: int, s: seq<Result<Token>>)
    requires IsStream(s) && Continue(acc, s).Ok?
    ensures exists steps :: PairsThenStop(acc, s, steps, Continue(acc, s).value)
    decreases |s|
  {
    var t := s[0].value;
    if !IsOperator(t.kind) {
      var steps: seq<Step> := [];
      assert PairsThenStop(acc, s, steps, Continue(acc, s).value);
    } else {
      var operand := s[1].value;
      StreamSuffix(s, 2);
      var acc' := Apply(t.kind, acc, operand.value);
      var rest := s[2..];
      assert Continue(acc, s) == Continue(acc', rest);
      ContinueOkShape(acc', rest);
      var steps' :| PairsThenStop(acc', rest, steps', Continue(acc', rest).value);
      var step := Step(t, operand.value);
      var steps := [step] + steps';
      ValueFront(acc, step, steps');
      assert steps[1..] == steps';
      assert Ops(steps) == [Ok(t), Ok(Token(Integer, operand.value))] + Ops(steps');
      PrefixSplit(s, 2, 2 * |steps|);
      assert s[..2] == [Ok(t), Ok(Token(Integer, operand.value))];
      assert s[2 * |steps|] == rest[2 * |steps'|];
      assert PairsThenStop(acc, s, steps, Continue(acc, s).value);
    }
  }

  /** `expr` succeeds exactly on a sentence followed by a token that is not an
      operator, and then yields that sentence's value. The converse is
      EvaluateSentence. */
  lemma EvaluateOkShape(s: seq<Result<Token>>)
    requires IsStream(s) && Evaluate(s).Ok?
    ensures exists first, steps :: PairsThenStop(first, s[1..], steps, Evaluate(s).value)
                                   && s[0] == Ok(Token(Integer, first))
  {
    var first := s[0].value.value;
    StreamSuffix(s, 1);
    ContinueOkShape(first, s[1..]);
  }

  /** Dividing by a zero factor is an error once `factor` has fetched the token
      after it; a lexing error in that fetch comes first. */
  lemma ZeroDivisorFails(first: int, steps: seq<Step>, div: Token, rest: seq<Result<Token>>)
    requires Defined(steps) && div.kind == Div && rest != []
    requires IsStream(Sentence(first, steps) + [Ok(div), Ok(Token(Integer, 0))] + rest)
    ensures rest[0].Ok? ==>
      Evaluate(Sentence(first, steps) + [Ok(div), Ok(Token(Integer, 0))] + rest) == Err(DivisionByZero)
    ensures rest[0].Err? ==>
      Evaluate(Sentence(first, steps) + [Ok(div), Ok(Token(Integer, 0))] + rest) == Err(rest[0].error)
  {
    var tail := [Ok(div), Ok(Token(Integer, 0))] + rest;
    assert Sentence(first, steps) + [Ok(div), Ok(Token(Integer, 0))] + rest == Sentence(first, steps) + tail;
    SentencePrefix(first, steps, tail);
  }

  /** An operator must be followed by an integer. */
  lemma MissingOperandFails(first: int, steps: seq<Step>, op: Token, t: Token, rest: seq<Result<Token>>)
    requires Defined(steps) && IsOperator(op.kind) && t.kind != Integer
    requires IsStream(Sentence(first, steps) + [Ok(op), Ok(t)] + rest)
    ensures Evaluate(Sentence(first, steps) + [Ok(op), Ok(t)] + rest) == Err(InvalidSyntax)
  {
    var tail := [Ok(op), Ok(t)] + rest;
    assert Sentence(first, steps) + [Ok(op), Ok(t)] + rest == Sentence(first, steps) + tail;
    SentencePrefix(first, steps, tail);
  }
  /** A lexing error reached by the evaluator aborts the line with that error:
      where an operator may come, and where `factor` wants an operand. */
  lemma LexingErrorReached(first: int, steps: seq<Step>, between: seq<Result<Token>>, e: Error)
    requires Defined(steps)
    requires between == [] || (|between| == 1 && between[0].Ok? && IsOperator(between[0].value.kind))
    requires IsStream(Sentence(first, steps) + between + [Err(e)])
    ensures Evaluate(Sentence(first, steps) + between + [Err(e)]) == Err(e)
  {
    var tail := between + [Err(e)];
    assert Sentence(first, steps) + between + [Err(e)] == Sentence(first, steps) + tail;
    SentencePrefix(first, steps, tail);
  }


  /** Every result is non-negative: the integers are, and so are their products and
      truncated quotients. */
  lemma {:induction false} ContinueNonNegative(acc: int, s: seq<Result<Token>>)
    requires IsStream(s) && acc >= 0
    requires forall k :: 0 <= k < |s| && s[k].Ok? ==> IsLexerToken(s[k].value)
    requires Continue(acc, s).Ok?
    ensures Continue(acc, s).value >= 0
    decreases |s|
  {
    var t := s[0].value;
    if IsOperator(t.kind) {
      var operand := s[1].value;
      assert IsLexerToken(operand);
      StreamSuffix(s, 2);
      var acc' := Apply(t.kind, acc, operand.value);
      if t.kind == Div {
        QuotientOfNaturals(acc, operand.value);
      }
      assert forall k :: 0 <= k < |s| - 2 ==> s[2..][k] == s[k + 2];
      ContinueNonNegative(acc', s[2..]);
    }
  }

  lemma NonNegativeResult(text: string)
    requires Interpret(text).Ok?
    ensures Interpret(text).value >= 0
  {
    var s := LexFrom(text, 0);
    StreamSuffix(s, 1);
    assert forall k :: 0 <= k < |s| - 1 ==> s[1..][k] == s[k + 1];
    assert IsLexerToken(s[0].value);
    ContinueNonNegative(s[0].value.value, s[1..]);
  }

  // ---------------------------------------------------------------------------
  // Properties of whole lines

  /** An empty or blank line is a syntax error: `factor` meets end-of-line. */
  lemma BlankLineFails(text: string)
    requires forall k :: 0 <= k < |text| ==> IsSpace(text[k])
    ensures Interpret(text) == Err(InvalidSyntax)
  {
    NextTokenMeaning(text, 0);
  }

  /** A line that starts with an operator is a syntax error. */
  lemma LeadingOperatorFails(blank: string, c: char, rest: string)
    requires forall k :: 0 <= k < |blank| ==> IsSpace(blank[k])
    requires c == '*' || c == '/'
    ensures Interpret(blank + [c] + rest) == Err(InvalidSyntax)
  {
    var text := blank + [c] + rest;
    assert text[|blank|] == c;
    SkipSpacesUnique(text, 0, |blank|);
  }

  lemma {:induction false} LexFromShift(text: string, i: nat, c: char, q: nat, p: nat)
    requires i <= |text| && p <= |text| && IsSpace(c) && !SplitsNumber(text, i)
    requires Corresponds(i, q, p)
    ensures q <= |InsertAt(text, i, c)|
    ensures LexFrom(InsertAt(text, i, c), q) == LexFrom(text, p)
    decreases |text| - p
  {
    var t := InsertAt(text, i, c);
    ScanShift(text, i, c, q, p);
    var (r, next) := NextToken(text, p);
    var (r', next') := NextToken(t, q);
    assert r' == r;
    if r.Ok? && r.value.kind != EndOfLine {
      assert Corresponds(i, next', next);
      LexFromShift(text, i, c, next', next);
    }
  }

  /** Inserting whitespace anywhere that does not split a number changes nothing. */
  lemma WhitespaceInsensitive(text: string, i: nat, c: char)
    requires i <= |text| && IsSpace(c) && !SplitsNumber(text, i)
    ensures Interpret(InsertAt(text, i, c)) == Interpret(text)
  {
    LexFromShift(text, i, c, 0, 0);
  }

  // ---------------------------------------------------------------------------
  // Writing tokens out and lexing them back

  /** Tokens that can be written out: lexer tokens other than end-of-line. */
  predicate Spellable(ts: seq<Token>) {
    forall k :: 0 <= k < |ts| ==> IsLexerToken(ts[k]) && ts[k].kind != EndOfLine
  }

  /** The text of one token. */
  function Spell(t: Token): string
    requires IsLexerToken(t) && t.kind != EndOfLine
  {
    match t.kind
    case Integer => DecimalString(t.value)
    case Mul => "*"
    case Div => "/"
  }

  /** The tokens written out with one space between neighbours. */
  function Unlex(ts: seq<Token>): string
    requires Spellable(ts)
  {
    if ts == [] then ""
    else if |ts| == 1 then Spell(ts[0])
    else Spell(ts[0]) + " " + Unlex(ts[1..])
  }

  function Oks(ts: seq<Token>): (s: seq<Result<Token>>)
    ensures |s| == |ts| && forall k :: 0 <= k < |ts| ==> s[k] == Ok(ts[k])
  {
    if ts == [] then [] else [Ok(ts[0])] + Oks(ts[1..])
  }

  lemma SpellableTail(ts: seq<Token>)
    requires Spellable(ts) && ts != []
    ensures Spellable(ts[1..])
  {
    assert forall k :: 0 <= k < |ts| - 1 ==> ts[1..][k] == ts[k + 1];
  }

  lemma UnlexCons(ts: seq<Token>)
    requires Spellable(ts) && |ts| > 1 && Spellable(ts[1..])
    ensures Unlex(ts) == Spell(ts[0]) + " " + Unlex(ts[1..])
  {
  }

  /** A written-out token followed by a space or the end comes back from one
      lexing step. */
  lemma NextTokenWordAt(text: string, pos: nat, t: Token)
    requires IsLexerToken(t) && t.kind != EndOfLine
    requires pos + |Spell(t)| <= |text| && text[pos..pos + |Spell(t)|] == Spell(t)
    requires pos + |Spell(t)| == |text| || text[pos + |Spell(t)|] == ' '
    ensures NextToken(text, pos) == (Ok(t), pos + |Spell(t)|)
  {
    if t.kind == Integer {
      ScanNumberAt(text, pos, t.value);
    } else {
      assert text[pos] == text[pos..pos + |Spell(t)|][0];
    }
  }

  /** The last word lexes to its token, then end-of-line. */
  lemma LexLastWord(text: string, pos: nat, t: Token)
    requires IsLexerToken(t) && t.kind != EndOfLine
    requires pos <= |text| && text[pos..] == Spell(t)
    ensures LexFrom(text, pos) == [Ok(t), Ok(Token(EndOfLine, 0))]
  {
    assert text[pos..pos + |Spell(t)|] == text[pos..];
    NextTokenWordAt(text, pos, t);
    LexFromStep(text, pos, t, |text|);
    assert LexFrom(text, |text|) == [Ok(Token(EndOfLine, 0))];
  }

  /** A word and a space lex to the word's token, then what follows the space. */
  lemma LexFirstWord(text: string, pos: nat, t: Token, rest: string) returns (next: nat)
    requires IsLexerToken(t) && t.kind != EndOfLine
    requires pos <= |text| && text[pos..] == Spell(t) + " " + rest
    ensures next <= |text| && text[next..] == rest
    ensures LexFrom(text, pos) == [Ok(t)] + LexFrom(text, next)
  {
    var end := pos + |Spell(t)|;
    SplitAtSpace(text, pos, Spell(t), rest);
    NextTokenWordAt(text, pos, t);
    next := end + 1;
    LexFromStep(text, pos, t, end);
    LexFromSkipsSpace(text, end, next);
  }

  /** A space in front of the cursor does not change what is lexed from there. */
  lemma LexFromSkipsSpace(text: string, pos: nat, next: nat)
    requires pos < |text| && text[pos] == ' ' && next == pos + 1
    ensures LexFrom(text, pos) == LexFrom(text, next)
  {
    NextTokenSkipsSpace(text, pos);
  }

  /** Lexing the spelling of tokens gives back those tokens, then end-of-line. */
  lemma {:induction false} LexSpelled(text: string, pos: nat, ts: seq<Token>)
    requires Spellable(ts) && pos <= |text| && text[pos..] == Unlex(ts)
    ensures LexFrom(text, pos) == Oks(ts) + [Ok(Token(EndOfLine, 0))]
    decreases |ts|, 1
  {
    if ts == [] {
      assert LexFrom(text, |text|) == [Ok(Token(EndOfLine, 0))];
    } else if |ts| == 1 {
      LexLastWord(text, pos, ts[0]);
    } else {
      LexSpelledCons(text, pos, ts);
    }
  }

  lemma {:induction false} LexSpelledCons(text: string, pos: nat, ts: seq<Token>)
    requires Spellable(ts) && |ts| > 1 && pos <= |text| && text[pos..] == Unlex(ts)
    ensures LexFrom(text, pos) == Oks(ts) + [Ok(Token(EndOfLine, 0))]
    decreases |ts|, 0
  {
    SpellableTail(ts);
    UnlexCons(ts);
    var next := LexFirstWord(text, pos, ts[0], Unlex(ts[1..]));
    LexSpelled(text, next, ts[1..]);
    OksCons(ts);
  }

  lemma OksCons(ts: seq<Token>)
    requires ts != []
    ensures Oks(ts) == [Ok(ts[0])] + Oks(ts[1..])
  {
  }

  /** Lexing written-out tokens gives back those tokens, then end-of-line. */
  lemma LexUnlex(ts: seq<Token>)
    requires Spellable(ts)
    ensures LexFrom(Unlex(ts), 0) == Oks(ts) + [Ok(Token(EndOfLine, 0))]
  {
    LexSpelled(Unlex(ts), 0, ts);
  }

  /** The tokens of the pairs, in order. */
  function OpsTokens(steps: seq<Step>): (ts: seq<Token>)
    ensures Oks(ts) == Ops(steps)
  {
    if steps == [] then []
    else
      var ts := [steps[0].op, Token(Integer, steps[0].operand)] + OpsTokens(steps[1..]);
      assert Oks(ts) == [Ok(ts[0]), Ok(ts[1])] + Oks(ts[2..]);
      ts
  }

  /** Pairs the lexer can produce, with no division by zero. */
  predicate LexerSteps(steps: seq<Step>) {
    Defined(steps)
    && forall k :: 0 <= k < |steps| ==> IsLexerToken(steps[k].op) && steps[k].operand >= 0
  }

  lemma {:induction false} SpellableOps(steps: seq<Step>)
    requires LexerSteps(steps)
    ensures Spellable(OpsTokens(steps))
  {
    if steps != [] {
      assert LexerSteps(steps[1..]) by {
        assert forall k :: 0 <= k < |steps| - 1 ==> steps[1..][k] == steps[k + 1];
      }
      SpellableOps(steps[1..]);
      var ts := OpsTokens(steps);
      assert forall k :: 2 <= k < |ts| ==> ts[k] == OpsTokens(steps[1..])[k - 2];
    }
  }

  /** A line written out from a sentence evaluates to the sentence's value: the
      line `a` gives `a`, `a * b` gives the product and `a / b` the truncated
      quotient. */
  lemma InterpretSpelled(first: nat, steps: seq<Step>)
    requires LexerSteps(steps)
    ensures Spellable([Token(Integer, first)] + OpsTokens(steps))
    ensures Interpret(Unlex([Token(Integer, first)] + OpsTokens(steps))) == Ok(Value(first, steps))
  {
    var ts := [Token(Integer, first)] + OpsTokens(steps);
    SpellableOps(steps);
    assert Spellable(ts) by {
      assert forall k :: 1 <= k < |ts| ==> ts[k] == OpsTokens(steps)[k - 1];
    }
    LexUnlex(ts);
    assert Oks(ts) == Sentence(first, steps);
    assert Oks(ts) + [Ok(Token(EndOfLine, 0))] == Sentence(first, steps) + [Ok(Token(EndOfLine, 0))] + [];
    EvaluateSentence(first, steps, Token(EndOfLine, 0), []);
  }

  lemma NextTokenAfterSpaces(text: string, pos: nat, start: nat)
    requires pos <= start <= |text| && SkipSpaces(text, start) == SkipSpaces(text, pos)
    requires start == |text| || !IsSpace(text[start])
    ensures NextToken(text, pos) == NextToken(text, start)
    ensures start < |text| ==> var (r, next) := NextToken(text, start);
      (IsDigit(text[start]) ==> r.Ok? && r.value.kind == Integer)
      && (!IsDigit(text[start]) && text[start] == '*' ==> (r, next) == (Ok(Token(Mul, '*' as int)), start + 1))
      && (!IsDigit(text[start]) && text[start] == '/' ==> (r, next) == (Ok(Token(Div, '/' as int)), start + 1))
      && (!IsDigit(text[start]) && text[start] != '*' && text[start] != '/' ==> (r, next) == (Err(InvalidCharacter), start))
    ensures start == |text| ==> NextToken(text, start) == (Ok(Token(EndOfLine, 0)), start)
  {
  }

  lemma NextTokenNumber(text: string, start: nat, end: nat)
    requires start < end <= |text| && DigitRunEnd(text, start) == end
    requires start == SkipSpaces(text, start)
    ensures AllDigits(text[start..end])
    ensures NextToken(text, start) == (Ok(Token(Integer, DecimalValue(text[start..end]))), end)
  {
  }

  // ---------------------------------------------------------------------------
  // The lexer object

  /** `Lexer`: the text, the cursor `_pos` and the character under it,
      `_current_char`, which is NUL past the end of the text. */
  class Lexer {
    const text: string
    var pos: nat
    var currentChar: char

    ghost predicate Valid()
      reads this
    {
      NulFree(text) && pos <= |text| && currentChar == CharAt(text, pos)
    }

    /** The cursor starts at the first character; `_text[0]` of an empty string is
        its terminating NUL. */
    constructor(text: string)
      requires NulFree(text)
      ensures Valid() && this.text == text && pos == 0
    {
      this.text := text;
      pos := 0;
      currentChar := CharAt(text, 0);
    }

    /** The copy the interpreter keeps: `Lexer` is copied by value. */
    constructor Copy(source: Lexer)
      requires source.Valid()
      ensures Valid() && text == source.text && pos == source.pos
    {
      text := source.text;
      pos := source.pos;
      currentChar := source.currentChar;
    }

    /** `advance`: one character on; past the last character the current one is
        NUL. */
    method Advance()
      requires Valid() && currentChar != '\0'
      modifies this
      ensures Valid() && pos == old(pos) + 1
      ensures currentChar == '\0' <==> pos == |text|
    {
      NulMarksEnd(text, pos);
      pos := pos + 1;
      if pos > |text| - 1 {
        currentChar := '\0';
      } else {
        currentChar := text[pos];
      }
      NulMarksEnd(text, pos);
    }

    /** `skip_whitespace`: the cursor ends on the first character that is not
        whitespace, or at the end. */
    method SkipWhitespace()
      requires Valid()
      modifies this
      ensures Valid() && pos == SkipSpaces(text, old(pos))
    {
      while currentChar != '\0' && IsSpace(currentChar)
        invariant Valid() && old(pos) <= pos
        invariant SkipSpaces(text, pos) == SkipSpaces(text, old(pos))
        decreases |text| - pos
      {
        NulMarksEnd(text, pos);
        Advance();
      }
      NulMarksEnd(text, pos);
    }

    /** `integer`: reads the run of digits under the cursor and returns its decimal
        value. */
    method Integer() returns (n: int)
      requires Valid()
      modifies this
      ensures Valid() && pos == DigitRunEnd(text, old(pos))
      ensures AllDigits(text[old(pos)..pos]) && n == DecimalValue(text[old(pos)..pos])
    {
      n := 0;
      while currentChar != '\0' && IsDigit(currentChar)
        invariant Valid() && old(pos) <= pos
        invariant DigitRunEnd(text, pos) == DigitRunEnd(text, old(pos))
        invariant AllDigits(text[old(pos)..pos]) && n == DecimalValue(text[old(pos)..pos])
        decreases |text| - pos
      {
        NulMarksEnd(text, pos);
        DigitRunExtend(text, old(pos), pos);
        DecimalValueStep(text, old(pos), pos);
        n := n * 10 + DigitValue(currentChar);
        Advance();
      }
      NulMarksEnd(text, pos);
    }

    /** `get_next_token`, with the end-of-line token returned where the source's
        loop ends at the end of the text. */
    method GetNextToken() returns (r: Result<Token>)
      requires Valid()
      modifies this
      ensures Valid()
      ensures (r, pos) == NextToken(text, old(pos))
    {
      while currentChar != '\0'
        invariant Valid() && old(pos) <= pos
        invariant SkipSpaces(text, pos) == SkipSpaces(text, old(pos))
        decreases |text| - pos
      {
        NulMarksEnd(text, pos);
        if IsSpace(currentChar) {
          SkipWhitespace();
          continue;
        }
        NextTokenAfterSpaces(text, old(pos), pos);
        if IsDigit(currentChar) {
          ghost var start := pos;
          var n := Integer();
          NextTokenNumber(text, start, pos);
          return Ok(Token(TokenType.Integer, n));
        }
        if currentChar == '*' {
          Advance();
          return Ok(Token(Mul, '*' as int));
        }
        if currentChar == '/' {
          Advance();
          return Ok(Token(Div, '/' as int));
        }
        return Err(InvalidCharacter);
      }
      NulMarksEnd(text, pos);
      NextTokenAfterSpaces(text, old(pos), pos);
      return Ok(Token(EndOfLine, 0));
    }
  }

  // ---------------------------------------------------------------------------
  // The interpreter object

  /** `expr` on the stream seen with current token `t`: it must be an integer, and
      the loop starts on the stream after it. */
  lemma EvaluateAhead(t: Token, text: string, pos: nat)
    requires pos <= |text|
    ensures t.kind != Integer ==> Evaluate(Ahead(t, text, pos)) == Err(InvalidSyntax)
    ensures t.kind == Integer ==> Evaluate(Ahead(t, text, pos)) == Continue(t.value, LexFrom(text, pos))
  {
    if t.kind == Integer {
      assert Ahead(t, text, pos)[1..] == LexFrom(text, pos);
    }
  }

  /** A lexing error of the next call ends the loop with that error. */
  lemma ContinueAtError(acc: int, text: string, pos: nat)
    requires pos <= |text| && NextToken(text, pos).0.Err?
    ensures Continue(acc, LexFrom(text, pos)) == Err(NextToken(text, pos).0.error)
  {
  }

  /** A current token other than `*` and `/` ends the loop with the result so far. */
  lemma ContinueAt(acc: int, t: Token, text: string, pos: nat)
    requires pos <= |text| && !IsOperator(t.kind)
    ensures Continue(acc, Ahead(t, text, pos)) == Ok(acc)
  {
  }

  /** The first half of a turn: with operator `op` current, the next call must give
      an integer. */
  lemma TurnOperator(acc: int, op: Token, text: string, pos: nat)
    requires pos <= |text| && IsOperator(op.kind)
    ensures var (r, next) := NextToken(text, pos);
      (r.Err? ==> Continue(acc, Ahead(op, text, pos)) == Err(r.error))
      && (r.Ok? && r.value.kind != Integer ==> Continue(acc, Ahead(op, text, pos)) == Err(InvalidSyntax))
  {
    var s := Ahead(op, text, pos);
    assert s[1] == NextToken(text, pos).0;
  }

  /** The second half of a turn: `factor` fetches the token after the operand, and
      only then is the operand applied, or found to be a zero divisor. */
  lemma TurnOperand(acc: int, op: Token, text: string, pos: nat, operand: Token, mid: nat)
    requires pos <= |text| && IsOperator(op.kind)
    requires NextToken(text, pos) == (Ok(operand), mid) && operand.kind == Integer
    ensures mid <= |text|
    ensures var (r, next) := NextToken(text, mid);
      (r.Err? ==> Continue(acc, Ahead(op, text, pos)) == Err(r.error))
      && (r.Ok? && op.kind == Div && operand.value == 0 ==>
            Continue(acc, Ahead(op, text, pos)) == Err(DivisionByZero))
      && (r.Ok? && !(op.kind == Div && operand.value == 0) ==>
            Continue(acc, Ahead(op, text, pos))
            == Continue(Apply(op.kind, acc, operand.value), Ahead(r.value, text, next)))
  {
    var s := Ahead(op, text, pos);
    LexFromStep(text, pos, operand, mid);
    assert s[1] == Ok(operand);
    assert s[2..] == LexFrom(text, mid);
    var (r, next) := NextToken(text, mid);
    if r.Ok? {
      AheadStep(text, mid, r.value, next);
    }
  }

  /** A whole turn seen from the operator: the operator, the integer operand, then
      the stream with the token after the operand current. */
  lemma AheadTurn(text: string, pos: nat, op: Token, operand: Token, mid: nat, t: Token, next: nat)
    requires pos <= |text| && IsOperator(op.kind)
    requires NextToken(text, pos) == (Ok(operand), mid) && operand.kind == Integer
    requires NextToken(text, mid) == (Ok(t), next)
    ensures next <= |text|
    ensures Ahead(op, text, pos) == [Ok(op), Ok(Token(Integer, operand.value))] + Ahead(t, text, next)
  {
    LexFromStep(text, pos, operand, mid);
    AheadStep(text, mid, t, next);
  }

  lemma {:induction false} OpsAppend(steps: seq<Step>, step: Step)
    ensures Ops(steps + [step]) == Ops(steps) + [Ok(step.op), Ok(Token(Integer, step.operand))]
    decreases |steps|
  {
    if steps != [] {
      assert (steps + [step])[1..] == steps[1..] + [step];
      OpsAppend(steps[1..], step);
    }
  }

  /** `expr` part way: the stream `s` it started on is the first integer, the pairs
      `steps` folded so far into `acc`, then `rest`, the stream still ahead. */
  ghost predicate ReadSoFar(s: seq<Result<Token>>, first: int, steps: seq<Step>, acc: int,
                            rest: seq<Result<Token>>) {
    Defined(steps) && 2 * |steps| + 1 <= |s| && s[1..][..2 * |steps|] == Ops(steps)
    && rest == s[2 * |steps| + 1..] && acc == Value(first, steps)
  }

  /** One more turn: the pairs grow by one and the value by one operation. */
  lemma ExtendSteps(s: seq<Result<Token>>, first: int, steps: seq<Step>, acc: int, op: Token, operand: int,
                    tail: seq<Result<Token>>)
    requires IsOperator(op.kind) && (op.kind == Div ==> operand != 0)
    requires ReadSoFar(s, first, steps, acc, [Ok(op), Ok(Token(Integer, operand))] + tail)
    ensures ReadSoFar(s, first, steps + [Step(op, operand)], Apply(op.kind, acc, operand), tail)
  {
    var all := steps + [Step(op, operand)];
    var n := 2 * |steps| + 1;
    assert forall k :: 0 <= k < |steps| ==> all[k] == steps[k];
    OpsAppend(steps, Step(op, operand));
    assert s[n] == Ok(op) && s[n + 1] == Ok(Token(Integer, operand)) by {
      assert s[n] == s[n..][0] && s[n + 1] == s[n..][1];
    }
    assert s[1..][..n + 1] == s[1..][..n - 1] + [s[n], s[n + 1]];
    assert s[n + 2..] == s[n..][2..];
    assert all[..|all| - 1] == steps;
  }

  /** The loop stopped at a token that is not an operator: the pairs read so far
      are the sentence `PairsThenStop` describes. */
  lemma StopSteps(s: seq<Result<Token>>, first: int, steps: seq<Step>, acc: int, t: Token,
                  rest: seq<Result<Token>>)
    requires ReadSoFar(s, first, steps, acc, rest) && rest != [] && rest[0] == Ok(t) && !IsOperator(t.kind)
    ensures PairsThenStop(first, s[1..], steps, acc) && rest == s[2 * |steps| + 1..]
  {
    assert s[1..][2 * |steps|] == rest[0];
  }

  /** `Interpreter`: its own copy of the lexer and the current token. */
  class Interpreter {
    const lexer: Lexer
    var currentToken: Token

    ghost predicate Valid()
      reads this, lexer
    {
      lexer.Valid()
    }

    constructor Init(lexer: Lexer, first: Token)
      requires lexer.Valid()
      ensures Valid() && this.lexer == lexer && currentToken == first
    {
      this.lexer := lexer;
      currentToken := first;
    }

    /** Construction: the interpreter copies the lexer it is given and fetches its
        first token from the copy; a lexing error there escapes the construction.
        The caller's lexer is left as it was. */
    static method Create(source: Lexer) returns (r: Result<Interpreter>)
      requires source.Valid()
      ensures unchanged(source)
      ensures NextToken(source.text, source.pos).0.Err? ==>
        r == Err(NextToken(source.text, source.pos).0.error)
      ensures NextToken(source.text, source.pos).0.Ok? ==>
        r.Ok? && fresh(r.value) && fresh(r.value.lexer) && r.value.Valid()
        && r.value.lexer.text == source.text
        && r.value.currentToken == NextToken(source.text, source.pos).0.value
        && r.value.lexer.pos == NextToken(source.text, source.pos).1
    {
      var copy := new Lexer.Copy(source);
      var first := copy.GetNextToken();
      if first.Err? {
        return Err(first.error);
      }
      var interpreter := new Interpreter.Init(copy, first.value);
      return Ok(interpreter);
    }

    /** `eat`: a current token of the wanted type is replaced by the next one;
        any other is a syntax error and changes nothing. */
    method Eat(kind: TokenType) returns (o: Outcome)
      requires Valid()
      modifies this, lexer
      ensures Valid()
      ensures old(currentToken.kind) != kind ==> o == Fail(InvalidSyntax) && unchanged(this, lexer)
      ensures old(currentToken.kind) == kind ==> lexer.pos == NextToken(lexer.text, old(lexer.pos)).1
      ensures old(currentToken.kind) == kind && NextToken(lexer.text, old(lexer.pos)).0.Ok? ==>
        o == Pass && currentToken == NextToken(lexer.text, old(lexer.pos)).0.value
      ensures old(currentToken.kind) == kind && NextToken(lexer.text, old(lexer.pos)).0.Err? ==>
        o == Fail(NextToken(lexer.text, old(lexer.pos)).0.error) && currentToken == old(currentToken)
    {
      if currentToken.kind == kind {
        var r := lexer.GetNextToken();
        if r.Err? {
          return Fail(r.error);
        }
        currentToken := r.value;
        return Pass;
      }
      return Fail(InvalidSyntax);
    }

    /** `factor`: the current token must be an integer; its value is returned once
        the token after it has been fetched. */
    method Factor() returns (r: Result<int>)
      requires Valid()
      modifies this, lexer
      ensures Valid()
      ensures old(currentToken.kind) != Integer ==> r == Err(InvalidSyntax) && unchanged(this, lexer)
      ensures old(currentToken.kind) == Integer ==> lexer.pos == NextToken(lexer.text, old(lexer.pos)).1
      ensures old(currentToken.kind) == Integer && NextToken(lexer.text, old(lexer.pos)).0.Ok? ==>
        r == Ok(old(currentToken.value)) && currentToken == NextToken(lexer.text, old(lexer.pos)).0.value
      ensures old(currentToken.kind) == Integer && NextToken(lexer.text, old(lexer.pos)).0.Err? ==>
        r == Err(NextToken(lexer.text, old(lexer.pos)).0.error) && currentToken == old(currentToken)
    {
      var value := currentToken.value;
      var o := Eat(Integer);
      if o.Fail? {
        return Err(o.error);
      }
      return Ok(value);
    }

    /** `expr`: a factor, then each `* n` or `/ n` folded into the result while the
        current token is an operator. */
    method Expr() returns (r: Result<int>)
      requires Valid()
      modifies this, lexer
      ensures Valid()
      ensures r == Evaluate(Ahead(old(currentToken), lexer.text, old(lexer.pos)))
      // on success the token that stopped the loop is still current, and what is
      // still ahead of the interpreter is the stream after the sentence it read
      ensures r.Ok? ==> !IsOperator(currentToken.kind)
      ensures r.Ok? ==> exists steps ::
        PairsThenStop(old(currentToken.value), Ahead(old(currentToken), lexer.text, old(lexer.pos))[1..],
                      steps, r.value)
        && Ahead(currentToken, lexer.text, lexer.pos)
           == Ahead(old(currentToken), lexer.text, old(lexer.pos))[2 * |steps| + 1..]
    {
      ghost var text := lexer.text;
      ghost var whole := Ahead(currentToken, text, lexer.pos);
      ghost var goal := Evaluate(whole);
      EvaluateAhead(currentToken, text, lexer.pos);
      ghost var fetched := lexer.pos;
      var first := Factor();
      if first.Err? {
        if old(currentToken.kind) == Integer {
          ContinueAtError(old(currentToken.value), text, fetched);
        }
        return first;
      }
      var result := first.value;
      AheadStep(text, fetched, currentToken, lexer.pos);
      ghost var steps: seq<Step> := [];
      assert whole[1..] == LexFrom(text, fetched);
      while currentToken.kind == Mul || currentToken.kind == Div
        invariant Valid() && lexer.text == text
        invariant Continue(result, Ahead(currentToken, text, lexer.pos)) == goal
        invariant ReadSoFar(whole, first.value, steps, result, Ahead(currentToken, text, lexer.pos))
        decreases |text| - lexer.pos
      {
        var token := currentToken;
        ghost var before := lexer.pos;
        TurnOperator(result, token, text, before);
        var o := Eat(token.kind);
        if o.Fail? {
          return Err(o.error);
        }
        ghost var operand := currentToken;
        ghost var middle := lexer.pos;
        var factor := Factor();
        if factor.Err? {
          if operand.kind == Integer {
            TurnOperand(result, token, text, before, operand, middle);
          }
          return Err(factor.error);
        }
        TurnOperand(result, token, text, before, operand, middle);
        ghost var acc := result;
        if token.kind == Mul {
          result := result * factor.value;
        } else {
          if factor.value == 0 {
            return Err(DivisionByZero);
          }
          result := Quotient(result, factor.value);
        }
        AheadTurn(text, before, token, operand, middle, currentToken, lexer.pos);
        ExtendSteps(whole, first.value, steps, acc, token, factor.value, Ahead(currentToken, text, lexer.pos));
        steps := steps + [Step(token, factor.value)];
      }
      ContinueAt(result, currentToken, text, lexer.pos);
      StopSteps(whole, first.value, steps, result, currentToken, Ahead(currentToken, text, lexer.pos));
      return Ok(result);
    }
  }

  /** One line through a fresh lexer and interpreter, as the read-evaluate loop
      does it. */
  method Calculate(text: string) returns (r: Result<int>)
    requires NulFree(text)
    ensures r == Interpret(text)
  {
    var lexer := new Lexer(text);
    var created := Interpreter.Create(lexer);
    if created.Err? {
      return Err(created.error);
    }
    var interpreter := created.value;
    AheadStep(text, 0, interpreter.currentToken, interpreter.lexer.pos);
    r := interpreter.Expr();
  }

  // ---------------------------------------------------------------------------
  // Concrete lines

  /** A whitespace character in front of the cursor is skipped. */
  lemma NextTokenSkipsSpace(text: string, pos: nat)
    requires pos < |text| && IsSpace(text[pos])
    ensures NextToken(text, pos) == NextToken(text, pos + 1)
  {
    ScanSkipsSpace(text, pos);
  }

  /** A single digit not followed by another is read as its own value. */
  lemma NextTokenDigitAt(text: string, pos: nat)
    requires pos < |text| && IsDigit(text[pos])
    requires pos + 1 == |text| || !IsDigit(text[pos + 1])
    ensures NextToken(text, pos) == (Ok(Token(Integer, DigitValue(text[pos]))), pos + 1)
  {
    assert DigitRunEnd(text, pos) == pos + 1;
    DecimalValueStep(text, pos, pos);
  }

  /** The tokens of "100 / 5 / 2", one call at a time, from its characters. */
  lemma LeftToRightLexing(text: string)
    requires |text| == 11 && text[0] == '1' && text[1] == '0' && text[2] == '0' && text[3] == ' '
    requires text[4] == '/' && text[5] == ' ' && text[6] == '5' && text[7] == ' '
    requires text[8] == '/' && text[9] == ' ' && text[10] == '2'
    ensures NextToken(text, 0) == (Ok(Token(Integer, 100)), 3)
    ensures NextToken(text, 3) == (Ok(Token(Div, '/' as int)), 5)
    ensures NextToken(text, 5) == (Ok(Token(Integer, 5)), 7)
    ensures NextToken(text, 7) == (Ok(Token(Div, '/' as int)), 9)
    ensures NextToken(text, 9) == (Ok(Token(Integer, 2)), 11)
    ensures NextToken(text, 11) == (Ok(Token(EndOfLine, 0)), 11)
  {
    assert DigitRunEnd(text, 0) == 3;
    DecimalValueStep(text, 0, 2);
    DecimalValueStep(text, 0, 1);
    DecimalValueStep(text, 0, 0);
    NextTokenNumber(text, 0, 3);
    NextTokenSkipsSpace(text, 3);
    NextTokenAfterSpaces(text, 4, 4);
    NextTokenSkipsSpace(text, 5);
    NextTokenDigitAt(text, 6);
    NextTokenSkipsSpace(text, 7);
    NextTokenAfterSpaces(text, 8, 8);
    NextTokenSkipsSpace(text, 9);
    NextTokenDigitAt(text, 10);
    NextTokenAfterSpaces(text, 11, 11);
  }

  /** Division groups to the left: 100 / 5 / 2 is (100 / 5) / 2. */
  lemma LeftToRight(text: string)
    requires text == "100 / 5 / 2"
    ensures Interpret(text) == Ok(10)
  {
    LeftToRightLexing(text);
    LeftToRightFold(text);
  }

  lemma LeftToRightFold(text: string)
    requires |text| == 11
    requires NextToken(text, 0) == (Ok(Token(Integer, 100)), 3)
    requires NextToken(text, 3) == (Ok(Token(Div, '/' as int)), 5)
    requires NextToken(text, 5) == (Ok(Token(Integer, 5)), 7)
    requires NextToken(text, 7) == (Ok(Token(Div, '/' as int)), 9)
    requires NextToken(text, 9) == (Ok(Token(Integer, 2)), 11)
    requires NextToken(text, 11) == (Ok(Token(EndOfLine, 0)), 11)
    ensures Interpret(text) == Ok(10)
  {
    var div := Token(Div, '/' as int);
    var endOfLine := Token(EndOfLine, 0);
    LexFromStep(text, 0, Token(Integer, 100), 3);
    LexFromStep(text, 3, div, 5);
    LexFromStep(text, 5, Token(Integer, 5), 7);
    LexFromStep(text, 7, div, 9);
    LexFromStep(text, 9, Token(Integer, 2), 11);
    assert LexFrom(text, 11) == [Ok(endOfLine)];
    var steps := [Step(div, 5), Step(div, 2)];
    assert Ops(steps) == [Ok(div), Ok(Token(Integer, 5)), Ok(div), Ok(Token(Integer, 2))] by {
      assert steps[1..] == [Step(div, 2)];
    }
    assert LexFrom(text, 0) == Sentence(100, steps) + [Ok(endOfLine)] + [];
    EvaluateSentence(100, steps, endOfLine, []);
    assert Value(100, steps) == 10 by {
      assert steps[..1] == [Step(div, 5)];
      assert Value(100, steps[..1]) == 20 by {
        assert steps[..1][..0] == [];
      }
    }
  }

  /** An integer followed by any token other than `*` and `/` is the whole result:
      what follows is never read. */
  lemma FirstThenStop(text: string, n: nat, p: nat, t: Token)
    requires NextToken(text, 0) == (Ok(Token(Integer, n)), p) && p <= |text|
    requires NextToken(text, p).0 == Ok(t) && !IsOperator(t.kind)
    ensures Interpret(text) == Ok(n)
  {
    LexFromStep(text, 0, Token(Integer, n), p);
  }

  /** "3 4" is 3: the loop of `expr` ends at the second integer. */
  lemma AdjacentIntegersExample(text: string)
    requires text == "3 4"
    ensures Interpret(text) == Ok(3)
  {
    NextTokenDigitAt(text, 0);
    NextTokenSkipsSpace(text, 1);
    NextTokenDigitAt(text, 2);
    FirstThenStop(text, 3, 1, Token(Integer, 4));
  }

  /** "3 4 &" is 3 as well: the lexer never reaches the `&`. */
  lemma UnreadCharacterExample(text: string)
    requires text == "3 4 &"
    ensures Interpret(text) == Ok(3)
  {
    NextTokenDigitAt(text, 0);
    NextTokenSkipsSpace(text, 1);
    NextTokenDigitAt(text, 2);
    FirstThenStop(text, 3, 1, Token(Integer, 4));
  }

  /** "3 + 4" fails in the lexer: `factor` asks for the token after the 3. */
  lemma InvalidCharacterExample(text: string)
    requires text == "3 + 4"
    ensures Interpret(text) == Err(InvalidCharacter)
  {
    NextTokenDigitAt(text, 0);
    NextTokenSkipsSpace(text, 1);
    NextTokenAfterSpaces(text, 2, 2);
    LexFromStep(text, 0, Token(Integer, 3), 1);
    ContinueAtError(3, text, 1);
  }

  /** "3 * 4 &" fails in the lexer: `factor` fetches the token after the 4. */
  lemma ErrorAfterOperandExample(text: string)
    requires text == "3 * 4 &"
    ensures Interpret(text) == Err(InvalidCharacter)
  {
    var mul := Token(Mul, '*' as int);
    var steps := [Step(mul, 4)];
    NextTokenDigitAt(text, 0);
    NextTokenSkipsSpace(text, 1);
    NextTokenAfterSpaces(text, 2, 2);
    NextTokenSkipsSpace(text, 3);
    NextTokenDigitAt(text, 4);
    NextTokenSkipsSpace(text, 5);
    NextTokenAfterSpaces(text, 6, 6);
    LexFromStep(text, 0, Token(Integer, 3), 1);
    LexFromStep(text, 1, mul, 3);
    LexFromStep(text, 3, Token(Integer, 4), 5);
    assert LexFrom(text, 5) == [Err(InvalidCharacter)];
    assert Ops(steps) == [Ok(mul), Ok(Token(Integer, 4))] by {
      assert steps[1..] == [];
    }
    assert LexFrom(text, 0) == Sentence(3, steps) + [] + [Err(InvalidCharacter)];
    LexingErrorReached(3, steps, [], InvalidCharacter);
  }

  /** "7 / 0" divides by zero. */
  lemma ZeroDivisorExample(text: string)
    requires text == "7 / 0"
    ensures Interpret(text) == Err(DivisionByZero)
  {
    var div := Token(Div, '/' as int);
    var endOfLine := Token(EndOfLine, 0);
    NextTokenDigitAt(text, 0);
    NextTokenSkipsSpace(text, 1);
    NextTokenAfterSpaces(text, 2, 2);
    NextTokenSkipsSpace(text, 3);
    NextTokenDigitAt(text, 4);
    NextTokenAfterSpaces(text, 5, 5);
    LexFromStep(text, 0, Token(Integer, 7), 1);
    LexFromStep(text, 1, div, 3);
    LexFromStep(text, 3, Token(Integer, 0), 5);
    assert LexFrom(text, 5) == [Ok(endOfLine)];
    assert LexFrom(text, 0) == Sentence(7, []) + [Ok(div), Ok(Token(Integer, 0))] + [Ok(endOfLine)];
    ZeroDivisorFails(7, [], div, [Ok(endOfLine)]);
  }
}
