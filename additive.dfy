/** The additive calculator of part_1_2.cpp: one `Interpreter` object holds the text,
    the cursor and the one-token lookahead, lexes on demand and folds `+` and `-`
    from left to right. */
module Additive {
  import opened Outcomes
  import opened Scanning

  // ---------------------------------------------------------------------------
  // Tokens

  datatype TokenType = EndOfLine | Integer | Minus | Plus

  /** A token; an operator token carries its character code as its value, the
      end-of-line token carries 0. */
  datatype Token = Token(kind: TokenType, value: int)

  predicate IsOperator(kind: TokenType) {
    kind == Plus || kind == Minus
  }

  /** The tokens this lexer produces: integers are non-negative and every other
      token carries the value the lexer gives it. */
  predicate IsLexerToken(t: Token) {
    match t.kind
    case EndOfLine => t.value == 0
    case Integer => t.value >= 0
    case Plus => t.value == '+' as int
    case Minus => t.value == '-' as int
  }

  // ---------------------------------------------------------------------------
  // The lexer as a function of the text and the cursor

  /** What one call of `get_next_token` returns when the cursor is at `pos`, and
      where it leaves the cursor. */
  function NextToken(text: string, pos: nat): (r: (Result<Token>, nat))
    requires pos <= |text|
    ensures pos <= r.1 <= |text|
    ensures r.0.Ok? ==> IsLexerToken(r.0.value)
    ensures r.0.Ok? && r.0.value.kind != EndOfLine ==> pos < r.1
    ensures r.0.Ok? && r.0.value.kind == EndOfLine ==> r.1 == |text|
  {
    var s := Scan(text, pos);
    match s.lexeme
    case EndOfText => (Ok(Token(EndOfLine, 0)), s.start)
    case Number(n) => (Ok(Token(Integer, n)), s.end)
    case Symbol(c) =>
      if c == '+' then (Ok(Token(Plus, '+' as int)), s.end)
      else if c == '-' then (Ok(Token(Minus, '-' as int)), s.end)
      else (Err(InvalidCharacter), s.start)
  }

  /** One lexing step described on the text itself. */
  lemma NextTokenMeaning(text: string, pos: nat)
    requires pos <= |text|
    // only whitespace is left exactly when the end-of-line token comes back
    ensures NextToken(text, pos).0 == Ok(Token(EndOfLine, 0))
        <==> forall k :: pos <= k < |text| ==> IsSpace(text[k])
    ensures var (r, next) := NextToken(text, pos);
      r.Ok? && r.value.kind == EndOfLine ==> next == |text|
    // an integer is a maximal run of digits after the whitespace, read in decimal
    ensures var (r, next) := NextToken(text, pos);
      r.Ok? && r.value.kind == Integer ==>
        var q := SkipSpaces(text, pos);
        q < next && AllDigits(text[q..next]) && (next == |text| || !IsDigit(text[next]))
        && r.value.value == DecimalValue(text[q..next])
    // an operator is the one character after the whitespace
    ensures var (r, next) := NextToken(text, pos);
      r.Ok? && IsOperator(r.value.kind) ==>
        next == SkipSpaces(text, pos) + 1
        && text[next - 1] == (if r.value.kind == Plus then '+' else '-')
    // any other character is an error, with the cursor left on it
    ensures var (r, next) := NextToken(text, pos);
      r.Err? ==>
        r.error == InvalidCharacter && next == SkipSpaces(text, pos) && next < |text|
        && !IsSpace(text[next]) && !IsDigit(text[next]) && text[next] != '+' && text[next] != '-'
  {
    var s := Scan(text, pos);
    assert s.lexeme.EndOfText? <==> forall k :: pos <= k < |text| ==> IsSpace(text[k]);
  }

  /** Once the end of the text is reached, `get_next_token` keeps returning the
      end-of-line token and leaves the cursor where it is. */
  lemma EndOfLineIsSticky(text: string, pos: nat)
    requires pos <= |text|
    requires NextToken(text, pos).0 == Ok(Token(EndOfLine, 0))
    ensures NextToken(text, pos).1 == |text|
    ensures NextToken(text, |text|) == (Ok(Token(EndOfLine, 0)), |text|)
  {
  }

  // ---------------------------------------------------------------------------
  // Token streams

  /** A stream of lexer results as successive `get_next_token` calls return them:
      tokens other than end-of-line, closed by end-of-line or by a lexing error. */
  predicate IsStream(s: seq<Result<Token>>) {
    |s| > 0
    && (s[|s| - 1].Err? || s[|s| - 1].value.kind == EndOfLine)
    && forall k :: 0 <= k < |s| - 1 ==> s[k].Ok? && s[k].value.kind != EndOfLine
  }

  lemma StreamSuffix(s: seq<Result<Token>>, n: nat)
    requires IsStream(s) && n < |s|
    ensures IsStream(s[n..])
  {
    assert forall k :: 0 <= k < |s| - n ==> s[n..][k] == s[n + k];
  }

  /** The results of calling `get_next_token` again and again from `pos`, up to
      the end-of-line token or the first error. */
  function LexFrom(text: string, pos: nat): (s: seq<Result<Token>>)
    requires pos <= |text|
    ensures IsStream(s)
    ensures s[0] == NextToken(text, pos).0
    ensures forall k :: 0 <= k < |s| && s[k].Ok? ==> IsLexerToken(s[k].value)
    decreases |text| - pos
  {
    var (r, next) := NextToken(text, pos);
    if r.Err? || r.value.kind == EndOfLine then [r]
    else
      var rest := LexFrom(text, next);
      StreamCons(r.value, rest);
      [r] + rest
  }

  /** A token that does not end the line, in front of a stream of lexer tokens. */
  lemma StreamCons(t: Token, rest: seq<Result<Token>>)
    requires t.kind != EndOfLine && IsLexerToken(t) && IsStream(rest)
    requires forall k :: 0 <= k < |rest| && rest[k].Ok? ==> IsLexerToken(rest[k].value)
    ensures IsStream([Ok(t)] + rest) && ([Ok(t)] + rest)[0] == Ok(t)
    ensures forall k :: 0 <= k < |rest| + 1 && ([Ok(t)] + rest)[k].Ok? ==>
      IsLexerToken(([Ok(t)] + rest)[k].value)
  {
    assert forall k :: 1 <= k < |rest| + 1 ==> ([Ok(t)] + rest)[k] == rest[k - 1];
  }

  /** After one call, the stream from the new cursor is the rest of the stream. */
  lemma LexFromStep(text: string, pos: nat, t: Token, next: nat)
    requires pos <= |text|
    requires NextToken(text, pos) == (Ok(t), next) && t.kind != EndOfLine
    ensures next <= |text|
    ensures LexFrom(text, pos) == [Ok(t)] + LexFrom(text, next)
  {
  }

  // ---------------------------------------------------------------------------
  // Evaluation of a token stream

  /** `minus` and `plus`. */
  function Apply(op: TokenType, left: int, right: int): int
    requires IsOperator(op)
  {
    if op == Plus then left + right else left - right
  }

  /** `expression` over the stream it pulls its tokens from: the first token must be
      an integer; then the loop runs. */
  function Evaluate(s: seq<Result<Token>>): Result<int>
    requires IsStream(s)
  {
    match s[0]
    case Err(e) => Err(e)
    case Ok(t) =>
      if t.kind != Integer then Err(InvalidSyntax)
      else
        StreamSuffix(s, 1);
        Continue(t.value, s[1..])
  }

  /** The loop of `expression`, with `acc` the result so far and `s[0]` the current
      token: end-of-line ends it, an operator must be followed by an integer, and
      anything else is an error. */
  function Continue(acc: int, s: seq<Result<Token>>): Result<int>
    requires IsStream(s)
    decreases |s|
  {
    match s[0]
    case Err(e) => Err(e)
    case Ok(t) =>
      if t.kind == EndOfLine then Ok(acc)
      else if !IsOperator(t.kind) then Err(InvalidSyntax)
      else
        match s[1]
        case Err(e) => Err(e)
        case Ok(operand) =>
          if operand.kind != Integer then Err(InvalidSyntax)
          else
            StreamSuffix(s, 2);
            Continue(Apply(t.kind, acc, operand.value), s[2..])
  }

  /** What `expression` computes on a line of text. */
  function Interpret(text: string): Result<int> {
    Evaluate(LexFrom(text, 0))
  }

  // ---------------------------------------------------------------------------
  // The grammar `INTEGER ((PLUS | MINUS) INTEGER)* ENDOFLINE` and its value

  /** One `op operand` pair after the first integer. */
  datatype Step = Step(op: Token, operand: int)

  predicate OperatorsOnly(steps: seq<Step>) {
    forall k :: 0 <= k < |steps| ==> IsOperator(steps[k].op.kind)
  }

  /** The tokens of the pairs, in order. */
  function Ops(steps: seq<Step>): (s: seq<Result<Token>>)
    ensures |s| == 2 * |steps|
  {
    if steps == [] then []
    else [Ok(steps[0].op), Ok(Token(Integer, steps[0].operand))] + Ops(steps[1..])
  }

  /** The tokens of `first op1 n1 op2 n2 ...`, without the end-of-line token. */
  function Sentence(first: int, steps: seq<Step>): seq<Result<Token>> {
    [Ok(Token(Integer, first))] + Ops(steps)
  }

  /** The value of `first op1 n1 ... opk nk` grouped to the left:
      `(...((first op1 n1) op2 n2)...) opk nk`. */
  function Value(first: int, steps: seq<Step>): int
    requires OperatorsOnly(steps)
  {
    if steps == [] then first
    else
      var last := steps[|steps| - 1];
      Apply(last.op.kind, Value(first, steps[..|steps| - 1]), last.operand)
  }

  /** Grouping to the left, read from the front: the first pair folds into the
      starting value. */
  lemma {:induction false} ValueFront(first: int, step: Step, steps: seq<Step>)
    requires IsOperator(step.op.kind) && OperatorsOnly(steps)
    ensures OperatorsOnly([step] + steps)
    ensures Value(first, [step] + steps) == Value(Apply(step.op.kind, first, step.operand), steps)
  {
    var all := [step] + steps;
    if steps != [] {
      assert all[..|all| - 1] == [step] + steps[..|steps| - 1];
      ValueFront(first, step, steps[..|steps| - 1]);
    }
  }

  /** The loop consumes whole `op operand` pairs, folding each into the result. */
  lemma {:induction false} ContinueOps(acc: int, steps: seq<Step>, rest: seq<Result<Token>>)
    requires OperatorsOnly(steps) && IsStream(Ops(steps) + rest)
    ensures IsStream(rest)
    ensures Continue(acc, Ops(steps) + rest) == Continue(Value(acc, steps), rest)
    decreases |steps|
  {
    if steps == [] {
      assert Ops(steps) + rest == rest;
    } else {
      var s := Ops(steps) + rest;
      var st := steps[0];
      assert s == [Ok(st.op), Ok(Token(Integer, st.operand))] + (Ops(steps[1..]) + rest);
      assert s[2..] == Ops(steps[1..]) + rest;
      StreamSuffix(s, 2);
      ContinueOps(Apply(st.op.kind, acc, st.operand), steps[1..], rest);
      assert steps == [st] + steps[1..];
      ValueFront(acc, st, steps[1..]);
    }
  }

  /** A stream read as a whole `expression`: everything up to its end is a sentence. */
  lemma SentencePrefix(first: int, steps: seq<Step>, rest: seq<Result<Token>>)
    requires OperatorsOnly(steps) && IsStream(Sentence(first, steps) + rest)
    ensures IsStream(rest)
    ensures Evaluate(Sentence(first, steps) + rest) == Continue(Value(first, steps), rest)
  {
    var s := Sentence(first, steps) + rest;
    assert s[1..] == Ops(steps) + rest;
    StreamSuffix(s, 1);
    ContinueOps(first, steps, rest);
  }

  /** A sentence closed by end-of-line evaluates to its left-grouped value. */
  lemma EvaluateSentence(first: int, steps: seq<Step>, end: Token)
    requires OperatorsOnly(steps) && end.kind == EndOfLine
    ensures IsStream(Sentence(first, steps) + [Ok(end)])
    ensures Evaluate(Sentence(first, steps) + [Ok(end)]) == Ok(Value(first, steps))
  {
    var s := Sentence(first, steps) + [Ok(end)];
    OpsAreTokens(steps);
    assert forall k :: 1 <= k < |s| - 1 ==> s[k] == Ops(steps)[k - 1];
    SentencePrefix(first, steps, [Ok(end)]);
  }

  lemma {:induction false} OpsAreTokens(steps: seq<Step>)
    requires OperatorsOnly(steps)
    ensures forall k :: 0 <= k < |Ops(steps)| ==> Ops(steps)[k].Ok? && Ops(steps)[k].value.kind != EndOfLine
  {
    if steps != [] {
      OpsAreTokens(steps[1..]);
      var head: seq<Result<Token>> := [Ok(steps[0].op), Ok(Token(Integer, steps[0].operand))];
      assert Ops(steps) == head + Ops(steps[1..]);
      assert forall k :: 2 <= k < |Ops(steps)| ==> Ops(steps)[k] == Ops(steps[1..])[k - 2];
    }
  }

  /** The loop succeeds only on pairs closed by end-of-line. */
  lemma {:induction false} ContinueOkShape(acc: int, s: seq<Result<Token>>)
    requires IsStream(s) && Continue(acc, s).Ok?
    ensures s[|s| - 1].Ok?
    ensures exists steps :: OperatorsOnly(steps) && s[..|s| - 1] == Ops(steps)
                            && Continue(acc, s).value == Value(acc, steps)
    decreases |s|
  {
    var t := s[0].value;
    if t.kind == EndOfLine {
      var steps: seq<Step> := [];
      assert s[..|s| - 1] == Ops(steps);
    } else {
      var operand := s[1].value;
      StreamSuffix(s, 2);
      var acc' := Apply(t.kind, acc, operand.value);
      ContinueOkShape(acc', s[2..]);
      var steps' :| OperatorsOnly(steps') && s[2..][..|s| - 3] == Ops(steps')
                    && Continue(acc', s[2..]).value == Value(acc', steps');
      var steps := [Step(t, operand.value)] + steps';
      OpsFront(s, Step(t, operand.value), steps');
      ValueFront(acc, Step(t, operand.value), steps');
      assert OperatorsOnly(steps) && s[..|s| - 1] == Ops(steps)
             && Continue(acc, s).value == Value(acc, steps);
    }
  }

  /** The pairs of a stream are its first pair followed by the pairs after it. */
  lemma OpsFront(s: seq<Result<Token>>, step: Step, steps: seq<Step>)
    requires |s| >= 3 && s[0] == Ok(step.op) && s[1] == Ok(Token(Integer, step.operand))
    requires s[2..][..|s| - 3] == Ops(steps)
    ensures s[..|s| - 1] == Ops([step] + steps)
  {
    assert ([step] + steps)[1..] == steps;
    assert s[..|s| - 1] == [s[0], s[1]] + s[2..][..|s| - 3];
  }

  /** `expression` succeeds exactly on a sentence closed by end-of-line, and then
      yields that sentence's left-grouped value. The converse is EvaluateSentence. */
  lemma EvaluateOkShape(s: seq<Result<Token>>)
    requires IsStream(s) && Evaluate(s).Ok?
    ensures s[|s| - 1].Ok? && s[|s| - 1].value.kind == EndOfLine
    ensures exists first, steps :: OperatorsOnly(steps) && s[..|s| - 1] == Sentence(first, steps)
                                   && Evaluate(s).value == Value(first, steps)
  {
    var first := s[0].value.value;
    StreamSuffix(s, 1);
    ContinueOkShape(first, s[1..]);
    var steps :| OperatorsOnly(steps) && s[1..][..|s| - 2] == Ops(steps)
                 && Continue(first, s[1..]).value == Value(first, steps);
    assert s[..|s| - 1] == [s[0]] + s[1..][..|s| - 2];
    assert s[..|s| - 1] == Sentence(first, steps);
  }

  /** Two integers in a row are a syntax error. */
  lemma AdjacentIntegersFail(first: int, steps: seq<Step>, n: int, rest: seq<Result<Token>>)
    requires OperatorsOnly(steps) && IsStream(Sentence(first, steps) + [Ok(Token(Integer, n))] + rest)
    ensures Evaluate(Sentence(first, steps) + [Ok(Token(Integer, n))] + rest) == Err(InvalidSyntax)
  {
    var tail := [Ok(Token(Integer, n))] + rest;
    assert Sentence(first, steps) + [Ok(Token(Integer, n))] + rest == Sentence(first, steps) + tail;
    SentencePrefix(first, steps, tail);
  }

  /** An operator must be followed by an integer. */
  lemma MissingOperandFails(first: int, steps: seq<Step>, op: Token, t: Token, rest: seq<Result<Token>>)
    requires OperatorsOnly(steps) && IsOperator(op.kind) && t.kind != Integer
    requires IsStream(Sentence(first, steps) + [Ok(op), Ok(t)] + rest)
    ensures Evaluate(Sentence(first, steps) + [Ok(op), Ok(t)] + rest) == Err(InvalidSyntax)
  {
    var tail := [Ok(op), Ok(t)] + rest;
    assert Sentence(first, steps) + [Ok(op), Ok(t)] + rest == Sentence(first, steps) + tail;
    SentencePrefix(first, steps, tail);
  }

  /** A lexing error reached by the evaluator aborts the line with that error. */
  lemma LexingErrorReached(first: int, steps: seq<Step>, between: seq<Result<Token>>, e: Error)
    requires OperatorsOnly(steps)
    requires between == [] || (|between| == 1 && between[0].Ok? && IsOperator(between[0].value.kind))
    requires IsStream(Sentence(first, steps) + between + [Err(e)])
    ensures Evaluate(Sentence(first, steps) + between + [Err(e)]) == Err(e)
  {
    var tail := between + [Err(e)];
    assert Sentence(first, steps) + between + [Err(e)] == Sentence(first, steps) + tail;
    SentencePrefix(first, steps, tail);
  }

  // ---------------------------------------------------------------------------
  // Properties of whole lines

  /** An empty or blank line is a syntax error: `eat(INTEGER)` meets end-of-line. */
  lemma BlankLineFails(text: string)
    requires forall k :: 0 <= k < |text| ==> IsSpace(text[k])
    ensures Interpret(text) == Err(InvalidSyntax)
  {
  }

  /** A line that starts with an operator is a syntax error. */
  lemma LeadingOperatorFails(blank: string, c: char, rest: string)
    requires forall k :: 0 <= k < |blank| ==> IsSpace(blank[k])
    requires c == '+' || c == '-'
    ensures Interpret(blank + [c] + rest) == Err(InvalidSyntax)
  {
    var text := blank + [c] + rest;
    assert text[|blank|] == c;
    SkipSpacesUnique(text, 0, |blank|);
  }

  /** Inserting whitespace anywhere that does not split a number changes nothing. */
  lemma {:induction false} LexFromShift(text: string, i: nat, c: char, q: nat, p: nat)
    requires i <= |text| && p <= |text| && IsSpace(c) && !SplitsNumber(text, i)
    requires Corresponds(i, q, p)
    ensures q <= |InsertAt(text, i, c)|
    ensures LexFrom(InsertAt(text, i, c), q) == LexFrom(text, p)
    decreases |text| - p
  {
    var t := InsertAt(text, i, c);
    ScanShift(text, i, c, q, p);
    var (r, next) := NextToken(text, p);
    var (r', next') := NextToken(t, q);
    assert r' == r;
    if r.Ok? && r.value.kind != EndOfLine {
      assert Corresponds(i, next', next);
      LexFromShift(text, i, c, next', next);
    }
  }

  lemma WhitespaceInsensitive(text: string, i: nat, c: char)
    requires i <= |text| && IsSpace(c) && !SplitsNumber(text, i)
    ensures Interpret(InsertAt(text, i, c)) == Interpret(text)
  {
    LexFromShift(text, i, c, 0, 0);
  }

  // ---------------------------------------------------------------------------
  // Writing tokens out and lexing them back

  /** Tokens that can stand in a line: lexer tokens other than end-of-line. */
  predicate Spellable(ts: seq<Token>) {
    forall k :: 0 <= k < |ts| ==> IsLexerToken(ts[k]) && ts[k].kind != EndOfLine
  }

  /** The text of one token. */
  function Spell(t: Token): string
    requires IsLexerToken(t) && t.kind != EndOfLine
  {
    match t.kind
    case Integer => DecimalString(t.value)
    case Plus => "+"
    case Minus => "-"
  }

  /** The tokens written out with one space between neighbours. */
  function Unlex(ts: seq<Token>): string
    requires Spellable(ts)
  {
    if ts == [] then ""
    else if |ts| == 1 then Spell(ts[0])
    else Spell(ts[0]) + " " + Unlex(ts[1..])
  }

  function Oks(ts: seq<Token>): (s: seq<Result<Token>>)
    ensures |s| == |ts| && forall k :: 0 <= k < |ts| ==> s[k] == Ok(ts[k])
  {
    if ts == [] then [] else [Ok(ts[0])] + Oks(ts[1..])
  }

  lemma SpellableTail(ts: seq<Token>)
    requires Spellable(ts) && ts != []
    ensures Spellable(ts[1..])
  {
    assert forall k :: 0 <= k < |ts| - 1 ==> ts[1..][k] == ts[k + 1];
  }

  lemma UnlexCons(ts: seq<Token>)
    requires Spellable(ts) && |ts| > 1 && Spellable(ts[1..])
    ensures Unlex(ts) == Spell(ts[0]) + " " + Unlex(ts[1..])
  {
  }

  lemma NextTokenNumberAt(text: string, pos: nat, n: nat)
    requires pos + |DecimalString(n)| <= |text|
    requires text[pos..pos + |DecimalString(n)|] == DecimalString(n)
    requires pos + |DecimalString(n)| == |text| || text[pos + |DecimalString(n)|] == ' '
    ensures NextToken(text, pos) == (Ok(Token(Integer, n)), pos + |DecimalString(n)|)
  {
    ScanNumberAt(text, pos, n);
  }

  lemma NextTokenOperatorAt(text: string, pos: nat, t: Token)
    requires IsLexerToken(t) && IsOperator(t.kind)
    requires pos < |text| && text[pos] == Spell(t)[0]
    ensures NextToken(text, pos) == (Ok(t), pos + 1)
  {
  }

  /** A written-out token followed by a space or the end comes back from one
      lexing step. */
  lemma NextTokenWordAt(text: string, pos: nat, t: Token)
    requires IsLexerToken(t) && t.kind != EndOfLine
    requires pos + |Spell(t)| <= |text| && text[pos..pos + |Spell(t)|] == Spell(t)
    requires pos + |Spell(t)| == |text| || text[pos + |Spell(t)|] == ' '
    ensures NextToken(text, pos) == (Ok(t), pos + |Spell(t)|)
  {
    if t.kind == Integer {
      NextTokenNumberAt(text, pos, t.value);
    } else {
      assert text[pos] == text[pos..pos + |Spell(t)|][0];
      NextTokenOperatorAt(text, pos, t);
    }
  }

  lemma LexFromAtEnd(text: string)
    ensures LexFrom(text, |text|) == [Ok(Token(EndOfLine, 0))]
  {
  }

  lemma NextTokenSkipsSpace(text: string, pos: nat)
    requires pos < |text| && text[pos] == ' '
    ensures NextToken(text, pos) == NextToken(text, pos + 1)
  {
    ScanSkipsSpace(text, pos);
  }

  /** A space in front of the cursor does not change what is lexed from there. */
  lemma LexFromSkipsSpace(text: string, pos: nat, next: nat)
    requires pos < |text| && text[pos] == ' ' && next == pos + 1
    ensures LexFrom(text, pos) == LexFrom(text, next)
  {
    NextTokenSkipsSpace(text, pos);
  }

  /** Lexing the spelling of tokens gives back those tokens, then end-of-line. */
  lemma {:induction false} LexSpelled(text: string, pos: nat, ts: seq<Token>)
    requires Spellable(ts) && pos <= |text| && text[pos..] == Unlex(ts)
    ensures LexFrom(text, pos) == Oks(ts) + [Ok(Token(EndOfLine, 0))]
    decreases |ts|, 1
  {
    if ts == [] {
      LexFromAtEnd(text);
    } else if |ts| == 1 {
      LexLastWord(text, pos, ts[0]);
    } else {
      LexSpelledCons(text, pos, ts);
    }
  }

  lemma {:induction false} LexSpelledCons(text: string, pos: nat, ts: seq<Token>)
    requires Spellable(ts) && |ts| > 1 && pos <= |text| && text[pos..] == Unlex(ts)
    ensures LexFrom(text, pos) == Oks(ts) + [Ok(Token(EndOfLine, 0))]
    decreases |ts|, 0
  {
    SpellableTail(ts);
    UnlexCons(ts);
    var next := LexFirstWord(text, pos, ts[0], Unlex(ts[1..]));
    LexSpelled(text, next, ts[1..]);
    OksCons(ts);
  }

  /** The last word lexes to its token, then end-of-line. */
  lemma LexLastWord(text: string, pos: nat, t: Token)
    requires IsLexerToken(t) && t.kind != EndOfLine
    requires pos <= |text| && text[pos..] == Spell(t)
    ensures LexFrom(text, pos) == [Ok(t), Ok(Token(EndOfLine, 0))]
  {
    assert text[pos..pos + |Spell(t)|] == text[pos..];
    NextTokenWordAt(text, pos, t);
    LexFromStep(text, pos, t, |text|);
    LexFromAtEnd(text);
  }

  /** A word and a space lex to the word's token, then what follows the space. */
  lemma LexFirstWord(text: string, pos: nat, t: Token, rest: string) returns (next: nat)
    requires IsLexerToken(t) && t.kind != EndOfLine
    requires pos <= |text| && text[pos..] == Spell(t) + " " + rest
    ensures next <= |text| && text[next..] == rest
    ensures LexFrom(text, pos) == [Ok(t)] + LexFrom(text, next)
  {
    var end := pos + |Spell(t)|;
    SplitAtSpace(text, pos, Spell(t), rest);
    NextTokenWordAt(text, pos, t);
    next := end + 1;
    LexFromStep(text, pos, t, end);
    LexFromSkipsSpace(text, end, next);
  }

  lemma OksCons(ts: seq<Token>)
    requires ts != []
    ensures Oks(ts) == [Ok(ts[0])] + Oks(ts[1..])
  {
  }

  /** Lexing written-out tokens gives back those tokens, then end-of-line. */
  lemma LexUnlex(ts: seq<Token>)
    requires Spellable(ts)
    ensures LexFrom(Unlex(ts), 0) == Oks(ts) + [Ok(Token(EndOfLine, 0))]
  {
    LexSpelled(Unlex(ts), 0, ts);
  }

  /** The tokens of the pairs, in order. */
  function OpsTokens(steps: seq<Step>): (ts: seq<Token>)
    ensures Oks(ts) == Ops(steps)
  {
    if steps == [] then []
    else
      var ts := [steps[0].op, Token(Integer, steps[0].operand)] + OpsTokens(steps[1..]);
      assert Oks(ts) == [Ok(ts[0]), Ok(ts[1])] + Oks(ts[2..]);
      ts
  }

  predicate LexerSteps(steps: seq<Step>) {
    forall k :: 0 <= k < |steps| ==>
      IsOperator(steps[k].op.kind) && IsLexerToken(steps[k].op) && steps[k].operand >= 0
  }

  /** A line written out from a sentence evaluates to the sentence's value; with no
      pairs, the line `a` gives `a`, and with one, `a + b` gives `a + b`. */
  lemma InterpretSpelled(first: nat, steps: seq<Step>)
    requires LexerSteps(steps)
    ensures Spellable([Token(Integer, first)] + OpsTokens(steps))
    ensures OperatorsOnly(steps)
    ensures Interpret(Unlex([Token(Integer, first)] + OpsTokens(steps))) == Ok(Value(first, steps))
  {
    var ts := [Token(Integer, first)] + OpsTokens(steps);
    SpellableOps(steps);
    assert Spellable(ts) by {
      assert forall k :: 1 <= k < |ts| ==> ts[k] == OpsTokens(steps)[k - 1];
    }
    LexUnlex(ts);
    assert Oks(ts) == Sentence(first, steps);
    EvaluateSentence(first, steps, Token(EndOfLine, 0));
  }

  lemma {:induction false} SpellableOps(steps: seq<Step>)
    requires LexerSteps(steps)
    ensures Spellable(OpsTokens(steps))
  {
    if steps != [] {
      SpellableOps(steps[1..]);
      var ts := OpsTokens(steps);
      assert forall k :: 2 <= k < |ts| ==> ts[k] == OpsTokens(steps[1..])[k - 2];
    }
  }

  // ---------------------------------------------------------------------------
  // The interpreter object

  /** The stream seen from a cursor, with `t` already fetched as the current token. */
  ghost function Ahead(t: Token, text: string, pos: nat): (s: seq<Result<Token>>)
    requires pos <= |text|
    ensures IsStream(s) && s[0] == Ok(t)
  {
    if t.kind == EndOfLine then [Ok(t)]
    else
      var rest := LexFrom(text, pos);
      assert forall k :: 1 <= k < |rest| + 1 ==> ([Ok(t)] + rest)[k] == rest[k - 1];
      [Ok(t)] + rest
  }

  /** Fetching the next token moves the lookahead one place down the stream. */
  lemma AheadStep(text: string, pos: nat, t: Token, next: nat)
    requires pos <= |text| && NextToken(text, pos) == (Ok(t), next)
    ensures next <= |text| && Ahead(t, text, next) == LexFrom(text, pos)
  {
    if t.kind != EndOfLine {
      LexFromStep(text, pos, t, next);
    }
  }

  lemma NextTokenAfterSpaces(text: string, pos: nat, start: nat)
    requires pos <= start <= |text| && SkipSpaces(text, start) == SkipSpaces(text, pos)
    requires start == |text| || !IsSpace(text[start])
    ensures start == SkipSpaces(text, start)
    ensures NextToken(text, pos) == NextToken(text, start)
  {
  }

  lemma NextTokenAtEnd(text: string)
    ensures NextToken(text, |text|) == (Ok(Token(EndOfLine, 0)), |text|)
  {
  }

  /** A character that is neither a space nor a digit: an operator or an error. */
  lemma NextTokenSymbol(text: string, start: nat)
    requires start < |text| && !IsSpace(text[start]) && !IsDigit(text[start])
    ensures text[start] == '+' ==> NextToken(text, start) == (Ok(Token(Plus, '+' as int)), start + 1)
    ensures text[start] == '-' ==> NextToken(text, start) == (Ok(Token(Minus, '-' as int)), start + 1)
    ensures text[start] != '+' && text[start] != '-' ==> NextToken(text, start) == (Err(InvalidCharacter), start)
  {
  }

  lemma NextTokenNumber(text: string, start: nat, end: nat)
    requires start < end <= |text| && DigitRunEnd(text, start) == end
    requires start == SkipSpaces(text, start)
    ensures AllDigits(text[start..end])
    ensures NextToken(text, start) == (Ok(Token(Integer, DecimalValue(text[start..end]))), end)
  {
  }

  /** The first token of `expression` must be an integer; the loop then starts on
      the stream after it. */
  lemma EvaluateFirst(text: string, pos: nat, t: Token, next: nat)
    requires pos <= |text| && NextToken(text, pos) == (Ok(t), next)
    ensures next <= |text|
    ensures t.kind != Integer ==> Evaluate(LexFrom(text, pos)) == Err(InvalidSyntax)
    ensures t.kind == Integer ==> Evaluate(LexFrom(text, pos)) == Continue(t.value, LexFrom(text, next))
  {
    if t.kind == Integer {
      LexFromStep(text, pos, t, next);
    }
  }

  /** A lexing error of the next call ends the loop with that error. */
  lemma ContinueAtError(acc: int, text: string, pos: nat)
    requires pos <= |text| && NextToken(text, pos).0.Err?
    ensures Continue(acc, LexFrom(text, pos)) == Err(NextToken(text, pos).0.error)
  {
  }

  /** The loop with the current token `t` and the cursor after it: end-of-line stops
      it, and a token that is neither that nor an operator is a syntax error. */
  lemma ContinueAt(acc: int, t: Token, text: string, pos: nat)
    requires pos <= |text| && !IsOperator(t.kind)
    ensures Continue(acc, Ahead(t, text, pos))
         == if t.kind == EndOfLine then Ok(acc) else Err(InvalidSyntax)
  {
  }

  /** The first half of a turn: `eat` of the operator fetches the next token,
      which must lex and must be an integer. */
  lemma TurnOperator(acc: int, op: Token, text: string, pos: nat)
    requires pos <= |text| && IsOperator(op.kind)
    ensures var (r, next) := NextToken(text, pos);
      (r.Err? ==> Continue(acc, Ahead(op, text, pos)) == Err(r.error))
      && (r.Ok? && r.value.kind != Integer ==> Continue(acc, Ahead(op, text, pos)) == Err(InvalidSyntax))
  {
    var s := Ahead(op, text, pos);
    assert s[1] == NextToken(text, pos).0;
  }

  /** The second half of a turn: `minus` or `plus` eats the operand, fetching the
      token after it, and the loop goes on from there with the operand applied. */
  lemma TurnOperand(acc: int, op: Token, text: string, pos: nat, operand: Token, mid: nat)
    requires pos <= |text| && IsOperator(op.kind)
    requires NextToken(text, pos) == (Ok(operand), mid) && operand.kind == Integer
    ensures mid <= |text|
    ensures var (r, next) := NextToken(text, mid);
      (r.Err? ==> Continue(acc, Ahead(op, text, pos)) == Err(r.error))
      && (r.Ok? ==> Continue(acc, Ahead(op, text, pos))
                    == Continue(Apply(op.kind, acc, operand.value), Ahead(r.value, text, next)))
  {
    var s := Ahead(op, text, pos);
    LexFromStep(text, pos, operand, mid);
    assert s[1] == Ok(operand);
    assert s[2..] == LexFrom(text, mid);
    var (r, next) := NextToken(text, mid);
    if r.Ok? {
      AheadStep(text, mid, r.value, next);
    }
  }

  /** `Interpreter`: the text, the cursor `_pos` and the current token. */
  class Interpreter {
    const text: string
    var pos: nat
    var currentToken: Token

    ghost predicate Valid()
      reads this
    {
      pos <= |text|
    }

    /** The cursor starts at the beginning and the current token is end-of-line. */
    constructor(text: string)
      ensures Valid() && this.text == text
      ensures pos == 0 && currentToken == Token(EndOfLine, 0)
    {
      this.text := text;
      pos := 0;
      currentToken := Token(EndOfLine, 0);
    }

    /** `get_next_token`: skips whitespace, then reads end-of-line, a run of digits,
        `+` or `-`; any other character is an error and leaves the cursor on it. */
    method GetNextToken() returns (r: Result<Token>)
      requires Valid()
      modifies this`pos
      ensures Valid()
      ensures (r, pos) == NextToken(text, old(pos))
    {
      while pos < |text| && IsSpace(text[pos])
        invariant old(pos) <= pos <= |text|
        invariant SkipSpaces(text, pos) == SkipSpaces(text, old(pos))
      {
        pos := pos + 1;
      }
      NextTokenAfterSpaces(text, old(pos), pos);
      if pos >= |text| {
        NextTokenAtEnd(text);
        return Ok(Token(EndOfLine, 0));
      }
      var c := text[pos];
      if IsDigit(c) {
        ghost var start := pos;
        var total := ReadDigits();
        NextTokenNumber(text, start, pos);
        return Ok(Token(Integer, total));
      }
      NextTokenSymbol(text, pos);
      if c == '+' {
        pos := pos + 1;
        return Ok(Token(TokenType.Plus, '+' as int));
      }
      if c == '-' {
        pos := pos + 1;
        return Ok(Token(TokenType.Minus, '-' as int));
      }
      return Err(InvalidCharacter);
    }

    /** The digit loop of `get_next_token`: reads the run of digits at the cursor
        in decimal and leaves the cursor after it. */
    method ReadDigits() returns (total: int)
      requires Valid()
      modifies this`pos
      ensures Valid()
      ensures pos == DigitRunEnd(text, old(pos))
      ensures AllDigits(text[old(pos)..pos]) && total == DecimalValue(text[old(pos)..pos])
    {
      total := 0;
      // the string's terminating NUL stops the C++ loop at the end of the text
      while pos < |text| && IsDigit(text[pos])
        invariant old(pos) <= pos <= |text|
        invariant DigitRunEnd(text, pos) == DigitRunEnd(text, old(pos))
        invariant AllDigits(text[old(pos)..pos]) && total == DecimalValue(text[old(pos)..pos])
      {
        DigitRunExtend(text, old(pos), pos);
        DecimalValueStep(text, old(pos), pos);
        total := total * 10 + DigitValue(text[pos]);
        pos := pos + 1;
      }
    }

    /** `eat`: a current token of the wanted type is replaced by the next one;
        any other is a syntax error and changes nothing. */
    method Eat(kind: TokenType) returns (o: Outcome)
      requires Valid()
      modifies this
      ensures Valid()
      ensures old(currentToken.kind) != kind ==> o == Fail(InvalidSyntax) && unchanged(this)
      ensures old(currentToken.kind) == kind ==> pos == NextToken(text, old(pos)).1
      ensures old(currentToken.kind) == kind && NextToken(text, old(pos)).0.Ok? ==>
        o == Pass && currentToken == NextToken(text, old(pos)).0.value
      ensures old(currentToken.kind) == kind && NextToken(text, old(pos)).0.Err? ==>
        o == Fail(NextToken(text, old(pos)).0.error) && currentToken == old(currentToken)
    {
      if currentToken.kind == kind {
        var r := GetNextToken();
        if r.Err? {
          return Fail(r.error);
        }
        currentToken := r.value;
        return Pass;
      }
      return Fail(InvalidSyntax);
    }

    /** `minus`: the current token must be the integer to subtract. */
    method Minus(left: int) returns (r: Result<int>)
      requires Valid()
      modifies this
      ensures Valid()
      ensures old(currentToken.kind) != Integer ==> r == Err(InvalidSyntax) && unchanged(this)
      ensures old(currentToken.kind) == Integer ==> pos == NextToken(text, old(pos)).1
      ensures old(currentToken.kind) == Integer && NextToken(text, old(pos)).0.Ok? ==>
        r == Ok(left - old(currentToken.value)) && currentToken == NextToken(text, old(pos)).0.value
      ensures old(currentToken.kind) == Integer && NextToken(text, old(pos)).0.Err? ==>
        r == Err(NextToken(text, old(pos)).0.error) && currentToken == old(currentToken)
    {
      var right := currentToken;
      var o := Eat(Integer);
      if o.Fail? {
        return Err(o.error);
      }
      return Ok(left - right.value);
    }

    /** `plus`: the current token must be the integer to add. */
    method Plus(left: int) returns (r: Result<int>)
      requires Valid()
      modifies this
      ensures Valid()
      ensures old(currentToken.kind) != Integer ==> r == Err(InvalidSyntax) && unchanged(this)
      ensures old(currentToken.kind) == Integer ==> pos == NextToken(text, old(pos)).1
      ensures old(currentToken.kind) == Integer && NextToken(text, old(pos)).0.Ok? ==>
        r == Ok(left + old(currentToken.value)) && currentToken == NextToken(text, old(pos)).0.value
      ensures old(currentToken.kind) == Integer && NextToken(text, old(pos)).0.Err? ==>
        r == Err(NextToken(text, old(pos)).0.error) && currentToken == old(currentToken)
    {
      var right := currentToken;
      var o := Eat(Integer);
      if o.Fail? {
        return Err(o.error);
      }
      return Ok(left + right.value);
    }

    /** `expression`: fetches the first token, which must be an integer, then folds
        each `+ n` or `- n` into the result until end-of-line. */
    method Expression() returns (r: Result<int>)
      requires Valid()
      modifies this
      ensures Valid()
      ensures r == Evaluate(LexFrom(text, old(pos)))
      ensures r.Ok? ==> currentToken == Token(EndOfLine, 0) && pos == |text|
    {
      ghost var goal := Evaluate(LexFrom(text, pos));
      ghost var start := pos;
      var first := GetNextToken();
      if first.Err? {
        return Err(first.error);
      }
      currentToken := first.value;
      EvaluateFirst(text, start, currentToken, pos);
      var left := currentToken;
      var result := left.value;
      ghost var fetched := pos;
      var o := Eat(Integer);
      if o.Fail? {
        if left.kind == Integer {
          ContinueAtError(result, text, fetched);
        }
        return Err(o.error);
      }
      AheadStep(text, fetched, currentToken, pos);
      ghost var last: nat := fetched;
      while currentToken.kind != EndOfLine
        invariant Valid()
        invariant Continue(result, Ahead(currentToken, text, pos)) == goal
        invariant last <= |text| && NextToken(text, last) == (Ok(currentToken), pos)
        decreases |text| - pos
      {
        var token := currentToken;
        if !IsOperator(token.kind) {
          ContinueAt(result, token, text, pos);
          return Err(InvalidSyntax);
        }
        // the `-` and `+` branches differ only in the method that eats the operand
        ghost var before := pos;
        TurnOperator(result, token, text, before);
        o := Eat(token.kind);
        if o.Fail? {
          return Err(o.error);
        }
        ghost var operand := currentToken;
        ghost var middle := pos;
        if token.kind == TokenType.Minus {
          r := Minus(result);
        } else {
          r := Plus(result);
        }
        if r.Err? {
          if operand.kind == Integer {
            TurnOperand(result, token, text, before, operand, middle);
          }
          return r;
        }
        TurnOperand(result, token, text, before, operand, middle);
        assert r.value == Apply(token.kind, result, operand.value);
        assert (Ok(currentToken), pos) == NextToken(text, middle);
        result := r.value;
        last := middle;
      }
      ContinueAt(result, currentToken, text, pos);
      return Ok(result);
    }
  }

  /** One line through a fresh interpreter, as the read-evaluate loop does it. */
  method Calculate(text: string) returns (r: Result<int>)
    ensures r == Interpret(text)
  {
    var interpreter := new Interpreter(text);
    r := interpreter.Expression();
  }

  // ---------------------------------------------------------------------------
  // Concrete lines

  lemma LeftToRightSpelling(ts: seq<Token>)
    requires ts == [Token(Integer, 10), Token(Minus, '-' as int), Token(Integer, 2),
                    Token(Minus, '-' as int), Token(Integer, 3)]
    ensures Unlex(ts) == "10 - 2 - 3"
  {
    assert DecimalString(10) == "10" by {
      assert DecimalString(1) == "1";
    }
    assert Unlex(ts[4..]) == "3";
    assert Unlex(ts[3..]) == "- 3";
    assert Unlex(ts[2..]) == "2 - 3";
    assert Unlex(ts[1..]) == "- 2 - 3";
  }

  /** Subtraction groups to the left: 10 - 2 - 3 is (10 - 2) - 3. */
  lemma LeftToRight(text: string)
    requires text == "10 - 2 - 3"
    ensures Interpret(text) == Ok(5)
  {
    var minus := Token(Minus, '-' as int);
    var steps := [Step(minus, 2), Step(minus, 3)];
    InterpretSpelled(10, steps);
    var ts := [Token(Integer, 10)] + OpsTokens(steps);
    assert OpsTokens(steps[1..]) == [minus, Token(Integer, 3)];
    assert ts == [Token(Integer, 10), minus, Token(Integer, 2), minus, Token(Integer, 3)];
    LeftToRightSpelling(ts);
    assert Value(10, steps) == 5 by {
      assert steps[..1] == [Step(minus, 2)];
      assert Value(10, steps[..1]) == 8;
    }
  }

  /** A line that lexes to 3, `+`, 4 and end-of-line evaluates to 7. */
  lemma SumFold(text: string, p1: nat, p2: nat, p3: nat)
    requires NextToken(text, 0) == (Ok(Token(Integer, 3)), p1)
    requires NextToken(text, p1) == (Ok(Token(Plus, '+' as int)), p2)
    requires NextToken(text, p2) == (Ok(Token(Integer, 4)), p3)
    requires NextToken(text, p3).0 == Ok(Token(EndOfLine, 0))
    ensures Interpret(text) == Ok(7)
  {
    var plus := Token(Plus, '+' as int);
    LexFromStep(text, 0, Token(Integer, 3), p1);
    LexFromStep(text, p1, plus, p2);
    LexFromStep(text, p2, Token(Integer, 4), p3);
    var tail := [Ok(Token(EndOfLine, 0))];
    var s := [Ok(Token(Integer, 3)), Ok(plus), Ok(Token(Integer, 4))] + tail;
    assert LexFrom(text, 0) == s;
    assert s[1..][2..] == tail;
    assert Continue(7, tail) == Ok(7);
    assert Continue(3, s[1..]) == Continue(7, tail);
  }

  lemma PackedLexing(text: string)
    requires |text| == 3 && text[0] == '3' && text[1] == '+' && text[2] == '4'
    ensures NextToken(text, 0) == (Ok(Token(Integer, 3)), 1)
    ensures NextToken(text, 1) == (Ok(Token(Plus, '+' as int)), 2)
    ensures NextToken(text, 2) == (Ok(Token(Integer, 4)), 3)
    ensures NextToken(text, 3) == (Ok(Token(EndOfLine, 0)), 3)
  {
    NextTokenDigitAt(text, 0);
    NextTokenSymbol(text, 1);
    NextTokenDigitAt(text, 2);
    NextTokenAtEnd(text);
  }

  lemma SpacedLexing(text: string)
    requires |text| == 9 && text[0] == ' ' && text[1] == ' ' && text[2] == '3'
    requires text[3] == ' ' && text[4] == '+' && text[5] == ' ' && text[6] == ' '
    requires text[7] == '4' && text[8] == ' '
    ensures NextToken(text, 0) == (Ok(Token(Integer, 3)), 3)
    ensures NextToken(text, 3) == (Ok(Token(Plus, '+' as int)), 5)
    ensures NextToken(text, 5) == (Ok(Token(Integer, 4)), 8)
    ensures NextToken(text, 8) == (Ok(Token(EndOfLine, 0)), 9)
  {
    NextTokenSkipsSpace(text, 0);
    NextTokenSkipsSpace(text, 1);
    NextTokenDigitAt(text, 2);
    NextTokenSkipsSpace(text, 3);
    NextTokenSymbol(text, 4);
    NextTokenSkipsSpace(text, 5);
    NextTokenSkipsSpace(text, 6);
    NextTokenDigitAt(text, 7);
    NextTokenSkipsSpace(text, 8);
    NextTokenAtEnd(text);
  }

  /** Spaces between tokens do not matter: "  3 +  4 " reads as "3+4". */
  lemma SpacingExample(spaced: string, packed: string)
    requires spaced == "  3 +  4 " && packed == "3+4"
    ensures Interpret(spaced) == Interpret(packed) == Ok(7)
  {
    PackedLexing(packed);
    SumFold(packed, 1, 2, 3);
    SpacedLexing(spaced);
    SumFold(spaced, 3, 5, 8);
  }

  /** A single digit not followed by another is read as its own value. */
  lemma NextTokenDigitAt(text: string, pos: nat)
    requires pos < |text| && IsDigit(text[pos])
    requires pos + 1 == |text| || !IsDigit(text[pos + 1])
    ensures NextToken(text, pos) == (Ok(Token(Integer, DigitValue(text[pos]))), pos + 1)
  {
    assert DigitRunEnd(text, pos) == pos + 1;
    DecimalValueStep(text, pos, pos);
  }

  /** "3 4" is a syntax error: after an integer only an operator or the end may
      come. */
  lemma AdjacentIntegersExample(text: string)
    requires text == "3 4"
    ensures Interpret(text) == Err(InvalidSyntax)
  {
    NextTokenDigitAt(text, 0);
    NextTokenSkipsSpace(text, 1);
    NextTokenDigitAt(text, 2);
    LexFromStep(text, 0, Token(Integer, 3), 1);
    LexFromStep(text, 1, Token(Integer, 4), 3);
  }

  /** "3 & 4" fails in the lexer, when `eat` asks for the token after the 3. */
  lemma InvalidCharacterExample(text: string)
    requires text == "3 & 4"
    ensures Interpret(text) == Err(InvalidCharacter)
  {
    NextTokenDigitAt(text, 0);
    NextTokenSkipsSpace(text, 1);
    NextTokenSymbol(text, 2);
    LexFromStep(text, 0, Token(Integer, 3), 1);
    ContinueAtError(3, text, 1);
  }
}
