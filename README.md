# Two one-line calculators

This project models two small C++ calculators, each made of a hand-written lexer and a
one-token-lookahead evaluator. It also proves what they compute.

- **part_1_2.cpp** is the additive calculator. Its `Interpreter` owns the text, the cursor
  `_pos` and the current token. `get_next_token` skips whitespace and returns ENDOFLINE at
  the end of the text, an INTEGER for a maximal run of digits, or PLUS or MINUS for one
  character. Any other character is an error. `eat` replaces the current token with the next
  one when its type is the expected one, and is a syntax error otherwise. `expression` reads
  an integer and then folds `- n` and `+ n` from left to right until ENDOFLINE. Any other
  token after an integer is a syntax error.
- **main.cpp** is the multiplicative calculator. A `Lexer` walks the text one character at a
  time. `_current_char` holds the character under the cursor and is NUL past the end.
  `advance`, `skip_whitespace` and `integer` move that cursor, and `get_next_token` returns
  INTEGER, MUL or DIV. The `Interpreter` keeps its own copy of the lexer and fetches its first
  token when it is constructed. Its `expr` folds `* n` and `/ n` from left to right. It stops
  at the first token that is neither, and leaves the rest of the line unread.

The model is in four modules.

- `Outcomes` (`outcomes.dfy`) holds the error kinds and the `Result` that replaces the
  exceptions.
- `Scanning` (`scanning.dfy`) holds what both lexers share: whitespace and digit classes,
  where a run of whitespace or of digits ends, the decimal value of a digit run, and one
  scanning step `Scan`.
- `Additive` (`additive.dfy`) and `Multiplicative` (`multiplicative.dfy`) each give:
  - the lexer as a function `NextToken(text, pos)` that returns the token and the new cursor;
  - `LexFrom`, the stream of results of successive calls;
  - the evaluator as a left fold `Evaluate` / `Continue` over that stream;
  - the grammar as sentences of `Step`s (operator and operand) with their left-grouped
    `Value`.

The C++ classes are Dafny classes with the same fields: `pos`, `currentToken` and, for the
lexer, `currentChar`. Their loops carry invariants, and every method is proved against the
functions above:
- `get_next_token`, `eat`, `minus`, `plus` and `factor` give their result and new state in
  terms of `NextToken` of the old cursor.
- `advance`, `skip_whitespace`, `integer` and the additive digit loop give the new cursor in
  terms of the whitespace and digit runs of `Scanning`.
- `Expression` and `Expr` give their result as `Evaluate` of the stream they read, and their
  final state on success. For `Expression` that is ENDOFLINE at the end of the text. For
  `Expr` it is the stopping token, still current, with the rest of the stream after it still
  unread.

The lemmas state the properties of those functions: the grammar, the failure cases,
whitespace insensitivity, a lexing round trip for each calculator and worked lines.

Two points of main.cpp's code shape the multiplicative model:

- main.cpp's `expr` returns at any token that is not MUL or DIV, so "3 4" is 3.
- main.cpp's `get_next_token` has no return statement once only whitespace is left (see
  Findings).

In the additive `Expression` loop the two source branches, for `-` and `+`, differ only in
whether `minus` or `plus` is called, so the model writes them as one branch that calls the
right method.

## Model

| member | source | states |
|---|---|---|
| `Scanning.NulMarksEnd` | main.cpp:61-68 | in a NUL-free text the current character is NUL exactly when the cursor is at the end |
| `Scanning.SkipSpaces` | part_1_2.cpp:104-106 | the whitespace loop stops at the first non-space character or at the end, and everything it passes is whitespace |
| `Scanning.DigitRunEnd` | part_1_2.cpp:118-122 | the digit loop stops after a maximal run of digits |
| `Scanning.DigitChar` | part_1_2.cpp:120 | the character written for a digit d is a digit, and the `c - '0'` conversion of the digit loop maps it back to d |
| `Scanning.DecimalValueStep` | main.cpp:79 | one more digit multiplies the value read so far by ten and adds the digit |
| `Scanning.DecimalRoundTrip` | part_1_2.cpp:118-122 | reading the decimal notation of n with the `total * 10 + digit` loop gives back n |
| `Scanning.Scan` | part_1_2.cpp:103-117 | one scanning step starts where the whitespace ends; the end of the text is found exactly there, a number spans at least one character, and any other character spans exactly one |
| `Scanning.ScanNumberAt` | part_1_2.cpp:116-127 | a written-out number followed by the end or a non-digit scans to that number and ends just after it |
| `Scanning.ScanShift` | part_1_2.cpp:104-106 | inserting a whitespace character that does not split a number leaves each scan's lexeme unchanged and shifts its positions |
| `Additive.NextToken` | part_1_2.cpp:103-146 | the cursor never moves back or past the end; every token is one the lexer can produce; any token but ENDOFLINE consumes at least one character, and ENDOFLINE leaves the cursor at the end |
| `Additive.NextTokenMeaning` | part_1_2.cpp:103-146 | ENDOFLINE comes back exactly when only whitespace is left, with the cursor at the end; an INTEGER is the decimal value of the maximal digit run after the whitespace; PLUS or MINUS is the one character after the whitespace; any other character is an InvalidCharacter error with the cursor left on it |
| `Additive.EndOfLineIsSticky` | part_1_2.cpp:108-112 | after ENDOFLINE the cursor is at the end, and calling again returns ENDOFLINE without moving it |
| `Additive.LexFrom` | part_1_2.cpp:103-146 | successive calls give a stream that begins with the first call's result and closes with ENDOFLINE or the first error |
| `Additive.ValueFront` | part_1_2.cpp:75-87 | the left fold read from the front: the first pair folds into the starting value |
| `Additive.ContinueOps` | part_1_2.cpp:75-87 | the loop consumes whole `op n` pairs and folds each into the result |
| `Additive.SentencePrefix` | part_1_2.cpp:68-91 | an integer followed by pairs evaluates like the loop started on what follows them, from the grouped value |
| `Additive.EvaluateSentence` | part_1_2.cpp:68-91 | `a op1 b op2 c ...` closed by ENDOFLINE evaluates to `(a op1 b) op2 c ...` |
| `Additive.ContinueOkShape` | part_1_2.cpp:75-90 | the loop succeeds only on pairs closed by ENDOFLINE, with their folded value |
| `Additive.EvaluateOkShape` | part_1_2.cpp:68-91 | `expression` succeeds only on a sentence closed by ENDOFLINE, and then yields its left-grouped value (converse of EvaluateSentence) |
| `Additive.AdjacentIntegersFail` | part_1_2.cpp:82-86 | an integer where an operator or ENDOFLINE is due is a syntax error |
| `Additive.MissingOperandFails` | part_1_2.cpp:148-158 | an operator followed by anything but an integer is a syntax error |
| `Additive.LexingErrorReached` | part_1_2.cpp:143-145 | a lexing error that evaluation reaches aborts the line with that error |
| `Additive.BlankLineFails` | part_1_2.cpp:70-73 | an empty or whitespace-only line is a syntax error |
| `Additive.LeadingOperatorFails` | part_1_2.cpp:70-73 | a line whose first token is an operator is a syntax error |
| `Additive.LexFromShift` | part_1_2.cpp:104-106 | inserting whitespace that does not split a number leaves the whole token stream unchanged |
| `Additive.WhitespaceInsensitive` | part_1_2.cpp:104-106 | inserting whitespace that does not split a number leaves the line's result unchanged |
| `Additive.LexSpelled` | part_1_2.cpp:103-146 | the text of tokens written out with single spaces, read from any cursor, lexes back to those tokens and then ENDOFLINE |
| `Additive.LexUnlex` | part_1_2.cpp:103-146 | writing tokens out and lexing the line gives back the tokens, then ENDOFLINE |
| `Additive.InterpretSpelled` | part_1_2.cpp:68-91 | a sentence written out as a line evaluates to its left-grouped value: "a" gives a, "a + b" gives a + b |
| `Additive.Interpreter.constructor` | part_1_2.cpp:65-66 | the cursor starts at 0 and the current token is ENDOFLINE |
| `Additive.Interpreter.GetNextToken` | part_1_2.cpp:103-146 | the returned token and the new cursor are what NextToken gives for the old cursor |
| `Additive.Interpreter.ReadDigits` | part_1_2.cpp:118-122 | the cursor ends after the maximal digit run, and the total is the run's decimal value |
| `Additive.Interpreter.Eat` | part_1_2.cpp:93-101 | a matching current token is replaced by the next token and the cursor moves as NextToken says; a mismatch is a syntax error that changes nothing; a lexing error is passed on |
| `Additive.Interpreter.Minus` | part_1_2.cpp:148-152 | with an integer current token the result is left minus that integer, after the next token is fetched; otherwise a syntax error that changes nothing; a lexing error in that fetch is passed on, with the current token left as it was |
| `Additive.Interpreter.Plus` | part_1_2.cpp:154-158 | the same as Minus, with left plus the integer |
| `Additive.Interpreter.Expression` | part_1_2.cpp:68-91 | the result is Evaluate of the stream lexed from the cursor; on success the current token is ENDOFLINE and the cursor is at the end of the text |
| `Additive.Calculate` | part_1_2.cpp:65-91 | a line through a fresh interpreter gives Interpret of the line |
| `Additive.LeftToRight` | part_1_2.cpp:68-91 | "10 - 2 - 3" gives 5 |
| `Additive.SpacingExample` | part_1_2.cpp:104-106 | "  3 +  4 " and "3+4" both give 7 |
| `Additive.AdjacentIntegersExample` | part_1_2.cpp:82-86 | "3 4" is a syntax error |
| `Additive.InvalidCharacterExample` | part_1_2.cpp:143-145 | "3 & 4" is an InvalidCharacter error |
| `Multiplicative.NextToken` | main.cpp:88-109 | the cursor never moves back or past the end; every token is one the lexer can produce; any token but ENDOFLINE consumes at least one character, and ENDOFLINE leaves the cursor at the end |
| `Multiplicative.AsWrittenFallsOffAtEnd` | main.cpp:88-109 | the function as written runs off its end exactly when only whitespace is left; everywhere else it agrees with the repaired lexer, which returns ENDOFLINE there |
| `Multiplicative.FallsOffAfterLastToken` | main.cpp:88-109 | on the line "3", the call that `factor` makes after the 3 reaches the end of `get_next_token` without a return |
| `Multiplicative.NextTokenMeaning` | main.cpp:88-109 | ENDOFLINE exactly when only whitespace is left, with the cursor at the end; INTEGER is the maximal digit run's decimal value; MUL or DIV is the one character after the whitespace; any other character is an InvalidCharacter error with the cursor left on it |
| `Multiplicative.EndOfLineIsSticky` | main.cpp:89-109 | after ENDOFLINE the cursor is at the end and further calls keep returning ENDOFLINE without moving it |
| `Multiplicative.LexFrom` | main.cpp:88-109 | successive calls give a stream that begins with the first call's result and closes with ENDOFLINE or the first error |
| `Multiplicative.Ahead` | main.cpp:114-115 | the stream seen by an interpreter whose current token is already fetched is a well-formed stream that starts with that token |
| `Multiplicative.QuotientOfNaturals` | main.cpp:147 | on non-negative operands, C++'s truncating division is the floor quotient |
| `Multiplicative.ValueFront` | main.cpp:139-149 | the left fold read from the front: the first pair folds into the starting value |
| `Multiplicative.ContinueOps` | main.cpp:139-149 | the loop consumes whole `op n` pairs, folds each into the result and goes on with whatever follows the last one, a lexing error included |
| `Multiplicative.SentencePrefix` | main.cpp:136-151 | an integer followed by pairs evaluates like the loop started on whatever follows them, from the grouped value |
| `Multiplicative.EvaluateSentence` | main.cpp:136-151 | `a op1 b op2 c ...` followed by any non-operator token evaluates to `(a op1 b) op2 c ...` |
| `Multiplicative.ContinueOkShape` | main.cpp:139-150 | the loop succeeds only on pairs followed by a token that lexes and is no operator, with their folded value |
| `Multiplicative.EvaluateOkShape` | main.cpp:136-151 | `expr` succeeds only on a sentence followed by a non-operator token, and then yields its left-grouped value (converse of EvaluateSentence) |
| `Multiplicative.ZeroDivisorFails` | main.cpp:145-147 | dividing by a zero operand is a DivisionByZero error once the token after it lexes; a lexing error there comes first |
| `Multiplicative.MissingOperandFails` | main.cpp:139-148 | an operator followed by anything but an integer is a syntax error |
| `Multiplicative.LexingErrorReached` | main.cpp:106 | a lexing error that evaluation reaches, after an operand or after an operator, aborts the line with that error |
| `Multiplicative.ContinueNonNegative` | main.cpp:139-149 | from a non-negative result, every product and truncated quotient of lexed integers stays non-negative |
| `Multiplicative.NonNegativeResult` | main.cpp:136-151 | every result `expr` returns is non-negative |
| `Multiplicative.BlankLineFails` | main.cpp:130-137 | an empty or whitespace-only line is a syntax error |
| `Multiplicative.LeadingOperatorFails` | main.cpp:130-137 | a line whose first token is an operator is a syntax error |
| `Multiplicative.LexFromShift` | main.cpp:89-93 | inserting whitespace that does not split a number leaves the whole token stream unchanged |
| `Multiplicative.WhitespaceInsensitive` | main.cpp:89-93 | inserting whitespace that does not split a number leaves the line's result unchanged |
| `Multiplicative.LexSpelled` | main.cpp:88-109 | the text of tokens written out with single spaces, read from any cursor, lexes back to those tokens and then ENDOFLINE |
| `Multiplicative.LexUnlex` | main.cpp:88-109 | writing tokens out and lexing the line gives back the tokens, then ENDOFLINE |
| `Multiplicative.InterpretSpelled` | main.cpp:136-151 | a sentence without a zero divisor, written out as a line, evaluates to its left-grouped value: "a" gives a, "a * b" gives a * b, and "a / b" gives the truncated quotient |
| `Multiplicative.Lexer.constructor` | main.cpp:55 | the cursor starts at 0 on the first character, or on NUL for an empty text |
| `Multiplicative.Lexer.Copy` | main.cpp:117 | the interpreter's copy has the same text and cursor as the caller's lexer |
| `Multiplicative.Lexer.Advance` | main.cpp:61-68 | the cursor moves one character on, and the current character is NUL exactly when the cursor reaches the end |
| `Multiplicative.Lexer.SkipWhitespace` | main.cpp:70-74 | the cursor ends where the run of whitespace ends, on a non-space character or at the end |
| `Multiplicative.Lexer.Integer` | main.cpp:76-83 | the cursor ends after the maximal digit run, and the result is the run's decimal value |
| `Multiplicative.Lexer.GetNextToken` | main.cpp:88-109 | the returned token and the new cursor are what the repaired NextToken gives for the old cursor |
| `Multiplicative.Interpreter.Init` | main.cpp:112-117 | an interpreter over the given lexer with the given current token |
| `Multiplicative.Interpreter.Create` | main.cpp:112-117 | construction copies the lexer and fetches the first token from the copy; a lexing error escapes; the caller's lexer is unchanged |
| `Multiplicative.Interpreter.Eat` | main.cpp:123-129 | a matching current token is replaced by the next token and the cursor moves as NextToken says; a mismatch is a syntax error that changes nothing; a lexing error is passed on |
| `Multiplicative.Interpreter.Factor` | main.cpp:130-134 | an integer current token is returned once the token after it is fetched; otherwise a syntax error that changes nothing; a lexing error in that fetch is passed on, with the current token left as it was |
| `Multiplicative.Interpreter.Expr` | main.cpp:136-151 | the result is Evaluate of the stream seen from the current token; on success the current token is the one that stopped the loop, which is not MUL or DIV, and the stream still ahead is what follows the sentence read, the leading integer and the pairs `PairsThenStop` describes |
| `Multiplicative.Calculate` | main.cpp:159-161 | a NUL-free line through a fresh lexer and interpreter gives Interpret of the line |
| `Multiplicative.LeftToRight` | main.cpp:136-151 | "100 / 5 / 2" gives 10 |
| `Multiplicative.FirstThenStop` | main.cpp:139-150 | an integer followed by any token other than MUL or DIV is the whole result |
| `Multiplicative.AdjacentIntegersExample` | main.cpp:139-150 | "3 4" gives 3 |
| `Multiplicative.UnreadCharacterExample` | main.cpp:139-150 | "3 4 &" gives 3: the `&` is never lexed |
| `Multiplicative.InvalidCharacterExample` | main.cpp:106 | "3 + 4" is an InvalidCharacter error |
| `Multiplicative.ErrorAfterOperandExample` | main.cpp:130-134 | "3 * 4 &" is an InvalidCharacter error: `factor` fetches the `&` after reading the 4 |
| `Multiplicative.ZeroDivisorExample` | main.cpp:147 | "7 / 0" is a DivisionByZero error |

## Left out

- The two read-evaluate-print loops (part_1_2.cpp:160-177, main.cpp:154-165) read standard
  input and write standard output. `Calculate` models the evaluation of one line as they do
  it.
- Exceptions are modelled as `Result` values carrying `InvalidCharacter` or `InvalidSyntax`,
  and `Eat` returns an `Outcome`. The model does not capture which exception types are thrown
  and caught. part_1_2.cpp throws `invalid_argument`, and its loop catches only `const char*`.
  main.cpp throws the `c_str()` of a destroyed local string.
- The `operator<<` printers and the `cerr` logging are output only. This includes main.cpp's
  swapped printed names of MUL and DIV at lines 33-37.
- `long` is 64 bits wide, and the digit accumulation and the arithmetic can overflow it. The
  model uses unbounded integers.
- `isspace` and `isdigit` are modelled for the "C" locale on ASCII characters. Locale and
  signed-`char` effects are not modelled.
- Division by zero is undefined behaviour in main.cpp:147. The model makes it a
  `DivisionByZero` error. The error is raised where the C++ division would happen: after
  `factor` has fetched the token that follows the divisor.
- Multiplicative: texts with embedded NUL characters are excluded. The `'\0'` sentinel would
  read them as the end of the text, so `Lexer`'s constructor and `Calculate` require a
  NUL-free text.
- Multiplicative.Lexer.Advance: requires a current character other than NUL, that is, a
  cursor before the end. The source never calls `advance` there. Under this condition, the
  comparison of the signed `_pos` with the unsigned `_text.length() - 1` cannot wrap around.
- Additive: `_text` is a reference to the caller's string. Nothing changes that string during
  evaluation, so the model keeps a copy of its value.
- Additive.Interpreter.ReadDigits: the digit loop inside `get_next_token` is its own method in
  the model. The source's loop stops at the string's terminating NUL, which the model reads as
  stopping at the end of the text.

## Findings

| source | as written | input that shows it | evidently intended | confidence | as-written member | corrected member |
|---|---|---|---|---|---|---|
| main.cpp:88-109 | once only whitespace is left, the `while` loop of `get_next_token` ends and control reaches the end of a function returning `Token` without a return statement, which is undefined behaviour | the line "3": `factor` eats the 3 and asks for the next token at the end of the text | return the ENDOFLINE token with value 0, as the enum at main.cpp:7 and the additive lexer do; proved sticky by `Multiplicative.EndOfLineIsSticky` and equal to the as-written function everywhere else by `Multiplicative.AsWrittenFallsOffAtEnd` | not executed | `Multiplicative.FallsOffAfterLastToken` | `Multiplicative.NextToken` |
