/** Character classes and the scanning steps that the two lexers share.

    Both lexers skip a run of whitespace, stop at the end of the text, read a
    maximal run of decimal digits as one integer, and otherwise look at a single
    character. This module states those steps once, on a text and a position. */
module Scanning {

  /** `isspace` in the "C" locale: space, tab, line feed, vertical tab, form feed,
      carriage return. */
  predicate IsSpace(c: char) {
    c == ' ' || ('\t' <= c <= '\r')
  }

  /** `isdigit`: the ten ASCII decimal digits. */
  predicate IsDigit(c: char) {
    '0' <= c <= '9'
  }

  predicate AllDigits(ds: seq<char>) {
    forall k :: 0 <= k < |ds| ==> IsDigit(ds[k])
  }

  /** The value of one digit, `c - '0'` in the source. */
  function DigitValue(c: char): (d: nat)
    requires IsDigit(c)
    ensures d < 10
  {
    (c as int) - ('0' as int)
  }

  /** The digit that stands for `d`. */
  function DigitChar(d: nat): (c: char)
    requires d < 10
    ensures IsDigit(c) && DigitValue(c) == d
  {
    (('0' as int) + d) as char
  }

  /** A text without NUL characters: a C string holding it ends at its terminator. */
  predicate NulFree(text: string) {
    forall k :: 0 <= k < |text| ==> text[k] != '\0'
  }

  /** The character at `pos`, or the terminating NUL at the end of the text. */
  function CharAt(text: string, pos: nat): char
    requires pos <= |text|
  {
    if pos < |text| then text[pos] else '\0'
  }

  /** In a NUL-free text the NUL is seen exactly at the end. */
  lemma NulMarksEnd(text: string, pos: nat)
    requires NulFree(text) && pos <= |text|
    ensures CharAt(text, pos) == '\0' <==> pos == |text|
  {
  }

  /** Where a run of whitespace starting at `pos` ends. */
  function SkipSpaces(text: string, pos: nat): (q: nat)
    requires pos <= |text|
    ensures pos <= q <= |text|
    ensures forall k :: pos <= k < q ==> IsSpace(text[k])
    ensures q == |text| || !IsSpace(text[q])
    decreases |text| - pos
  {
    if pos < |text| && IsSpace(text[pos]) then SkipSpaces(text, pos + 1) else pos
  }

  /** Where a run of digits starting at `pos` ends. */
  function DigitRunEnd(text: string, pos: nat): (q: nat)
    requires pos <= |text|
    ensures pos <= q <= |text|
    ensures AllDigits(text[pos..q])
    ensures q == |text| || !IsDigit(text[q])
    decreases |text| - pos
  {
    if pos < |text| && IsDigit(text[pos]) then DigitRunEnd(text, pos + 1) else pos
  }

  /** The end of a whitespace run is the one position with the two properties
      `SkipSpaces` promises. */
  lemma SkipSpacesUnique(text: string, pos: nat, q: nat)
    requires pos <= q <= |text|
    requires forall k :: pos <= k < q ==> IsSpace(text[k])
    requires q == |text| || !IsSpace(text[q])
    ensures SkipSpaces(text, pos) == q
  {
  }

  /** The same for a digit run. */
  lemma DigitRunEndUnique(text: string, pos: nat, q: nat)
    requires pos <= q <= |text|
    requires AllDigits(text[pos..q])
    requires q == |text| || !IsDigit(text[q])
    ensures DigitRunEnd(text, pos) == q
  {
    var e := DigitRunEnd(text, pos);
    assert forall k :: pos <= k < q ==> text[pos..q][k - pos] == text[k];
    assert forall k :: pos <= k < e ==> text[pos..e][k - pos] == text[k];
  }

  /** The decimal value of a digit string, read left to right as the lexers'
      `result = result * 10 + digit` loops read it. */
  function DecimalValue(ds: seq<char>): nat
    requires AllDigits(ds)
  {
    if ds == [] then 0
    else DecimalValue(ds[..|ds| - 1]) * 10 + DigitValue(ds[|ds| - 1])
  }

  /** A run of digits inside a text grows by the digit after it. */
  lemma DigitRunExtend(text: string, start: nat, pos: nat)
    requires start <= pos < |text| && AllDigits(text[start..pos]) && IsDigit(text[pos])
    ensures AllDigits(text[start..pos + 1])
  {
    var run, shorter := text[start..pos + 1], text[start..pos];
    forall k | 0 <= k < |run|
      ensures IsDigit(run[k])
    {
      if k < |shorter| {
        assert run[k] == shorter[k];
      }
    }
  }

  /** One more digit of a run inside a text: the step of the accumulation loops. */
  lemma DecimalValueStep(text: string, start: nat, pos: nat)
    requires start <= pos < |text|
    requires AllDigits(text[start..pos + 1])
    ensures AllDigits(text[start..pos])
    ensures DecimalValue(text[start..pos + 1])
         == DecimalValue(text[start..pos]) * 10 + DigitValue(text[pos])
  {
    assert text[start..pos + 1][..pos - start] == text[start..pos];
    assert forall k :: 0 <= k < pos - start ==> text[start..pos][k] == text[start..pos + 1][k];
  }

  /** The shortest decimal notation of `n`, most significant digit first. */
  function DecimalString(n: nat): (s: string)
    ensures |s| > 0 && AllDigits(s)
    ensures s[0] == '0' ==> n == 0
  {
    if n < 10 then [DigitChar(n)] else DecimalString(n / 10) + [DigitChar(n % 10)]
  }

  /** Reading the decimal notation of `n` gives back `n`. */
  lemma {:induction false} DecimalRoundTrip(n: nat)
    ensures DecimalValue(DecimalString(n)) == n
  {
    var s := DecimalString(n);
    if n >= 10 {
      assert s[..|s| - 1] == DecimalString(n / 10);
      DecimalRoundTrip(n / 10);
    } else {
      assert s[..|s| - 1] == [];
    }
  }

  /** What one scanning step finds after the whitespace. */
  datatype Lexeme =
    | EndOfText           // nothing but whitespace is left
    | Number(value: nat)  // a maximal run of digits, by its decimal value
    | Symbol(symbol: char)  // any other character; the lexer decides what it means

  /** A lexeme with the position where it starts and the position just past it. */
  datatype Scanned = Scanned(lexeme: Lexeme, start: nat, end: nat)

  /** Skip whitespace from `pos`, then classify what follows. */
  function Scan(text: string, pos: nat): (s: Scanned)
    requires pos <= |text|
    ensures pos <= s.start <= s.end <= |text|
    ensures s.start == SkipSpaces(text, pos)
    ensures s.lexeme.EndOfText? <==> s.start == |text|
    ensures s.lexeme.EndOfText? ==> s.end == s.start
    ensures s.lexeme.Number? ==> s.start < s.end
    ensures s.lexeme.Symbol? ==> s.end == s.start + 1
  {
    var start := SkipSpaces(text, pos);
    if start == |text| then Scanned(EndOfText, start, start)
    else if IsDigit(text[start]) then
      var end := DigitRunEnd(text, start);
      Scanned(Number(DecimalValue(text[start..end])), start, end)
    else Scanned(Symbol(text[start]), start, start + 1)
  }

  /** Scanning at the first digit of a written-out number, followed by the end of
      the text or by a non-digit, finds that number. */
  lemma ScanNumberAt(text: string, pos: nat, n: nat)
    requires pos + |DecimalString(n)| <= |text|
    requires text[pos..pos + |DecimalString(n)|] == DecimalString(n)
    requires pos + |DecimalString(n)| == |text| || !IsDigit(text[pos + |DecimalString(n)|])
    ensures Scan(text, pos) == Scanned(Number(n), pos, pos + |DecimalString(n)|)
  {
    var d := DecimalString(n);
    assert text[pos] == d[0];
    DigitRunEndUnique(text, pos, pos + |d|);
    DecimalRoundTrip(n);
  }

  /** A whitespace character in front of a scan is skipped. */
  lemma ScanSkipsSpace(text: string, pos: nat)
    requires pos < |text| && IsSpace(text[pos])
    ensures Scan(text, pos) == Scan(text, pos + 1)
  {
  }

  // ---------------------------------------------------------------------------
  // Whitespace between tokens. Inserting one whitespace character anywhere that
  // does not split a run of digits leaves every scan unchanged, up to the shift of
  // positions after the insertion point.

  function InsertAt(text: string, i: nat, c: char): (t: string)
    requires i <= |text|
    ensures |t| == |text| + 1
  {
    text[..i] + [c] + text[i..]
  }

  /** Inserting at `i` separates two digits, so it would cut a number in two. */
  predicate SplitsNumber(text: string, i: nat) {
    0 < i < |text| && IsDigit(text[i - 1]) && IsDigit(text[i])
  }

  /** Where position `p` of the text lands after the insertion at `i`. */
  function Shift(i: nat, p: nat): nat {
    if p < i then p else p + 1
  }

  /** Position `q` of the new text stands for position `p` of the old one:
      the image of `p`, or the inserted character itself standing for `i`. */
  predicate Corresponds(i: nat, q: nat, p: nat) {
    q == Shift(i, p) || (p == i && q == i)
  }

  lemma InsertAtIndex(text: string, i: nat, c: char, k: nat)
    requires i <= |text| && k < |text|
    ensures InsertAt(text, i, c)[Shift(i, k)] == text[k]
  {
  }

  lemma SkipSpacesShift(text: string, i: nat, c: char, q: nat, p: nat)
    requires i <= |text| && p <= |text| && IsSpace(c)
    requires Corresponds(i, q, p)
    ensures SkipSpaces(InsertAt(text, i, c), q) == Shift(i, SkipSpaces(text, p))
  {
    var t := InsertAt(text, i, c);
    var e := SkipSpaces(text, p);
    var e' := Shift(i, e);
    forall k | q <= k < e' ensures IsSpace(t[k]) {
      if k < i {
        assert t[k] == text[k];
      } else if k > i {
        assert t[k] == text[k - 1];
      }
    }
    if e' < |t| {
      InsertAtIndex(text, i, c, e);
    }
    SkipSpacesUnique(t, q, e');
  }

  /** A digit run that starts at or after the insertion point moves by one. */
  lemma DigitRunAfter(text: string, i: nat, c: char, p: nat)
    requires i <= p < |text| && IsSpace(c)
    ensures DigitRunEnd(InsertAt(text, i, c), p + 1) == DigitRunEnd(text, p) + 1
    ensures InsertAt(text, i, c)[p + 1..DigitRunEnd(text, p) + 1] == text[p..DigitRunEnd(text, p)]
  {
    var t := InsertAt(text, i, c);
    var e := DigitRunEnd(text, p);
    assert t[p + 1..e + 1] == text[p..e] by {
      forall k | 0 <= k < e - p ensures t[p + 1..e + 1][k] == text[p..e][k] {
        InsertAtIndex(text, i, c, p + k);
      }
    }
    if e < |text| {
      InsertAtIndex(text, i, c, e);
    }
    DigitRunEndUnique(t, p + 1, e + 1);
  }

  /** A digit run that starts before the insertion point ends at or before it,
      unless the insertion splits a number. */
  lemma DigitRunBefore(text: string, i: nat, c: char, p: nat)
    requires p < i <= |text| && IsSpace(c) && !SplitsNumber(text, i)
    ensures DigitRunEnd(text, p) <= i
    ensures DigitRunEnd(InsertAt(text, i, c), p) == DigitRunEnd(text, p)
    ensures InsertAt(text, i, c)[p..DigitRunEnd(text, p)] == text[p..DigitRunEnd(text, p)]
  {
    var t := InsertAt(text, i, c);
    var e := DigitRunEnd(text, p);
    assert e <= i by {
      assert forall k :: p <= k < e ==> text[p..e][k - p] == text[k];
    }
    assert t[p..e] == text[p..e] by {
      forall k | 0 <= k < e - p ensures t[p..e][k] == text[p..e][k] {
        InsertAtIndex(text, i, c, p + k);
      }
    }
    if e < i {
      InsertAtIndex(text, i, c, e);
    } else {
      assert t[e] == c;
    }
    DigitRunEndUnique(t, p, e);
  }

  /** The whitespace-insensitivity of one scanning step. */
  lemma ScanShift(text: string, i: nat, c: char, q: nat, p: nat)
    requires i <= |text| && p <= |text| && IsSpace(c) && !SplitsNumber(text, i)
    requires Corresponds(i, q, p)
    ensures q <= |InsertAt(text, i, c)|
    ensures Scan(InsertAt(text, i, c), q).lexeme == Scan(text, p).lexeme
    ensures Scan(InsertAt(text, i, c), q).start == Shift(i, Scan(text, p).start)
    ensures Corresponds(i, Scan(InsertAt(text, i, c), q).end, Scan(text, p).end)
  {
    SkipSpacesShift(text, i, c, q, p);
    var start := SkipSpaces(text, p);
    if start < |text| {
      InsertAtIndex(text, i, c, start);
      if IsDigit(text[start]) {
        ScanShiftNumber(text, i, c, q, p, start);
      }
    }
  }

  /** Scanning where the whitespace ends at a digit finds the number there. */
  lemma ScanAtDigit(text: string, p: nat, start: nat)
    requires p <= |text| && start == SkipSpaces(text, p) && start < |text| && IsDigit(text[start])
    ensures Scan(text, p)
         == Scanned(Number(DecimalValue(text[start..DigitRunEnd(text, start)])), start, DigitRunEnd(text, start))
  {
  }

  /** The same when the scan finds a number. */
  lemma ScanShiftNumber(text: string, i: nat, c: char, q: nat, p: nat, start: nat)
    requires i <= |text| && p <= |text| && IsSpace(c) && !SplitsNumber(text, i)
    requires Corresponds(i, q, p) && q <= |InsertAt(text, i, c)|
    requires start == SkipSpaces(text, p) && start < |text| && IsDigit(text[start])
    requires SkipSpaces(InsertAt(text, i, c), q) == Shift(i, start)
    ensures Scan(InsertAt(text, i, c), q).lexeme == Scan(text, p).lexeme
    ensures Scan(InsertAt(text, i, c), q).start == Shift(i, start)
    ensures Corresponds(i, Scan(InsertAt(text, i, c), q).end, Scan(text, p).end)
  {
    var t := InsertAt(text, i, c);
    var start' := Shift(i, start);
    InsertAtIndex(text, i, c, start);
    ScanAtDigit(text, p, start);
    ScanAtDigit(t, q, start');
    if start < i {
      DigitRunBefore(text, i, c, start);
    } else {
      DigitRunAfter(text, i, c, start);
    }
  }

  /** A text that reads `word`, a space and `rest` from `pos` on. */
  lemma SplitAtSpace(text: string, pos: nat, word: string, rest: string)
    requires pos <= |text| && text[pos..] == word + " " + rest
    ensures pos + |word| < |text| && text[pos..pos + |word|] == word
    ensures text[pos + |word|] == ' ' && text[pos + |word| + 1..] == rest
  {
    var end := pos + |word|;
    assert text[pos..end] == text[pos..][..|word|];
    assert text[end] == text[pos..][|word|];
    assert text[end + 1..] == text[pos..][|word| + 1..];
  }
}
