/**
 * What PScript.Parsing.Tokenizer computes, stated on values: one scanning
 * step from a cursor (position, line, column) to the token it produces and
 * the cursor after it, and the whole token stream of a text. The class in
 * Tokenizer.dfy is proved to follow these functions step by step.
 *
 * Char.IsLetter and Char.IsDigit are modelled by their ASCII subsets.
 */
module TokenizerSpec {
  import opened Wrappers
  import opened Tokens
  import opened Exceptions
  import Decimal

  /** LA returns NUL past the end of the text; a NUL in the text reads the same. */
  const EofChar: char := '\0'

  /** The symbol characters a new tokenizer starts with. */
  const DefaultSymbolChars: seq<char> := ['=', ',', '$', '(', ')', '{', '}', ';']

  predicate IsLetter(c: char) {
    'a' <= c <= 'z' || 'A' <= c <= 'Z'
  }

  predicate IsDigit(c: char) {
    Decimal.IsDigit(c)
  }

  predicate IsBlank(c: char) {
    c == ' ' || c == '\t'
  }

  predicate IsWordChar(c: char) {
    IsLetter(c) || c == '_'
  }

  /** The scanner's position: index into the text, and the 1-based line and column. */
  datatype Cursor = Cursor(pos: nat, line: int, column: int)

  const Start: Cursor := Cursor(0, 1, 1)

  /** LA(0) at position p. */
  function Peek(data: string, p: nat): char {
    if p >= |data| then EofChar else data[p]
  }

  /** The outcome of one Next(): the token (or the failure) and the cursor after it. */
  datatype Step = Step(result: Result<Token>, next: Cursor)

  /**
   * CreateToken: the text consumed since the saved cursor, with the first and
   * last character cut off for a quoted string (a failure when fewer than two
   * characters were consumed), positioned at the saved line and column.
   */
  function MakeToken(data: string, kind: TokenKind, save: Cursor, pos: nat): (r: Result<Token>)
    requires save.pos <= pos <= |data|
    ensures r.Ok? ==> r.value.kind == kind && r.value.line == save.line && r.value.column == save.column
    ensures r.Fail? <==> kind == QuotedString && pos - save.pos < 2
    ensures r.Ok? && kind != QuotedString ==> r.value.value == data[save.pos..pos]
    ensures r.Ok? && kind == QuotedString ==> r.value.value == data[save.pos + 1..pos - 1]
  {
    var text := data[save.pos..pos];
    if kind == QuotedString then
      if |text| < 2 then Fail(ArgumentOutOfRange)
      else
        assert text[1..|text| - 1] == data[save.pos + 1..pos - 1];
        Ok(Token(kind, text[1..|text| - 1], save.line, save.column))
    else Ok(Token(kind, text, save.line, save.column))
  }

  /** End of the run of spaces and tabs starting at p: the loop of ReadWhitespace. */
  function BlankRunEnd(data: string, p: nat): (e: nat)
    requires p <= |data|
    ensures p <= e <= |data|
    ensures forall i | p <= i < e :: IsBlank(data[i])
    ensures !IsBlank(Peek(data, e))
    decreases |data| - p
  {
    if IsBlank(Peek(data, p)) then BlankRunEnd(data, p + 1) else p
  }

  /** End of the run of letters and underscores starting at p: the loop of ReadWord. */
  function WordRunEnd(data: string, p: nat): (e: nat)
    requires p <= |data|
    ensures p <= e <= |data|
    ensures forall i | p <= i < e :: IsWordChar(data[i])
    ensures !IsWordChar(Peek(data, e))
    decreases |data| - p
  {
    if IsWordChar(Peek(data, p)) then WordRunEnd(data, p + 1) else p
  }

  /** The run ends at the first character that is not a space or tab. */
  lemma {:induction false} BlankRunEndUnique(data: string, p: nat, e: nat)
    requires p <= e <= |data|
    requires forall i | p <= i < e :: IsBlank(data[i])
    requires !IsBlank(Peek(data, e))
    ensures BlankRunEnd(data, p) == e
    decreases e - p
  {
    if p < e {
      BlankRunEndUnique(data, p + 1, e);
    }
  }

  /** The run ends at the first character that is neither a letter nor '_'. */
  lemma {:induction false} WordRunEndUnique(data: string, p: nat, e: nat)
    requires p <= e <= |data|
    requires forall i | p <= i < e :: IsWordChar(data[i])
    requires !IsWordChar(Peek(data, e))
    ensures WordRunEnd(data, p) == e
    decreases e - p
  {
    if p < e {
      WordRunEndUnique(data, p + 1, e);
    }
  }

  /** Number of '.' characters in s. */
  function Dots(s: string): nat {
    if s == [] then 0 else (if s[0] == '.' then 1 else 0) + Dots(s[1..])
  }

  /** The shape DIGIT+ ('.' DIGIT*)? */
  predicate IsNumberText(s: string) {
    && |s| > 0
    && IsDigit(s[0])
    && (forall i | 0 <= i < |s| :: IsDigit(s[i]) || s[i] == '.')
    && Dots(s) <= 1
  }

  /**
   * End of the number tail starting at p: the loop of ReadNumber, which takes
   * digits and at most one '.' in all (hadDot says whether one was taken).
   */
  function NumberRunEnd(data: string, p: nat, hadDot: bool): (e: nat)
    requires p <= |data|
    ensures p <= e <= |data|
    ensures forall i | p <= i < e :: IsDigit(data[i]) || data[i] == '.'
    ensures !IsDigit(Peek(data, e))
    decreases |data| - p
  {
    var ch := Peek(data, p);
    if IsDigit(ch) || (ch == '.' && !hadDot) then NumberRunEnd(data, p + 1, hadDot || ch == '.')
    else p
  }

  /** The number tail holds digits and at most one '.' in all, and a '.' ends it only as the second one. */
  lemma {:induction false} NumberRunShape(data: string, p: nat, hadDot: bool)
    requires p <= |data|
    ensures var e := NumberRunEnd(data, p, hadDot);
      && Dots(data[p..e]) + (if hadDot then 1 else 0) <= 1
      && (Peek(data, e) == '.' ==> Dots(data[p..e]) + (if hadDot then 1 else 0) == 1)
    decreases |data| - p
  {
    var ch := Peek(data, p);
    if IsDigit(ch) || (ch == '.' && !hadDot) {
      var e := NumberRunEnd(data, p + 1, hadDot || ch == '.');
      NumberRunShape(data, p + 1, hadDot || ch == '.');
      assert data[p..e][1..] == data[p + 1..e];
    }
  }

  /** Every '"' in s is the first of a '""' pair. */
  predicate QuotesPaired(s: string)
    decreases |s|
  {
    if s == [] then true
    else if s[0] == '"' then |s| >= 2 && s[1] == '"' && QuotesPaired(s[2..])
    else QuotesPaired(s[1..])
  }

  /**
   * The cursor after the loop of ReadString, started just after the opening
   * quote: the end of the text (or a NUL) ends the string silently, a lone
   * '"' is consumed and ends it, anything else is one StringStep.
   */
  function StringEnd(data: string, c: Cursor): (e: Cursor)
    requires c.pos <= |data|
    ensures c.pos <= e.pos <= |data|
    decreases |data| - c.pos
  {
    var ch := Peek(data, c.pos);
    if ch == EofChar then c
    else if ch == '"' && Peek(data, c.pos + 1) != '"' then Cursor(c.pos + 1, c.line, c.column + 1)
    else StringEnd(data, StringStep(data, c))
  }

  /**
   * One round of the loop of ReadString that does not end it: a newline
   * (CR, LF or CR LF) moves to column 1 of the next line, a '""' pair is
   * kept and moves two columns, any other character moves one.
   */
  function StringStep(data: string, c: Cursor): (n: Cursor)
    requires c.pos < |data|
    requires data[c.pos] == '"' ==> Peek(data, c.pos + 1) == '"'
    ensures c.pos < n.pos <= c.pos + 2 && n.pos <= |data|
    ensures data[c.pos] == '"' ==> n.pos == c.pos + 2 && data[c.pos + 1] == '"'
    ensures data[c.pos] != '"' ==> forall i | c.pos <= i < n.pos :: data[i] != '"'
  {
    var ch := data[c.pos];
    if ch == '\r' then
      Cursor(if Peek(data, c.pos + 1) == '\n' then c.pos + 2 else c.pos + 1, c.line + 1, 1)
    else if ch == '\n' then Cursor(c.pos + 1, c.line + 1, 1)
    else if ch == '"' then Cursor(c.pos + 2, c.line, c.column + 2)
    else Cursor(c.pos + 1, c.line, c.column + 1)
  }

  /** Whether the loop of ReadString ends on a lone '"' rather than at the end of the text. */
  function StringClosed(data: string, c: Cursor): bool
    requires c.pos <= |data|
    decreases |data| - c.pos
  {
    var ch := Peek(data, c.pos);
    if ch == EofChar then false
    else if ch == '"' && Peek(data, c.pos + 1) != '"' then true
    else StringClosed(data, StringStep(data, c))
  }

  /** A closed string ends just after a lone '"'; an open one at the end of the text (or a NUL). */
  lemma {:induction false} StringEndCloses(data: string, c: Cursor)
    requires c.pos <= |data|
    ensures var e := StringEnd(data, c);
      && (StringClosed(data, c) ==> c.pos < e.pos && data[e.pos - 1] == '"' && Peek(data, e.pos) != '"')
      && (!StringClosed(data, c) ==> Peek(data, e.pos) == EofChar)
    decreases |data| - c.pos
  {
    var ch := Peek(data, c.pos);
    if ch != EofChar && !(ch == '"' && Peek(data, c.pos + 1) != '"') {
      StringEndCloses(data, StringStep(data, c));
    }
  }

  /** A string never consumes a NUL, and never stops between a CR and its LF. */
  lemma {:induction false} StringEndStopsCleanly(data: string, c: Cursor)
    requires c.pos <= |data|
    ensures var e := StringEnd(data, c);
      && (forall i | c.pos <= i < e.pos :: data[i] != EofChar)
      && (c.pos < e.pos && data[e.pos - 1] == '\r' ==> Peek(data, e.pos) != '\n')
    decreases |data| - c.pos
  {
    var ch := Peek(data, c.pos);
    if ch != EofChar && !(ch == '"' && Peek(data, c.pos + 1) != '"') {
      StringEndStopsCleanly(data, StringStep(data, c));
    }
  }

  /**
   * Inside a string every '"' is the first of a '""' pair, which is kept as
   * it is: up to the closing quote when there is one, up to the end otherwise.
   */
  lemma {:induction false} StringEndPairsQuotes(data: string, c: Cursor)
    requires c.pos <= |data|
    ensures var e := StringEnd(data, c);
      && (StringClosed(data, c) ==> c.pos < e.pos && QuotesPaired(data[c.pos..e.pos - 1]))
      && (!StringClosed(data, c) ==> QuotesPaired(data[c.pos..e.pos]))
    decreases |data| - c.pos
  {
    var ch := Peek(data, c.pos);
    var e := StringEnd(data, c);
    if ch == EofChar {
    } else if ch == '"' && Peek(data, c.pos + 1) != '"' {
      assert data[c.pos..e.pos - 1] == [];
    } else {
      var c' := StringStep(data, c);
      var k := c'.pos - c.pos;
      assert e == StringEnd(data, c') && StringClosed(data, c) == StringClosed(data, c');
      StringEndPairsQuotes(data, c');
      if StringClosed(data, c) {
        PairedAfterStep(data, c.pos, c'.pos, e.pos - 1);
      } else {
        PairedAfterStep(data, c.pos, c'.pos, e.pos);
      }
    }
  }

  lemma PairedAfterStep(data: string, p: nat, q: nat, b: nat)
    requires p < q <= b <= |data| && q <= p + 2
    requires || (q == p + 2 && data[p] == '"' && data[p + 1] == '"')
             || (forall i | p <= i < q :: data[i] != '"')
    requires QuotesPaired(data[q..b])
    ensures QuotesPaired(data[p..b])
  {
    var body := data[p..b];
    assert body[q - p..] == data[q..b];
    QuotesPairedStep(body, q - p);
  }

  /** Dropping a leading '""' pair, or up to two characters that are not '"', keeps QuotesPaired. */
  lemma QuotesPairedStep(s: string, k: nat)
    requires 0 < k <= 2 && k <= |s|
    requires || (k == 2 && s[0] == '"' && s[1] == '"')
             || (forall i | 0 <= i < k :: s[i] != '"')
    ensures QuotesPaired(s) == QuotesPaired(s[k..])
  {
    if k == 2 && s[0] != '"' {
      assert s[1..][1..] == s[2..];
    }
  }

  /** ReadWhitespace. */
  function ScanBlank(data: string, c: Cursor): (r: Step)
    requires c.pos < |data| && IsBlank(data[c.pos])
    ensures r.result.Ok? && r.result.value.kind == WhiteSpace && c.pos < r.next.pos <= |data|
    ensures r.result.value.value == data[c.pos..r.next.pos]
    ensures forall i | c.pos <= i < r.next.pos :: IsBlank(data[i])
    ensures !IsBlank(Peek(data, r.next.pos))
    ensures r.next.line == c.line && r.next.column == c.column + |r.result.value.value|
  {
    var e := BlankRunEnd(data, c.pos + 1);
    Step(MakeToken(data, WhiteSpace, c, e), Cursor(e, c.line, c.column + (e - c.pos)))
  }

  /** ReadNumber. */
  function ScanNumber(data: string, c: Cursor): (r: Step)
    requires c.pos < |data| && IsDigit(data[c.pos])
    ensures r.result.Ok? && r.result.value.kind == Number && c.pos < r.next.pos <= |data|
    ensures r.result.value.value == data[c.pos..r.next.pos]
    ensures forall i | c.pos <= i < r.next.pos :: IsDigit(data[i]) || data[i] == '.'
    ensures !IsDigit(Peek(data, r.next.pos))
    ensures r.next.line == c.line && r.next.column == c.column + |r.result.value.value|
  {
    var e := NumberRunEnd(data, c.pos + 1, false);
    Step(MakeToken(data, Number, c, e), Cursor(e, c.line, c.column + (e - c.pos)))
  }

  /** The '\r' and '\n' cases of Next: CR LF counts as one line end. */
  function ScanNewline(data: string, c: Cursor): (r: Step)
    requires c.pos < |data| && (data[c.pos] == '\r' || data[c.pos] == '\n')
    ensures r.result.Ok? && r.result.value.kind == EOL && c.pos < r.next.pos <= |data|
    ensures r.result.value.value == data[c.pos..r.next.pos]
    ensures r.next.pos == c.pos + 2 <==> data[c.pos] == '\r' && Peek(data, c.pos + 1) == '\n'
    ensures r.next.pos <= c.pos + 2
    ensures r.next.line == c.line + 1 && r.next.column == 1
  {
    var e := if data[c.pos] == '\r' && Peek(data, c.pos + 1) == '\n' then c.pos + 2 else c.pos + 1;
    Step(MakeToken(data, EOL, c, e), Cursor(e, c.line + 1, 1))
  }

  /** ReadString. */
  function ScanString(data: string, c: Cursor): (r: Step)
    requires c.pos < |data| && data[c.pos] == '"'
    ensures c.pos < r.next.pos <= |data|
    ensures r.result.Fail? <==> Peek(data, c.pos + 1) == EofChar
    ensures r.result.Fail? ==> r.result == Fail(ArgumentOutOfRange)
    ensures r.result.Ok? ==>
      && r.result.value.kind == QuotedString && c.pos + 2 <= r.next.pos
      && r.result.value.value == data[c.pos + 1..r.next.pos - 1]
  {
    var e := StringEnd(data, Cursor(c.pos + 1, c.line, c.column + 1));
    assert Peek(data, c.pos + 1) != EofChar ==> e.pos >= c.pos + 2;
    Step(MakeToken(data, QuotedString, c, e.pos), e)
  }

  /** ReadWord. */
  function ScanWord(data: string, c: Cursor): (r: Step)
    requires c.pos < |data| && IsWordChar(data[c.pos])
    ensures r.result.Ok? && r.result.value.kind == Word && c.pos < r.next.pos <= |data|
    ensures r.result.value.value == data[c.pos..r.next.pos]
    ensures forall i | c.pos <= i < r.next.pos :: IsWordChar(data[i])
    ensures !IsWordChar(Peek(data, r.next.pos))
    ensures r.next.line == c.line && r.next.column == c.column + |r.result.value.value|
  {
    var e := WordRunEnd(data, c.pos + 1);
    Step(MakeToken(data, Word, c, e), Cursor(e, c.line, c.column + (e - c.pos)))
  }

  /** The symbol case of Next: exactly one character. */
  function ScanSymbol(data: string, c: Cursor): (r: Step)
    requires c.pos < |data|
    ensures r.result.Ok? && r.result.value.kind == Symbol
    ensures r.result.value.value == [data[c.pos]]
    ensures r.next == Cursor(c.pos + 1, c.line, c.column + 1)
  {
    Step(MakeToken(data, Symbol, c, c.pos + 1), Cursor(c.pos + 1, c.line, c.column + 1))
  }

  /**
   * Next(): dispatch on the character under the cursor. The EOF token has
   * empty text and leaves the cursor where it is; every other token
   * consumes at least one character.
   */
  function ScanToken(data: string, symbols: seq<char>, c: Cursor): (s: Step)
    requires c.pos <= |data|
    ensures c.pos <= s.next.pos <= |data|
    ensures s.result.Ok? && s.result.value.kind == EOF <==> Peek(data, c.pos) == EofChar
    ensures s.result.Ok? && s.result.value.kind == EOF ==> s.result.value.value == "" && s.next == c
    ensures s.result.Ok? ==> s.result.value.line == c.line && s.result.value.column == c.column
    ensures s.result.Ok? && s.result.value.kind != EOF ==> c.pos < s.next.pos
    ensures s.result.Ok? && s.result.value.kind !in {EOF, QuotedString} ==>
              s.result.value.value == data[c.pos..s.next.pos]
    ensures s.result.Ok? && s.result.value.kind == QuotedString ==>
              c.pos + 2 <= s.next.pos && s.result.value.value == data[c.pos + 1..s.next.pos - 1]
  {
    var ch := Peek(data, c.pos);
    if ch == EofChar then Step(Ok(Token(EOF, "", c.line, c.column)), c)
    else if IsBlank(ch) then ScanBlank(data, c)
    else if IsDigit(ch) then ScanNumber(data, c)
    else if ch == '\r' || ch == '\n' then ScanNewline(data, c)
    else if ch == '"' then ScanString(data, c)
    else if IsWordChar(ch) then ScanWord(data, c)
    else if ch in symbols then ScanSymbol(data, c)
    else Step(Raise(None, "Unknown token type"), c)
  }

  /** The tokens of a text up to (not including) EOF, and the failure that stopped the scan, if any. */
  datatype Lexed = Lexed(tokens: seq<Token>, error: Option<Error>, end: Cursor)

  /** Calling Next() from cursor c until it returns EOF or fails. */
  function Tokenize(data: string, symbols: seq<char>, c: Cursor): (l: Lexed)
    requires c.pos <= |data|
    ensures c.pos <= l.end.pos <= |data|
    ensures |l.tokens| > 0 ==> c.pos < l.end.pos
    ensures forall t | t in l.tokens :: t.kind != EOF
    ensures l.error.None? ==> Peek(data, l.end.pos) == EofChar
    decreases |data| - c.pos
  {
    var s := ScanToken(data, symbols, c);
    match s.result
    case Fail(e) => Lexed([], Some(e), s.next)
    case Ok(t) =>
      if t.kind == EOF then Lexed([], None, c)
      else
        var rest := Tokenize(data, symbols, s.next);
        Lexed([t] + rest.tokens, rest.error, rest.end)
  }

  // ---------------------------------------------------------------------
  // What one token looks like
  // ---------------------------------------------------------------------

  /**
   * Whitespace and Word tokens are non-empty maximal runs of their
   * characters (so a word holds no digit); a Number token has the shape
   * DIGIT+ ('.' DIGIT*)? and is maximal, a second '.' ending it; a Symbol
   * token is one configured symbol character; an EOL token is CR, LF or
   * CR LF, and a lone CR is not followed by LF.
   */
  lemma ScanTokenRuns(data: string, symbols: seq<char>, c: Cursor)
    requires c.pos <= |data|
    ensures var s := ScanToken(data, symbols, c);
      s.result.Ok? ==>
        var t := s.result.value;
        var after := Peek(data, s.next.pos);
        && (t.kind == WhiteSpace ==>
              |t.value| > 0 && (forall i | 0 <= i < |t.value| :: IsBlank(t.value[i])) && !IsBlank(after))
        && (t.kind == Word ==>
              |t.value| > 0 && (forall i | 0 <= i < |t.value| :: IsWordChar(t.value[i])) && !IsWordChar(after))
        && (t.kind == Number ==>
              IsNumberText(t.value) && !IsDigit(after) && (after == '.' ==> Dots(t.value) == 1))
        && (t.kind == Symbol ==> |t.value| == 1 && t.value[0] in symbols)
        && (t.kind == EOL ==>
              || t.value == "\n" || t.value == "\r\n"
              || (t.value == "\r" && after != '\n'))
  {
    var ch := Peek(data, c.pos);
    if ch == EofChar {
    } else if IsBlank(ch) {
      BlankRuns(data, c);
    } else if IsDigit(ch) {
      NumberRuns(data, c);
    } else if ch == '\r' || ch == '\n' {
      NewlineRuns(data, c);
    } else if ch == '"' {
    } else if IsWordChar(ch) {
      WordRuns(data, c);
    }
  }

  lemma BlankRuns(data: string, c: Cursor)
    requires c.pos < |data| && IsBlank(data[c.pos])
    ensures var s := ScanBlank(data, c);
      && s.result.Ok? && |s.result.value.value| > 0
      && (forall i | 0 <= i < |s.result.value.value| :: IsBlank(s.result.value.value[i]))
      && !IsBlank(Peek(data, s.next.pos))
  {
    var e := BlankRunEnd(data, c.pos + 1);
    var v := data[c.pos..e];
    assert forall i | 0 <= i < |v| :: v[i] == data[c.pos + i];
  }

  lemma WordRuns(data: string, c: Cursor)
    requires c.pos < |data| && IsWordChar(data[c.pos])
    ensures var s := ScanWord(data, c);
      && s.result.Ok? && |s.result.value.value| > 0
      && (forall i | 0 <= i < |s.result.value.value| :: IsWordChar(s.result.value.value[i]))
      && !IsWordChar(Peek(data, s.next.pos))
  {
    var e := WordRunEnd(data, c.pos + 1);
    var v := data[c.pos..e];
    assert forall i | 0 <= i < |v| :: v[i] == data[c.pos + i];
  }

  lemma NumberRuns(data: string, c: Cursor)
    requires c.pos < |data| && IsDigit(data[c.pos])
    ensures var s := ScanNumber(data, c);
      var after := Peek(data, s.next.pos);
      && s.result.Ok?
      && IsNumberText(s.result.value.value) && !IsDigit(after)
      && (after == '.' ==> Dots(s.result.value.value) == 1)
  {
    var e := NumberRunEnd(data, c.pos + 1, false);
    var v := data[c.pos..e];
    NumberRunShape(data, c.pos + 1, false);
    assert v[1..] == data[c.pos + 1..e];
    assert Dots(v) == Dots(data[c.pos + 1..e]);
    assert forall i | 0 <= i < |v| :: v[i] == data[c.pos + i];
  }

  lemma NewlineRuns(data: string, c: Cursor)
    requires c.pos < |data| && (data[c.pos] == '\r' || data[c.pos] == '\n')
    ensures var s := ScanNewline(data, c);
      && s.result.Ok?
      && var v := s.result.value.value;
         v == "\n" || v == "\r\n" || (v == "\r" && Peek(data, s.next.pos) != '\n')
  {
    if data[c.pos] == '\r' && Peek(data, c.pos + 1) == '\n' {
      assert data[c.pos..c.pos + 2] == "\r\n";
    } else {
      var v := data[c.pos..c.pos + 1];
      assert |v| == 1 && v[0] == data[c.pos];
      if data[c.pos] == '\n' {
        assert v == "\n";
      } else {
        assert v == "\r";
      }
    }
  }

  /**
   * Next() fails in two ways only: on a character that starts no rule, with
   * a ScriptException that has no token and leaves the cursor in place; and
   * on a '"' that is the last character (or is followed by NUL), where
   * Substring(1, -1) fails.
   */
  lemma ScanTokenFailures(data: string, symbols: seq<char>, c: Cursor)
    requires c.pos <= |data|
    ensures var s := ScanToken(data, symbols, c);
      var ch := Peek(data, c.pos);
      && (s.result == Raise(None, "Unknown token type") <==>
            && ch != EofChar && !IsBlank(ch) && !IsDigit(ch) && ch != '\r' && ch != '\n'
            && ch != '"' && !IsWordChar(ch) && ch !in symbols)
      && (s.result == Fail(ArgumentOutOfRange) <==> ch == '"' && Peek(data, c.pos + 1) == EofChar)
      && (s.result.Fail? ==> s.result == Raise(None, "Unknown token type") || s.result == Fail(ArgumentOutOfRange))
      && (s.result == Raise(None, "Unknown token type") ==> s.next == c)
  {
    var ch := Peek(data, c.pos);
    if ch == '"' && Peek(data, c.pos + 1) != EofChar {
      assert StringEnd(data, Cursor(c.pos + 1, c.line, c.column + 1)).pos >= c.pos + 2;
    }
  }

  /**
   * A quoted string keeps its '""' pairs verbatim. When closed, its text is
   * everything between the quotes; when the text ends first, the last
   * character consumed is dropped along with the opening quote.
   */
  lemma ScanQuotedString(data: string, symbols: seq<char>, c: Cursor)
    requires c.pos <= |data|
    ensures var s := ScanToken(data, symbols, c);
      s.result.Ok? && s.result.value.kind == QuotedString ==>
        var t := s.result.value;
        && data[c.pos] == '"'
        && (forall i | 0 <= i < |t.value| :: t.value[i] != EofChar)
        && (|| (data[s.next.pos - 1] == '"' && Peek(data, s.next.pos) != '"' && QuotesPaired(t.value))
            || (Peek(data, s.next.pos) == EofChar && QuotesPaired(t.value + [data[s.next.pos - 1]])))
  {
    if Peek(data, c.pos) == '"' {
      StringShape(data, c);
    }
  }

  lemma StringShape(data: string, c: Cursor)
    requires c.pos < |data| && data[c.pos] == '"'
    ensures var s := ScanString(data, c);
      s.result.Ok? ==>
        var v, e := s.result.value.value, s.next.pos;
        && (forall i | 0 <= i < |v| :: v[i] != EofChar)
        && (|| (data[e - 1] == '"' && Peek(data, e) != '"' && QuotesPaired(v))
            || (Peek(data, e) == EofChar && QuotesPaired(v + [data[e - 1]])))
  {
    var c1 := Cursor(c.pos + 1, c.line, c.column + 1);
    var e, closed := StringEndFacts(data, c1);
    if c.pos + 2 <= e {
      QuotedTextShape(data, c.pos, e, closed);
    }
  }

  /** What StringEndCloses, StringEndStopsCleanly and StringEndPairsQuotes say, on plain values. */
  lemma StringEndFacts(data: string, c: Cursor) returns (e: nat, closed: bool)
    requires c.pos <= |data|
    ensures e == StringEnd(data, c).pos && closed == StringClosed(data, c)
    ensures c.pos <= e <= |data|
    ensures forall i | c.pos <= i < e :: data[i] != EofChar
    ensures closed ==> c.pos < e && data[e - 1] == '"' && Peek(data, e) != '"' && QuotesPaired(data[c.pos..e - 1])
    ensures !closed ==> Peek(data, e) == EofChar && QuotesPaired(data[c.pos..e])
  {
    e, closed := StringEnd(data, c).pos, StringClosed(data, c);
    StringEndStopsCleanly(data, c);
    StringEndCloses(data, c);
    StringEndPairsQuotes(data, c);
  }

  /** The text of a quoted string running from the quote at p to e, on plain values. */
  lemma QuotedTextShape(data: string, p: nat, e: nat, closed: bool)
    requires p + 2 <= e <= |data|
    requires forall i | p + 1 <= i < e :: data[i] != EofChar
    requires closed ==> data[e - 1] == '"' && Peek(data, e) != '"' && QuotesPaired(data[p + 1..e - 1])
    requires !closed ==> Peek(data, e) == EofChar && QuotesPaired(data[p + 1..e])
    ensures var v := data[p + 1..e - 1];
      && (forall i | 0 <= i < |v| :: v[i] != EofChar)
      && (closed ==> data[e - 1] == '"' && Peek(data, e) != '"' && QuotesPaired(v))
      && (!closed ==> Peek(data, e) == EofChar && QuotesPaired(v + [data[e - 1]]))
  {
    var v := data[p + 1..e - 1];
    assert forall i | 0 <= i < |v| :: v[i] == data[p + 1 + i];
    if !closed {
      assert v + [data[e - 1]] == data[p + 1..e];
    }
  }

  // ---------------------------------------------------------------------
  // Line and column bookkeeping
  // ---------------------------------------------------------------------

  /**
   * The cursor after reading s from c, on its own: every character moves one
   * column right, except that CR, LF and CR LF each move to column 1 of the
   * next line.
   */
  function Advance(c: Cursor, s: string): (r: Cursor)
    ensures r.pos == c.pos + |s| && r.line >= c.line
    decreases |s|
  {
    if s == [] then c
    else if s[0] == '\r' && |s| >= 2 && s[1] == '\n' then Advance(Cursor(c.pos + 2, c.line + 1, 1), s[2..])
    else if s[0] == '\r' || s[0] == '\n' then Advance(Cursor(c.pos + 1, c.line + 1, 1), s[1..])
    else Advance(Cursor(c.pos + 1, c.line, c.column + 1), s[1..])
  }

  lemma {:induction false} AdvancePlain(c: Cursor, s: string)
    requires forall i | 0 <= i < |s| :: s[i] != '\r' && s[i] != '\n'
    ensures Advance(c, s) == Cursor(c.pos + |s|, c.line, c.column + |s|)
    decreases |s|
  {
    if s != [] {
      AdvancePlain(Cursor(c.pos + 1, c.line, c.column + 1), s[1..]);
    }
  }

  /** Reading a + b is reading a, then b, unless that splits a CR LF pair. */
  lemma {:induction false} AdvanceAppend(c: Cursor, a: string, b: string)
    requires !(|a| > 0 && a[|a| - 1] == '\r' && |b| > 0 && b[0] == '\n')
    ensures Advance(c, a + b) == Advance(Advance(c, a), b)
    decreases |a|
  {
    if a != [] {
      var ab := a + b;
      assert ab[0] == a[0];
      assert |a| >= 2 ==> ab[1] == a[1];
      assert |a| == 1 && |b| > 0 ==> ab[1] == b[0];
      var k := if a[0] == '\r' && |a| >= 2 && a[1] == '\n' then 2 else 1;
      var c' := if a[0] == '\r' || a[0] == '\n' then Cursor(c.pos + k, c.line + 1, 1)
                else Cursor(c.pos + k, c.line, c.column + 1);
      assert Advance(c, a) == Advance(c', a[k..]);
      assert ab[k..] == a[k..] + b;
      assert Advance(c, ab) == Advance(c', ab[k..]);
      AdvanceAppend(c', a[k..], b);
    } else {
      assert a + b == b;
    }
  }

  lemma {:induction false} StringEndAdvances(data: string, c: Cursor)
    requires c.pos <= |data|
    ensures StringEnd(data, c) == Advance(c, data[c.pos..StringEnd(data, c).pos])
    decreases |data| - c.pos
  {
    var ch := Peek(data, c.pos);
    var e := StringEnd(data, c);
    if ch == EofChar {
      assert data[c.pos..e.pos] == [];
    } else if ch == '"' && Peek(data, c.pos + 1) != '"' {
      assert data[c.pos..e.pos] == ['"'];
    } else {
      var c' := StringStep(data, c);
      assert e == StringEnd(data, c');
      StringEndAdvances(data, c');
      StepAdvance(data, c, e.pos);
    }
  }

  /** One StringStep moves the cursor as reading the characters it passes does. */
  lemma StepAdvance(data: string, c: Cursor, e: nat)
    requires c.pos < |data|
    requires data[c.pos] == '"' ==> Peek(data, c.pos + 1) == '"'
    requires StringStep(data, c).pos <= e <= |data|
    ensures var n := StringStep(data, c);
      Advance(c, data[c.pos..e]) == Advance(n, data[n.pos..e])
  {
    var s := data[c.pos..e];
    var ch := data[c.pos];
    if ch == '\r' && Peek(data, c.pos + 1) == '\n' {
      assert s[0] == '\r' && s[1] == '\n' && s[2..] == data[c.pos + 2..e];
    } else if ch == '\r' || ch == '\n' {
      assert s[0] == ch && s[1..] == data[c.pos + 1..e];
      assert |s| >= 2 ==> s[1] == data[c.pos + 1];
    } else if ch == '"' {
      var c1 := Cursor(c.pos + 1, c.line, c.column + 1);
      assert s[0] == '"' && s[1..] == data[c.pos + 1..e];
      assert Advance(c, s) == Advance(c1, s[1..]);
      assert s[1..][0] == '"' && s[1..][1..] == data[c.pos + 2..e];
    } else {
      assert s[0] == ch && s[1..] == data[c.pos + 1..e];
    }
  }

  /** Every step moves the cursor exactly as reading the consumed text does. */
  lemma ScanTokenAdvances(data: string, symbols: seq<char>, c: Cursor)
    requires c.pos <= |data|
    ensures var s := ScanToken(data, symbols, c);
      s.next == Advance(c, data[c.pos..s.next.pos])
  {
    var ch := Peek(data, c.pos);
    if ch == EofChar {
      assert data[c.pos..c.pos] == [];
    } else if IsBlank(ch) {
      PlainAdvance(data, c, BlankRunEnd(data, c.pos + 1));
    } else if IsDigit(ch) {
      PlainAdvance(data, c, NumberRunEnd(data, c.pos + 1, false));
    } else if ch == '\r' || ch == '\n' {
      NewlineAdvance(data, c);
    } else if ch == '"' {
      StringAdvance(data, c);
    } else if IsWordChar(ch) {
      PlainAdvance(data, c, WordRunEnd(data, c.pos + 1));
    } else if ch in symbols {
      PlainAdvance(data, c, c.pos + 1);
    } else {
      assert data[c.pos..c.pos] == [];
    }
  }

  /** A run without line ends moves the cursor along its line. */
  lemma PlainAdvance(data: string, c: Cursor, e: nat)
    requires c.pos <= e <= |data|
    requires forall i | c.pos <= i < e :: data[i] != '\r' && data[i] != '\n'
    ensures Advance(c, data[c.pos..e]) == Cursor(e, c.line, c.column + (e - c.pos))
  {
    var s := data[c.pos..e];
    assert forall i | 0 <= i < |s| :: s[i] == data[c.pos + i];
    AdvancePlain(c, s);
  }

  lemma NewlineAdvance(data: string, c: Cursor)
    requires c.pos < |data| && (data[c.pos] == '\r' || data[c.pos] == '\n')
    ensures var n := ScanNewline(data, c).next;
      n == Advance(c, data[c.pos..n.pos])
  {
    var e := ScanNewline(data, c).next.pos;
    var s := data[c.pos..e];
    if e == c.pos + 2 {
      assert s[0] == '\r' && s[1] == '\n' && s[2..] == [];
    } else {
      assert s[0] == data[c.pos] && s[1..] == [];
    }
  }

  lemma StringAdvance(data: string, c: Cursor)
    requires c.pos < |data| && data[c.pos] == '"'
    ensures var n := ScanString(data, c).next;
      n == Advance(c, data[c.pos..n.pos])
  {
    var c1 := Cursor(c.pos + 1, c.line, c.column + 1);
    StringEndAdvances(data, c1);
    var e := StringEnd(data, c1).pos;
    var s := data[c.pos..e];
    assert s[0] == '"' && s[1..] == data[c.pos + 1..e];
  }

  /**
   * A cursor agrees with the text before it: its line and column are those
   * reached by reading the text from the start, and it does not sit between
   * a CR and its LF.
   */
  ghost predicate Synced(data: string, c: Cursor) {
    && c.pos <= |data|
    && c == Advance(Start, data[..c.pos])
    && !(0 < c.pos && data[c.pos - 1] == '\r' && Peek(data, c.pos) == '\n')
  }

  /**
   * Scanning keeps the cursor in agreement with the text: together with the
   * token recording the cursor it starts at, every token's line and column
   * are those of its first character in the whole text.
   */
  lemma ScanKeepsSync(data: string, symbols: seq<char>, c: Cursor)
    requires Synced(data, c)
    ensures Synced(data, ScanToken(data, symbols, c).next)
  {
    ScanStopsCleanly(data, symbols, c);
    ScanTokenAdvances(data, symbols, c);
    SyncedStep(data, c, ScanToken(data, symbols, c).next);
  }

  /** Reading on from a synced cursor, without splitting a CR LF pair, keeps it synced. */
  lemma SyncedStep(data: string, c: Cursor, n: Cursor)
    requires Synced(data, c)
    requires c.pos <= n.pos <= |data|
    requires n == Advance(c, data[c.pos..n.pos])
    requires c.pos < n.pos && data[n.pos - 1] == '\r' ==> Peek(data, n.pos) != '\n'
    ensures Synced(data, n)
  {
    var before, text := data[..c.pos], data[c.pos..n.pos];
    assert data[..n.pos] == before + text;
    if |before| > 0 && |text| > 0 {
      assert before[|before| - 1] == data[c.pos - 1] && text[0] == data[c.pos];
    }
    AdvanceAppend(Start, before, text);
  }

  /** No step ends between a CR and its LF. */
  lemma ScanStopsCleanly(data: string, symbols: seq<char>, c: Cursor)
    requires c.pos <= |data|
    ensures var e := ScanToken(data, symbols, c).next.pos;
      c.pos < e && data[e - 1] == '\r' ==> Peek(data, e) != '\n'
  {
    var ch := Peek(data, c.pos);
    if ch == EofChar {
    } else if IsBlank(ch) {
      NoCarriageReturnAtEnd(data, c.pos, BlankRunEnd(data, c.pos + 1));
    } else if IsDigit(ch) {
      NoCarriageReturnAtEnd(data, c.pos, NumberRunEnd(data, c.pos + 1, false));
    } else if ch == '\r' || ch == '\n' {
    } else if ch == '"' {
      StringEndStopsCleanly(data, Cursor(c.pos + 1, c.line, c.column + 1));
    } else if IsWordChar(ch) {
      NoCarriageReturnAtEnd(data, c.pos, WordRunEnd(data, c.pos + 1));
    }
  }

  lemma NoCarriageReturnAtEnd(data: string, p: nat, e: nat)
    requires p < e <= |data|
    requires data[p] != '\r'
    requires forall i | p + 1 <= i < e :: IsBlank(data[i]) || IsWordChar(data[i]) || IsDigit(data[i]) || data[i] == '.'
    ensures data[e - 1] != '\r'
  {
  }

  // ---------------------------------------------------------------------
  // The whole stream
  // ---------------------------------------------------------------------

  /** A token as it was written: a quoted string gets its quotes back. */
  function Rendered(t: Token): string {
    if t.kind == QuotedString then "\"" + t.value + "\"" else t.value
  }

  function Render(ts: seq<Token>): string {
    if ts == [] then "" else Rendered(ts[0]) + Render(ts[1..])
  }

  /** The scan ended inside a string, whose last character was then lost. */
  predicate EndsInOpenString(data: string, l: Lexed)
    requires l.end.pos <= |data|
  {
    && |l.tokens| > 0 && l.tokens[|l.tokens| - 1].kind == QuotedString
    && 0 < l.end.pos && data[l.end.pos - 1] != '"'
  }

  /**
   * One step renders back to what it consumed, except a string cut off by
   * the end of the text, whose last character stands where the closing
   * quote would be.
   */
  lemma ScanRenders(data: string, symbols: seq<char>, c: Cursor)
    requires c.pos <= |data|
    ensures var s := ScanToken(data, symbols, c);
      s.result.Ok? && s.result.value.kind != EOF ==>
        var t, e := s.result.value, s.next.pos;
        if t.kind == QuotedString && data[e - 1] != '"' then
          Peek(data, e) == EofChar && Rendered(t) == data[c.pos..e - 1] + "\""
        else Rendered(t) == data[c.pos..e]
  {
    if Peek(data, c.pos) == '"' {
      assert ScanToken(data, symbols, c) == ScanString(data, c);
      StringRenders(data, c);
    }
  }

  lemma StringRenders(data: string, c: Cursor)
    requires c.pos < |data| && data[c.pos] == '"'
    ensures var s := ScanString(data, c);
      s.result.Ok? ==>
        var t, e := s.result.value, s.next.pos;
        if data[e - 1] != '"' then Peek(data, e) == EofChar && Rendered(t) == data[c.pos..e - 1] + "\""
        else Rendered(t) == data[c.pos..e]
  {
    var c1 := Cursor(c.pos + 1, c.line, c.column + 1);
    var s := ScanString(data, c);
    var e := s.next.pos;
    StringEndCloses(data, c1);
    if s.result.Ok? {
      var v := s.result.value.value;
      assert v == data[c.pos + 1..e - 1];
      RequoteSlice(data, c.pos, e);
      assert Rendered(s.result.value) == "\"" + v + "\"";
    }
  }

  /** Putting the quotes back around the inside of a quoted string, on plain values. */
  lemma RequoteSlice(data: string, p: nat, e: nat)
    requires p + 2 <= e <= |data| && data[p] == '"'
    ensures data[e - 1] == '"' ==> "\"" + data[p + 1..e - 1] + "\"" == data[p..e]
    ensures "\"" + data[p + 1..e - 1] + "\"" == data[p..e - 1] + "\""
  {
    assert data[p..e - 1] == ['"'] + data[p + 1..e - 1];
    if data[e - 1] == '"' {
      assert data[p..e] == data[p..e - 1] + [data[e - 1]];
    }
  }

  /**
   * Tokenize unrolled once, when the scan goes on past the cursor: the first
   * token t, the cursor after it, what the scan yields from there, and how t
   * renders.
   */
  lemma TokenizeUnroll(data: string, symbols: seq<char>, c: Cursor)
    returns (t: Token, next: Cursor, rest: Lexed)
    requires c.pos <= |data|
    requires Tokenize(data, symbols, c).error.None?
    requires Peek(data, c.pos) != EofChar
    ensures c.pos < next.pos <= |data|
    ensures rest == Tokenize(data, symbols, next) && rest.error.None?
    ensures Tokenize(data, symbols, c) == Lexed([t] + rest.tokens, None, rest.end)
    ensures t.kind == QuotedString && data[next.pos - 1] != '"' ==> Peek(data, next.pos) == EofChar
    ensures !(t.kind == QuotedString && data[next.pos - 1] != '"') ==> Rendered(t) == data[c.pos..next.pos]
  {
    var s := ScanToken(data, symbols, c);
    ScanRenders(data, symbols, c);
    t, next := s.result.value, s.next;
    rest := Tokenize(data, symbols, next);
  }

  /** Tokenize unrolled once, whatever the first step does. */
  lemma TokenizeStep(data: string, symbols: seq<char>, c: Cursor)
    requires c.pos <= |data|
    ensures var s, l := ScanToken(data, symbols, c), Tokenize(data, symbols, c);
      && (s.result.Fail? ==> l == Lexed([], Some(s.result.error), s.next))
      && (s.result.Ok? && s.result.value.kind == EOF ==> l == Lexed([], None, c))
      && (s.result.Ok? && s.result.value.kind != EOF ==>
            var rest := Tokenize(data, symbols, s.next);
            l == Lexed([s.result.value] + rest.tokens, rest.error, rest.end))
  {
  }

  /** Tokenize at the end of the text (or at a NUL) yields nothing. */
  lemma TokenizeAtEnd(data: string, symbols: seq<char>, c: Cursor)
    requires c.pos <= |data| && Peek(data, c.pos) == EofChar
    ensures Tokenize(data, symbols, c) == Lexed([], None, c)
  {
  }

  /**
   * Tokenising is lossless: when the scan succeeds and every string in it is
   * closed, the rendered tokens spell the text from the cursor up to the end
   * (or the first NUL) exactly. (A string cut off by the end of the text
   * loses its last character: see ScanQuotedString.)
   */
  lemma {:induction false} TokenizeRebuildsText(data: string, symbols: seq<char>, c: Cursor)
    requires c.pos <= |data|
    requires Tokenize(data, symbols, c).error.None?
    ensures var l := Tokenize(data, symbols, c);
      !EndsInOpenString(data, l) ==> Render(l.tokens) == data[c.pos..l.end.pos]
    decreases |data| - c.pos
  {
    if Peek(data, c.pos) == EofChar {
      TokenizeAtEnd(data, symbols, c);
    } else {
      var t, next, rest := TokenizeUnroll(data, symbols, c);
      TokenizeRebuildsText(data, symbols, next);
      if t.kind == QuotedString && data[next.pos - 1] != '"' {
        TokenizeAtEnd(data, symbols, next);
      }
      RebuildStep(data, c.pos, t, next.pos, rest);
    }
  }

  /** The inductive step of TokenizeRebuildsText, on plain values. */
  lemma RebuildStep(data: string, start: nat, t: Token, e: nat, rest: Lexed)
    requires start < e <= rest.end.pos <= |data|
    requires !(t.kind == QuotedString && data[e - 1] != '"') ==> Rendered(t) == data[start..e]
    requires t.kind == QuotedString && data[e - 1] != '"' ==> rest.tokens == [] && rest.end.pos == e
    requires !EndsInOpenString(data, rest) ==> Render(rest.tokens) == data[e..rest.end.pos]
    ensures var l := Lexed([t] + rest.tokens, None, rest.end);
      !EndsInOpenString(data, l) ==> Render(l.tokens) == data[start..l.end.pos]
  {
    var l := Lexed([t] + rest.tokens, None, rest.end);
    if !EndsInOpenString(data, l) {
      RenderCons(t, rest.tokens);
      if rest.tokens == [] {
        assert l.tokens == [t];
      } else {
        LastOfCons(t, rest.tokens);
        assert !EndsInOpenString(data, rest);
      }
      SliceSplit(data, start, e, rest.end.pos);
    }
  }

  lemma RenderCons(t: Token, ts: seq<Token>)
    ensures Render([t] + ts) == Rendered(t) + Render(ts)
  {
    assert ([t] + ts)[1..] == ts;
  }

  lemma LastOfCons(t: Token, ts: seq<Token>)
    requires |ts| > 0
    ensures ([t] + ts)[|ts|] == ts[|ts| - 1]
  {
  }

  lemma SliceSplit(data: string, i: nat, j: nat, k: nat)
    requires i <= j <= k <= |data|
    ensures data[i..k] == data[i..j] + data[j..k]
  {
  }

  /** With no NUL in the text, a successful scan reads it to the end. */
  lemma TokenizeReachesEnd(data: string, symbols: seq<char>, c: Cursor)
    requires c.pos <= |data|
    requires forall i | c.pos <= i < |data| :: data[i] != EofChar
    requires Tokenize(data, symbols, c).error.None?
    ensures Tokenize(data, symbols, c).end.pos == |data|
  {
  }
}
