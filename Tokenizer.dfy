/**
 * PScript.Parsing.Tokenizer: the scanner object. Its cursor (pos, line,
 * column) and the saved start of the current token (savePos, saveLine,
 * saveCol) are fields that Consume and StartRead update in place; every
 * reading method is proved to move them exactly as the step functions of
 * TokenizerSpec say.
 */
module Parsing {
  import opened Wrappers
  import opened Tokens
  import opened Exceptions
  import opened TokenizerSpec

  class Tokenizer {
    const data: string
    var symbolChars: seq<char>
    var line: int
    var column: int
    var pos: nat
    var saveLine: int
    var saveCol: int
    var savePos: nat

    /** The cursor agrees with the text read so far. */
    ghost predicate Valid()
      reads this`pos, this`line, this`column
    {
      Synced(data, Here())
    }

    function Here(): Cursor
      reads this`pos, this`line, this`column
    {
      Cursor(pos, line, column)
    }

    function Saved(): Cursor
      reads this`savePos, this`saveLine, this`saveCol
    {
      Cursor(savePos, saveLine, saveCol)
    }

    constructor(data: string)
      ensures this.data == data
      ensures symbolChars == DefaultSymbolChars
      ensures Here() == Start && Valid()
    {
      this.data := data;
      symbolChars := DefaultSymbolChars;
      line := 1;
      column := 1;
      pos := 0;
      new;
      assert data[..0] == [];
    }

    /** The SymbolChars setter. */
    method SetSymbolChars(chars: seq<char>)
      modifies this`symbolChars
      ensures symbolChars == chars
    {
      symbolChars := chars;
    }

    /** The character count places ahead, NUL past the end of the text. */
    function LA(count: nat): (ch: char)
      reads this`pos
      ensures pos + count < |data| ==> ch == data[pos + count]
      ensures pos + count >= |data| ==> ch == EofChar
    {
      Peek(data, pos + count)
    }

    /** Take the character under the cursor: one column to the right. */
    method Consume() returns (ch: char)
      requires pos < |data|
      modifies this`pos, this`column
      ensures ch == data[old(pos)]
      ensures pos == old(pos) + 1 && column == old(column) + 1
    {
      ch := data[pos];
      pos := pos + 1;
      column := column + 1;
    }

    /** Remember where the current token starts. */
    method StartRead()
      modifies this`saveLine, this`saveCol, this`savePos
      ensures Saved() == Here()
    {
      saveLine := line;
      saveCol := column;
      savePos := pos;
    }

    /** The token read since StartRead, quotes stripped from a quoted string. */
    method CreateToken(kind: TokenKind) returns (r: Result<Token>)
      requires savePos <= pos <= |data|
      ensures r == MakeToken(data, kind, Saved(), pos)
    {
      var tokenData := data[savePos..pos];
      if kind == QuotedString {
        var length := |tokenData|;
        if length < 2 {
          return Fail(ArgumentOutOfRange);
        }
        tokenData := tokenData[1..length - 1];
      }
      r := Ok(Token(kind, tokenData, saveLine, saveCol));
    }

    /** Whether c is one of the configured symbol characters. */
    method IsSymbol(c: char) returns (b: bool)
      ensures b <==> c in symbolChars
    {
      for i := 0 to |symbolChars|
        invariant c !in symbolChars[..i]
      {
        if symbolChars[i] == c {
          return true;
        }
      }
      return false;
    }

    method ReadWhitespace() returns (r: Result<Token>)
      requires pos < |data| && IsBlank(data[pos])
      modifies this`pos, this`column, this`saveLine, this`saveCol, this`savePos
      ensures Step(r, Here()) == ScanBlank(data, old(Here()))
    {
      StartRead();
      var _ := Consume();
      while true
        invariant savePos < pos <= |data| && Saved() == old(Here())
        invariant forall i | savePos < i < pos :: IsBlank(data[i])
        invariant line == saveLine && column == saveCol + (pos - savePos)
        decreases |data| - pos
      {
        var ch := LA(0);
        if ch == '\t' || ch == ' ' {
          var _ := Consume();
        } else {
          break;
        }
      }
      BlankRunEndUnique(data, savePos + 1, pos);
      r := CreateToken(WhiteSpace);
    }

    method ReadNumber() returns (r: Result<Token>)
      requires pos < |data| && IsDigit(data[pos])
      modifies this`pos, this`column, this`saveLine, this`saveCol, this`savePos
      ensures Step(r, Here()) == ScanNumber(data, old(Here()))
    {
      StartRead();
      var hadDot := false;
      var _ := Consume();
      ghost var end := NumberRunEnd(data, pos, false);
      while true
        invariant savePos < pos <= |data| && Saved() == old(Here())
        invariant NumberRunEnd(data, pos, hadDot) == end
        invariant line == saveLine && column == saveCol + (pos - savePos)
        decreases |data| - pos
      {
        var ch := LA(0);
        if IsDigit(ch) {
          var _ := Consume();
        } else if ch == '.' && !hadDot {
          hadDot := true;
          var _ := Consume();
        } else {
          break;
        }
      }
      r := CreateToken(Number);
    }

    method ReadWord() returns (r: Result<Token>)
      requires pos < |data| && IsWordChar(data[pos])
      modifies this`pos, this`column, this`saveLine, this`saveCol, this`savePos
      ensures Step(r, Here()) == ScanWord(data, old(Here()))
    {
      StartRead();
      var _ := Consume();
      while true
        invariant savePos < pos <= |data| && Saved() == old(Here())
        invariant forall i | savePos < i < pos :: IsWordChar(data[i])
        invariant line == saveLine && column == saveCol + (pos - savePos)
        decreases |data| - pos
      {
        var ch := LA(0);
        if IsLetter(ch) || ch == '_' {
          var _ := Consume();
        } else {
          break;
        }
      }
      WordRunEndUnique(data, savePos + 1, pos);
      r := CreateToken(Word);
    }

    method ReadString() returns (r: Result<Token>)
      requires pos < |data| && data[pos] == '"'
      modifies this`pos, this`line, this`column, this`saveLine, this`saveCol, this`savePos
      ensures Step(r, Here()) == ScanString(data, old(Here()))
    {
      StartRead();
      var _ := Consume();
      ghost var target := StringEnd(data, Here());
      while true
        invariant savePos < pos <= |data| && Saved() == old(Here())
        invariant StringEnd(data, Here()) == target
        decreases |data| - pos
      {
        var done := StringRound();
        if done {
          break;
        }
      }
      r := CreateToken(QuotedString);
    }

    /**
     * One round of the loop of ReadString; done when the text ended or a
     * lone closing quote was consumed.
     */
    method StringRound() returns (done: bool)
      requires pos <= |data|
      modifies this`pos, this`line, this`column
      ensures old(pos) <= pos <= |data|
      ensures done ==> Here() == StringEnd(data, old(Here()))
      ensures !done ==> old(pos) < pos && StringEnd(data, Here()) == StringEnd(data, old(Here()))
    {
      var ch := LA(0);
      done := false;
      if ch == EofChar {
        done := true;
      } else if ch == '\r' {
        var _ := Consume();
        if LA(0) == '\n' {
          var _ := Consume();
        }
        line := line + 1;
        column := 1;
      } else if ch == '\n' {
        var _ := Consume();
        line := line + 1;
        column := 1;
      } else if ch == '"' {
        var _ := Consume();
        if LA(0) != '"' {
          done := true;
        } else {
          var _ := Consume();
        }
      } else {
        var _ := Consume();
      }
    }

    /**
     * Read one token. The result and the cursor afterwards are those of
     * ScanToken, and the cursor stays in agreement with the text.
     */
    method Next() returns (r: Result<Token>)
      requires Valid()
      modifies this`pos, this`line, this`column, this`saveLine, this`saveCol, this`savePos
      ensures Step(r, Here()) == ScanToken(data, symbolChars, old(Here()))
      ensures Valid()
    {
      ScanKeepsSync(data, symbolChars, Here());
      var ch := LA(0);
      if ch == EofChar {
        return Ok(Token(EOF, "", line, column));
      } else if ch == ' ' || ch == '\t' {
        r := ReadWhitespace();
      } else if '0' <= ch <= '9' {
        r := ReadNumber();
      } else if ch == '\r' {
        StartRead();
        var _ := Consume();
        if LA(0) == '\n' {
          var _ := Consume();
        }
        line := line + 1;
        column := 1;
        r := CreateToken(EOL);
      } else if ch == '\n' {
        StartRead();
        var _ := Consume();
        line := line + 1;
        column := 1;
        r := CreateToken(EOL);
      } else if ch == '"' {
        r := ReadString();
      } else if IsLetter(ch) || ch == '_' {
        r := ReadWord();
      } else {
        var symbol := IsSymbol(ch);
        if symbol {
          StartRead();
          var _ := Consume();
          r := CreateToken(Symbol);
        } else {
          r := Raise(None, "Unknown token type");
        }
      }
    }
  }
}
