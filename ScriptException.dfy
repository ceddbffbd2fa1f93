/**
 * PScript.Exceptions.ScriptException and the other ways an operation of the
 * engine can fail.
 */
module Exceptions {
  import opened Wrappers
  import opened Tokens
  import opened Decimal

  /**
   * A script error: the token it points at (None for a null token or for the
   * one-argument constructor) and the message text as given.
   */
  datatype ScriptException = ScriptException(token: Option<Token>, message: string)
  {
    /**
     * The user-facing text: "[Line L:C] message" when a token is attached,
     * the bare message otherwise. Formatting only ever adds a prefix.
     */
    function Message(): (m: string)
      ensures token.None? ==> m == message
      ensures |message| <= |m| && m[|m| - |message|..] == message
    {
      match token
      case None => message
      case Some(t) => PositionPrefix(t.line, t.column) + message
    }
  }

  /** `new ScriptException(message)`: no token, hence no position. */
  function Unpositioned(message: string): (e: ScriptException)
    ensures e.token.None? && e.Message() == message
  {
    ScriptException(None, message)
  }

  function PositionPrefix(line: int, column: int): string {
    "[Line " + IntToString(line) + ":" + IntToString(column) + "] "
  }

  /**
   * Reads "[Line L:C] rest" back into (L, C, rest); None when the text does
   * not start with such a prefix.
   */
  function SplitPositioned(m: string): Option<(nat, nat, string)> {
    match StripPrefix("[Line ", m)
    case None => None
    case Some(r1) =>
      match ReadDecimal(r1, ":")
      case None => None
      case Some((line, r2)) =>
        match ReadDecimal(r2, "] ")
        case None => None
        case Some((column, r3)) => Some((line, column, r3))
  }

  /** What follows p in m, when m starts with p. */
  function StripPrefix(p: string, m: string): Option<string> {
    if |p| <= |m| && m[..|p|] == p then Some(m[|p|..]) else None
  }

  /** A non-empty run of digits followed by sep: its value and what follows sep. */
  function ReadDecimal(m: string, sep: string): Option<(nat, string)> {
    var k := DigitPrefixLength(m);
    match StripPrefix(sep, m[k..])
    case None => None
    case Some(rest) => if k == 0 then None else Some((DigitsValue(m[..k]), rest))
  }

  lemma StripPrefixOf(p: string, x: string)
    ensures StripPrefix(p, p + x) == Some(x)
  {
    assert (p + x)[..|p|] == p && (p + x)[|p|..] == x;
  }

  lemma ReadDecimalOf(digits: string, sep: string, x: string)
    requires |digits| > 0 && AllDigits(digits)
    requires |sep| > 0 && !IsDigit(sep[0])
    ensures ReadDecimal(digits + (sep + x), sep) == Some((DigitsValue(digits), x))
  {
    var m := digits + (sep + x);
    DigitPrefixOfAppend(digits, sep + x);
    assert m[..|digits|] == digits && m[|digits|..] == sep + x;
    StripPrefixOf(sep, x);
  }

  /**
   * The position prefix is unambiguous: from the message of an exception
   * that carries a token, the token's line, column and the original message
   * can be recovered.
   */
  lemma MessageRoundTrip(e: ScriptException)
    requires e.token.Some? && e.token.value.line >= 0 && e.token.value.column >= 0
    ensures SplitPositioned(e.Message()) == Some((e.token.value.line as nat, e.token.value.column as nat, e.message))
  {
    var t := e.token.value;
    var ls, cs := NatToString(t.line), NatToString(t.column);
    var r2 := cs + ("] " + e.message);
    var r1 := ls + (":" + r2);
    assert e.Message() == "[Line " + r1;
    StripPrefixOf("[Line ", r1);
    ReadDecimalOf(ls, ":", r2);
    ReadDecimalOf(cs, "] ", e.message);
    NatToStringRoundTrip(t.line);
    NatToStringRoundTrip(t.column);
  }

  /** Every way an operation of the core can fail. */
  datatype Error =
    | Script(exception: ScriptException)   // ScriptException
    | KeyNotFound(key: string)             // Dictionary indexer on a missing function name
    | NullReference                        // Function.Execute before SetArguments
    | ArgumentOutOfRange                   // Substring(1, -1) on a lone quote at the end
    | Format(text: string)                 // Convert.ToInt32 on text that is not an integer
    | Overflow(text: string)               // Convert.ToInt32 outside the int range

  datatype Result<+T> = Ok(value: T) | Fail(error: Error)

  /** `throw new ScriptException(token, message)`. */
  function Raise<T>(token: Option<Token>, message: string): Result<T> {
    Fail(Script(ScriptException(token, message)))
  }
}
