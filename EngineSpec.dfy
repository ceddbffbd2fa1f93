/**
 * What PScript.ScriptEngine computes, stated on values. The engine's mutable
 * state (the token index, the variable table and the trace of delegate
 * calls) is a State; every parsing routine maps a State to its result and
 * the State after it. The class in Engine.dfy is proved to follow these
 * functions call by call.
 *
 * The delegates registered as functions are host code; each one is the
 * function `native` of its Binding, and a delegate call is recorded in
 * `calls`, in order, when it happens.
 */
module EngineSpec {
  import opened Wrappers
  import opened Tokens
  import opened Exceptions
  import opened Variables
  import opened Functions
  import Decimal

  /** One call of a registered delegate: the function name and the arguments passed. */
  datatype Call = Call(name: string, args: seq<Variable>)

  /** index, the variables dictionary, and the delegate calls made so far. */
  datatype State = State(index: nat, variables: map<string, Variable>, calls: seq<Call>)

  /** A result together with the state the engine is left in. */
  datatype Out<+T> = Out(result: Result<T>, state: State)

  /** The registered functions as the engine sees them. */
  type Table = map<string, Binding>

  // ---------------------------------------------------------------------
  // Convert.ToInt32
  // ---------------------------------------------------------------------

  /**
   * Convert.ToInt32 on the text of a Number token: a digit string gives its
   * value when it fits in an int, an OverflowException when it does not;
   * text with a '.' is a FormatException.
   */
  function ToInt32(text: string): (r: Result<int32>)
    ensures r.Ok? ==> 0 <= r.value as int <= MaxInt32
    ensures r.Ok? <==> |text| > 0 && Decimal.AllDigits(text) && Decimal.DigitsValue(text) <= MaxInt32
    ensures r.Ok? ==> r.value as int == Decimal.DigitsValue(text)
  {
    if |text| == 0 || !Decimal.AllDigits(text) then Fail(Format(text))
    else if Decimal.DigitsValue(text) > MaxInt32 then Fail(Overflow(text))
    else Ok(Decimal.DigitsValue(text) as int32)
  }

  /** Every int from 0 to int.MaxValue, written in decimal, converts back to itself. */
  lemma ToInt32RoundTrip(n: nat)
    requires n <= MaxInt32
    ensures ToInt32(Decimal.NatToString(n)) == Ok(n as int32)
  {
    Decimal.NatToStringRoundTrip(n);
  }

  /** A decimal text one past int.MaxValue or more overflows. */
  lemma ToInt32Overflows(n: nat)
    requires n > MaxInt32
    ensures ToInt32(Decimal.NatToString(n)) == Fail(Overflow(Decimal.NatToString(n)))
  {
    Decimal.NatToStringRoundTrip(n);
  }

  /** A Number token with a fraction is not an integer. */
  lemma ToInt32RejectsFraction(whole: string, fraction: string)
    ensures ToInt32(whole + "." + fraction) == Fail(Format(whole + "." + fraction))
  {
    var text := whole + "." + fraction;
    assert text[|whole|] == '.';
  }

  // ---------------------------------------------------------------------
  // The token cursor
  // ---------------------------------------------------------------------

  /**
   * GetNext: the token after the current one, moving index onto it; a
   * ScriptException without a token when index is on the last token.
   */
  function GetNext(tokens: seq<Token>, s: State): (r: Out<Token>)
    requires s.index < |tokens|
    ensures r.result.Ok? <==> s.index < |tokens| - 1
    ensures r.result.Ok? ==> r.state == s.(index := s.index + 1) && r.result.value == tokens[s.index + 1]
    ensures r.result.Fail? ==> r == Out(Raise(None, "No more tokens to read"), s)
  {
    if s.index == |tokens| - 1 then Out(Raise(None, "No more tokens to read"), s)
    else Out(Ok(tokens[s.index + 1]), s.(index := s.index + 1))
  }

  // ---------------------------------------------------------------------
  // Values and function calls
  // ---------------------------------------------------------------------

  /** The words that are values by themselves. */
  predicate IsKeyword(w: string) {
    w == "true" || w == "false" || w == "null"
  }

  /**
   * ParseValue on the token under index. Only the keywords true, false and
   * null, declared variables and registered functions are words with a
   * value, and the keywords are checked first; a declared variable is read
   * before a function of the same name.
   */
  function ParseValue(tokens: seq<Token>, fns: Table, token: Token, s: State): (r: Out<Variable>)
    requires s.index < |tokens|
    ensures s.index <= r.state.index < |tokens|
    ensures r.state.variables == s.variables && s.calls <= r.state.calls
    decreases |tokens| - s.index, 1
  {
    match token.kind
    case QuotedString => Out(Ok(StringVariable(token.value)), s)
    case Number =>
      (match ToInt32(token.value)
       case Ok(n) => Out(Ok(NumberVariable(n)), s)
       case Fail(e) => Out(Fail(e), s))
    case Word =>
      if token.value == "true" then Out(Ok(BoolVariable(true)), s)
      else if token.value == "false" then Out(Ok(BoolVariable(false)), s)
      else if token.value == "null" then Out(Ok(NullVariable), s)
      else if token.value in s.variables then Out(Ok(s.variables[token.value].Clone()), s)
      else if token.value in fns then ParseFunction(tokens, fns, token, false, s)
      else Out(Raise(Some(token), "Variable value is not string/number/bool/keyword"), s)
    case _ => Out(Raise(Some(token), "Variable value is not string/number/bool/keyword"), s)
  }

  /**
   * ParseFunction: '(' (checked by text), the argument list up to ')', a ';'
   * when the call is a statement, and only then the call itself. The name
   * is looked up after the '(' is read; a name that is not registered is a
   * KeyNotFoundException. A call that passes Function.Execute's checks is
   * recorded as the last entry of the trace, and its value is the delegate's.
   */
  function ParseFunction(tokens: seq<Token>, fns: Table, token: Token, checkColon: bool, s: State): (r: Out<Variable>)
    requires s.index < |tokens|
    ensures s.index <= r.state.index < |tokens|
    ensures r.state.variables == s.variables && s.calls <= r.state.calls
    ensures r.result.Ok? ==>
      && s.index < r.state.index
      && token.value in fns
      && |r.state.calls| > |s.calls|
      && var last := r.state.calls[|r.state.calls| - 1];
         last.name == token.value && Invoke(fns[token.value], last.args) == r.result
    ensures r.result.Ok? && checkColon ==> tokens[r.state.index].value == ";"
    decreases |tokens| - s.index, 0
  {
    var next := GetNext(tokens, s);
    if next.result.Fail? then Out(Fail(next.result.error), next.state)
    else if next.result.value.value != "(" then
      Out(Raise(Some(next.result.value), "Token after function is not a '('"), next.state)
    else if token.value !in fns then Out(Fail(KeyNotFound(token.value)), next.state)
    else
      var list := ParseArguments(tokens, fns, [], next.state);
      if list.result.Fail? then Out(Fail(list.result.error), list.state)
      else FinishCall(tokens, fns[token.value], token.value, checkColon, list.result.value, list.state)
  }

  /**
   * The end of ParseFunction, with index on the ')': the ';' of a call
   * statement, then Function.Execute, recorded in the trace when it passes.
   */
  function FinishCall(tokens: seq<Token>, b: Binding, name: string, checkColon: bool, args: seq<Variable>, s: State): (r: Out<Variable>)
    requires s.index < |tokens|
    ensures s.index <= r.state.index < |tokens|
    ensures r.state.variables == s.variables && s.calls <= r.state.calls
    ensures r.result.Ok? <==>
      && (checkColon ==> s.index < |tokens| - 1 && tokens[s.index + 1].value == ";")
      && Invoke(b, args).Ok?
    ensures r.result.Ok? ==> r.result == Invoke(b, args) && r.state.calls == s.calls + [Call(name, args)]
    ensures r.result.Fail? ==> r.state.calls == s.calls
    ensures r.result.Ok? && checkColon ==> tokens[r.state.index].value == ";"
  {
    var closed := if checkColon then ExpectSemicolon(tokens, s) else Out(Ok(()), s);
    if closed.result.Fail? then Out(Fail(closed.result.error), closed.state)
    else CallBinding(b, name, args, closed.state)
  }

  /**
   * Function.Execute on a binding: the delegate's value when the arguments
   * fit, and then the call is appended to the trace; the state is otherwise
   * left as it was.
   */
  function CallBinding(b: Binding, name: string, args: seq<Variable>, s: State): (r: Out<Variable>)
    ensures r.result == Invoke(b, args)
    ensures r.state.index == s.index && r.state.variables == s.variables
    ensures r.state.calls == s.calls + (if r.result.Ok? then [Call(name, args)] else [])
  {
    match Invoke(b, args)
    case Ok(v) => Out(Ok(v), s.(calls := s.calls + [Call(name, args)]))
    case Fail(e) => Out(Fail(e), s)
  }

  /**
   * The loop of ParseFunction, with `args` the arguments read so far: ')'
   * ends the list, ',' is skipped, any other symbol is an error, and every
   * other token is a value.
   */
  function ParseArguments(tokens: seq<Token>, fns: Table, args: seq<Variable>, s: State): (r: Out<seq<Variable>>)
    requires s.index < |tokens|
    ensures s.index <= r.state.index < |tokens|
    ensures r.state.variables == s.variables && s.calls <= r.state.calls
    ensures r.result.Ok? ==>
      && s.index < r.state.index
      && args <= r.result.value
      && tokens[r.state.index].kind == Symbol && tokens[r.state.index].value == ")"
    decreases |tokens| - s.index, 0
  {
    var param := GetNext(tokens, s);
    if param.result.Fail? then Out(Fail(param.result.error), param.state)
    else
      var p := param.result.value;
      if p.kind == Symbol then
        if p.value == ")" then Out(Ok(args), param.state)
        else if p.value != "," then
          Out(Raise(Some(p), "Symbol token inside arg list is not a ','"), param.state)
        else ParseArguments(tokens, fns, args, param.state)
      else
        var v := ParseValue(tokens, fns, p, param.state);
        if v.result.Fail? then Out(Fail(v.result.error), v.state)
        else ParseArguments(tokens, fns, args + [v.result.value], v.state)
  }

  /**
   * A ',' in an argument list is skipped and nothing else: commas are
   * optional between values and may repeat.
   */
  lemma CommasAreSkipped(tokens: seq<Token>, fns: Table, args: seq<Variable>, s: State)
    requires s.index + 1 < |tokens| && tokens[s.index + 1].kind == Symbol && tokens[s.index + 1].value == ","
    ensures ParseArguments(tokens, fns, args, s) == ParseArguments(tokens, fns, args, s.(index := s.index + 1))
  {
    assert GetNext(tokens, s) == Out(Ok(tokens[s.index + 1]), s.(index := s.index + 1));
  }

  /**
   * What a token evaluates to: a quoted string its text, a number its
   * Convert.ToInt32 value or that conversion's failure, a declared word its
   * binding (ahead of a function of the same name), a registered word a
   * call; an unknown word, or a token of any other kind, is an error at
   * that token.
   */
  lemma ParseValueResults(tokens: seq<Token>, fns: Table, token: Token, s: State)
    requires s.index < |tokens|
    ensures var r := ParseValue(tokens, fns, token, s);
      && (token.kind == QuotedString ==> r == Out(Ok(StringVariable(token.value)), s))
      && (token.kind == TokenKind.Number ==>
            && r.state == s
            && (r.result.Ok? <==> ToInt32(token.value).Ok?)
            && (r.result.Ok? ==> r.result.value == NumberVariable(ToInt32(token.value).value))
            && (r.result.Fail? ==> r.result.error == ToInt32(token.value).error))
      && (token.kind == Word && !IsKeyword(token.value) && token.value in s.variables ==>
            r == Out(Ok(s.variables[token.value]), s))
      && (token.kind == Word && !IsKeyword(token.value) && token.value !in s.variables && token.value in fns ==>
            r == ParseFunction(tokens, fns, token, false, s))
      && ((|| token.kind !in {QuotedString, TokenKind.Number, Word}
           || (token.kind == Word && !IsKeyword(token.value) && token.value !in s.variables && token.value !in fns))
          ==> r == Out(Raise(Some(token), "Variable value is not string/number/bool/keyword"), s))
  {
  }

  /**
   * How a call fails before its arguments: with no token after the name,
   * with a token other than '(' there (a ScriptException at that token), or
   * with '(' after a name that is not registered (the dictionary lookup).
   */
  lemma ParseFunctionFailures(tokens: seq<Token>, fns: Table, token: Token, checkColon: bool, s: State)
    requires s.index < |tokens|
    ensures var r := ParseFunction(tokens, fns, token, checkColon, s);
      && (s.index == |tokens| - 1 ==> r == Out(Raise(None, "No more tokens to read"), s))
      && (s.index + 1 < |tokens| && tokens[s.index + 1].value != "(" ==>
            r == Out(Raise(Some(tokens[s.index + 1]), "Token after function is not a '('"), s.(index := s.index + 1)))
      && (s.index + 1 < |tokens| && tokens[s.index + 1].value == "(" && token.value !in fns ==>
            r == Out(Fail(KeyNotFound(token.value)), s.(index := s.index + 1)))
  {
  }

  /**
   * The symbols of an argument list: ')' ends it with the values read so
   * far, ',' is skipped (CommasAreSkipped), and any other symbol is a
   * ScriptException at that symbol; running out of tokens is an error.
   */
  lemma ParseArgumentsSymbols(tokens: seq<Token>, fns: Table, args: seq<Variable>, s: State)
    requires s.index < |tokens|
    ensures var r := ParseArguments(tokens, fns, args, s);
      && (s.index == |tokens| - 1 ==> r == Out(Raise(None, "No more tokens to read"), s))
      && (s.index + 1 < |tokens| && tokens[s.index + 1].kind == Symbol && tokens[s.index + 1].value == ")" ==>
            r == Out(Ok(args), s.(index := s.index + 1)))
      && (s.index + 1 < |tokens| && tokens[s.index + 1].kind == Symbol
          && tokens[s.index + 1].value != ")" && tokens[s.index + 1].value != "," ==>
            r == Out(Raise(Some(tokens[s.index + 1]), "Symbol token inside arg list is not a ','"), s.(index := s.index + 1)))
  {
  }

  /**
   * A token of an argument list that is not a symbol is a value: it is
   * evaluated by ParseValue, which ends the call on a failure and otherwise
   * appends the value to the arguments before the list goes on.
   */
  lemma ParseArgumentsValue(tokens: seq<Token>, fns: Table, args: seq<Variable>, s: State)
    requires s.index + 1 < |tokens| && tokens[s.index + 1].kind != Symbol
    ensures var v := ParseValue(tokens, fns, tokens[s.index + 1], s.(index := s.index + 1));
      ParseArguments(tokens, fns, args, s)
        == if v.result.Fail? then Out(Fail(v.result.error), v.state)
           else ParseArguments(tokens, fns, args + [v.result.value], v.state)
  {
    assert GetNext(tokens, s) == Out(Ok(tokens[s.index + 1]), s.(index := s.index + 1));
  }

  /**
   * A call that succeeds has read its whole argument list after the '(',
   * and passes exactly those values to the delegate: its value is Invoke on
   * them, and the trace is the list's own calls followed by this one.
   */
  lemma ParseFunctionRecords(tokens: seq<Token>, fns: Table, token: Token, checkColon: bool, s: State)
    requires s.index < |tokens|
    ensures var r := ParseFunction(tokens, fns, token, checkColon, s);
      r.result.Ok? ==>
        && s.index + 1 < |tokens| && tokens[s.index + 1].value == "(" && token.value in fns
        && var list := ParseArguments(tokens, fns, [], s.(index := s.index + 1));
        && list.result.Ok?
        && r.result == Invoke(fns[token.value], list.result.value)
        && r.state.calls == list.state.calls + [Call(token.value, list.result.value)]
        && r.state.index == list.state.index + (if checkColon then 1 else 0)
  {
  }

  /** The ';' that closes a statement, checked by text. */
  function ExpectSemicolon(tokens: seq<Token>, s: State): (r: Out<()>)
    requires s.index < |tokens|
    ensures r.result.Ok? <==> s.index < |tokens| - 1 && tokens[s.index + 1].value == ";"
    ensures r.state.variables == s.variables && r.state.calls == s.calls
    ensures r.state.index == s.index + (if s.index < |tokens| - 1 then 1 else 0)
    ensures s.index == |tokens| - 1 ==> r.result == Raise(None, "No more tokens to read")
    ensures s.index < |tokens| - 1 && tokens[s.index + 1].value != ";" ==>
      r.result == Raise(Some(tokens[s.index + 1]), "Token after variable value is not ';'")
  {
    var colon := GetNext(tokens, s);
    if colon.result.Fail? then Out(Fail(colon.result.error), colon.state)
    else if colon.result.value.value != ";" then
      Out(Raise(Some(colon.result.value), "Token after variable value is not ';'"), colon.state)
    else Out(Ok(()), colon.state)
  }

  /**
   * ParseAssigment: '=' (by text), a value, ';' (by text). The variables
   * are left alone; the caller binds the value.
   */
  function ParseAssignment(tokens: seq<Token>, fns: Table, s: State): (r: Out<Variable>)
    requires s.index < |tokens|
    ensures s.index <= r.state.index < |tokens|
    ensures r.state.variables == s.variables && s.calls <= r.state.calls
    ensures r.result.Ok? ==>
      && s.index + 3 <= r.state.index
      && tokens[s.index + 1].value == "="
      && tokens[r.state.index].value == ";"
    ensures s.index == |tokens| - 1 ==> r == Out(Raise(None, "No more tokens to read"), s)
    ensures s.index + 1 < |tokens| && tokens[s.index + 1].value != "=" ==>
      r == Out(Raise(Some(tokens[s.index + 1]), "Token after variable name is not '='"), s.(index := s.index + 1))
    ensures s.index + 2 == |tokens| && tokens[s.index + 1].value == "=" ==>
      r == Out(Raise(None, "No more tokens to read"), s.(index := s.index + 1))
  {
    var equal := GetNext(tokens, s);
    if equal.result.Fail? then Out(Fail(equal.result.error), equal.state)
    else if equal.result.value.value != "=" then
      Out(Raise(Some(equal.result.value), "Token after variable name is not '='"), equal.state)
    else AssignedValue(tokens, fns, equal.state)
  }

  /**
   * The value an assignment gives back is ParseValue's for the token after
   * the '=': a failure of ParseValue is the assignment's failure, and on
   * success the ';' check follows, carrying that value.
   */
  lemma AssignmentValue(tokens: seq<Token>, fns: Table, s: State)
    requires s.index + 2 < |tokens| && tokens[s.index + 1].value == "="
    ensures var r := ParseAssignment(tokens, fns, s);
      var v := ParseValue(tokens, fns, tokens[s.index + 2], s.(index := s.index + 2));
      && (v.result.Fail? ==> r == v)
      && (v.result.Ok? ==>
            var closed := ExpectSemicolon(tokens, v.state);
            r == Out(if closed.result.Ok? then v.result else Fail(closed.result.error), closed.state))
      && (r.result.Ok? ==> v.result.Ok? && r.result == v.result && r.state.index == v.state.index + 1)
  {
    assert GetNext(tokens, s) == Out(Ok(tokens[s.index + 1]), s.(index := s.index + 1));
    assert GetNext(tokens, s.(index := s.index + 1)) == Out(Ok(tokens[s.index + 2]), s.(index := s.index + 2));
  }

  /**
   * The rest of ParseAssigment, with index on the '=': the value token, its
   * value, and the ';' after it.
   */
  function AssignedValue(tokens: seq<Token>, fns: Table, s: State): (r: Out<Variable>)
    requires s.index < |tokens|
    ensures s.index <= r.state.index < |tokens|
    ensures r.state.variables == s.variables && s.calls <= r.state.calls
    ensures r.result.Ok? ==> s.index + 2 <= r.state.index && tokens[r.state.index].value == ";"
    ensures s.index == |tokens| - 1 ==> r == Out(Raise(None, "No more tokens to read"), s)
  {
    var valueToken := GetNext(tokens, s);
    if valueToken.result.Fail? then Out(Fail(valueToken.result.error), valueToken.state)
    else
      var v := ParseValue(tokens, fns, valueToken.result.value, valueToken.state);
      if v.result.Fail? then v
      else
        var closed := ExpectSemicolon(tokens, v.state);
        if closed.result.Fail? then Out(Fail(closed.result.error), closed.state)
        else Out(v.result, closed.state)
  }

  // ---------------------------------------------------------------------
  // Statements
  // ---------------------------------------------------------------------

  /**
   * ExecuteSymbol: '$' declares a new variable; the name must be a word not
   * yet declared, and it is bound only once its whole assignment has parsed.
   * Any other symbol is a syntax error.
   */
  function ExecuteSymbol(tokens: seq<Token>, fns: Table, token: Token, s: State): (r: Out<()>)
    requires s.index < |tokens|
    ensures s.index <= r.state.index < |tokens| && s.calls <= r.state.calls
    ensures r.result.Fail? ==> r.state.variables == s.variables
    ensures r.result.Ok? ==> s.index < r.state.index && tokens[r.state.index].value == ";"
    ensures token.value != "$" ==> r == Out(Raise(Some(token), "Syntax error"), s)
    ensures token.value == "$" && s.index == |tokens| - 1 ==> r == Out(Raise(None, "No more tokens to read"), s)
    ensures token.value == "$" && s.index + 1 < |tokens| && tokens[s.index + 1].kind != Word ==>
      r == Out(Raise(Some(tokens[s.index + 1]), "Token after $ is not a word"), s.(index := s.index + 1))
    ensures token.value == "$" && s.index + 1 < |tokens| && tokens[s.index + 1].kind == Word
            && tokens[s.index + 1].value in s.variables ==>
      r == Out(Raise(Some(tokens[s.index + 1]), "Variable with this name already exists"), s.(index := s.index + 1))
  {
    if token.value == "$" then Declaration(tokens, fns, s)
    else Out(Raise(Some(token), "Syntax error"), s)
  }

  /**
   * The '$' statement after its '$', which is under index: the name must be
   * a word not yet declared, and it is bound only once its whole assignment
   * has parsed.
   */
  function Declaration(tokens: seq<Token>, fns: Table, s: State): (r: Out<()>)
    requires s.index < |tokens|
    ensures s.index <= r.state.index < |tokens| && s.calls <= r.state.calls
    ensures r.result.Fail? ==> r.state.variables == s.variables
    ensures r.result.Ok? ==> s.index < r.state.index && tokens[r.state.index].value == ";"
    ensures s.index == |tokens| - 1 ==> r == Out(Raise(None, "No more tokens to read"), s)
    ensures s.index + 1 < |tokens| && tokens[s.index + 1].kind != Word ==>
      r == Out(Raise(Some(tokens[s.index + 1]), "Token after $ is not a word"), s.(index := s.index + 1))
    ensures s.index + 1 < |tokens| && tokens[s.index + 1].kind == Word && tokens[s.index + 1].value in s.variables ==>
      r == Out(Raise(Some(tokens[s.index + 1]), "Variable with this name already exists"), s.(index := s.index + 1))
  {
    var name := GetNext(tokens, s);
    if name.result.Fail? then Out(Fail(name.result.error), name.state)
    else
      var n := name.result.value;
      if n.kind != Word then Out(Raise(Some(n), "Token after $ is not a word"), name.state)
      else if n.value in s.variables then
        Out(Raise(Some(n), "Variable with this name already exists"), name.state)
      else
        var a := ParseAssignment(tokens, fns, name.state);
        if a.result.Fail? then Out(Fail(a.result.error), a.state)
        else Out(Ok(()), a.state.(variables := a.state.variables[n.value := a.result.value]))
  }

  /**
   * ExecuteWord: a declared variable is reassigned (a declared name is never
   * taken as a function); any other word is a function call statement.
   */
  function ExecuteWord(tokens: seq<Token>, fns: Table, token: Token, s: State): (r: Out<()>)
    requires s.index < |tokens|
    ensures s.index <= r.state.index < |tokens| && s.calls <= r.state.calls
    ensures r.result.Fail? ==> r.state.variables == s.variables
    ensures r.result.Ok? ==> s.index < r.state.index && tokens[r.state.index].value == ";"
  {
    if token.value in s.variables then
      var a := ParseAssignment(tokens, fns, s);
      if a.result.Fail? then Out(Fail(a.result.error), a.state)
      else Out(Ok(()), a.state.(variables := a.state.variables[token.value := a.result.value]))
    else
      var call := ParseFunction(tokens, fns, token, true, s);
      if call.result.Fail? then Out(Fail(call.result.error), call.state)
      else Out(Ok(()), call.state)
  }

  /** One pass of the loop of Execute: dispatch on the kind of the token under index. */
  function Statement(tokens: seq<Token>, fns: Table, s: State): (r: Out<()>)
    requires s.index < |tokens|
    ensures s.index <= r.state.index < |tokens| && s.calls <= r.state.calls
    ensures r.result.Fail? ==> r.state.variables == s.variables
    ensures r.result.Ok? ==> s.index < r.state.index && tokens[r.state.index].value == ";"
    ensures tokens[s.index].kind !in {Symbol, Word} ==> r == Out(Raise(Some(tokens[s.index]), "Bad next token"), s)
    ensures tokens[s.index].kind == Symbol && tokens[s.index].value != "$" ==>
      r == Out(Raise(Some(tokens[s.index]), "Syntax error"), s)
  {
    var token := tokens[s.index];
    match token.kind
    case Symbol => ExecuteSymbol(tokens, fns, token, s)
    case Word => ExecuteWord(tokens, fns, token, s)
    case _ => Out(Raise(Some(token), "Bad next token"), s)
  }

  /**
   * The loop of Execute from index on: statement after statement, each one
   * starting on the token after the ';' of the one before, until the tokens
   * run out or a statement fails.
   */
  function Run(tokens: seq<Token>, fns: Table, s: State): (r: Out<()>)
    requires s.index <= |tokens|
    ensures s.calls <= r.state.calls
    ensures r.result.Ok? ==> r.state.index == |tokens|
    decreases |tokens| - s.index, 1
  {
    if s.index == |tokens| then Out(Ok(()), s)
    else Resume(tokens, fns, Statement(tokens, fns, s))
  }

  /** What follows a statement with outcome st: the end on a failure, the next statement otherwise. */
  function Resume(tokens: seq<Token>, fns: Table, st: Out<()>): (r: Out<()>)
    requires st.state.index < |tokens|
    ensures st.state.calls <= r.state.calls
    ensures r.result.Ok? ==> r.state.index == |tokens|
    decreases |tokens| - st.state.index, 0
  {
    if st.result.Fail? then st
    else Run(tokens, fns, st.state.(index := st.state.index + 1))
  }

  /** A run that is not at the end is its first statement, then what follows it. */
  lemma RunStep(tokens: seq<Token>, fns: Table, before: State, done: Result<()>, after: State)
    requires before.index < |tokens|
    requires Out(done, after) == Statement(tokens, fns, before)
    ensures after.index < |tokens|
    ensures Run(tokens, fns, before) == Resume(tokens, fns, Out(done, after))
  {
  }

  /** After a statement that ends well, the run goes on from the token after its ';'. */
  lemma ResumeOk(tokens: seq<Token>, fns: Table, done: Result<()>, after: State)
    requires after.index < |tokens| && done.Ok?
    ensures Resume(tokens, fns, Out(done, after)) == Run(tokens, fns, after.(index := after.index + 1))
  {
  }

  /** No run of statements removes a variable, whether it ends well or not. */
  lemma {:induction false} RunKeepsVariables(tokens: seq<Token>, fns: Table, s: State)
    requires s.index <= |tokens|
    ensures forall k | k in s.variables :: k in Run(tokens, fns, s).state.variables
    decreases |tokens| - s.index, 1
  {
    if s.index < |tokens| {
      var st := Statement(tokens, fns, s);
      StatementKeepsKeys(tokens, fns, s);
      RunStep(tokens, fns, s, st.result, st.state);
      ResumeKeepsVariables(tokens, fns, st);
    }
  }

  /** Nor does what follows a statement remove any of the variables it left. */
  lemma {:induction false} ResumeKeepsVariables(tokens: seq<Token>, fns: Table, st: Out<()>)
    requires st.state.index < |tokens|
    ensures forall k | k in st.state.variables :: k in Resume(tokens, fns, st).state.variables
    decreases |tokens| - st.state.index, 0
  {
    if st.result.Ok? {
      ResumeOk(tokens, fns, st.result, st.state);
      RunKeepsVariables(tokens, fns, st.state.(index := st.state.index + 1));
    }
  }



  /** Execute: the loop from the first token, on the variables left by earlier runs. */
  function Execute(tokens: seq<Token>, fns: Table, variables: map<string, Variable>, calls: seq<Call>): (r: Out<()>)
    ensures calls <= r.state.calls
    ensures r.result.Ok? ==> r.state.index == |tokens|
    ensures forall k | k in variables :: k in r.state.variables
  {
    RunKeepsVariables(tokens, fns, State(0, variables, calls));
    Run(tokens, fns, State(0, variables, calls))
  }

  // ---------------------------------------------------------------------
  // Parse
  // ---------------------------------------------------------------------

  /** The tokens Parse keeps: all but whitespace and line ends, in order. */
  function Kept(ts: seq<Token>): (r: seq<Token>)
    ensures |r| <= |ts|
    ensures forall i | 0 <= i < |r| :: !IsLayout(r[i])
  {
    if ts == [] then []
    else (if IsLayout(ts[0]) then [] else [ts[0]]) + Kept(ts[1..])
  }

  lemma KeptCons(t: Token, ts: seq<Token>)
    ensures Kept([t] + ts) == (if IsLayout(t) then [] else [t]) + Kept(ts)
  {
    assert ([t] + ts)[1..] == ts;
  }

  /** Kept drops exactly the layout tokens. */
  lemma {:induction false} KeptMembers(ts: seq<Token>)
    ensures forall t :: t in Kept(ts) <==> t in ts && !IsLayout(t)
  {
    if ts != [] {
      KeptMembers(ts[1..]);
      assert ts == [ts[0]] + ts[1..];
    }
  }

  /** Kept distributes over concatenation, so order is kept. */
  lemma {:induction false} KeptAppend(a: seq<Token>, b: seq<Token>)
    ensures Kept(a + b) == Kept(a) + Kept(b)
  {
    if a != [] {
      assert (a + b)[1..] == a[1..] + b;
      KeptAppend(a[1..], b);
    } else {
      assert a + b == b;
    }
  }

  // ---------------------------------------------------------------------
  // What one statement does to the variables
  // ---------------------------------------------------------------------

  /** A statement never removes a variable. */
  lemma StatementKeepsKeys(tokens: seq<Token>, fns: Table, s: State)
    requires s.index < |tokens|
    ensures forall k | k in s.variables :: k in Statement(tokens, fns, s).state.variables
  {
  }

  /**
   * A successful declaration "$ name = value ;" binds exactly one new name,
   * the word after '$', to the value its assignment tail parses, and leaves
   * every other variable as it was.
   */
  lemma DeclarationAddsOne(tokens: seq<Token>, fns: Table, s: State)
    requires s.index < |tokens| && tokens[s.index].kind == Symbol && tokens[s.index].value == "$"
    ensures var r := Statement(tokens, fns, s);
      r.result.Ok? ==>
        && s.index + 1 < |tokens|
        && var name := tokens[s.index + 1].value;
        && tokens[s.index + 1].kind == Word
        && name !in s.variables
        && r.state.variables.Keys == s.variables.Keys + {name}
        && r.state.variables[name] == ParseAssignment(tokens, fns, s.(index := s.index + 1)).result.value
        && (forall k | k in s.variables :: r.state.variables[k] == s.variables[k])
  {
  }

  /**
   * A word naming a declared variable is an assignment, whatever functions
   * are registered: on success the same names are declared, and only that
   * one may have a new value (of any kind).
   */
  lemma ReassignmentKeepsNames(tokens: seq<Token>, fns: Table, s: State)
    requires s.index < |tokens| && tokens[s.index].kind == Word && tokens[s.index].value in s.variables
    ensures var r := Statement(tokens, fns, s);
      && var a := ParseAssignment(tokens, fns, s);
      && (r.result.Ok? <==> a.result.Ok?)
      && (r.result.Ok? ==>
            && r.state.variables.Keys == s.variables.Keys
            && r.state.variables[tokens[s.index].value] == a.result.value
            && (forall k | k in s.variables && k != tokens[s.index].value ::
                  r.state.variables[k] == s.variables[k]))
  {
  }

  /**
   * A word that names no variable starts a call statement: the statement is
   * ParseFunction with the ';' required, it succeeds exactly when the call
   * does, and it leaves every variable as it was.
   */
  lemma CallStatementKeepsVariables(tokens: seq<Token>, fns: Table, s: State)
    requires s.index < |tokens| && tokens[s.index].kind == Word && tokens[s.index].value !in s.variables
    ensures var r := Statement(tokens, fns, s);
      var c := ParseFunction(tokens, fns, tokens[s.index], true, s);
      && r.state == c.state
      && (r.result.Ok? <==> c.result.Ok?)
      && r.state.variables == s.variables
  {
  }

  /**
   * `$ name = v ;` with a one-token value v binds the new name to the value
   * ParseValue gives v, keeps every other variable, and ends on the ';'.
   */
  lemma DeclarationBindsValue(tokens: seq<Token>, fns: Table, s: State)
    requires s.index + 4 < |tokens|
    requires tokens[s.index].kind == Symbol && tokens[s.index].value == "$"
    requires tokens[s.index + 1].kind == Word && tokens[s.index + 1].value !in s.variables
    requires tokens[s.index + 2].value == "=" && tokens[s.index + 4].value == ";"
    requires var v := ParseValue(tokens, fns, tokens[s.index + 3], s.(index := s.index + 3));
      v.result.Ok? && v.state.index == s.index + 3
    ensures var v := ParseValue(tokens, fns, tokens[s.index + 3], s.(index := s.index + 3));
      Statement(tokens, fns, s)
        == Out(Ok(()), v.state.(index := s.index + 4,
                                 variables := s.variables[tokens[s.index + 1].value := v.result.value]))
  {
    var s1 := s.(index := s.index + 1);
    assert GetNext(tokens, s) == Out(Ok(tokens[s.index + 1]), s1);
    AssignmentValue(tokens, fns, s1);
  }

  /** true, false and null are values even where a variable of that name exists. */
  lemma KeywordsComeFirst(tokens: seq<Token>, fns: Table, token: Token, s: State)
    requires s.index < |tokens| && token.kind == Word
    ensures token.value == "true" ==> ParseValue(tokens, fns, token, s) == Out(Ok(BoolVariable(true)), s)
    ensures token.value == "false" ==> ParseValue(tokens, fns, token, s) == Out(Ok(BoolVariable(false)), s)
    ensures token.value == "null" ==> ParseValue(tokens, fns, token, s) == Out(Ok(NullVariable), s)
  {
  }

  /**
   * A statement that starts with a word that is neither a variable nor a
   * function, followed by '(', fails at the dictionary lookup and not with
   * a ScriptException.
   */
  lemma UnknownFunctionIsLookupFailure(tokens: seq<Token>, fns: Table, s: State)
    requires s.index + 1 < |tokens|
    requires tokens[s.index].kind == Word && tokens[s.index + 1].value == "("
    requires tokens[s.index].value !in s.variables && tokens[s.index].value !in fns
    ensures Statement(tokens, fns, s).result == Fail(KeyNotFound(tokens[s.index].value))
  {
  }
}
