/**
 * Concrete runs of the engine on short token lists, one per statement form
 * and per notable corner of the grammar.
 */
module Scenarios {
  import opened Wrappers
  import opened Tokens
  import opened Exceptions
  import opened Variables
  import opened Functions
  import opened EngineSpec

  /** `$ x = 5 ;` declares x as the number 5. */
  lemma DeclareNumber()
    ensures var r := Execute([Token(Symbol, "$", 1, 1), Token(Word, "x", 1, 1), Token(Symbol, "=", 1, 1), Token(TokenKind.Number, "5", 1, 1), Token(Symbol, ";", 1, 1)], map[], map[], []);
      r.result.Ok? && r.state.variables == map["x" := NumberVariable(5)] && r.state.calls == []
  {
  }

  /** The '=' and ';' are matched by text: a quoted "=" passes for the symbol. */
  lemma QuotedEqualsPasses()
    ensures var r := Execute([Token(Symbol, "$", 1, 1), Token(Word, "x", 1, 1), Token(QuotedString, "=", 1, 1), Token(Word, "true", 1, 1), Token(Symbol, ";", 1, 1)], map[], map[], []);
      r.result.Ok? && r.state.variables == map["x" := BoolVariable(true)]
  {
  }

  /** Reassignment may change the kind of a variable. */
  lemma ReassignChangesKind()
    ensures var r := Execute([Token(Word, "x", 1, 1), Token(Symbol, "=", 1, 1), Token(QuotedString, "s", 1, 1), Token(Symbol, ";", 1, 1)], map[], map["x" := NumberVariable(1)], []);
      r.result.Ok? && r.state.variables == map["x" := StringVariable("s")]
  {
  }

  /** Declaring a name twice fails at the name, and the table is left as it was. */
  lemma RedeclarationFails()
    ensures var tokens := [Token(Symbol, "$", 1, 1), Token(Word, "x", 1, 1), Token(Symbol, "=", 1, 1), Token(TokenKind.Number, "2", 1, 1), Token(Symbol, ";", 1, 1)];
      var r := Execute(tokens, map[], map["x" := NullVariable], []);
      r.result == Raise(Some(Token(Word, "x", 1, 1)), "Variable with this name already exists")
      && r.state.variables == map["x" := NullVariable]
  {
  }

  /** `f ( "a" , , 7 ) ;` */
  const CommaCall := [Token(Word, "f", 1, 1), Token(Symbol, "(", 1, 1), Token(QuotedString, "a", 1, 1),
                      Token(Symbol, ",", 1, 1), Token(Symbol, ",", 1, 1), Token(TokenKind.Number, "7", 1, 1),
                      Token(Symbol, ")", 1, 1), Token(Symbol, ";", 1, 1)]

  /** The argument list of CommaCall reads both values and stops on the ')'. */
  lemma CommaCallArguments(fns: Table)
    ensures ParseArguments(CommaCall, fns, [], State(1, map[], []))
         == Out(Ok([StringVariable("a"), NumberVariable(7)]), State(6, map[], []))
  {
    var tokens := CommaCall;
    var a, args := [StringVariable("a")], [StringVariable("a"), NumberVariable(7)];
    assert tokens[2].value == "a" && tokens[5].value == "7" && tokens[6].kind == Symbol && tokens[6].value == ")";
    assert ParseArguments(tokens, fns, args, State(5, map[], [])) == Out(Ok(args), State(6, map[], []));
    assert ParseValue(tokens, fns, tokens[5], State(5, map[], [])) == Out(Ok(NumberVariable(7)), State(5, map[], []));
    assert a + [NumberVariable(7)] == args;
    assert ParseArguments(tokens, fns, a, State(4, map[], [])) == Out(Ok(args), State(6, map[], []));
    CommasAreSkipped(tokens, fns, a, State(3, map[], []));
    CommasAreSkipped(tokens, fns, a, State(2, map[], []));
    assert [] + a == a;
  }

  /**
   * CommaCall with f taking a string and a number: the repeated comma is
   * skipped and the delegate is called once, with both values.
   */
  lemma CallWithRepeatedComma(native: seq<Variable> -> Variable)
    ensures var fns := map["f" := Binding(Some([VariableKind.String, VariableKind.Number]), native)];
      var r := Execute(CommaCall, fns, map[], []);
      && r.result.Ok?
      && r.state.calls == [Call("f", [StringVariable("a"), NumberVariable(7)])]
  {
    var tokens := CommaCall;
    var fns := map["f" := Binding(Some([VariableKind.String, VariableKind.Number]), native)];
    var args := [StringVariable("a"), NumberVariable(7)];
    var called := State(7, map[], [Call("f", args)]);
    CommaCallArguments(fns);
    assert args[0].Kind() == VariableKind.String && args[1].Kind() == VariableKind.Number;
    assert FinishCall(tokens, fns["f"], "f", true, args, State(6, map[], [])).state == called;
    assert ParseFunction(tokens, fns, tokens[0], true, State(0, map[], [])).state == called;
    assert Statement(tokens, fns, State(0, map[], [])) == Out(Ok(()), called);
    RunStep(tokens, fns, State(0, map[], []), Ok(()), called);
    ResumeOk(tokens, fns, Ok(()), called);
  }

  /** A call with the wrong argument kinds fails in Function.Execute and reaches no delegate. */
  lemma CallWithWrongKind(native: seq<Variable> -> Variable)
    ensures var tokens := [Token(Word, "f", 1, 1), Token(Symbol, "(", 1, 1), Token(TokenKind.Number, "7", 1, 1), Token(Symbol, ")", 1, 1), Token(Symbol, ";", 1, 1)];
      var fns := map["f" := Binding(Some([VariableKind.String]), native)];
      var r := Execute(tokens, fns, map[], []);
      r.result == Raise(None, "Bad argument type") && r.state.calls == []
  {
    var tokens := [Token(Word, "f", 1, 1), Token(Symbol, "(", 1, 1), Token(TokenKind.Number, "7", 1, 1), Token(Symbol, ")", 1, 1), Token(Symbol, ";", 1, 1)];
    var fns := map["f" := Binding(Some([VariableKind.String]), native)];
    assert ToInt32("7") == Ok(7);
    assert tokens[2].value == "7" && tokens[3].kind == Symbol && tokens[3].value == ")";
    assert ParseValue(tokens, fns, tokens[2], State(2, map[], [])) == Out(Ok(NumberVariable(7)), State(2, map[], []));
    var seven := [NumberVariable(7)];
    assert GetNext(tokens, State(2, map[], [])) == Out(Ok(tokens[3]), State(3, map[], []));
    assert ParseArguments(tokens, fns, seven, State(2, map[], [])).result == Ok(seven);
    assert ParseArguments(tokens, fns, seven, State(2, map[], [])).state == State(3, map[], []);
    assert [] + seven == seven;
    assert ParseArguments(tokens, fns, [], State(1, map[], [])) == Out(Ok([NumberVariable(7)]), State(3, map[], []));
    assert seven[0].Kind() != VariableKind.String;
    assert FinishCall(tokens, fns["f"], "f", true, seven, State(3, map[], [])) == Out(Raise(None, "Bad argument type"), State(4, map[], []));
    assert ParseFunction(tokens, fns, tokens[0], true, State(0, map[], [])) == Out(Raise(None, "Bad argument type"), State(4, map[], []));
    assert Statement(tokens, fns, State(0, map[], [])) == Out(Raise(None, "Bad argument type"), State(4, map[], []));
  }
}
