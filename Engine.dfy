/**
 * PScript.ScriptEngine: the interpreter object. Its token buffer, token
 * index and variable table are fields that Parse, Execute and the private
 * parsing methods update in place; each method is proved to leave the
 * engine in the state, and return the result, that the functions of
 * EngineSpec compute.
 */
module Engine {
  import opened Wrappers
  import opened Tokens
  import opened Exceptions
  import opened Variables
  import opened Functions
  import opened TokenizerSpec
  import opened Parsing
  import opened EngineSpec

  /** One pass of the loop of Parse: the token read, and the tokens Tokenize still has to give. */
  lemma ParseStep(text: string, symbols: seq<char>, here: Cursor, r: Result<Token>, after: Cursor)
    requires here.pos <= |text|
    requires Step(r, after) == ScanToken(text, symbols, here)
    ensures var l := Tokenize(text, symbols, here);
      && (r.Fail? ==> l.tokens == [] && l.error == Some(r.error))
      && (r.Ok? && r.value.kind == EOF ==> l.tokens == [] && l.error.None?)
      && (r.Ok? && r.value.kind != EOF ==>
            && here.pos < after.pos <= |text|
            && l.tokens == [r.value] + Tokenize(text, symbols, after).tokens
            && l.error == Tokenize(text, symbols, after).error)
  {
    TokenizeStep(text, symbols, here);
  }

  /** The tokens kept so far, and those still to come, make up all the tokens kept. */
  lemma KeptStep(all: seq<Token>, kept: seq<Token>, ahead: seq<Token>, t: Token, rest: seq<Token>)
    requires all == kept + Kept(ahead) && ahead == [t] + rest
    ensures all == (kept + (if IsLayout(t) then [] else [t])) + Kept(rest)
  {
    KeptCons(t, rest);
  }

  class ScriptEngine {
    var index: nat
    var tokens: seq<Token>
    var variables: map<string, Variable>
    var functions: map<string, Function>
    /** The delegate calls made so far, oldest first. */
    var calls: seq<Call>

    /** index, variables and the call trace, as one value. */
    function Snapshot(): State
      reads this`index, this`variables, this`calls
    {
      State(index, variables, calls)
    }

    /** What the registered functions currently accept and compute. */
    function Bindings(): Table
      reads this`functions, functions.Values
    {
      map name | name in functions :: functions[name].AsBinding()
    }

    constructor()
      ensures index == 0 && tokens == [] && variables == map[] && functions == map[] && calls == []
    {
      index := 0;
      tokens := [];
      variables := map[];
      functions := map[];
      calls := [];
    }

    /** The Functions setter. */
    method SetFunctions(fns: map<string, Function>)
      modifies this`functions
      ensures functions == fns
    {
      functions := fns;
    }

    /**
     * Clear the tokens and the variables, then read the text with a new
     * Tokenizer until EOF, keeping every token but whitespace and line ends.
     * A failure of the tokenizer ends Parse with the tokens read before it.
     */
    method Parse(text: string) returns (r: Result<()>)
      modifies this`tokens, this`variables
      ensures variables == map[]
      ensures var l := Tokenize(text, DefaultSymbolChars, Start);
        && tokens == Kept(l.tokens)
        && (l.error.None? ==> r == Ok(()))
        && (l.error.Some? ==> r == Fail(l.error.value))
    {
      tokens := [];
      variables := map[];
      var tok := new Tokenizer(text);
      ghost var full := Tokenize(text, DefaultSymbolChars, Start);
      ghost var ahead := full;
      while true
        invariant tok.data == text && tok.symbolChars == DefaultSymbolChars && tok.Valid()
        invariant variables == map[]
        invariant ahead == Tokenize(text, DefaultSymbolChars, tok.Here()) && ahead.error == full.error
        invariant Kept(full.tokens) == tokens + Kept(ahead.tokens)
        decreases |text| - tok.pos
      {
        ghost var here, kept := tok.Here(), tokens;
        var next := ParseRound(tok);
        ParseStep(text, DefaultSymbolChars, here, next, tok.Here());
        if next.Fail? {
          return Fail(next.error);
        }
        if next.value.kind == EOF {
          break;
        }
        ghost var rest := Tokenize(text, DefaultSymbolChars, tok.Here());
        KeptStep(Kept(full.tokens), kept, ahead.tokens, next.value, rest.tokens);
        ahead := rest;
      }
      r := Ok(());
    }

    /**
     * One round of the loop of Parse: the next token of tok, appended to the
     * tokens unless it is EOF, whitespace or a line end.
     */
    method ParseRound(tok: Tokenizer) returns (next: Result<Token>)
      requires tok.Valid()
      modifies this`tokens, tok`pos, tok`line, tok`column, tok`saveLine, tok`saveCol, tok`savePos
      ensures tok.Valid() && Step(next, tok.Here()) == ScanToken(tok.data, tok.symbolChars, old(tok.Here()))
      ensures tokens == old(tokens) + (if next.Ok? && next.value.kind != EOF && !IsLayout(next.value) then [next.value] else [])
    {
      next := tok.Next();
      if next.Ok? && next.value.kind != EOF && !IsLayout(next.value) {
        tokens := tokens + [next.value];
      }
    }

    /** The token after the current one; index moves onto it. */
    method GetNext() returns (r: Result<Token>)
      requires index < |tokens|
      modifies this`index
      ensures Out(r, Snapshot()) == EngineSpec.GetNext(tokens, old(Snapshot()))
      ensures Bindings() == old(Bindings())
    {
      if index == |tokens| - 1 {
        return Raise(None, "No more tokens to read");
      }
      index := index + 1;
      r := Ok(tokens[index]);
    }

    /** Run every statement from the first token on. */
    method Execute() returns (r: Result<()>)
      modifies this`index, this`variables, this`calls
      ensures Out(r, Snapshot()) == EngineSpec.Execute(tokens, Bindings(), old(variables), old(calls))
    {
      index := 0;
      ghost var fns := Bindings();
      ghost var target := Run(tokens, fns, Snapshot());
      while index < |tokens|
        invariant index <= |tokens| && Bindings() == fns
        invariant Run(tokens, fns, Snapshot()) == target
        decreases |tokens| - index
      {
        ghost var before := Snapshot();
        var done := ExecuteStatement();
        assert Bindings() == fns;
        ghost var after := Snapshot();
        RunStep(tokens, fns, before, done, after);
        if done.Fail? {
          return done;
        }
        ResumeOk(tokens, fns, done, after);
        index := index + 1;
        assert Snapshot() == after.(index := after.index + 1);
      }
      r := Ok(());
    }

    /** The switch in the loop of Execute, on the token under index. */
    method ExecuteStatement() returns (r: Result<()>)
      requires index < |tokens|
      modifies this`index, this`variables, this`calls
      ensures Out(r, Snapshot()) == Statement(tokens, Bindings(), old(Snapshot()))
      ensures Bindings() == old(Bindings())
    {
      var token := tokens[index];
      match token.kind {
        case Symbol =>
          r := ExecuteSymbol(token);
        case Word =>
          r := ExecuteWord(token);
        case _ =>
          r := Raise(Some(token), "Bad next token");
      }
    }

    method ExecuteSymbol(token: Token) returns (r: Result<()>)
      requires index < |tokens|
      modifies this`index, this`variables, this`calls
      ensures Out(r, Snapshot()) == EngineSpec.ExecuteSymbol(tokens, Bindings(), token, old(Snapshot()))
      ensures Bindings() == old(Bindings())
    {
      if token.value == "$" {
        var name := GetNext();
        if name.Fail? {
          return Fail(name.error);
        }
        if name.value.kind != Word {
          return Raise(Some(name.value), "Token after $ is not a word");
        }
        if name.value.value in variables {
          return Raise(Some(name.value), "Variable with this name already exists");
        }
        var theVar := ParseAssignment();
        if theVar.Fail? {
          return Fail(theVar.error);
        }
        variables := variables[name.value.value := theVar.value];
        r := Ok(());
      } else {
        r := Raise(Some(token), "Syntax error");
      }
    }

    method ExecuteWord(token: Token) returns (r: Result<()>)
      requires index < |tokens|
      modifies this`index, this`variables, this`calls
      ensures Out(r, Snapshot()) == EngineSpec.ExecuteWord(tokens, Bindings(), token, old(Snapshot()))
      ensures Bindings() == old(Bindings())
    {
      if token.value in variables {
        var theVar := ParseAssignment();
        if theVar.Fail? {
          return Fail(theVar.error);
        }
        variables := variables[token.value := theVar.value];
        r := Ok(());
      } else {
        var call := ParseFunction(token, true);
        if call.Fail? {
          return Fail(call.error);
        }
        r := Ok(());
      }
    }

    method ParseValue(token: Token) returns (r: Result<Variable>)
      requires index < |tokens|
      modifies this`index, this`calls
      ensures Out(r, Snapshot()) == EngineSpec.ParseValue(tokens, Bindings(), token, old(Snapshot()))
      ensures Bindings() == old(Bindings())
      decreases |tokens| - index, 1
    {
      var value := token.value;
      match token.kind {
        case QuotedString =>
          r := Ok(StringVariable(value));
        case Number =>
          var num := ToInt32(value);
          if num.Fail? {
            return Fail(num.error);
          }
          r := Ok(NumberVariable(num.value));
        case Word =>
          if value == "true" {
            r := Ok(BoolVariable(true));
          } else if value == "false" {
            r := Ok(BoolVariable(false));
          } else if value == "null" {
            r := Ok(NullVariable);
          } else if value in variables {
            r := Ok(variables[value].Clone());
          } else if value in functions {
            r := ParseFunction(token, false);
          } else {
            r := Raise(Some(token), "Variable value is not string/number/bool/keyword");
          }
        case _ =>
          r := Raise(Some(token), "Variable value is not string/number/bool/keyword");
      }
    }

    method ParseAssignment() returns (r: Result<Variable>)
      requires index < |tokens|
      modifies this`index, this`calls
      ensures Out(r, Snapshot()) == EngineSpec.ParseAssignment(tokens, Bindings(), old(Snapshot()))
      ensures Bindings() == old(Bindings())
    {
      var equal := GetNext();
      if equal.Fail? {
        return Fail(equal.error);
      }
      if equal.value.value != "=" {
        return Raise(Some(equal.value), "Token after variable name is not '='");
      }
      var valueToken := GetNext();
      if valueToken.Fail? {
        return Fail(valueToken.error);
      }
      var theVar := ParseValue(valueToken.value);
      if theVar.Fail? {
        return theVar;
      }
      var colon := GetNext();
      if colon.Fail? {
        return Fail(colon.error);
      }
      if colon.value.value != ";" {
        return Raise(Some(colon.value), "Token after variable value is not ';'");
      }
      r := theVar;
    }

    method ParseFunction(token: Token, checkColon: bool) returns (r: Result<Variable>)
      requires index < |tokens|
      modifies this`index, this`calls
      ensures Out(r, Snapshot()) == EngineSpec.ParseFunction(tokens, Bindings(), token, checkColon, old(Snapshot()))
      ensures Bindings() == old(Bindings())
      decreases |tokens| - index, 0
    {
      var next := GetNext();
      if next.Fail? {
        return Fail(next.error);
      }
      if next.value.value != "(" {
        return Raise(Some(next.value), "Token after function is not a '('");
      }
      if token.value !in functions {
        return Fail(KeyNotFound(token.value));
      }
      var callee := functions[token.value];
      ghost var fns := Bindings();
      ghost var binding := callee.AsBinding();
      assert binding == fns[token.value];
      var list := ParseArgumentList();
      assert Bindings() == fns && callee.AsBinding() == binding;
      if list.Fail? {
        return Fail(list.error);
      }
      var args := list.value;
      ghost var closing := Snapshot();
      assert EngineSpec.ParseFunction(tokens, fns, token, checkColon, old(Snapshot()))
          == FinishCall(tokens, binding, token.value, checkColon, args, closing);
      if checkColon {
        var colon := GetNext();
        if colon.Fail? {
          return Fail(colon.error);
        }
        if colon.value.value != ";" {
          return Raise(Some(colon.value), "Token after variable value is not ';'");
        }
        assert ExpectSemicolon(tokens, closing) == Out(Ok(()), Snapshot());
      }
      r := CallFunction(token.value, callee, args);
    }

    /**
     * Function.Execute on a registered function; a call that reaches the
     * delegate is appended to the trace.
     */
    method CallFunction(name: string, callee: Function, args: seq<Variable>) returns (r: Result<Variable>)
      modifies this`calls
      ensures Out(r, Snapshot()) == CallBinding(old(callee.AsBinding()), name, args, old(Snapshot()))
      ensures Bindings() == old(Bindings())
    {
      r := callee.Execute(args);
      if r.Ok? {
        calls := calls + [Call(name, args)];
      }
    }

    /**
     * The loop of ParseFunction, from the '(' to the ')': the values read,
     * in order; ',' tokens are skipped.
     */
    method ParseArgumentList() returns (r: Result<seq<Variable>>)
      requires index < |tokens|
      modifies this`index, this`calls
      ensures Out(r, Snapshot()) == ParseArguments(tokens, Bindings(), [], old(Snapshot()))
      ensures Bindings() == old(Bindings())
      decreases |tokens| - index, 0
    {
      var args: seq<Variable> := [];
      ghost var fns := Bindings();
      ghost var target := ParseArguments(tokens, fns, [], Snapshot());
      while true
        invariant old(index) <= index < |tokens| && Bindings() == fns
        invariant ParseArguments(tokens, fns, args, Snapshot()) == target
        decreases |tokens| - index
      {
        var param := GetNext();
        if param.Fail? {
          return Fail(param.error);
        }
        var value := param.value.value;
        if param.value.kind == Symbol {
          if value == ")" {
            break;
          } else if value != "," {
            return Raise(Some(param.value), "Symbol token inside arg list is not a ','");
          }
        } else {
          var variable := ParseValue(param.value);
          if variable.Fail? {
            return Fail(variable.error);
          }
          args := args + [variable.value];
        }
      }
      r := Ok(args);
    }
  }
}
