# PScript core in Dafny

PScript is a small embeddable scripting language for .NET. A host registers
native functions, hands the engine a script, and the engine does two things:

* `ScriptEngine.Parse` runs the `Tokenizer` over the text and keeps every
  token except whitespace and line ends.
* `ScriptEngine.Execute` walks that token list statement by statement. There
  are three kinds of statement: `$name = value;` declares a variable,
  `name = value;` reassigns one, and `f(args);` calls a registered function.

Values are `Variable`s: null, a 32-bit number, a string or a boolean.
Registered functions are `Function` objects. Each holds a delegate and a
signature of `VariableKind`s that every call is checked against. Script
errors are `ScriptException`s, which carry an optional token whose line and
column prefix the message.

The model follows the source file by file:

| Dafny file | models | form |
|---|---|---|
| `Tokens.dfy` | `Token`, `TokenKind` | datatypes |
| `Variable.dfy` | `Structure/Variable.cs` | a datatype with `Kind()` and `Clone()` |
| `ScriptException.dfy` | `Exceptions/ScriptException.cs`, plus the .NET exceptions the core can raise | datatypes and functions |
| `Function.dfy` | `Structure/Function.cs` | `Invoke`, a value-level function, and class `Function` proved against it |
| `TokenizerSpec.dfy` | `Parsing/Tokenizer.cs` | what one `Next()` computes (`ScanToken`) and the whole token stream (`Tokenize`), with their lemmas |
| `Tokenizer.dfy` | `Parsing/Tokenizer.cs` | class `Tokenizer`: its cursor fields, and each `Read*` loop proved against `TokenizerSpec` |
| `EngineSpec.dfy` | `ScriptEngine.cs` | each parsing routine as a function from a `State` to a result and the next `State`, with lemmas |
| `Engine.dfy` | `ScriptEngine.cs` | class `ScriptEngine`: its fields, and each method proved equal to its `EngineSpec` function |
| `Scenarios.dfy` | `ScriptEngine.cs` | worked examples: concrete statements run through `EngineSpec.Execute`; the general properties are the `EngineSpec` lemmas |
| `Decimal.dfy`, `Wrappers.dfy` | decimal rendering of integers, `Option` | helpers |

The engine's state in the model:

* The `State` datatype holds `index`, the `variables` dictionary, and `calls`.
* `calls` is a trace of the delegate invocations made so far. Each entry is a
  `Call(name, args)`, recorded when `Function.Execute` has accepted the
  arguments and invokes the delegate.
* Each executing method of `ScriptEngine`, from `GetNext` through
  `CallFunction`, ensures that its result and its new
  `(index, variables, calls)` are what the matching `EngineSpec` function
  computes from the old ones. `Parse` and `ParseRound` are proved against
  `TokenizerSpec.Tokenize` and `EngineSpec.Kept` instead.
* The properties are then proved about those functions.

Every failure the core can produce is a `Result.Fail`. Besides
`ScriptException` these are the .NET exceptions the code reaches:

* `KeyNotFoundException`: a statement word that names neither a variable nor
  a registered function.
* `NullReferenceException`: a function whose `SetArguments` was never called.
* `ArgumentOutOfRangeException`: a lone `"` as the last character of the text.
* `FormatException` and `OverflowException` from `Convert.ToInt32`.

Behaviour of the code that is easy to misread, reproduced by the model:

* `=`, `;` and `(` are matched by token text, not by kind. A quoted `"="`
  therefore passes for `=` (`Scenarios.QuotedEqualsPasses`).
* A statement word that is neither a variable nor a function is not a
  `ScriptException`. After the `(` check it fails on the dictionary lookup
  with `KeyNotFoundException` (`EngineSpec.UnknownFunctionIsLookupFailure`).
* An unterminated quoted string keeps its opening quote stripped, and loses
  its last character too: `CreateToken` always cuts one character from each
  end (`TokenizerSpec.ScanRenders`).
* A lone `"` at the end of the text, or followed by a NUL character, gives
  `ArgumentOutOfRangeException`, not an empty string.
* `LA` reads a NUL character in the text the same as the end of the text.
  A NUL in mid-text therefore ends the token stream there: the rest of the
  text is dropped silently, with no error (`TokenizerSpec.TokenizeAtEnd`).
* Doubled quotes `""` inside a string stay doubled in the token text
  (`TokenizerSpec.ScanQuotedString`).
* A Number token with a `.` scans, but `Convert.ToInt32` rejects it
  (`EngineSpec.ToInt32RejectsFraction`).

## Model

| member | source | states |
|---|---|---|
| Variables.Variable.Kind | PScript/PScript/Structure/Variable.cs:4-105 | each subclass reports its own tag, one tag per variant and no two variants sharing one |
| Variables.Variable.Clone | PScript/PScript/Structure/Variable.cs:15-105 | a clone has the same kind and the same payload as the original, so reading a variable never changes what it holds |
| Exceptions.ScriptException.Message | PScript/PScript/Exceptions/ScriptException.cs:19-28 | without a token the message is the bare text; with one, the text is only prefixed, and it ends with the original message |
| Exceptions.Unpositioned | PScript/PScript/Exceptions/ScriptException.cs:38-41 | the one-argument constructor carries no token, so its Message is exactly the text given |
| Exceptions.MessageRoundTrip | PScript/PScript/Exceptions/ScriptException.cs:23-24 | the "[Line L:C] " prefix is unambiguous: line, column and message are read back from the formatted Message |
| Decimal.NatToStringRoundTrip | PScript/PScript/Exceptions/ScriptException.cs:24 | a line or column written in decimal reads back as the same number |
| Functions.Invoke | PScript/PScript/Structure/Function.cs:24-39 | the delegate runs exactly when a signature is set and every argument's kind equals the declared kind at its position; otherwise the error is NullReference (no signature), "Mismatching argument count" or "Bad argument type", in that order |
| Functions.EmptySignatureTakesNoArguments | PScript/PScript/Structure/Function.cs:26-27 | a function declared with no parameter kinds accepts exactly the empty argument list |
| Functions.Function.constructor | PScript/PScript/Structure/Function.cs:14-17 | a new Function holds the delegate and no signature |
| Functions.Function.SetArguments | PScript/PScript/Structure/Function.cs:19-22 | the signature becomes the given kinds |
| Functions.Function.Execute | PScript/PScript/Structure/Function.cs:24-39 | the loop over the arguments returns what Invoke gives for the current signature |
| TokenizerSpec.MakeToken | PScript/PScript/Parsing/Tokenizer.cs:79-91 | the token has the text consumed since StartRead at the saved line and column; a quoted string loses one character at each end and fails when fewer than two were consumed |
| TokenizerSpec.BlankRunEnd | PScript/PScript/Parsing/Tokenizer.cs:183-190 | the whitespace loop stops at the first character that is not a space or tab, having consumed only spaces and tabs |
| TokenizerSpec.WordRunEnd | PScript/PScript/Parsing/Tokenizer.cs:234-241 | the word loop stops at the first character that is not a letter or '_', having consumed only those |
| TokenizerSpec.BlankRunEndUnique | PScript/PScript/Parsing/Tokenizer.cs:183-190 | the end of a whitespace run is the only position with blanks before it and a non-blank after it |
| TokenizerSpec.WordRunEndUnique | PScript/PScript/Parsing/Tokenizer.cs:234-241 | the end of a word run is the only position with word characters before it and none after it |
| TokenizerSpec.NumberRunEnd | PScript/PScript/Parsing/Tokenizer.cs:208-220 | the number loop consumes only digits and '.', and stops before a character that is not a digit |
| TokenizerSpec.NumberRunShape | PScript/PScript/Parsing/Tokenizer.cs:204-220 | at most one '.' is taken in all, and the loop stops on a '.' only when one was already taken |
| TokenizerSpec.StringEnd | PScript/PScript/Parsing/Tokenizer.cs:258-289 | the string loop never moves backwards and stays within the text |
| TokenizerSpec.StringStep | PScript/PScript/Parsing/Tokenizer.cs:263-288 | one pass of the string loop consumes one or two characters: a doubled quote as a pair, otherwise no quote at all |
| TokenizerSpec.StringEndCloses | PScript/PScript/Parsing/Tokenizer.cs:258-289 | the loop ends just after a lone '"' when the string is closed, and at the end of the text or on a NUL character when it is not |
| TokenizerSpec.StringEndStopsCleanly | PScript/PScript/Parsing/Tokenizer.cs:258-289 | the string contains no NUL, and a CR it ends on is never followed by an LF left behind |
| TokenizerSpec.StringEndPairsQuotes | PScript/PScript/Parsing/Tokenizer.cs:279-286 | every quote inside a string body comes as a doubled pair |
| TokenizerSpec.ScanToken | PScript/PScript/Parsing/Tokenizer.cs:93-161 | EOF exactly at the end of the text or on a NUL character, with empty text and the cursor unmoved; every other token advances the cursor, is positioned where it starts and holds the consumed text, with a quoted string's quotes stripped |
| TokenizerSpec.ScanBlank | PScript/PScript/Parsing/Tokenizer.cs:177-194 | a WhiteSpace token holding the non-empty run of spaces and tabs from the cursor, ending before a non-blank, with the column moved by its length |
| TokenizerSpec.ScanNumber | PScript/PScript/Parsing/Tokenizer.cs:200-223 | a Number token holding the digits and dots from the cursor, ending before a non-digit, with the column moved by its length |
| TokenizerSpec.ScanNewline | PScript/PScript/Parsing/Tokenizer.cs:116-137 | an EOL token of two characters exactly for CR LF and of one otherwise, moving to column 1 of the next line |
| TokenizerSpec.ScanString | PScript/PScript/Parsing/Tokenizer.cs:252-292 | fails with ArgumentOutOfRange exactly when the '"' is the last character or is followed by a NUL; otherwise a QuotedString token holding the text between the quotes |
| TokenizerSpec.ScanWord | PScript/PScript/Parsing/Tokenizer.cs:228-244 | a Word token holding the non-empty run of letters and '_' from the cursor, ending before any other character, with the column moved by its length |
| TokenizerSpec.ScanSymbol | PScript/PScript/Parsing/Tokenizer.cs:148-153 | a Symbol token holding the one character under the cursor, which moves one column right |
| TokenizerSpec.ScanTokenRuns | PScript/PScript/Parsing/Tokenizer.cs:93-161 | whitespace and word tokens are maximal runs; a number has the shape DIGIT+ ('.' DIGIT*)? and is maximal; a symbol is one symbol character; a line end is LF, CRLF, or a CR not followed by LF |
| TokenizerSpec.BlankRuns | PScript/PScript/Parsing/Tokenizer.cs:177-194 | ReadWhitespace gives a non-empty maximal run of blanks |
| TokenizerSpec.WordRuns | PScript/PScript/Parsing/Tokenizer.cs:228-244 | ReadWord gives a non-empty maximal run of word characters |
| TokenizerSpec.NumberRuns | PScript/PScript/Parsing/Tokenizer.cs:200-223 | ReadNumber gives number text followed by a non-digit, and a '.' after it means the text already has one |
| TokenizerSpec.NewlineRuns | PScript/PScript/Parsing/Tokenizer.cs:116-137 | a line end is "\n", "\r\n", or a "\r" with no LF after it |
| TokenizerSpec.ScanTokenFailures | PScript/PScript/Parsing/Tokenizer.cs:144-157 | "Unknown token type" exactly for a character no case handles, and then nothing is consumed; ArgumentOutOfRange exactly for a '"' that is the last character or is followed by a NUL; no other failure |
| TokenizerSpec.ScanQuotedString | PScript/PScript/Parsing/Tokenizer.cs:252-292 | a quoted string starts at '"' and holds no NUL. Either it was closed by a lone '"' and its quotes are doubled pairs, or it ran to the end of the text or to a NUL character |
| TokenizerSpec.StringShape | PScript/PScript/Parsing/Tokenizer.cs:252-292 | ReadString's token is closed by a lone quote with paired inner quotes, or runs to the end of the text or to a NUL character |
| TokenizerSpec.Tokenize | PScript/PScript/Parsing/Tokenizer.cs:93-161 | calling Next until EOF or a failure: never yields an EOF token, and without a failure it ends at the end of the text or on the first NUL character |
| TokenizerSpec.TokenizeStep | PScript/PScript/Parsing/Tokenizer.cs:93-161 | the stream is the first token followed by the stream from the cursor after it; a failure or EOF ends it |
| TokenizerSpec.TokenizeAtEnd | PScript/PScript/Parsing/Tokenizer.cs:98-99 | at the end of the text or on a NUL character the stream is empty and the cursor stays put |
| TokenizerSpec.TokenizeReachesEnd | PScript/PScript/Parsing/Tokenizer.cs:93-161 | on text with no NUL, a stream without failure consumes the whole text |
| TokenizerSpec.TokenizeRebuildsText | PScript/PScript/Parsing/Tokenizer.cs:79-161 | the tokens, quoted strings requoted, spell out exactly the scanned text, unless the text ends inside an open string |
| TokenizerSpec.ScanRenders | PScript/PScript/Parsing/Tokenizer.cs:84-88 | each token, requoted, is the text it consumed, except an unterminated string at the end, which has lost its last character |
| TokenizerSpec.AdvanceAppend | PScript/PScript/Parsing/Tokenizer.cs:70-77 | moving the cursor over two texts in turn is moving it over their concatenation, provided no CRLF is split |
| TokenizerSpec.Advance | PScript/PScript/Parsing/Tokenizer.cs:70-77 | reading a text moves the position by its length and never moves the line back |
| TokenizerSpec.AdvancePlain | PScript/PScript/Parsing/Tokenizer.cs:70-77 | over text without line ends only the position and the column advance, by its length |
| TokenizerSpec.StringEndAdvances | PScript/PScript/Parsing/Tokenizer.cs:258-289 | after a string the line and column are those reached by walking over its text |
| TokenizerSpec.ScanTokenAdvances | PScript/PScript/Parsing/Tokenizer.cs:93-161 | after any token the line and column are those reached by walking over the consumed text: columns count characters, and CR, LF or CRLF starts a new line at column 1 |
| TokenizerSpec.ScanKeepsSync | PScript/PScript/Parsing/Tokenizer.cs:93-161 | from a cursor that agrees with the text read so far, Next leaves one that agrees too, so every token's line and column are those of its first character |
| TokenizerSpec.ScanStopsCleanly | PScript/PScript/Parsing/Tokenizer.cs:116-128 | no token ends between the CR and the LF of a CRLF |
| Parsing.Tokenizer.constructor | PScript/PScript/Parsing/Tokenizer.cs:37-51 | a new tokenizer is at position 0, line 1, column 1, with the default symbols = , $ ( ) { } ; |
| Parsing.Tokenizer.SetSymbolChars | PScript/PScript/Parsing/Tokenizer.cs:56-60 | the symbol set becomes the given characters |
| Parsing.Tokenizer.LA | PScript/PScript/Parsing/Tokenizer.cs:62-68 | the character count places ahead of the position while that is inside the text, and NUL from the end of the text on |
| Parsing.Tokenizer.Consume | PScript/PScript/Parsing/Tokenizer.cs:70-77 | returns the current character and advances the position and the column by one |
| Parsing.Tokenizer.StartRead | PScript/PScript/Parsing/Tokenizer.cs:166-171 | the saved cursor becomes the current one |
| Parsing.Tokenizer.CreateToken | PScript/PScript/Parsing/Tokenizer.cs:79-91 | returns MakeToken of the saved and the current position |
| Parsing.Tokenizer.IsSymbol | PScript/PScript/Parsing/Tokenizer.cs:297-304 | true exactly when the character is in the symbol set |
| Parsing.Tokenizer.ReadWhitespace | PScript/PScript/Parsing/Tokenizer.cs:177-194 | token and new cursor are ScanBlank's |
| Parsing.Tokenizer.ReadNumber | PScript/PScript/Parsing/Tokenizer.cs:200-223 | token and new cursor are ScanNumber's |
| Parsing.Tokenizer.ReadWord | PScript/PScript/Parsing/Tokenizer.cs:228-244 | token and new cursor are ScanWord's |
| Parsing.Tokenizer.ReadString | PScript/PScript/Parsing/Tokenizer.cs:252-292 | token and new cursor are ScanString's |
| Parsing.Tokenizer.StringRound | PScript/PScript/Parsing/Tokenizer.cs:260-288 | one pass of the string loop either ends it where StringEnd says, or moves forward without changing where the string ends |
| Parsing.Tokenizer.Next | PScript/PScript/Parsing/Tokenizer.cs:93-161 | token or failure and new cursor are ScanToken's |
| EngineSpec.ToInt32 | PScript/PScript/ScriptEngine.cs:118-120 | Convert.ToInt32 succeeds exactly on a non-empty digit string whose value fits in an int, and then gives that decimal value, leading zeros included ("007" is 7) |
| EngineSpec.ToInt32RoundTrip | PScript/PScript/ScriptEngine.cs:118-120 | every number from 0 to int.MaxValue, written in decimal, converts back to itself |
| EngineSpec.ToInt32Overflows | PScript/PScript/ScriptEngine.cs:118-120 | a decimal above int.MaxValue is an OverflowException |
| EngineSpec.ToInt32RejectsFraction | PScript/PScript/ScriptEngine.cs:118-120 | a Number token with a '.' is a FormatException |
| EngineSpec.GetNext | PScript/PScript/ScriptEngine.cs:51-57 | on the last token: "No more tokens to read" without a token, state unchanged; otherwise the next token, with index moved onto it |
| EngineSpec.ParseValue | PScript/PScript/ScriptEngine.cs:108-153 | evaluating a value never touches the variables, only appends to the call trace, and leaves index on a token; what each token evaluates to is ParseValueResults |
| EngineSpec.ParseValueResults | PScript/PScript/ScriptEngine.cs:108-153 | a quoted string is its text; a number is Convert.ToInt32's value or its failure; a declared non-keyword word is its current binding even when a function has that name; a registered word is a call; any other word, and a token of any other kind, fails with "Variable value is not string/number/bool/keyword" at that token |
| EngineSpec.ParseFunction | PScript/PScript/ScriptEngine.cs:172-211 | a call that succeeds names a registered function. It appends that call to the trace, its value is Invoke of the arguments recorded there, and as a statement it ends on ';'; which values reach the delegate is ParseFunctionRecords |
| EngineSpec.ParseFunctionRecords | PScript/PScript/ScriptEngine.cs:172-211 | a successful call read '(' after a registered name and then the whole argument list: its value is Invoke on exactly the values that list read, the trace is the list's own calls followed by this one call with those values, and as a statement it ends one token after the ')' |
| EngineSpec.ParseFunctionFailures | PScript/PScript/ScriptEngine.cs:174-179 | with no token after the name, "No more tokens to read"; with a token other than '(' there, "Token after function is not a '('" at that token; with '(' after an unregistered name, KeyNotFoundException |
| EngineSpec.FinishCall | PScript/PScript/ScriptEngine.cs:202-210 | succeeds exactly when the required ';' is there and Function.Execute accepts the arguments; then the result is the delegate's and one call is added to the trace, and on any failure the trace is left as it was |
| EngineSpec.CallBinding | PScript/PScript/ScriptEngine.cs:210 | the result is Function.Execute's, and the trace gains this call exactly when the delegate ran |
| EngineSpec.ParseArguments | PScript/PScript/ScriptEngine.cs:183-200 | a successful argument list ends on the Symbol ')' and keeps the values read before; what each token adds is ParseArgumentsValue and ParseArgumentsSymbols |
| EngineSpec.ParseArgumentsValue | PScript/PScript/ScriptEngine.cs:195-199 | a token of the list that is not a symbol is evaluated by ParseValue at that position: its failure ends the call, and otherwise its value is appended to the arguments and the list goes on after it |
| EngineSpec.ParseArgumentsSymbols | PScript/PScript/ScriptEngine.cs:183-194 | ')' ends the list with the values read so far; a symbol other than ')' or ',' fails with "Symbol token inside arg list is not a ','" at that symbol; running out of tokens fails with "No more tokens to read" |
| EngineSpec.CommasAreSkipped | PScript/PScript/ScriptEngine.cs:189-193 | a ',' in an argument list is skipped and changes nothing else |
| EngineSpec.ExpectSemicolon | PScript/PScript/ScriptEngine.cs:165-168 | succeeds exactly when the next token's text is ';', moving onto it; otherwise "Token after variable value is not ';'" at that token, or "No more tokens to read" when there is none |
| EngineSpec.ParseAssignment | PScript/PScript/ScriptEngine.cs:154-171 | a successful assignment tail is at least three tokens, the first '=' and the last ';', and binds nothing itself; a token other than '=' fails with "Token after variable name is not '='" at that token, and a missing token with "No more tokens to read"; the value given back is AssignmentValue |
| EngineSpec.AssignmentValue | PScript/PScript/ScriptEngine.cs:154-171 | after '=' the value given back is ParseValue's for the next token: ParseValue's failure is the assignment's failure, otherwise the ';' check follows with that value, and a success is that value, one token after it |
| EngineSpec.AssignedValue | PScript/PScript/ScriptEngine.cs:161-170 | after the '=' a value token and a ';' must follow; the tail ends on ';' when it succeeds, and with nothing after the '=' it fails with "No more tokens to read" |
| EngineSpec.ExecuteSymbol | PScript/PScript/ScriptEngine.cs:79-99 | a symbol other than '$' fails with "Syntax error" at it; after '$', a missing token, a non-word and an already declared name fail with their messages at that token; a failed declaration leaves the variables as they were; a successful one ends on ';' |
| EngineSpec.Declaration | PScript/PScript/ScriptEngine.cs:81-94 | after '$': no token, "No more tokens to read"; a token that is not a Word, "Token after $ is not a word"; a declared name, "Variable with this name already exists", each at that token with the variables unchanged; a success ends on ';' |
| EngineSpec.ExecuteWord | PScript/PScript/ScriptEngine.cs:100-106 | a failed reassignment or call statement leaves the variables as they were; a successful one ends on ';'; the reassignment branch is ReassignmentKeepsNames and the call branch CallStatementKeepsVariables |
| EngineSpec.CallStatementKeepsVariables | PScript/PScript/ScriptEngine.cs:100-106 | a statement word that names no variable is the call ParseFunction(token, true): same outcome and same new state, with every variable left as it was |
| EngineSpec.Statement | PScript/PScript/ScriptEngine.cs:63-75 | one statement moves forward, ends on ';' when it succeeds, and changes no variable when it fails; a token that is neither a Symbol nor a Word fails with "Bad next token", and a symbol other than '$' with "Syntax error", at that token |
| EngineSpec.Run | PScript/PScript/ScriptEngine.cs:61-76 | the statement loop only appends to the trace, and when it succeeds it has consumed every token |
| EngineSpec.Execute | PScript/PScript/ScriptEngine.cs:59-77 | Execute from the first token: it only appends to the call trace, consumes every token when it succeeds, and removes no variable, even when a statement fails |
| EngineSpec.Resume | PScript/PScript/ScriptEngine.cs:61-76 | stopping on a failed statement or going on after a successful one only appends to the trace |
| EngineSpec.RunStep | PScript/PScript/ScriptEngine.cs:61-76 | one pass of the loop is a Statement followed by the rest of the loop |
| EngineSpec.ResumeOk | PScript/PScript/ScriptEngine.cs:61 | after a successful statement the loop goes on from the token after its ';' |
| EngineSpec.ResumeKeepsVariables | PScript/PScript/ScriptEngine.cs:59-77 | whatever follows a statement, to the end of Execute's loop, removes none of the variables the statement left |
| EngineSpec.RunKeepsVariables | PScript/PScript/ScriptEngine.cs:59-77 | Execute never removes a variable, even when a statement fails |
| EngineSpec.StatementKeepsKeys | PScript/PScript/ScriptEngine.cs:79-106 | no statement removes a variable |
| EngineSpec.DeclarationAddsOne | PScript/PScript/ScriptEngine.cs:81-94 | a successful `$` adds exactly one new name, a word not declared before, binds it to the value its assignment tail parses, and leaves every other binding as it was |
| EngineSpec.DeclarationBindsValue | PScript/PScript/ScriptEngine.cs:79-94 | `$ name = v ;` with a fresh name and a one-token value v succeeds, binds the name to ParseValue's value of v, keeps every other variable, and ends on the ';' |
| EngineSpec.ReassignmentKeepsNames | PScript/PScript/ScriptEngine.cs:102-103 | a statement on a declared name is an assignment, which succeeds exactly when its tail parses; then only that name's value changes, to the parsed value |
| EngineSpec.KeywordsComeFirst | PScript/PScript/ScriptEngine.cs:122-134 | true, false and null are literals even when a variable or function has that name |
| EngineSpec.UnknownFunctionIsLookupFailure | PScript/PScript/ScriptEngine.cs:104-105 | a statement word that names neither a variable nor a function, followed by '(', fails with KeyNotFoundException |
| EngineSpec.KeptMembers | PScript/PScript/ScriptEngine.cs:44-47 | Parse keeps exactly the tokens that are neither whitespace nor line ends |
| EngineSpec.Kept | PScript/PScript/ScriptEngine.cs:44-47 | the kept list is no longer than the tokens read and holds no whitespace or line-end token |
| EngineSpec.KeptAppend | PScript/PScript/ScriptEngine.cs:37-48 | filtering tokens read in two parts is filtering each part, so the list can be built one token at a time |
| Engine.ParseStep | PScript/PScript/ScriptEngine.cs:39-45 | one Next inside Parse's loop is the first step of Tokenize |
| Engine.KeptStep | PScript/PScript/ScriptEngine.cs:44-47 | appending the token read unless it is layout keeps the list read so far plus the rest equal to all the tokens kept |
| Engine.ScriptEngine.constructor | PScript/PScript/ScriptEngine.cs:23-28 | a new engine has no tokens, no variables and no functions |
| Engine.ScriptEngine.SetFunctions | PScript/PScript/ScriptEngine.cs:17-21 | the function table becomes the given dictionary |
| Engine.ScriptEngine.Parse | PScript/PScript/ScriptEngine.cs:30-49 | the variables are cleared; the token list is the tokenizer's stream without whitespace and line ends, up to EOF or to the failure that Parse then raises |
| Engine.ScriptEngine.ParseRound | PScript/PScript/ScriptEngine.cs:39-47 | one pass of Parse's loop: the tokenizer moves as ScanToken says, and the token read is appended unless it is EOF, whitespace or a line end |
| Engine.ScriptEngine.GetNext | PScript/PScript/ScriptEngine.cs:51-57 | result and index are EngineSpec.GetNext's |
| Engine.ScriptEngine.Execute | PScript/PScript/ScriptEngine.cs:59-77 | result, index, variables and call trace are EngineSpec.Execute's, for the functions registered |
| Engine.ScriptEngine.ExecuteStatement | PScript/PScript/ScriptEngine.cs:63-75 | one pass of Execute's loop does what EngineSpec.Statement says |
| Engine.ScriptEngine.ExecuteSymbol | PScript/PScript/ScriptEngine.cs:79-99 | result and new state are EngineSpec.ExecuteSymbol's |
| Engine.ScriptEngine.ExecuteWord | PScript/PScript/ScriptEngine.cs:100-106 | result and new state are EngineSpec.ExecuteWord's |
| Engine.ScriptEngine.ParseValue | PScript/PScript/ScriptEngine.cs:108-153 | result and new state are EngineSpec.ParseValue's |
| Engine.ScriptEngine.ParseAssignment | PScript/PScript/ScriptEngine.cs:154-171 | result and new state are EngineSpec.ParseAssignment's |
| Engine.ScriptEngine.ParseFunction | PScript/PScript/ScriptEngine.cs:172-211 | result and new state are EngineSpec.ParseFunction's |
| Engine.ScriptEngine.ParseArgumentList | PScript/PScript/ScriptEngine.cs:181-200 | the argument loop's result and new state are EngineSpec.ParseArguments' |
| Engine.ScriptEngine.CallFunction | PScript/PScript/ScriptEngine.cs:210 | calling the Function gives EngineSpec.CallBinding's result and trace |
| Scenarios.DeclareNumber | PScript/PScript/ScriptEngine.cs:79-94 | example of DeclarationBindsValue: `$ x = 5 ;` binds x to the number 5 and calls nothing |
| Scenarios.QuotedEqualsPasses | PScript/PScript/ScriptEngine.cs:158 | a quoted "=" is accepted where '=' is expected |
| Scenarios.ReassignChangesKind | PScript/PScript/ScriptEngine.cs:102-103 | reassignment may change a variable's kind |
| Scenarios.RedeclarationFails | PScript/PScript/ScriptEngine.cs:88-89 | declaring a name twice fails at the name and leaves the table as it was |
| Scenarios.CommaCallArguments | PScript/PScript/ScriptEngine.cs:183-200 | example of ParseArgumentsValue and CommasAreSkipped: `( "a" , , 7 )` reads the string and the number and stops on the ')' |
| Scenarios.CallWithRepeatedComma | PScript/PScript/ScriptEngine.cs:172-211 | example of ParseFunctionRecords: `f ( "a" , , 7 ) ;` calls f exactly once, with both values |
| Scenarios.CallWithWrongKind | PScript/PScript/Structure/Function.cs:29-35 | a call with the wrong argument kind fails with "Bad argument type" and invokes no delegate |

## Left out

- Character classes: `Char.IsLetter` and `Char.IsDigit` are modelled on ASCII. The Unicode letters and digits .NET also accepts are not modelled, because Dafny has no Unicode tables.
- Delegates returning null: a native delegate here always returns a Variable. In the source a null result in value position ends in the "Variable value is not string/number/bool/keyword" error; that path is not modelled.
- EngineSpec.ToInt32: only texts the tokenizer can produce are modelled, i.e. digits with at most one '.'. Signs, surrounding whitespace and the other inputs `Convert.ToInt32` accepts do not occur, because a Number token never holds them.
- TokenizerSpec.TokenizeRebuildsText: holds only when the text does not end inside an open string. That case loses a character, as ScanRenders states.
- Helper splits: `Parsing.Tokenizer.StringRound`, `Engine.ScriptEngine.ParseRound`, `ExecuteStatement`, `ParseArgumentList` and `CallFunction` are loop bodies or tails of the source's methods, split out as methods of their own. `EngineSpec.FinishCall`, `CallBinding` and `Resume` are the matching spec functions. `EngineSpec.AssignedValue` and `Declaration` are the tails of `ParseAssigment` and of the `$` branch of `ExecuteSymbol`, split out to keep each proof small.
- The `calls` trace stands for the side effects of the native delegates, which are host code the model cannot see.
- Variables.Variable.Clone: `String.Copy` produces a fresh string object. Values are immutable here, so the clone is equal to the original and aliasing is not modelled.
- `ScriptEngine.Dispose` is not modelled: it releases nothing the model holds.
- The `ArgumentNullException` of `new Tokenizer(null)` is not modelled: Dafny strings are never null.
- The `Tokenizer` fields `line` and `column` are unbounded integers. Int overflow after 2^31 lines or columns is not modelled.
- Concurrency is not modelled: the engine is single-threaded.
- Native delegates are pure functions of their arguments here. A delegate that calls `SetArguments`, changes the function table or touches the variables while `Execute` runs is not modelled. `Bindings()` reads the signatures as they are when `Execute` starts.
