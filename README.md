# PLC_Project in Dafny

A model of the front end and the tree-walking interpreter of PLC_Project, a course
compiler for a small imperative language (globals declared with `LIST`, `VAR` and
`VAL`, functions declared with `FUN … DO … END`, `LET`, `IF`, `SWITCH`/`CASE`/`DEFAULT`,
`WHILE` and `RETURN` statements, and expressions over integers, decimals, characters,
strings, booleans and `NIL`). It covers the four stages the Java code implements:

- **Lexer** (`Lexer.java`). `LexerSpec` gives each `lexX` method as a function of the
  input and the start position. It returns the token or the `ParseException` and the
  position the character stream is left at. `LexerImpl` keeps the source's shape: a
  `CharStream` class whose `index` and `length` fields change in place, and a `Lexer`
  class whose `peek`/`match` methods and `lexX` methods are each proved to compute the
  corresponding function. `LexerProps` holds what the tokens satisfy.
- **Parser** (`Parser.java`). `ParserSpec` gives each `parseX` method as a function
  from the token list and an index to the tree it builds and the index it stops at, or
  the error it throws. `ParserImpl` is the recursive-descent parser over a mutable
  `TokenStream`, proved equal to those functions. `ParserProps` covers precedence,
  associativity and the statement and global forms. `Numerals` covers how
  `new BigInteger`/`new BigDecimal` read literal text. `StringLiterals` covers how the
  parser decodes CHARACTER and STRING literals. The parser model decodes them as the
  code does (`CharAtOne`, `ReplaceDecoding`); the decoders the code evidently intends
  (`CharValue`, `StringValue`) are defined and proved beside them.
- **Analyzer** (`Analyzer.java`). `AnalyzerSpec` gives each visit as a function of the
  node and the stack of scopes it runs in. An expression's visit yields the type it
  writes onto the node. `AnalyzerImpl` is the
  visitor class whose `scope` field each visit replaces and restores. `AnalyzerProps`
  covers the typing rules.
- **Interpreter** (`Interpreter.java`). `InterpreterSpec` gives evaluation and
  execution as fuel-bounded functions over runtime values and a scope chain.
  `InterpreterImpl` is the visitor class with its `scope` field. `InterpreterProps`
  and `InterpreterRuns` cover the operators and the statements.

`Tokens` and `Ast` hold the data shared by the stages. The Java `Ast`, `Token`,
`Environment` and `Scope` classes are not part of this model; their data is rebuilt
here as datatypes from how the four core files use them.


## Model

| member | source | states |
|---|---|---|
| LexerSpec.PeekAt | src/main/java/plc/project/Lexer.java:203-210 | peek of k patterns holds exactly when k more characters exist and each matches its pattern in turn |
| LexerSpec.Run | src/main/java/plc/project/Lexer.java:73-75 | `while (peek(p)) advance` stops at the first position that does not match p, or at the end, and every character it passed over matches p |
| LexerSpec.LexIdentifier | src/main/java/plc/project/Lexer.java:69-77 | lexIdentifier always yields an IDENTIFIER whose literal is the input from the start up to where the stream stops |
| LexerSpec.NumberTail | src/main/java/plc/project/Lexer.java:103-118 | the digits and optional fraction after a number's first characters yield a token spanning the input from the number's start |
| LexerSpec.LexNumber | src/main/java/plc/project/Lexer.java:79-119 | lexNumber always yields an INTEGER or DECIMAL whose literal is the input it passed over |
| LexerSpec.LexEscape | src/main/java/plc/project/Lexer.java:174-187 | an escape is accepted exactly as a backslash and one of b n r t ' " \, moving two places on; anything else is "Invalid Escape" at the backslash |
| LexerSpec.LexCharacter | src/main/java/plc/project/Lexer.java:122-140 | a character literal, when read, is a CHARACTER spanning the input it passed over |
| LexerSpec.CloseCharacter | src/main/java/plc/project/Lexer.java:135-139 | the closing quote of a character literal yields a CHARACTER spanning the literal, or "Unterminated character literal" |
| LexerSpec.StringContent | src/main/java/plc/project/Lexer.java:154-161 | the body loop of lexString only moves forward and never past the end of the input |
| LexerSpec.LexString | src/main/java/plc/project/Lexer.java:142-171 | a string literal, when read, is a STRING spanning the input it passed over |
| LexerSpec.CloseString | src/main/java/plc/project/Lexer.java:162-170 | three or one closing quotes yield a STRING spanning the literal; without one, "Unterminated String" |
| LexerSpec.LexOperator | src/main/java/plc/project/Lexer.java:188-197 | lexOperator always yields an OPERATOR whose literal is the input it passed over |
| LexerSpec.LexToken | src/main/java/plc/project/Lexer.java:51-68 | the token lexToken reads spans the input from where it starts, and is non-empty whenever a character other than a line terminator comes next |
| LexerSpec.LexFrom | src/main/java/plc/project/Lexer.java:30-42 | the loop of lex keeps every token it has collected |
| LexerImpl.CharStream.constructor | src/main/java/plc/project/Lexer.java:242-244 | a fresh stream over the input at index 0 with no pending lexeme |
| LexerImpl.CharStream.Has | src/main/java/plc/project/Lexer.java:246-248 | has(offset) holds exactly when index + offset is inside the input |
| LexerImpl.CharStream.Get | src/main/java/plc/project/Lexer.java:250-252 | get(offset) is the input's character at index + offset |
| LexerImpl.CharStream.Advance | src/main/java/plc/project/Lexer.java:254-257 | advance moves the index and grows the pending lexeme by one |
| LexerImpl.CharStream.Skip | src/main/java/plc/project/Lexer.java:259-261 | skip empties the pending lexeme and keeps the index |
| LexerImpl.CharStream.Emit | src/main/java/plc/project/Lexer.java:263-267 | emit returns the token of the given kind whose literal is the pending lexeme and whose offset is where it began, and empties the lexeme |
| LexerImpl.Lexer.constructor | src/main/java/plc/project/Lexer.java:242-244 | a lexer over a fresh stream |
| LexerImpl.Lexer.Peek | src/main/java/plc/project/Lexer.java:203-210 | the loop of peek returns LexerSpec.PeekAt for the stream's current index |
| LexerImpl.Lexer.Match | src/main/java/plc/project/Lexer.java:217-225 | match returns what peek returns, and on success advances once per pattern, otherwise not at all |
| LexerImpl.Lexer.AdvanceWhile | src/main/java/plc/project/Lexer.java:73-75 | the loop stops at LexerSpec.Run and takes every character it passes into the lexeme |
| LexerImpl.Lexer.EmitScan | src/main/java/plc/project/Lexer.java:263-267 | emitting yields LexerSpec.Emit of the pending lexeme |
| LexerImpl.Lexer.LexIdentifier | src/main/java/plc/project/Lexer.java:69-77 | returns LexerSpec.LexIdentifier and leaves the stream after the token with no pending lexeme |
| LexerImpl.Lexer.NumberTail | src/main/java/plc/project/Lexer.java:103-118 | returns LexerSpec.NumberTail and leaves the stream after the token |
| LexerImpl.Lexer.LexNumber | src/main/java/plc/project/Lexer.java:79-119 | returns LexerSpec.LexNumber and leaves the stream after the token |
| LexerImpl.Lexer.LexSignedNumber | src/main/java/plc/project/Lexer.java:80-85 | after a sign and a digit, returns LexerSpec.LexNumber from the sign |
| LexerImpl.Lexer.LexZeroNumber | src/main/java/plc/project/Lexer.java:87-100 | after an unsigned leading 0, returns LexerSpec.LexNumber from the 0 |
| LexerImpl.Lexer.LexEscape | src/main/java/plc/project/Lexer.java:174-187 | returns LexerSpec.LexEscape and on success moves two characters on |
| LexerImpl.Lexer.LexCharacter | src/main/java/plc/project/Lexer.java:122-140 | returns LexerSpec.LexCharacter and on success leaves the stream after the token |
| LexerImpl.Lexer.CloseCharacter | src/main/java/plc/project/Lexer.java:135-139 | returns LexerSpec.CloseCharacter |
| LexerImpl.Lexer.StringContent | src/main/java/plc/project/Lexer.java:154-161 | the body loop returns LexerSpec.StringContent, taking what it passes into the lexeme |
| LexerImpl.Lexer.LexString | src/main/java/plc/project/Lexer.java:142-171 | returns LexerSpec.LexString and on success leaves the stream after the token |
| LexerImpl.Lexer.CloseString | src/main/java/plc/project/Lexer.java:162-170 | returns LexerSpec.CloseString |
| LexerImpl.Lexer.LexOperator | src/main/java/plc/project/Lexer.java:188-197 | returns LexerSpec.LexOperator and leaves the stream after the token |
| LexerImpl.Lexer.LexToken | src/main/java/plc/project/Lexer.java:51-68 | returns LexerSpec.LexToken and on success leaves the stream after the token |
| LexerImpl.Lexer.Lex | src/main/java/plc/project/Lexer.java:30-42 | the loop of lex returns LexerSpec.LexFrom from the start, with no tokens collected yet |
| LexerImpl.Lexer.LexStep | src/main/java/plc/project/Lexer.java:33-38 | one turn of the loop moves strictly forward and leaves the remaining result of LexerSpec.LexFrom unchanged |
| LexerImpl.Lexer.TokenStep | src/main/java/plc/project/Lexer.java:38 | a turn that reads a token appends it and moves strictly forward, or fails as LexerSpec.LexFrom fails |
| LexerProps.LexFromTiles | src/main/java/plc/project/Lexer.java:30-42 | tokens collected so far that tile the input stay tiles when the loop finishes: literals are the input at their offsets, in order, non-empty, none starting with whitespace |
| LexerProps.LexTiles | src/main/java/plc/project/Lexer.java:30-42 | the tokens of lex are the input's own text, in order, without overlap, and their offsets strictly increase |
| LexerProps.LexStopsAtNewline | src/main/java/plc/project/Lexer.java:32 | lex stops at the first line feed or carriage return: no token reaches past it |
| LexerProps.LexFromStopsAtNewline | src/main/java/plc/project/Lexer.java:32-39 | the loop of lex, started before a newline, adds no token that ends past it |
| LexerProps.LexTokenStopsAtNewline | src/main/java/plc/project/Lexer.java:51-68 | no token read before a line feed or carriage return ends past it |
| LexerProps.RunStopsAtNewline | src/main/java/plc/project/Lexer.java:73-75 | a run of a pattern that excludes the newline stops at or before it |
| LexerProps.StringContentStopsAtNewline | src/main/java/plc/project/Lexer.java:154 | the body of a string stops at or before a newline |
| LexerProps.NumberStopsAtNewline | src/main/java/plc/project/Lexer.java:79-119 | a number stops at or before a newline |
| LexerProps.StringStopsAtNewline | src/main/java/plc/project/Lexer.java:142-171 | a string literal stops at or before a newline |
| LexerProps.IdentifierStopsAtNewline | src/main/java/plc/project/Lexer.java:69-77 | an identifier stops at or before a newline |
| LexerProps.CharacterStopsAtNewline | src/main/java/plc/project/Lexer.java:122-140 | a character literal stops at or before a newline |
| LexerProps.OperatorStopsAtNewline | src/main/java/plc/project/Lexer.java:188-197 | an operator stops at or before a newline |
| LexerProps.IdentifierShape | src/main/java/plc/project/Lexer.java:52-53 | a token that starts with a letter or '@' is an IDENTIFIER: that character, then the longest run of [A-Za-z0-9_-] |
| LexerProps.DecimalShape | src/main/java/plc/project/Lexer.java:79-119 | a DECIMAL literal holds a '.' directly followed by a digit, and ends with a digit |
| LexerProps.LeadingZeroAlone | src/main/java/plc/project/Lexer.java:89-100 | a leading 0 not followed by '.' and a digit is the INTEGER "0" on its own |
| LexerProps.PlainContentToEnd | src/main/java/plc/project/Lexer.java:154-161 | a string body with no quote, backslash or line terminator runs to the end of the input |
| LexerProps.UnterminatedString | src/main/java/plc/project/Lexer.java:162-169 | a string missing its closing quote fails with "Unterminated String" at the end of the input |
| LexerProps.UnterminatedExample | src/test/java/plc/project/LexerTests.java:243-248 | lexing "\"unterminated" fails at index 13 |
| LexerProps.InvalidEscapeInCharacter | src/test/java/plc/project/LexerTests.java:143 | the character literal '\q' fails with "Invalid Escape" at the backslash |
| LexerProps.CharacterLeads | src/main/java/plc/project/Lexer.java:58-59 | a token that starts with a single quote is read by lexCharacter |
| LexerProps.EmptyCharacter | src/main/java/plc/project/Lexer.java:125-133 | '' fails with "Empty character literal" at the second quote |
| LexerProps.AtOnlyLeads | src/test/java/plc/project/LexerTests.java:29 | '@' only leads an identifier: "gm@il" starts with the identifier "gm" |
| LexerProps.OperatorWidth | src/main/java/plc/project/Lexer.java:188-197 | the four pairs !=, ==, && and the doubled vertical bar are read as one two-character operator; every other character is an operator on its own |
| LexerProps.LetExample | src/test/java/plc/project/LexerTests.java:226-232 | "LET x = 5;" lexes to the identifiers LET and x, the operator =, the integer 5 and the operator ; at offsets 0, 4, 6, 8 and 9 |
| Numerals.NatToDigits | src/main/java/plc/project/Interpreter.java:249 | BigInteger.toString of a magnitude: at least one digit, and no leading zero unless the number is 0 |
| Numerals.NatToDigitsValue | src/main/java/plc/project/Interpreter.java:249 | the digits written for n denote n |
| Numerals.DigitsValueAppend | src/main/java/plc/project/Parser.java:416-421 | the value of digits followed by digits is the first value shifted by the second's length plus the second value |
| Numerals.ParseInteger | src/main/java/plc/project/Parser.java:416-418 | on literal text made of ASCII characters, as the lexer produces, new BigInteger(literal) succeeds exactly on an optional sign followed by at least one digit and nothing else |
| Numerals.IntegerRoundTrip | src/main/java/plc/project/Parser.java:416-418 | reading back the text BigInteger.toString writes gives the same integer |
| Numerals.DecimalParts | src/main/java/plc/project/Parser.java:419-421 | a sign, digits before the point and digits after it make a BigDecimal exactly when both parts are digits and there is at least one digit |
| Numerals.WholeRoundTrip | src/main/java/plc/project/Parser.java:419-421 | a decimal of scale 0 reads back from the text BigDecimal.toString writes |
| Numerals.LongRoundTrip | src/main/java/plc/project/Parser.java:419-421 | a decimal with more digits than its scale reads back from its text, whose point falls inside the digits |
| Numerals.ShortRoundTrip | src/main/java/plc/project/Parser.java:419-421 | a decimal with no more digits than its scale reads back from its "0." text with leading zeros |
| Numerals.DecimalRoundTrip | src/main/java/plc/project/Parser.java:419-421 | every decimal that BigDecimal.toString writes in plain notation reads back as the same unscaled value and scale |
| StringLiterals.EscapeValue | src/main/java/plc/project/Lexer.java:179 | the escape letters are exactly b n r t ' " and backslash |
| StringLiterals.EscapeLetter | src/main/java/plc/project/Parser.java:427-433 | a character has an escape letter exactly when some escape letter stands for it, and the letter given stands for it |
| StringLiterals.UnescapeEscape | src/main/java/plc/project/Parser.java:427-433 | reading the escapes of an escaped text gives back the text |
| StringLiterals.StringValue | src/main/java/plc/project/Parser.java:425-435 | the intended value of a STRING token: defined exactly when the token has two characters for its quotes, and then the escapes inside the quotes read left to right |
| StringLiterals.StringRoundTrip | src/main/java/plc/project/Parser.java:425-435 | a quoted, escaped string has the string as its value |
| StringLiterals.ReplaceAll | src/main/java/plc/project/Parser.java:427-433 | String.replace with a pattern no longer than its replacement never shortens the text, and with a shorter replacement never lengthens it |
| StringLiterals.ReplaceAbsent | src/main/java/plc/project/Parser.java:427-433 | String.replace leaves text without the pattern unchanged |
| StringLiterals.ReplaceDecoding | src/main/java/plc/project/Parser.java:425-435 | the seven replace passes and the quote removal give a value at least two characters shorter than the token |
| StringLiterals.ReplaceDecodingPlain | src/main/java/plc/project/Parser.java:425-435 | on a token without a backslash the replace passes agree with StringLiterals.StringValue |
| StringLiterals.ReplaceDecodingMisreadsEscapedBackslash | src/main/java/plc/project/Parser.java:427-432 | the token "\\n" decodes to a backslash and a line feed, where its escapes denote a backslash and an n |
| StringLiterals.CharAtOne | src/main/java/plc/project/Parser.java:422-424 | the parser's character value is the character after the opening quote, defined when the token has at least two characters |
| StringLiterals.CharValue | src/main/java/plc/project/Parser.java:422-424 | the intended character value reads an escape, and agrees with StringLiterals.CharAtOne on every token without one |
| StringLiterals.CharRoundTrip | src/main/java/plc/project/Parser.java:422-424 | a quoted, escaped character has the character as its value |
| StringLiterals.CharAtOneMisreadsEscape | src/main/java/plc/project/Parser.java:422-424 | the token '\n' is read as a backslash by the parser, where it denotes a line feed |
| ParserSpec.PeekAt | src/main/java/plc/project/Parser.java:480-496 | peek of one pattern holds exactly when a token is there and matches it: by type for a token type, by literal for a string |
| ParserSpec.PeekAtAll | src/main/java/plc/project/Parser.java:480-496 | peek holds exactly when there are as many tokens left as patterns and each token matches its own pattern |
| ParserSpec.Optional | src/main/java/plc/project/Parser.java:502-509 | an optional match moves one token on exactly when that token is there, and otherwise stays put |
| ParserSpec.ParseExpression | src/main/java/plc/project/Parser.java:345-347 | a parsed expression consumes at least one token and stops inside the token list |
| ParserSpec.ParseLogical | src/main/java/plc/project/Parser.java:352-361 | a logical expression consumes at least one token |
| ParserSpec.LogicalRest | src/main/java/plc/project/Parser.java:355-359 | the loop over && and the or-operator only moves forward |
| ParserSpec.ParseComparison | src/main/java/plc/project/Parser.java:366-375 | a comparison consumes at least one token |
| ParserSpec.ComparisonRest | src/main/java/plc/project/Parser.java:369-373 | the comparison loop only moves forward |
| ParserSpec.ParseAdditive | src/main/java/plc/project/Parser.java:380-388 | an additive expression consumes at least one token |
| ParserSpec.AdditiveRest | src/main/java/plc/project/Parser.java:382-386 | the + / - loop only moves forward |
| ParserSpec.ParseMultiplicative | src/main/java/plc/project/Parser.java:393-401 | a multiplicative expression consumes at least one token |
| ParserSpec.MultiplicativeRest | src/main/java/plc/project/Parser.java:395-399 | the * and / loop only moves forward |
| ParserSpec.ParseExpressionList | src/main/java/plc/project/Parser.java:449-451 | the comma-separated expressions are appended after those already collected, at least one of them |
| ParserSpec.ParsePrimary | src/main/java/plc/project/Parser.java:409-468 | a primary expression consumes at least one token |
| ParserSpec.ParseOptionalValue | src/main/java/plc/project/Parser.java:239-241 | the value of a declaration is present exactly when '=' follows the name |
| ParserSpec.ParseBlock | src/main/java/plc/project/Parser.java:176-188 | a block consumes at least one token, its END |
| ParserSpec.BlockRest | src/main/java/plc/project/Parser.java:179-186 | the loop of parseBlock consumes at least its END |
| ParserSpec.ParseStatement | src/main/java/plc/project/Parser.java:195-223 | a statement consumes at least one token |
| ParserSpec.ParseDeclaration | src/main/java/plc/project/Parser.java:230-246 | a declaration consumes at least one token |
| ParserSpec.ParseIf | src/main/java/plc/project/Parser.java:253-270 | an IF statement consumes at least one token and builds an If node whose condition is the expression parsed after IF |
| ParserSpec.IfBody | src/main/java/plc/project/Parser.java:256-266 | the try block of parseIfStatement consumes at least one token and builds an If node whose condition is the expression parsed after IF |
| ParserSpec.CloseIf | src/main/java/plc/project/Parser.java:261-266 | the If node keeps the condition and the then block, and has an else list exactly when ELSE follows the then block; the stream only moves forward |
| ParserSpec.ParseSwitch | src/main/java/plc/project/Parser.java:277-301 | a SWITCH statement consumes at least one token |
| ParserSpec.SwitchBody | src/main/java/plc/project/Parser.java:280-296 | the switch built has only CASE entries, each with a value: the DEFAULT block never appears in it |
| ParserSpec.CloseSwitch | src/main/java/plc/project/Parser.java:291-296 | the switch built is the condition and the cases alone, whatever the DEFAULT block holds |
| ParserSpec.ParseCases | src/main/java/plc/project/Parser.java:285-290 | the CASE loop appends to the cases before it, and every case it adds has a value |
| ParserSpec.ParseWhile | src/main/java/plc/project/Parser.java:318-328 | a WHILE statement consumes at least one token and builds a While node whose condition is the expression parsed after WHILE |
| ParserSpec.ParseReturn | src/main/java/plc/project/Parser.java:335-340 | a RETURN statement fails when its expression fails, and otherwise is the Return node of that expression, consuming the ';' after it exactly when one is there |
| ParserSpec.ParseGlobal | src/main/java/plc/project/Parser.java:54-65 | a global consumes at least one token |
| ParserSpec.ParseList | src/main/java/plc/project/Parser.java:71-95 | a LIST global is immutable |
| ParserSpec.CloseList | src/main/java/plc/project/Parser.java:84-94 | the values of a LIST are parsed and dropped: the global is the name, not mutable, with the optional value only |
| ParserSpec.ParseMutable | src/main/java/plc/project/Parser.java:101-115 | a VAR global is mutable |
| ParserSpec.ParseImmutable | src/main/java/plc/project/Parser.java:121-138 | a VAL global is immutable and always has a value |
| ParserSpec.ParameterList | src/main/java/plc/project/Parser.java:156-161 | the names collected before are kept; each new name is the literal of an IDENTIFIER token, the first at the start and the next two tokens later each time, so the loop ends just after the last name |
| ParserSpec.ParseParameters | src/main/java/plc/project/Parser.java:153-164 | no '(' means no parameters and nothing consumed; otherwise the parameters are the IDENTIFIER literals at every second token after the '(' |
| ParserSpec.ParseFunction | src/main/java/plc/project/Parser.java:144-170 | a function consumes at least one token; its name is the IDENTIFIER after the optional FUN, its parameters are the IDENTIFIER literals at every second token after the '(', it has no parameter type names and the default return type name |
| ParserProps.FunctionTwoParameters | src/main/java/plc/project/Parser.java:144-170 | `FUN f ( a , b ) DO END` parses to the function f with parameters a and b, in order, and an empty body, consuming all nine tokens |
| ParserSpec.CloseFunction | src/main/java/plc/project/Parser.java:165-169 | the function built is the name and the parameters, with no parameter type names and the default return type name |
| ParserSpec.ParseSource | src/main/java/plc/project/Parser.java:32-48 | a parsed source has consumed the whole token list |
| ParserSpec.SourceRest | src/main/java/plc/project/Parser.java:37-43 | the loop of parseSource ends only at the end of the tokens |
| ParserImpl.TokenStream.constructor | src/main/java/plc/project/Parser.java:516-518 | a fresh stream over the tokens at index 0 |
| ParserImpl.TokenStream.Advance | src/main/java/plc/project/Parser.java:537-539 | advance moves the index by one |
| ParserImpl.Parser.constructor | src/main/java/plc/project/Parser.java:25-27 | a parser over a fresh token stream |
| ParserImpl.Parser.Peek | src/main/java/plc/project/Parser.java:480-496 | the loop of peek returns ParserSpec.PeekAt at the current index |
| ParserImpl.Parser.Match | src/main/java/plc/project/Parser.java:502-509 | match returns what peek returns and on success advances once per pattern, otherwise not at all |
| ParserImpl.Parser.MatchLit | src/main/java/plc/project/Parser.java:502-509 | match of one literal: true and one token on exactly when the next token has that literal |
| ParserImpl.Parser.MatchKind | src/main/java/plc/project/Parser.java:502-509 | match of one token type: true and one token on exactly when the next token has that type |
| ParserImpl.Parser.MatchEither | src/main/java/plc/project/Parser.java:355 | match(a) or match(b): true and one token on exactly when the next token has either literal |
| ParserImpl.Parser.MatchComparison | src/main/java/plc/project/Parser.java:369 | the six comparison matches tried in order: true and one token on exactly when the next token is a comparison operator |
| ParserImpl.Parser.ErrorAfter | src/main/java/plc/project/Parser.java:63 | throwing at tokens.get(-1) gives ParserSpec.ErrorAfter at the current position |
| ParserImpl.Parser.Catch | src/main/java/plc/project/Parser.java:267-269 | the catch blocks of parseIfStatement and parseSwitchStatement rethrow a ParseException with a prefix, at the token before the position where it was thrown |
| ParserImpl.Parser.ParseExpression | src/main/java/plc/project/Parser.java:345-347 | returns ParserSpec.ParseExpression from the current index and leaves the stream where it stops |
| ParserImpl.Parser.ParseLogical | src/main/java/plc/project/Parser.java:352-361 | returns ParserSpec.ParseLogical and leaves the stream where it stops |
| ParserImpl.Parser.ParseComparison | src/main/java/plc/project/Parser.java:366-375 | returns ParserSpec.ParseComparison and leaves the stream where it stops |
| ParserImpl.Parser.ParseAdditive | src/main/java/plc/project/Parser.java:380-388 | returns ParserSpec.ParseAdditive and leaves the stream where it stops |
| ParserImpl.Parser.ParseMultiplicative | src/main/java/plc/project/Parser.java:393-401 | returns ParserSpec.ParseMultiplicative and leaves the stream where it stops |
| ParserImpl.Parser.ParseExpressionList | src/main/java/plc/project/Parser.java:449-451 | the do-while over commas returns ParserSpec.ParseExpressionList from the current index |
| ParserImpl.Parser.ParsePrimary | src/main/java/plc/project/Parser.java:409-468 | returns ParserSpec.ParsePrimary and leaves the stream where it stops |
| ParserImpl.Parser.ParseOtherPrimary | src/main/java/plc/project/Parser.java:416-467 | past NIL, TRUE and FALSE, returns ParserSpec.ParsePrimary |
| ParserImpl.Parser.MatchLiteralToken | src/main/java/plc/project/Parser.java:416-425 | true and one token on exactly when the next token is an INTEGER, DECIMAL, CHARACTER or STRING |
| ParserImpl.Parser.ParseGroup | src/main/java/plc/project/Parser.java:436-442 | after '(', returns ParserSpec.ParsePrimary from the '(' |
| ParserImpl.Parser.ParseName | src/main/java/plc/project/Parser.java:443-466 | at an identifier, returns ParserSpec.ParsePrimary: a call, an indexed access or a plain access |
| ParserImpl.Parser.ParseBlock | src/main/java/plc/project/Parser.java:176-188 | returns ParserSpec.ParseBlock and leaves the stream where it stops |
| ParserImpl.Parser.ParseStatement | src/main/java/plc/project/Parser.java:195-223 | returns ParserSpec.ParseStatement and leaves the stream where it stops |
| ParserImpl.Parser.ParseExpressionStatement | src/main/java/plc/project/Parser.java:208-219 | the last branch of parseStatement returns ParserSpec.ParseStatement |
| ParserImpl.Parser.ParseDeclaration | src/main/java/plc/project/Parser.java:230-246 | returns ParserSpec.ParseDeclaration and leaves the stream where it stops |
| ParserImpl.Parser.ParseIf | src/main/java/plc/project/Parser.java:253-270 | returns ParserSpec.ParseIf and leaves the stream where it stops |
| ParserImpl.Parser.IfBody | src/main/java/plc/project/Parser.java:256-266 | returns ParserSpec.IfBody |
| ParserImpl.Parser.CloseIf | src/main/java/plc/project/Parser.java:261-266 | returns ParserSpec.CloseIf |
| ParserImpl.Parser.ParseSwitch | src/main/java/plc/project/Parser.java:277-301 | returns ParserSpec.ParseSwitch and leaves the stream where it stops |
| ParserImpl.Parser.SwitchBody | src/main/java/plc/project/Parser.java:280-296 | returns ParserSpec.SwitchBody |
| ParserImpl.Parser.ParseCases | src/main/java/plc/project/Parser.java:285-290 | the CASE loop returns ParserSpec.ParseCases from the current index |
| ParserImpl.Parser.CloseSwitch | src/main/java/plc/project/Parser.java:291-296 | returns ParserSpec.CloseSwitch |
| ParserImpl.Parser.ParseWhile | src/main/java/plc/project/Parser.java:318-328 | returns ParserSpec.ParseWhile and leaves the stream where it stops |
| ParserImpl.Parser.ParseReturn | src/main/java/plc/project/Parser.java:335-340 | returns ParserSpec.ParseReturn and leaves the stream where it stops |
| ParserImpl.Parser.ParseSource | src/main/java/plc/project/Parser.java:32-48 | the loop of parseSource returns ParserSpec.SourceRest from the current index, with no globals or functions yet |
| ParserImpl.Parser.ParseSourceItem | src/main/java/plc/project/Parser.java:38-42 | one turn of the loop moves strictly forward and leaves the rest of ParserSpec.SourceRest unchanged, or fails as it fails |
| ParserImpl.Parser.ParseSourceGlobal | src/main/java/plc/project/Parser.java:38-39 | the turn after LIST, VAR or VAL adds the global, as ParserSpec.SourceRest does |
| ParserImpl.Parser.ParseSourceFunction | src/main/java/plc/project/Parser.java:40-41 | the turn after FUN adds the function, as ParserSpec.SourceRest does |
| ParserImpl.Parser.MatchGlobalKeyword | src/main/java/plc/project/Parser.java:38 | true and one token on exactly when the next token is LIST, VAR or VAL |
| ParserImpl.Parser.ParseGlobal | src/main/java/plc/project/Parser.java:54-65 | returns ParserSpec.ParseGlobal and leaves the stream where it stops |
| ParserImpl.Parser.ParseList | src/main/java/plc/project/Parser.java:71-95 | returns ParserSpec.ParseList and leaves the stream where it stops |
| ParserImpl.Parser.CloseList | src/main/java/plc/project/Parser.java:84-94 | returns ParserSpec.CloseList |
| ParserImpl.Parser.ParseMutable | src/main/java/plc/project/Parser.java:101-115 | returns ParserSpec.ParseMutable and leaves the stream where it stops |
| ParserImpl.Parser.ParseImmutable | src/main/java/plc/project/Parser.java:121-138 | returns ParserSpec.ParseImmutable and leaves the stream where it stops |
| ParserImpl.Parser.ParseParameterList | src/main/java/plc/project/Parser.java:156-161 | the do-while of names returns ParserSpec.ParameterList from the current index |
| ParserImpl.Parser.ParseParameters | src/main/java/plc/project/Parser.java:153-164 | returns ParserSpec.ParseParameters |
| ParserImpl.Parser.ParseFunction | src/main/java/plc/project/Parser.java:144-170 | returns ParserSpec.ParseFunction and leaves the stream where it stops |
| ParserImpl.Parser.CloseFunction | src/main/java/plc/project/Parser.java:165-169 | returns ParserSpec.CloseFunction |
| ParserProps.NameOperand | src/main/java/plc/project/Parser.java:443-465 | an identifier followed by neither '(' nor '[' is a plain access of that name |
| ParserProps.NameLevels | src/main/java/plc/project/Parser.java:352-401 | a plain name is a whole operand at each level whose operators do not follow it |
| ParserProps.AdditiveLeftAssociative | src/main/java/plc/project/Parser.java:380-388 | a + b - c groups from the left, as (a + b) - c |
| ParserProps.AdditiveGroupsLeft | src/main/java/plc/project/Parser.java:380-388 | the + and - loop over any number of operators and multiplicative operands nests them from the left and stops at the first token that is neither |
| ParserProps.LogicalGroupsLeft | src/main/java/plc/project/Parser.java:352-361 | the && and or-operator loop over any number of operators and comparison operands nests them from the left and stops at the first token that is neither |
| ParserProps.LogicalLeftAssociative | src/main/java/plc/project/Parser.java:352-361 | two logical operators (&& or the or-operator) group from the left, as (a && b) && c |
| ParserProps.ComparisonNestsRight | src/main/java/plc/project/Parser.java:366-375 | a < b < c nests to the right, as a < (b < c), because the right operand is parsed as a whole comparison |
| ParserProps.MultiplicativeTakesAdditive | src/main/java/plc/project/Parser.java:393-401 | a * b + c parses as a * (b + c), because the right operand of * and / is an additive expression |
| ParserProps.MultiplicativeIsWhole | src/main/java/plc/project/Parser.java:345-401 | a multiplicative expression that uses up the input is the whole expression |
| ParserProps.NameAtEnd | src/main/java/plc/project/Parser.java:345-401 | a name that ends the input is a whole operand at every level |
| ParserProps.CallWithoutArguments | src/main/java/plc/project/Parser.java:446-454 | name() is a call with no arguments |
| ParserProps.CallWithArguments | src/main/java/plc/project/Parser.java:446-454 | f(a, b) is a call whose arguments are a and b, in order |
| ParserProps.ListStep | src/main/java/plc/project/Parser.java:449-451 | after each expression, a comma continues the list and anything else ends it with the expression appended |
| ParserProps.IndexedAccess | src/main/java/plc/project/Parser.java:457-463 | name[e] is an indexed access; without the closing bracket it fails with "Expected closing bracket for array access" |
| ParserProps.UnexpectedToken | src/main/java/plc/project/Parser.java:467 | an operator that starts no primary fails with "Unexpected token: OPERATOR" at its own offset |
| ParserProps.LiteralToken | src/main/java/plc/project/Parser.java:416-435 | a literal token not spelled NIL, TRUE or FALSE is a Literal of its decoded value, or a crash where the Java conversion throws |
| ParserProps.CharacterToken | src/main/java/plc/project/Parser.java:422-424 | a CHARACTER token is the character right after its opening quote, even when that is the backslash of an escape |
| ParserProps.EscapedBackslashToken | src/main/java/plc/project/Parser.java:425-435 | the STRING token `"\\n"` is the two characters backslash and line feed, as the replace passes leave it |
| ParserProps.PrimaryAtEnd | src/main/java/plc/project/Parser.java:467 | running out of tokens where a primary is due is an out-of-range get, not a ParseException |
| ParserProps.BlockEndsAtEnd | src/main/java/plc/project/Parser.java:179 | a parsed block ends with an END token |
| ParserProps.StatementForms | src/main/java/plc/project/Parser.java:208-218 | with no keyword, the expression is an assignment's receiver exactly when '=' follows it, an expression statement exactly when ';' follows, and otherwise "Expected '=' or ';'" |
| ParserProps.DeclarationShape | src/main/java/plc/project/Parser.java:230-246 | LET without a name fails with index -1; a parsed declaration has the name and ends at ';' |
| ParserProps.ImmutableNeedsInitializer | src/main/java/plc/project/Parser.java:130-135 | VAL without '=' after its name fails with "Expected = after VAL identifier" |
| ParserProps.MutableInitializerOptional | src/main/java/plc/project/Parser.java:110-114 | VAR with no '=' is a mutable global with no value |
| ParserProps.DefaultBlockDropped | src/main/java/plc/project/Parser.java:291-296 | SWITCH x DEFAULT y; END END parses to a switch with no cases: the DEFAULT block is lost |
| ParserProps.NameStatement | src/main/java/plc/project/Parser.java:214-215 | name; is an expression statement |
| ParserProps.GlobalKeywordConsumedTwice | src/main/java/plc/project/Parser.java:38-63 | parseSource consumes LIST, VAR or VAL and parseGlobal looks for it again, so a global written once fails with "Expected global declaration" |
| ParserProps.StrayTokenDiverges | src/main/java/plc/project/Parser.java:37-43 | a token that starts neither a global nor a function stops the loop of parseSource for good |
| ParserProps.SourceRestKeepsOrder | src/main/java/plc/project/Parser.java:37-44 | the source parsed keeps the globals and functions in the order they appear |
| AnalyzerSpec.TypeNamed | src/main/java/plc/project/Analyzer.java:55 | Environment.getType knows exactly the eight names Any, Nil, Comparable, Boolean, Integer, Decimal, Character and String |
| AnalyzerSpec.Require | src/main/java/plc/project/Analyzer.java:191-197 | a check passes exactly when its condition holds |
| AnalyzerSpec.LookupVariable | src/main/java/plc/project/Analyzer.java:423 | a name defined in the current scope is found there, before any parent |
| AnalyzerSpec.LookupFunction | src/main/java/plc/project/Analyzer.java:433 | a function defined in the current scope with this name and arity is found there, before any parent |
| AnalyzerSpec.DefineVariable | src/main/java/plc/project/Analyzer.java:73 | defining succeeds exactly when the name is new in the current scope, and adds only that name |
| AnalyzerSpec.RequireAssignable | src/main/java/plc/project/Analyzer.java:473-482 | requireAssignable passes exactly for the same type, any type into Any, and Integer, Decimal, Character or String into Comparable |
| AnalyzerSpec.TypeOrFail | src/main/java/plc/project/Analyzer.java:66 | reading a node's type succeeds exactly when its visit wrote one |
| AnalyzerSpec.LiteralType | src/main/java/plc/project/Analyzer.java:310-344 | a literal is typed Boolean, Character, String, Integer or Decimal, or gets no type |
| AnalyzerSpec.BinaryType | src/main/java/plc/project/Analyzer.java:364-416 | an accepted binary operator yields Boolean, Integer, Decimal or String |
| AnalyzerSpec.BooleanCondition | src/main/java/plc/project/Analyzer.java:189-193 | a condition passes exactly when its visit types it Boolean |
| AnalyzerSpec.AnalyzeStatement | src/main/java/plc/project/Analyzer.java:128-307 | an accepted statement leaves the scope as it was, except a declaration, which adds exactly its name to the current scope |
| AnalyzerSpec.AnalyzeDeclaration | src/main/java/plc/project/Analyzer.java:140-160 | an accepted declaration adds exactly its name to the current scope and changes nothing else |
| AnalyzerSpec.AnalyzeIf | src/main/java/plc/project/Analyzer.java:186-218 | an accepted If leaves the scope it started in: each branch runs in a child scope that is dropped |
| AnalyzerSpec.AnalyzeSwitch | src/main/java/plc/project/Analyzer.java:221-255 | an accepted Switch leaves the scope it started in |
| AnalyzerSpec.AnalyzeBlock | src/main/java/plc/project/Analyzer.java:202-204 | an accepted block keeps every name of the scope it started in and changes only its variables |
| AnalyzerSpec.AnalyzeCase | src/main/java/plc/project/Analyzer.java:258-269 | an accepted Case leaves the scope it started in |
| AnalyzerSpec.AnalyzeGlobal | src/main/java/plc/project/Analyzer.java:54-81 | an accepted global has a known type name and a new name, and adds exactly that variable, with its type and mutability |
| AnalyzerSpec.TypesNamed | src/main/java/plc/project/Analyzer.java:85 | the parameter types are one per type name |
| AnalyzerSpec.AnalyzeFunction | src/main/java/plc/project/Analyzer.java:84-124 | an accepted function has known type names and a new name-and-arity, and adds exactly its signature to the scope it was visited in |
| AnalyzerImpl.Analyzer.constructor | src/main/java/plc/project/Analyzer.java:19-22 | a child of the parent scope with print(Any) returning Nil, and no enclosing function |
| AnalyzerImpl.Analyzer.VisitExpression | src/main/java/plc/project/Analyzer.java:310-471 | returns AnalyzerSpec.TypeOf in the current scope |
| AnalyzerImpl.Analyzer.VisitBinary | src/main/java/plc/project/Analyzer.java:357-419 | returns AnalyzerSpec.TypeOf of the binary expression |
| AnalyzerImpl.Analyzer.VisitCall | src/main/java/plc/project/Analyzer.java:432-449 | the argument loop returns AnalyzerSpec.TypeOf of the call |
| AnalyzerImpl.Analyzer.VisitList | src/main/java/plc/project/Analyzer.java:452-471 | the element loop returns AnalyzerSpec.TypeOf of the list |
| AnalyzerImpl.Analyzer.VisitStatement | src/main/java/plc/project/Analyzer.java:128-307 | returns AnalyzerSpec.AnalyzeStatement and leaves the scope it gives |
| AnalyzerImpl.Analyzer.VisitStatements | src/main/java/plc/project/Analyzer.java:202-204 | the statement loop returns AnalyzerSpec.AnalyzeBlock and leaves the scope it gives |
| AnalyzerImpl.Analyzer.VisitExpressionStatement | src/main/java/plc/project/Analyzer.java:128-137 | returns AnalyzerSpec.AnalyzeStatement of the expression statement |
| AnalyzerImpl.Analyzer.VisitDeclaration | src/main/java/plc/project/Analyzer.java:140-160 | returns AnalyzerSpec.AnalyzeDeclaration and leaves the scope it gives |
| AnalyzerImpl.Analyzer.VisitAssignment | src/main/java/plc/project/Analyzer.java:163-183 | returns AnalyzerSpec.AnalyzeStatement of the assignment |
| AnalyzerImpl.Analyzer.VisitCondition | src/main/java/plc/project/Analyzer.java:189-193 | returns AnalyzerSpec.BooleanCondition |
| AnalyzerImpl.Analyzer.VisitIf | src/main/java/plc/project/Analyzer.java:186-218 | returns AnalyzerSpec.AnalyzeIf and, on success, has put the scope back |
| AnalyzerImpl.Analyzer.VisitSwitch | src/main/java/plc/project/Analyzer.java:221-255 | returns AnalyzerSpec.AnalyzeSwitch and, on success, has put the scope back |
| AnalyzerImpl.Analyzer.VisitCases | src/main/java/plc/project/Analyzer.java:228-250 | the case loop returns AnalyzerSpec.AnalyzeCases and, on success, has put the scope back |
| AnalyzerImpl.Analyzer.VisitCaseValue | src/main/java/plc/project/Analyzer.java:232-238 | the check of one case value returns AnalyzerSpec.ValueOfType |
| AnalyzerImpl.Analyzer.VisitCase | src/main/java/plc/project/Analyzer.java:258-269 | returns AnalyzerSpec.AnalyzeCase and, on success, has put the scope back |
| AnalyzerImpl.Analyzer.VisitWhile | src/main/java/plc/project/Analyzer.java:272-292 | returns AnalyzerSpec.AnalyzeStatement of the While and always puts the scope back, as its finally block does |
| AnalyzerImpl.Analyzer.VisitReturn | src/main/java/plc/project/Analyzer.java:295-307 | returns AnalyzerSpec.AnalyzeStatement of the Return |
| AnalyzerImpl.Analyzer.VisitGlobal | src/main/java/plc/project/Analyzer.java:54-81 | returns AnalyzerSpec.AnalyzeGlobal and leaves the scope it gives |
| AnalyzerImpl.Analyzer.VisitFunction | src/main/java/plc/project/Analyzer.java:84-124 | returns AnalyzerSpec.AnalyzeFunction, leaves the scope it gives, and resets the enclosing function's return type |
| AnalyzerImpl.Analyzer.DefineParameters | src/main/java/plc/project/Analyzer.java:95-97 | the parameter loop returns AnalyzerSpec.DefineParameters and leaves the scope it gives |
| AnalyzerImpl.Analyzer.VisitBody | src/main/java/plc/project/Analyzer.java:100-119 | the statement loop returns AnalyzerSpec.AnalyzeBody and leaves the scope it gives |
| AnalyzerImpl.Analyzer.VisitSource | src/main/java/plc/project/Analyzer.java:29-51 | returns AnalyzerSpec.AnalyzeSource and leaves the scope it gives |
| AnalyzerImpl.Analyzer.VisitGlobals | src/main/java/plc/project/Analyzer.java:30-32 | the global loop returns AnalyzerSpec.AnalyzeGlobals |
| AnalyzerImpl.Analyzer.VisitFunctions | src/main/java/plc/project/Analyzer.java:37-45 | the function loop returns AnalyzerSpec.AnalyzeFunctions and whether a main was found |
| AnalyzerProps.AssignablePreorder | src/main/java/plc/project/Analyzer.java:473-482 | assignability is reflexive and transitive with Any on top; nothing but Any takes Any; Nil and Boolean go only to themselves and Any |
| AnalyzerProps.StringConcatenation | src/main/java/plc/project/Analyzer.java:381-383 | + with a String on either side is a String, whatever the other side is |
| AnalyzerProps.AdditionTypes | src/main/java/plc/project/Analyzer.java:384-394 | without a String, + is accepted exactly for two Integers or two Decimals, and has their type |
| AnalyzerProps.ArithmeticTypes | src/main/java/plc/project/Analyzer.java:396-406 | - * / are Decimal as soon as one side is Decimal, Integer for two Integers, and rejected otherwise |
| AnalyzerProps.ComparisonTypes | src/main/java/plc/project/Analyzer.java:372-380 | < > == != are accepted exactly for two operands of one type, and are Boolean |
| AnalyzerProps.LogicalAndPowerTypes | src/main/java/plc/project/Analyzer.java:365-415 | && and the or-operator need two Booleans, ^ needs two Integers, and no other operator is accepted |
| AnalyzerProps.IntegerLiteralRange | src/main/java/plc/project/Analyzer.java:325-331 | an integer literal is typed Integer exactly when it fits in 32 bits |
| AnalyzerProps.NonPositiveDecimalRejected | src/main/java/plc/project/Analyzer.java:332-337 | the lower bound is Double.MIN_VALUE, so zero and every negative decimal literal are rejected |
| AnalyzerProps.WholeDecimalAccepted | src/main/java/plc/project/Analyzer.java:332-337 | whole decimal literals from 1 up to 10^292 are typed Decimal |
| AnalyzerProps.NilOperandRejected | src/main/java/plc/project/Analyzer.java:313-315 | NIL gets no type, so a binary expression with NIL on either side fails when its type is read |
| AnalyzerProps.GroupOnlyBinary | src/main/java/plc/project/Analyzer.java:347-354 | a group is accepted only around a binary expression, and then has its type |
| AnalyzerProps.AccessOffsetIgnored | src/main/java/plc/project/Analyzer.java:422-429 | an access is typed by its variable, accepted exactly when the variable is found, and its offset is never checked |
| AnalyzerProps.ArgumentsAssignable | src/main/java/plc/project/Analyzer.java:439-446 | the argument loop passes exactly when every argument is typed and assignable to its parameter's type |
| AnalyzerProps.CallTypes | src/main/java/plc/project/Analyzer.java:432-449 | a call is accepted exactly when its function is found by name and arity and every argument fits, and it has the function's return type |
| AnalyzerProps.ElementsSameType | src/main/java/plc/project/Analyzer.java:460-468 | the element loop passes exactly when every later element has the first one's type |
| AnalyzerProps.ListHomogeneous | src/main/java/plc/project/Analyzer.java:452-471 | a non-empty list is accepted exactly when all its elements have the first one's type, and the list itself gets no type |
| AnalyzerProps.EmptyListUntyped | src/main/java/plc/project/Analyzer.java:453-455 | an empty list is accepted and gets no type |
| AnalyzerProps.IfRequirements | src/main/java/plc/project/Analyzer.java:186-218 | an accepted If has a Boolean condition, a non-empty then block and an else list |
| AnalyzerProps.WhileRequirements | src/main/java/plc/project/Analyzer.java:272-277 | an accepted While has a Boolean condition |
| AnalyzerProps.CaseValueAccepted | src/main/java/plc/project/Analyzer.java:232-245 | a case passes its check exactly with a value of the condition's type, or as the one valueless case and the last |
| AnalyzerProps.CasesRequirements | src/main/java/plc/project/Analyzer.java:228-250 | in an accepted case loop every case has a value of the condition's type, or is the one last DEFAULT |
| AnalyzerProps.SwitchRequirements | src/main/java/plc/project/Analyzer.java:221-255 | an accepted Switch has a typed condition, every case value of that type, and a valueless case only last |
| AnalyzerProps.ReturnRequirements | src/main/java/plc/project/Analyzer.java:295-307 | a Return outside a function is rejected; inside one it is accepted exactly when its value fits the return type |
| AnalyzerProps.ExpressionStatementOnlyCalls | src/main/java/plc/project/Analyzer.java:128-137 | only a function call may stand as an expression statement, and it is accepted exactly when the call is |
| AnalyzerProps.DeclarationWithTypeAndValueFails | src/main/java/plc/project/Analyzer.java:140-157 | a declaration with both a type name and a value always fails: the value is never visited, so it has no type |
| AnalyzerProps.DeclarationInfersType | src/main/java/plc/project/Analyzer.java:144-153 | a declaration without a type name adds a mutable variable of its value's type to the current scope |
| AnalyzerProps.AssignmentIgnoresMutability | src/main/java/plc/project/Analyzer.java:163-183 | an assignment is accepted exactly when the value's type fits the variable's, even for an immutable variable |
| AnalyzerProps.BodySkipsSwitch | src/main/java/plc/project/Analyzer.java:100-119 | a function body passes over a Switch: one that fails on its own is accepted there |
| AnalyzerProps.MainsReturnInteger | src/main/java/plc/project/Analyzer.java:37-45 | in an accepted function loop every main() with no parameters returns Integer |
| AnalyzerProps.MainFound | src/main/java/plc/project/Analyzer.java:37-45 | the function loop reports a main found only when one of its functions is a main() with no parameters |
| AnalyzerProps.MainRequired | src/main/java/plc/project/Analyzer.java:29-51 | an accepted source has a main() with no parameters, and every such main returns Integer |
| AnalyzerProps.GlobalsDefined | src/main/java/plc/project/Analyzer.java:30-32 | the global loop defines every global in the scope, each with a new name |
| AnalyzerProps.GlobalsDistinct | src/main/java/plc/project/Analyzer.java:30-32 | after the globals, each is a variable of the analyzer's scope and no two share a name |
| InterpreterSpec.LookupVariable | src/main/java/plc/project/Interpreter.java:110 | a variable is found exactly when some scope of the chain defines it |
| InterpreterSpec.Assign | src/main/java/plc/project/Interpreter.java:110-111 | assigning changes a value only: the names, functions and parents of the chain stay as they were |
| InterpreterSpec.DefineVariable | src/main/java/plc/project/Interpreter.java:93 | defining succeeds exactly when the name is new in the current scope, and adds only that name with its value |
| InterpreterSpec.DefineFunction | src/main/java/plc/project/Interpreter.java:57 | defining succeeds exactly when the name and arity are new in the current scope, and adds only that function |
| InterpreterSpec.LookupFunction | src/main/java/plc/project/Interpreter.java:298 | a function of the current scope with this name and arity is the one found, before any parent's |
| InterpreterSpec.RequireBool | src/main/java/plc/project/Interpreter.java:319-325 | the check passes exactly on a Boolean, gives its value, and otherwise fails naming java.lang.Boolean |
| InterpreterSpec.RequireInteger | src/main/java/plc/project/Interpreter.java:319-325 | the check passes exactly on a BigInteger, gives its value, and otherwise fails naming java.math.BigInteger |
| InterpreterSpec.RequireComparable | src/main/java/plc/project/Interpreter.java:232-233 | the check passes exactly on a Comparable value: a Boolean, integer, decimal, character or string |
| InterpreterSpec.CodeUnits | src/main/java/plc/project/Interpreter.java:234 | a character below U+10000 is one UTF-16 code unit outside the surrogate range; any other is a high surrogate and a low surrogate that encode it |
| InterpreterSpec.Utf16 | src/main/java/plc/project/Interpreter.java:234 | a string has one or two UTF-16 code units per character |
| InterpreterSpec.CompareUnits | src/main/java/plc/project/Interpreter.java:234 | lexicographic order of code units, by sign: the first differing unit decides, else the shorter sequence is less |
| InterpreterSpec.CompareStrings | src/main/java/plc/project/Interpreter.java:234 | String.compareTo by sign, over UTF-16 code units: an equal first character passes on to the rest, differing characters are decided by their first differing code unit, and an empty string is less than a non-empty one |
| InterpreterSpec.Compare | src/main/java/plc/project/Interpreter.java:234 | compareTo succeeds exactly on two values of the same class, and is -1, 0 or 1 |
| InterpreterSpec.StringForm | src/main/java/plc/project/Interpreter.java:249 | toString gives a string for every value but NIL and a list |
| InterpreterSpec.AddDecimals | src/main/java/plc/project/Interpreter.java:255 | the sum of two decimals has the larger of their scales |
| InterpreterSpec.Plus | src/main/java/plc/project/Interpreter.java:245-259 | a successful + gives a string, an integer or a decimal |
| InterpreterSpec.Exponentiate | src/main/java/plc/project/Interpreter.java:269 | ^ succeeds exactly for an exponent from 0 to the largest int, and gives the power |
| InterpreterSpec.Eval | src/main/java/plc/project/Interpreter.java:209-314 | evaluating an expression may assign variables but never adds or removes a variable, a function or a scope |
| InterpreterSpec.EvalEach | src/main/java/plc/project/Interpreter.java:306-314 | the arguments or list values give one value each, appended after the values already computed, the next one being the value of the next expression; a failing expression fails the loop with its failure; the chain keeps its shape |
| InterpreterSpec.EvalBinary | src/main/java/plc/project/Interpreter.java:222-273 | a binary expression keeps the chain's shape |
| InterpreterSpec.EvalCall | src/main/java/plc/project/Interpreter.java:285-303 | a call leaves its child scope and keeps the caller's chain shape |
| InterpreterSpec.Invoke | src/main/java/plc/project/Interpreter.java:57-76 | a call's body runs in a child scope that is left again, whatever it defined |
| InterpreterSpec.BindParameters | src/main/java/plc/project/Interpreter.java:62-64 | binding parameters only adds variables to the current scope |
| InterpreterSpec.Define | src/main/java/plc/project/Interpreter.java:90-99 | a declaration adds its name to the current scope, which otherwise only grows |
| InterpreterSpec.Exec | src/main/java/plc/project/Interpreter.java:82-207 | only a declaration adds to the chain; a returned value comes only from statements that can hold a RETURN |
| InterpreterSpec.ExecBlock | src/main/java/plc/project/Interpreter.java:65-67 | running statements in order only grows the chain |
| InterpreterSpec.IfOnce | src/main/java/plc/project/Interpreter.java:117-139 | the If statement, run once, leaves the chain's shape as it found it |
| InterpreterSpec.IfAsWritten | src/main/java/plc/project/Interpreter.java:117-139 | the If loop as written finishes only through a RETURN, and then leaves the chain's shape as it found it |
| InterpreterSpec.MatchingCase | src/main/java/plc/project/Interpreter.java:149-158 | the case loop only grows the switch's scope |
| InterpreterSpec.DefaultCase | src/main/java/plc/project/Interpreter.java:160-169 | the default loop only grows the switch's scope |
| InterpreterSpec.WhileLoop | src/main/java/plc/project/Interpreter.java:186-200 | every turn's child scope is left again, so the loop keeps the chain's shape |
| InterpreterSpec.RunGlobals | src/main/java/plc/project/Interpreter.java:29-33 | the global loop only grows the scope |
| InterpreterSpec.DefineFunctions | src/main/java/plc/project/Interpreter.java:34-38 | the function loop changes no variable and no parent |
| InterpreterImpl.Interpreter.constructor | src/main/java/plc/project/Interpreter.java:14-20 | a new interpreter's scope is a child of the given parent holding only print/1 |
| InterpreterImpl.Interpreter.VisitSource | src/main/java/plc/project/Interpreter.java:26-41 | returns what the program's run computes, and is left in the scope that run gives |
| InterpreterImpl.Interpreter.VisitGlobal | src/main/java/plc/project/Interpreter.java:43-52 | the global is defined with its value or NIL, as Define computes |
| InterpreterImpl.Interpreter.VisitFunction | src/main/java/plc/project/Interpreter.java:54-78 | the function is defined under its name and number of parameters, as DefineFunction computes |
| InterpreterImpl.Interpreter.Invoke | src/main/java/plc/project/Interpreter.java:57-76 | a call's body runs as InterpreterSpec.Invoke computes and the scope field comes back to the caller's |
| InterpreterImpl.Interpreter.VisitStatement | src/main/java/plc/project/Interpreter.java:82-207 | each statement's visit gives what Exec computes, a Return carried out as its value |
| InterpreterImpl.Interpreter.VisitBlock | src/main/java/plc/project/Interpreter.java:65-67 | the statement loop gives what ExecBlock computes and stops at the first Return |
| InterpreterImpl.Interpreter.VisitExpressionStatement | src/main/java/plc/project/Interpreter.java:82-87 | the expression is evaluated and nothing is returned, as Exec computes |
| InterpreterImpl.Interpreter.VisitDeclaration | src/main/java/plc/project/Interpreter.java:89-99 | the variable is declared with its value or NIL, as Exec computes |
| InterpreterImpl.Interpreter.DefineVariable | src/main/java/plc/project/Interpreter.java:92-97 | the value, or NIL, is defined under the name, as Define computes |
| InterpreterImpl.Interpreter.VisitAssignment | src/main/java/plc/project/Interpreter.java:101-115 | the variable is looked up, then the value evaluated and stored, as Exec computes |
| InterpreterImpl.Interpreter.VisitIf | src/main/java/plc/project/Interpreter.java:117-139 | one branch runs in a child scope that is left again, as IfOnce computes |
| InterpreterImpl.Interpreter.VisitSwitch | src/main/java/plc/project/Interpreter.java:141-174 | the first equal case, else the first default, runs in a child scope that is left again, as Exec computes |
| InterpreterImpl.Interpreter.VisitCase | src/main/java/plc/project/Interpreter.java:177-184 | the case's statements run in the current scope, as ExecBlock computes |
| InterpreterImpl.Interpreter.VisitWhile | src/main/java/plc/project/Interpreter.java:186-200 | the loop runs as WhileLoop computes, each turn in a fresh child scope |
| InterpreterImpl.Interpreter.VisitReturn | src/main/java/plc/project/Interpreter.java:202-207 | the value is carried out as the statement's returned value |
| InterpreterImpl.Interpreter.VisitExpression | src/main/java/plc/project/Interpreter.java:209-220 | each expression's visit gives the value Eval computes |
| InterpreterImpl.Interpreter.VisitEach | src/main/java/plc/project/Interpreter.java:306-314 | the loop over arguments or list values fails exactly when EvalEach fails, and otherwise gives its values |
| InterpreterImpl.Interpreter.VisitCall | src/main/java/plc/project/Interpreter.java:285-303 | the arguments in a child scope, then the function found from there and invoked, as Eval computes |
| InterpreterImpl.Interpreter.VisitBinary | src/main/java/plc/project/Interpreter.java:222-273 | the operator's visit gives what EvalBinary computes, an unknown operator failing |
| InterpreterImpl.Interpreter.VisitLogical | src/main/java/plc/project/Interpreter.java:226-229 | && and the or-operator evaluate the right operand only when the left leaves the result open, as EvalBinary computes |
| InterpreterImpl.Interpreter.VisitComparison | src/main/java/plc/project/Interpreter.java:230-240 | < and > compare two Comparable operands with compareTo, as EvalBinary computes |
| InterpreterImpl.Interpreter.VisitEquality | src/main/java/plc/project/Interpreter.java:241-244 | == and != compare the two values for equality, as EvalBinary computes |
| InterpreterImpl.Interpreter.VisitPlus | src/main/java/plc/project/Interpreter.java:245-259 | + concatenates or adds, as EvalBinary computes |
| InterpreterImpl.Interpreter.VisitArithmetic | src/main/java/plc/project/Interpreter.java:260-269 | -, * and ^ check the left operand, then the right one, as EvalBinary computes |
| InterpreterImpl.Interpreter.VisitDivision | src/main/java/plc/project/Interpreter.java:264-267 | / checks the right operand for zero before it evaluates the left one, as EvalBinary computes |
| InterpreterProps.AndShortCircuits | src/main/java/plc/project/Interpreter.java:227 | a false left operand gives false for && without evaluating the right operand |
| InterpreterProps.AndTakesRight | src/main/java/plc/project/Interpreter.java:227 | after a true left operand, && succeeds exactly when the right operand is Boolean, and is its value |
| InterpreterProps.OrShortCircuits | src/main/java/plc/project/Interpreter.java:229 | a true left operand gives true for the or-operator without evaluating the right operand |
| InterpreterProps.OrTakesRight | src/main/java/plc/project/Interpreter.java:229 | after a false left operand, the or-operator succeeds exactly when the right operand is Boolean, and is its value |
| InterpreterProps.LogicalNeedsBoolean | src/main/java/plc/project/Interpreter.java:227-229 | a left operand that is no Boolean fails both logical operators with the Boolean type error |
| InterpreterProps.PlusConcatenates | src/main/java/plc/project/Interpreter.java:248-249 | with a string on either side, + succeeds exactly when both sides have a string form, and concatenates them |
| InterpreterProps.PlusNeedsOneKind | src/main/java/plc/project/Interpreter.java:251-258 | without a string, + succeeds exactly on two integers or two decimals, adds integers, and otherwise throws the invalid-operands error |
| InterpreterProps.DecimalSumExact | src/main/java/plc/project/Interpreter.java:255 | the decimal sum's value is exactly the sum of the two values, at any scales |
| InterpreterProps.PlusDecimals | src/main/java/plc/project/Interpreter.java:254-255 | two decimals add to their exact sum at a scale no smaller than either |
| InterpreterProps.DecimalArithmeticRejected | src/main/java/plc/project/Interpreter.java:260-269 | a decimal left operand fails -, * and ^ with the BigInteger type error |
| InterpreterProps.DivisionByZero | src/main/java/plc/project/Interpreter.java:265-266 | a zero divisor fails / whatever the left operand is |
| InterpreterProps.TruncatedDivisionTowardZero | src/main/java/plc/project/Interpreter.java:267 | BigInteger division rounds toward zero: the remainder is smaller than the divisor and has the dividend's sign |
| InterpreterProps.PowerAdds | src/main/java/plc/project/Interpreter.java:269 | the power function adds exponents over a product |
| InterpreterProps.PowerRules | src/main/java/plc/project/Interpreter.java:269 | an exponent beyond int fails intValueExact, a negative one fails pow, and any other gives the power |
| InterpreterProps.CompareStringsAntisymmetric | src/main/java/plc/project/Interpreter.java:234 | swapping two strings negates their comparison |
| InterpreterProps.Utf16Injective | src/main/java/plc/project/Interpreter.java:234 | two strings with the same UTF-16 code units are the same string |
| InterpreterProps.CompareStringsByCodeUnits | src/main/java/plc/project/Interpreter.java:234 | U+FFFF compares greater than U+10000, as code units order them, although it is the smaller character |
| InterpreterProps.CompareStringsZero | src/main/java/plc/project/Interpreter.java:234 | two strings compare as zero exactly when they are equal |
| InterpreterProps.CompareAntisymmetric | src/main/java/plc/project/Interpreter.java:234 | swapping two comparable values negates compareTo |
| InterpreterProps.CompareZeroMeansEqual | src/main/java/plc/project/Interpreter.java:234 | outside decimals, compareTo is zero exactly when the values are equal |
| InterpreterProps.DecimalScaleSeparatesEquality | src/main/java/plc/project/Interpreter.java:234-244 | 2.0 and 2.00 compare as zero yet are not equal |
| InterpreterProps.LessIsGreaterSwapped | src/main/java/plc/project/Interpreter.java:230-240 | a < b between literals is b > a |
| InterpreterProps.NotEqualsNegates | src/main/java/plc/project/Interpreter.java:241-244 | != succeeds exactly when == does and gives its negation |
| InterpreterProps.EqualsIsValueEquality | src/main/java/plc/project/Interpreter.java:242 | == between literals is the equality of their values |
| InterpreterProps.ListOfLiterals | src/main/java/plc/project/Interpreter.java:306-314 | a list literal of literals evaluates to the list of their values in order, leaving the chain unchanged |
| InterpreterProps.AccessAlwaysFails | src/main/java/plc/project/Interpreter.java:276-277 | visiting an Access throws UnsupportedOperationException |
| InterpreterProps.UnknownOperatorRejected | src/main/java/plc/project/Interpreter.java:270-271 | any other operator fails with the unsupported-operator message naming it |
| InterpreterRuns.LookupFunctionByShape | src/main/java/plc/project/Interpreter.java:298 | function lookup depends only on the chain's shape, so evaluation never changes which function a name finds |
| InterpreterRuns.DefinesByShape | src/main/java/plc/project/Interpreter.java:110 | whether a variable is defined depends only on the chain's shape |
| InterpreterRuns.AssignThenLookup | src/main/java/plc/project/Interpreter.java:110-111 | after an assignment to a defined variable, looking it up gives the assigned value |
| InterpreterRuns.AssignKeepsOthers | src/main/java/plc/project/Interpreter.java:110-111 | an assignment leaves every other name's value as it was |
| InterpreterRuns.AssignInnermost | src/main/java/plc/project/Interpreter.java:110-111 | an assignment reaches the innermost variable of that name and not a same-named one further out |
| InterpreterRuns.BlockSplits | src/main/java/plc/project/Interpreter.java:65-67 | running a + b runs a, then b from where a left the chain unless a returned |
| InterpreterRuns.BlockFromOffset | src/main/java/plc/project/Interpreter.java:65-67 | the statements of a + b from position (length of a) + j on are those of b from j on |
| InterpreterRuns.ReturnEndsBlock | src/main/java/plc/project/Interpreter.java:202-207 | nothing after a RETURN runs: its value leaves the block |
| InterpreterRuns.DeclareInBranchBody | src/main/java/plc/project/Interpreter.java:130-132 | the one-declaration branch runs in a child scope holding just that variable |
| InterpreterRuns.IfAsWrittenNeverFinishes | src/main/java/plc/project/Interpreter.java:120-137 | as written, a true condition with a branch that does not return loops until the fuel runs out |
| InterpreterRuns.IfOnceFinishes | src/main/java/plc/project/Interpreter.java:117-139 | the same statement, run once, finishes and leaves the chain as it was |
| InterpreterRuns.IfAsWrittenMissingElseCrashes | src/main/java/plc/project/Interpreter.java:124-125 | as written, a false condition without ELSE fails reading the missing statements |
| InterpreterRuns.IfOnceMissingElseSkips | src/main/java/plc/project/Interpreter.java:117-139 | run once, a false condition without ELSE does nothing |
| InterpreterRuns.IfOnceTakesBranch | src/main/java/plc/project/Interpreter.java:117-139 | run once, the condition picks exactly one branch, run in a child scope that is then left |
| InterpreterRuns.FirstMatch | src/main/java/plc/project/Interpreter.java:149-158 | the position found is a case whose value equals the condition's, and no earlier case's does |
| InterpreterRuns.FirstDefault | src/main/java/plc/project/Interpreter.java:160-168 | the position found is a case without a value, and every earlier case has one |
| InterpreterRuns.MatchingCaseSelects | src/main/java/plc/project/Interpreter.java:149-169 | the case loop runs the first case equal to the condition's value, else the default loop |
| InterpreterRuns.DefaultCaseSelects | src/main/java/plc/project/Interpreter.java:160-169 | the default loop runs the first case without a value, or nothing |
| InterpreterRuns.SwitchSelects | src/main/java/plc/project/Interpreter.java:141-174 | a SWITCH runs, in a child scope it leaves again, the first equal case, else the first default, else nothing |
| InterpreterRuns.WhileFalseSkips | src/main/java/plc/project/Interpreter.java:189 | a false condition ends the loop before any turn |
| InterpreterRuns.WhileTrueNeverEnds | src/main/java/plc/project/Interpreter.java:189-198 | WHILE TRUE DO END never finishes |
| InterpreterRuns.BindPositional | src/main/java/plc/project/Interpreter.java:62-64 | with distinct fresh names, parameter i is bound to argument i and nothing else changes |
| InterpreterRuns.RepeatedParameterRedefined | src/main/java/plc/project/Interpreter.java:62-64 | a parameter named twice fails the call as a redefinition |
| InterpreterRuns.EmptyBodyGivesNil | src/main/java/plc/project/Interpreter.java:65-75 | a body with no RETURN gives NIL and the caller's chain comes back unchanged |
| InterpreterRuns.ReturnedLiteralIsResult | src/main/java/plc/project/Interpreter.java:69-70 | a body returning a literal gives its value, and leaves the caller's chain unchanged |
| InterpreterRuns.CallerVariableAssigned | src/main/java/plc/project/Interpreter.java:58-60 | a body runs under the caller's chain, so an assignment in it reaches the caller's variable |
| InterpreterRuns.CallUndefined | src/main/java/plc/project/Interpreter.java:298 | a call of a name and arity not in reach fails as undefined |
| InterpreterRuns.DefineFunctionsSucceeds | src/main/java/plc/project/Interpreter.java:34-38 | the function loop succeeds exactly when no signature is already defined or repeated |
| InterpreterRuns.DefineFunctionsDefines | src/main/java/plc/project/Interpreter.java:34-38 | a successful function loop defines each function under its name and arity and keeps what was there |
| InterpreterRuns.MainRequired | src/main/java/plc/project/Interpreter.java:39 | a program without a main() with no parameters fails, as undefined "main" once its globals and functions are defined |

## Left out

- Generator.java is not part of this model: it writes output through a `PrintWriter`, and most of its visits are unimplemented.
- The `print` built-in is a callable under `print/1` that gives NIL; what it writes to standard output is not modelled.
- Only the errors are modelled, not their full text: a `ParseException` keeps its message and index, while an interpreter failure keeps its kind and the message parts that the code fixes. For example, requireType's failure names the expected class but not the received one.
- Java runtime crashes, such as `tokens.get(-1)` at index 0, an index past the end, a failed cast or a null list, are collapsed into one `Crash` failure.
- Receiver-based assignment is not modelled: Interpreter.java:106-107 goes through `PlcObject.setGlobal`, which is not part of this model. An assignment to an Access with a receiver, which is the parser's indexed access `x[e]`, is modelled as an assignment to the plain name. Method calls through `callMethod` (Interpreter.java:294-296) are left out too, since the parser never builds a call with a receiver.
- Interpreter.java does not compile as it stands: `cope` at line 63, a stray `}` at line 80, code after `throw` at lines 277-282, no import of `Collections` or `Objects`, and lines 232-233 pass `visit(...).getValue()`, an `Object`, to `requireType`, whose only overload (line 318) takes an `Environment.PlcObject`. The model reads line 63 as `scope`, reads lines 232-233 as `requireType(Comparable.class, visit(...))`, a check on the operand's value, takes the two imports as intended, and follows the `throw` at line 277, so every Access fails.
- The interpreter's runs are bounded by fuel. A run that needs more calls or loop turns than the fuel allows ends in `OutOfFuel`, which stands for a run that does not finish.
- Scopes are values, not shared objects. Where the Java code restores a saved Scope object, the model takes the parent of the block's scope, which holds the block's assignments to outer variables. Aliasing between Scope objects is not modelled beyond that.
- The analyzer's writes of a type or a variable onto AST nodes are modelled as the type each visit returns, not as fields updated in place.
- `parseCaseStatement` is not modelled: it is unimplemented, since it throws UnsupportedOperationException (Parser.java:309-311), and nothing calls it.
- The unicode-escape branch of `lexEscape` has no effect: its pattern is tried against a single character and never matches. The model keeps only the other branch.
- Some LexerTests cases expect outcomes the lexer code does not produce (`"-0.51"` at line 98 and `"' '"` at line 137). The model follows the code.
- InterpreterSpec.StringForm: the string form of NIL and of a list is not modelled, so `+` between a string and NIL or a list fails here. The text of NIL comes from `Environment.NIL`, and Environment.java is not part of this model; a list's would come from `ArrayList.toString`.
- InterpreterSpec.Exec and InterpreterImpl.Interpreter.VisitIf run an IF statement once, as InterpreterSpec.IfOnce does, and not as the `while` loop of Interpreter.java:117-139 (InterpreterSpec.IfAsWritten). Every program run in this model therefore takes the intended If: where the code loops forever on a true condition or crashes on a false condition without ELSE, the model runs one branch or nothing (see "## Findings").
- Numerals.ParseInteger: `new BigInteger` also accepts decimal digits outside ASCII, which Java reads through `Character.digit`; the model rejects them. The lexer produces only ASCII digits, so no literal token tells the two apart.
- Numerals.ParseDecimal: `new BigDecimal` also accepts an exponent (`1E5`) and non-ASCII digits; the model reads only a sign, digits and one optional point. The lexer never produces either form.
- Characters are Dafny `char`s, that is Unicode scalar values, where a Java `String` holds UTF-16 code units. A character beyond U+FFFF is one `char` here and two code units in Java, so every lexer offset after such a character is one less here than in Java, per such character, a CHARACTER literal holding one lexes here where Java reports it unterminated, and one outside a literal is one OPERATOR token here and two in Java. String comparison does follow Java: InterpreterSpec.CompareStrings compares the code units of InterpreterSpec.Utf16.
- Java's regex classes are modelled only for the patterns the lexer passes to `peek` and `match`.

## Findings

| source | as written | input that shows it | evidently intended | confidence | as-written member | corrected member |
|---|---|---|---|---|---|---|
| src/main/java/plc/project/Parser.java:427-433 | a STRING literal is decoded by seven `String.replace` passes in a row, so an escaped backslash followed by a letter is read a second time as an escape | the token `"\\n"` decodes to a backslash and a line feed | each escape read once, left to right, so `"\\n"` is a backslash and an `n` | not executed | StringLiterals.ReplaceDecodingMisreadsEscapedBackslash | StringLiterals.StringRoundTrip |
| src/main/java/plc/project/Parser.java:422-424 | a CHARACTER literal's value is `charAt(1)`, the character after the opening quote | the token `'\n'` gives a backslash | the escape read, so `'\n'` is a line feed | not executed | StringLiterals.CharAtOneMisreadsEscape | StringLiterals.CharRoundTrip |
| src/main/java/plc/project/Interpreter.java:118-139 | visit(If) is a `while` loop that runs again as long as the condition is Boolean, and reads a missing ELSE list | `IF TRUE DO LET x = 1; END` never finishes, and `IF FALSE DO … END` fails on the missing list | the condition evaluated once and one branch run, with nothing run for a false condition without ELSE | not executed | InterpreterRuns.IfAsWrittenNeverFinishes | InterpreterRuns.IfOnceFinishes |
