# quasar scanner, bytecode block, VM loop and values in Dafny

This project models the front end and the execution core of the quasar
interpreter:

- the lexer (`src/lexer.rs`) turns source text into tokens, one call of
  `get_token` at a time, tracking a 0-based line and column;
- the bytecode `Block` and the `OpCode` decoding (`src/block.rs`);
- the virtual machine's `interpret`/`run` dispatch loop (`src/vm.rs`);
- the tagged runtime `Value` (`src/value.rs`).

The lexer has two layers.

- `LexerSpec` (file `lexer_spec.dfy`) is a pure reference definition. `NextToken(src, state)` skips whitespace, scans one token and returns the result together with the new position, line and column. Each kind of token has its own scan function: `OperatorAt`, `NumberAt`, `StringAt`, `CharAt` and `IdentifierAt`. A scan returns either a lexeme and its end, or a fault. A fault records the index of the offending character, the error length, and where scanning stopped.
- `Lexing.Lexer` (file `lexer.dfy`) is a class with the source's own fields and methods: `advance`, `peek`, `match_char`, `skip_whitespace`, `number`, `string`, `char` and `identifier`. These methods are loops over a character sequence with a position field. The lengths and columns are computed the way the source computes them: hard-coded keyword lengths, `+2` per escape, and `column - 1` in `make_error`.
- `GetToken` is proved to return exactly what `NextToken` describes and to leave the object in `NextToken`'s new state.
- The properties in `LexerProperties` (file `lexer_lemmas.dfy`) are proved about `NextToken` and the scan functions, so they hold of every `GetToken` call.

Every error is reported at the column of one source index, `at`, on the line where the token began. That column is the token's start column plus the distance from the token's first character to `at`. The `- 1` in `make_error` is matched at each call site by the `+ 1`, `+ 0` or `- 1` the call site passes. The index reported for each error kind is:

- an unexpected character, including a lone `!`: the character itself, length 1;
- a second `.` in a number: that `.`, length 1;
- an invalid escape in a string or a character literal: the backslash, length 2;
- a string open at the end of input: one past the last character, length 1;
- a newline inside a string: the newline, length 1;
- a string ending in a lone backslash: one past the backslash, length 1 (the source passes `column + 1`);
- a character literal ending in a lone backslash: the backslash itself, length 1 (the source passes `column`, so this differs by one from the string case);
- a character literal with nothing after its opening quote: one past the quote, length 1;
- a newline right after the opening quote of a character literal: the newline, length 1;
- an empty character literal `''`: the opening quote, length 2;
- a character literal whose closing quote is missing: the index where the quote should be, length 1.

Integers are unbounded in Dafny. Line and column, which are `u32` in the source, are natural numbers here. `MakeToken` and `MakeError` require that their subtraction cannot underflow, and every call site is proved to meet that requirement.

## Model

| member | source | states |
|---|---|---|
| LexerSpec.SkipEnd | src/lexer.rs:403-422 | whitespace skipping stops at the first character that is not a space, tab or newline, having passed only those |
| LexerSpec.NewlineCount | src/lexer.rs:414-418 | the lines passed over; its properties are stated by `NewlineCountBounds` and `NewlineCountAppend` |
| LexerSpec.ColumnAfter | src/lexer.rs:406-418 | the column after consuming text; its properties are stated by `ColumnAfterBounds` and `SkipPastNewline` |
| LexerSpec.DigitsEnd | src/lexer.rs:157-162 | a run of digits ends at the end of input or at a non-digit |
| LexerSpec.DecimalValue | src/lexer.rs:183 | the parsed value of a numeral; its properties are stated by `DecimalValueBounds` and `DecimalRoundTrip` |
| LexerSpec.NumberFrom | src/lexer.rs:157-184 | scanning a number from a given point ends within the input, and an error lies at or just past the consumed text |
| LexerSpec.NumberAt | src/lexer.rs:152-185 | a number literal consumes at least its first digit and stays within the input |
| LexerSpec.StringBody | src/lexer.rs:193-240 | scanning a string body ends within the input; an error lies at or just past the consumed text, with length at least 1 |
| LexerSpec.StringEscape | src/lexer.rs:222-235 | the five string escapes; its properties are stated by `StringEscapesInvert` |
| LexerSpec.StringUnit | src/lexer.rs:198-239 | one step of a string body consumes one or two characters within the input, or fails with an error at or just past the characters it consumed |
| LexerSpec.StringAt | src/lexer.rs:187-252 | a string literal consumes at least its opening quote |
| LexerSpec.CharEscape | src/lexer.rs:281-293 | the five character escapes; its properties are stated by `CharEscapesInvert` |
| LexerSpec.CharClose | src/lexer.rs:314-336 | the literal closes, as `Char(d)` one past the quote, exactly when a single quote stands where it should; otherwise it is unterminated, reported at that index |
| LexerSpec.CharAt | src/lexer.rs:254-337 | a character literal consumes at least its opening quote and stays within the input |
| LexerSpec.WordEnd | src/lexer.rs:343-354 | a word ends at the end of input or at a character that is not a letter, digit or underscore |
| LexerSpec.IdentifierAt | src/lexer.rs:339-377 | a word consumes at least its first character |
| LexerSpec.Paired | src/lexer.rs:76-126 | an operator with an optional `=` is one or two characters long |
| LexerSpec.OperatorAt | src/lexer.rs:68-138 | a punctuation or operator token is one or two characters, within the input |
| LexerSpec.LiteralAt | src/lexer.rs:139-148 | a literal, a word or an unexpected character consumes at least one character |
| LexerSpec.LexAt | src/lexer.rs:66-148 | every token or error after the whitespace consumes at least one character |
| LexerSpec.NextToken | src/lexer.rs:59-150 | one call never moves backwards or past the end and never decreases the line; it reports the end of input exactly when only whitespace is left |
| LexerSpec.Report | src/lexer.rs:424-446 | a scanned lexeme is reported as a token whose length is the number of characters consumed and whose column is the start column; a fault is reported as an error on the same line, never before the start column; the result is never the end of input |
| LexerSpec.Keyword | src/lexer.rs:356-375 | a reserved word is never an identifier and is two to six letters long; the boolean keywords are exactly `true` and `false` |
| LexerSpec.WordKind | src/lexer.rs:356-376 | a word is an identifier exactly when it is not reserved, and then the identifier of itself |
| Lexing.Lexer.constructor | src/lexer.rs:50-57 | a new lexer is at position 0, line 0, column 0 |
| Lexing.Lexer.IsAtEnd | src/lexer.rs:379-381 | true exactly when every character has been consumed |
| Lexing.Lexer.Peek | src/lexer.rs:388-390 | the next character, or none at the end |
| Lexing.Lexer.Advance | src/lexer.rs:383-386 | consumes and returns the next character, moving the column by one and keeping the line |
| Lexing.Lexer.MatchChar | src/lexer.rs:392-401 | consumes the next character exactly when it is the expected one |
| Lexing.Lexer.SkipWhitespace | src/lexer.rs:403-422 | moves to `SkipEnd`; the line grows by the newlines passed, and the column is that after the last newline |
| Lexing.Lexer.MakeToken | src/lexer.rs:424-431 | a token's column is the current column minus its length |
| Lexing.Lexer.MakeError | src/lexer.rs:433-446 | an error's column is one less than the column passed |
| Lexing.Lexer.GetToken | src/lexer.rs:59-150 | the result and the new position, line and column are those of `NextToken` from the old state |
| Lexing.Lexer.ScanOperator | src/lexer.rs:68-138 | the result, position and column after an operator character are those `OperatorAt` gives |
| Lexing.Lexer.ScanCompound | src/lexer.rs:76-126 | `+ - * / > <` take a following `=` to form the `…Equal` kind of length 2, otherwise length 1 |
| Lexing.Lexer.ScanEqual | src/lexer.rs:104-112 | `==`, then `=>`, then `=` |
| Lexing.Lexer.ScanBang | src/lexer.rs:127-138 | `!=`, or an unexpected-character error that expected `=` |
| Lexing.Lexer.ScanLiteral | src/lexer.rs:139-148 | digits, quotes and word starts reach their scanners; anything else is an unexpected character with no expectation |
| Lexing.Lexer.ScanNumber | src/lexer.rs:152-185 | the result, position and column are those `NumberAt` gives, including the error at a second `.` |
| Lexing.Lexer.ScanString | src/lexer.rs:187-252 | the result, position and column are those `StringAt` gives, with the source's length count |
| Lexing.Lexer.ScanChar | src/lexer.rs:254-337 | the result, position and column are those `CharAt` gives, with the source's length count |
| Lexing.Lexer.ScanIdentifier | src/lexer.rs:339-377 | the result, position and column are those `IdentifierAt` gives |
| Lexing.Lexer.WordToken | src/lexer.rs:356-375 | the keyword table with its hard-coded lengths gives the same kind and length as the reference classification |
| Lexing.KeywordToken | src/lexer.rs:356-375 | a word has a table entry exactly when it is reserved; the entry's length is the word's length |
| LexerProperties.EndOfInput | src/lexer.rs:59-64 | `Ok(None)` exactly when only whitespace is left; otherwise the call consumes a character past the whitespace |
| LexerProperties.EndIsFinal | src/lexer.rs:59-64 | after the end has been reported, every later call reports it again without moving |
| LexerProperties.TokenSpansConsumed | src/lexer.rs:424-431 | a token's length is the number of characters consumed for it, and its column is the column of its first character; an error is on that line at or after that column |
| LexerProperties.NewlineCountBounds | src/lexer.rs:411-418 | the newlines skipped add at most one line per character, and none exactly when the text holds no newline |
| LexerProperties.ColumnAfterBounds | src/lexer.rs:406-418 | without a newline the column moves one per character; after a newline it counts only what follows, so it is below the length of the text |
| LexerProperties.NewlineCountAppend | src/lexer.rs:414-418 | the number of lines passed is additive over text |
| LexerProperties.SkipPastNewline | src/lexer.rs:414-418 | text that ends in a newline and then newline-free text has one more line than the text before the newline, and its column counts only what follows the newline |
| LexerProperties.TwoCharacterOperators | src/lexer.rs:76-138 | `+= -= *= /= >= <= == != =>` are two-character tokens of their kinds |
| LexerProperties.OneCharacterOperators | src/lexer.rs:76-138 | without a following `=`, `+ - * / > < =` are one-character tokens and a lone `!` is an error that expected `=` |
| LexerProperties.Punctuation | src/lexer.rs:69-75 | `( ) { } . , ;` are one-character tokens |
| LexerProperties.UnexpectedCharacters | src/lexer.rs:143-148 | any other character is an unexpected-character error of length 1 at its own index |
| LexerProperties.DigitsEndOfRun | src/lexer.rs:157-162 | the digit run ends exactly where the digits stop |
| LexerProperties.NumberFromSkipsDigits | src/lexer.rs:157-162 | digits are consumed without changing the outcome |
| LexerProperties.IntegerShape | src/lexer.rs:180-184 | a digit run not followed by `.` is an `Int` of its decimal value, as long as the run |
| LexerProperties.FloatShape | src/lexer.rs:163-181 | digits, `.`, digits make a `Float` of exactly that text, unless a second `.` follows, which is an error at that `.` |
| LexerProperties.DigitsBeforeEnd | src/lexer.rs:157-162 | every character before the end of a digit run is a digit |
| LexerProperties.AtMostOneDecimalPoint | src/lexer.rs:163-175 | an `Int` is all digits, a `Float` has exactly one `.`, and a second `.` is reported where it stands |
| LexerProperties.DecimalValueBounds | src/lexer.rs:183 | the value of a numeral of k digits is below 10 to the k, and it is 0 exactly when every digit is `0` |
| LexerProperties.Decimal | src/lexer.rs:183 | the decimal numeral of a number is a non-empty run of digits |
| LexerProperties.DecimalRoundTrip | src/lexer.rs:183 | reading the decimal numeral of n gives back n |
| LexerProperties.IntegerLiteral | src/lexer.rs:152-185 | the numeral of any n scans to `Int(n)` with the numeral's length |
| LexerProperties.StringEscapesInvert | src/lexer.rs:222-235 | the five string escapes `\n \t \r \\ \"` decode to exactly the characters whose spelling they are, and no other letter is an escape |
| LexerProperties.StringBodyReadsOne | src/lexer.rs:198-239 | one plain or escaped character of a string body decodes to that character |
| LexerProperties.StringBodyReads | src/lexer.rs:193-240 | the spelled-out body of any string decodes to that string |
| LexerProperties.QuoteStartsString | src/lexer.rs:140 | a double quote starts a string literal |
| LexerProperties.StringRoundTrip | src/lexer.rs:187-252 | any string between quotes scans back to itself, with 2 more characters than its spelling (escapes 2, plain characters 1) |
| LexerProperties.EscapeIsGood | src/lexer.rs:198-239 | every canonical spelling of a string is an error-free body that decodes back to the string |
| LexerProperties.GoodBodyReads | src/lexer.rs:193-240 | reading any error-free body, raw tabs and carriage returns included, decodes it without error |
| LexerProperties.StringInvalidEscape | src/lexer.rs:223-235 | after any error-free body, an unknown escape is an error of length 2 at the backslash |
| LexerProperties.StringUnterminatedAtEnd | src/lexer.rs:193-196 | a string whose error-free body runs to the end of input is unterminated, reported one past the last character |
| LexerProperties.StringUnterminatedAfterBackslash | src/lexer.rs:210-218 | a string whose error-free body is followed by a lone final backslash is unterminated, reported one past it |
| LexerProperties.StringUnterminatedAtNewline | src/lexer.rs:200-203 | a newline after any error-free body makes the string unterminated, reported at the newline |
| LexerProperties.StringAnyBody | src/lexer.rs:187-252 | any error-free body between quotes scans to the string it decodes to, the token being the body plus its two quotes |
| LexerProperties.CharEscapesInvert | src/lexer.rs:282-293 | the five character escapes `\n \t \r \\ \'` decode to exactly the characters whose spelling they are, and no other letter is an escape |
| LexerProperties.CharRoundTrip | src/lexer.rs:254-337 | any character between single quotes scans back to itself, 3 characters long plain and 4 escaped |
| LexerProperties.CharErrors | src/lexer.rs:255-308 | end after the quote, `''`, a newline, a lone backslash and an unknown escape give their errors, lengths and positions |
| LexerProperties.CharPlainAny | src/lexer.rs:309-336 | any plain body between single quotes, raw tabs and carriage returns included, is that character, three characters long |
| LexerProperties.CharEscapeUnclosed | src/lexer.rs:276-293 | a valid escape not followed by a single quote, at the end of input or before another character, is unterminated where the quote should be |
| LexerProperties.CharUnclosed | src/lexer.rs:314-336 | a one-character body without a closing quote is unterminated where the quote should be |
| LexerProperties.WordEndOfRun | src/lexer.rs:343-354 | the word run ends exactly where word characters stop |
| LexerProperties.WordToken | src/lexer.rs:339-377 | a whole word scans as its keyword kind if reserved, else as the identifier of that name, with the word's length |
| LexerProperties.ReservedSpellings | src/lexer.rs:356-374 | exactly eighteen spellings are reserved; `true` and `false` are booleans |
| LexerProperties.RawTabExample | src/lexer.rs:236-238 | a raw tab between quotes is a one-character string, and a bad escape after it is reported at its backslash |
| LexerProperties.EscapedNewlineExample | src/lexer.rs:187-252 | `"a\nb"` with an escape decodes to three characters in a six-character token |
| LexerProperties.CharExamples | src/lexer.rs:254-337 | `'a'` is three characters long and `'\n'` four |
| Blocks.FromByte | src/block.rs:6-11 | byte 0x00 decodes to `Return`, and every other byte decodes to none |
| Blocks.DecodeEncoded | src/block.rs:6-11 | decoding the byte of an opcode gives the opcode |
| Blocks.EncodeDecoded | src/block.rs:6-11 | a decoded byte is the byte of its opcode |
| Blocks.Block.constructor | src/block.rs:19-23 | a new block has no code |
| Blocks.Block.Push | src/block.rs:25-27 | the code grows by one byte, the pushed byte is last, and earlier bytes are kept |
| Blocks.Assemble | src/block.rs:19-27 | pushing bytes in order onto a new block leaves exactly those bytes |
| VirtualMachine.Execute | src/vm.rs:29-36 | running never yields a compile error, and yields `Ok` exactly when the first byte decodes to `Return` |
| VirtualMachine.ExecuteOutcomes | src/vm.rs:25-38 | running never yields a compile error; it yields `Ok` exactly when the first byte is 0x00 and a runtime error otherwise |
| VirtualMachine.ExecuteReadsFirstByte | src/vm.rs:25-38 | blocks with the same first byte have the same outcome |
| VirtualMachine.VM.constructor | src/vm.rs:14-18 | a new VM holds an empty, fresh block |
| VirtualMachine.VM.Interpret | src/vm.rs:20-23 | the given block is installed, and the result is that of running it, whatever block was held before |
| VirtualMachine.VM.Run | src/vm.rs:25-38 | the result is `Execute` of the block, and only the byte at offset 0 is fetched |
| Values.FromInt | src/value.rs:15-22 | wraps an integer under the `Int` tag; its properties are stated by `AsIntFromInt` and `FromIntInjective` |
| Values.AsInt | src/value.rs:24-28 | reads the integer payload; its properties are stated by `AsIntFromInt` and `EveryValueIsInt` |
| Values.AsIntFromInt | src/value.rs:15-28 | wrapping an integer and reading it back gives the integer |
| Values.EveryValueIsInt | src/value.rs:1-3 | with a single tag, every value is an `Int` and is the wrapping of its own payload |
| Values.FromIntInjective | src/value.rs:15-28 | different integers give different values |

## Left out

- `src/main.rs`: command-line parsing through an external library, and `run_file`/`repl`, which are unimplemented. This is I/O.
- `src/compiler.rs`: it only declares two empty slots and is not part of this model.
- `Block::disassemble`: debug output to standard output.
- Float literals: the source parses the digit text to `f32`. Here `Float` carries the digit text, because floating point is not modelled.
- LexerProperties.IntegerShape: `Int` carries the unbounded decimal value. The source's `u32` parse panics on a literal above 4294967295, and that panic is not modelled.
- Line and column are unbounded; the `u32` counters of the source could wrap only after 2^32 characters.
- The source reads characters from a `Peekable<Chars>` iterator. The model keeps the string and an index, `pos`, into it.
- The block's move into the VM: Rust moves ownership, while the model shares a reference. `Interpret` states its result in terms of the installed block alone.
- VirtualMachine.VM.Run: requires a non-empty block. The source indexes `code[0]` unchecked and panics on an empty block.
- VirtualMachine.VM.Run: the source's `loop` returns from inside its body. The model's loop runs while no outcome has been decided, because a `while true` whose every path returns leaves its back edge unreachable. It still fetches one byte per iteration and runs exactly one iteration.
- The dispatch of `get_token` is split into `ScanOperator`, `ScanCompound`, `ScanEqual`, `ScanBang` and `ScanLiteral`. Each arm does what the source's arm does.
- The keyword `match` of `identifier` is the function `KeywordToken`, used through `WordToken`.
- The `unsafe` union read of `as_int`: the model's `Value` pairs the tag with a one-field payload datatype.
- A newline consumed inside an unterminated string or character literal advances the column but not the line, exactly as in the source. The model keeps this behaviour.
- The constant pool of a block is not present in this version of the code, so it is not modelled.
- The keyword table has eighteen entries. The model has the same eighteen.
