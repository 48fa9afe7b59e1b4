# A verified model of the Lox scanner

This project models the lexer of a Java implementation of the Lox
language (`Scanner.java`) and proves what it does to a source text: the
token list it builds, the error reports it hands to the reporter, and the
line numbers it stamps on both.

The model is in seven modules:

- `Tokens` (tokens.dfy) holds the token kinds, tokens, literals, error reports and the three messages.
- `Lexical` (lexical.dfy) is the scanner as a pure function. `Step` is one turn of the
  `scanToken()` switch, and it takes the source, a position and a line.
  `ScanFrom` repeats it to the end of the input, and `Scan` adds the EOF token that `scanTokens()` appends.
- `Scanning` (scanner.dfy) has the class `Scanner`. Its fields are those of the Java
  object: `source`, `start`, `current`, `line`, `tokens`. It also has
  `errors`, the (line, message) pairs handed to the reporter. The Java
  methods that change the object are methods with the same loops, and the
  `/` case of the switch, with its line-comment loop, is the extra method
  `Slash`. The queries `isEnd`, `peek` and `peekNext`, which change
  nothing, are functions of the class, and `isDigit`, `isAlpha` and
  `isAlphaNumeric` are functions of `Lexical`. The loop of
  `MultiLineComment` tests for the closing `*/` as the tests expect,
  not as the Java is written (see below). Each scanning method (`ScanTokens`, `ScanToken`, `Slash`, `String`,
  `Number`, `Identifier`, `MultiLineComment`) is proved to leave the object in
  the state the matching function of `Lexical` describes, so
  `ScanTokens` yields exactly `Scan(source)`. `Advance`, `AddToken`,
  `Match` and `ReportError` state the new state of the object directly.
- `LexProperties` (properties.dfy) proves what the scan promises:
  - one EOF token, last, with an empty lexeme and on the last line;
  - every other lexeme is the non-empty slice of the source it came from, on the line where it ends;
  - line numbers never decrease;
  - maximal munch for the operators;
  - the comment, string, number, word and bad-character rules, in both directions;
  - the keyword table is a one-to-one map between the sixteen words and the sixteen reserved kinds.
- `Pieces` (pieces.dfy) runs the scanner backwards. A text is built from
  lexical pieces (blanks, comments, punctuation, operators, words,
  numbers, strings, stray characters), none of which swallows the start of the next.
  Such a text scans to exactly the tokens and reports those pieces stand for (`ScanText`).
- `ScannerExamples` (examples.dfy) states the unit tests of `ScannerTest.java` as
  lemmas about every input of the shape each test uses. The comment, string,
  number and word tests are built from `ScanText`. The one-character and
  operator tests rest on `SingleRun` and `OperatorRun`, which follow
  `ScanFrom` step by step.
- `AsWritten` (findings.dfy) models three branches of the Java code as
  written, where they differ from the behaviour the tests expect. Each comes with an input that shows the difference.

Where the Java code and its own tests disagree, the model follows the
tests and says so in a comment at the spot:
- `string()` consumes the closing quote;
- a block comment ends at its first `*/`;
- "Unexpected character." is reported only for a character no rule accepts.

The `case '/'` of the switch has no `break` and falls into the whitespace case, which does nothing.
The model gives that fall-through no effect.

## Model

| member | source | states |
|---|---|---|
| Lexical.Step | src/main/java/com/rhythm/lox/Scanner.java:60-116 | One turn of the switch consumes at least the character under the cursor and never moves the line counter back. A token's lexeme is the text the turn consumed, and its line is the line counter when it is added. |
| Lexical.Scan | src/main/java/com/rhythm/lox/Scanner.java:45-54 | The whole scan has one span per token and at least one token. The last token is EOF on the final line, which is at least 1, and its span is the empty one at the end of the source. |
| Lexical.IsDigit | src/main/java/com/rhythm/lox/Scanner.java:157-159 | Never true for the NUL that lookahead reads past the end, so a digit loop stops at the end of input. Which characters it accepts, the ten decimal digits, is stated by `Lexical.CharClassesListed`. |
| Lexical.IsAlpha | src/main/java/com/rhythm/lox/Scanner.java:176-180 | Never true for NUL. Which characters it accepts, the ASCII letters and `_`, is stated by `Lexical.CharClassesListed`. |
| Lexical.IsAlphaNumeric | src/main/java/com/rhythm/lox/Scanner.java:181-183 | Never true for NUL, so the word loop stops at the end of input. Which characters it accepts, letters, `_` and digits, is stated by `Lexical.CharClassesListed`. |
| Lexical.CharClassesListed | src/main/java/com/rhythm/lox/Scanner.java:157-183 | The three classes are exactly the ten digits, the fifty-two ASCII letters and `_`, as listed out character by character. |
| Lexical.WordKind | src/main/java/com/rhythm/lox/Scanner.java:187-189 | A word's kind is IDENTIFIER unless the word is in the keyword table. `LexProperties.WordKindReserved` gives the converse. |
| Lexical.CharAt | src/main/java/com/rhythm/lox/Scanner.java:137-140 | The lookahead of `peek` and `peekNext`: the character at a position inside the input, and NUL past its end. |
| Lexical.RunEnd | src/main/java/com/rhythm/lox/Scanner.java:143-146 | The end of the longest run of one character class from a point stays between that point and the end of input. The same loop shape is at lines 87, 162, 165 and 186. |
| Lexical.RunEndInside | src/main/java/com/rhythm/lox/Scanner.java:162 | Every character the run consumes is in its class. |
| Lexical.RunEndStops | src/main/java/com/rhythm/lox/Scanner.java:186 | The run stops only at the end of input or before a character outside its class. |
| Lexical.CloserFrom | src/main/java/com/rhythm/lox/Scanner.java:192-201 | The search for the comment closer stays between its starting point and the end of input. |
| Lexical.FractionAt | src/main/java/com/rhythm/lox/Scanner.java:163 | The test `peek() == '.' && isDigit(peekNext())`: it holds only where a dot is followed by another character inside the input. |
| Scanning.Scanner.IsEnd | src/main/java/com/rhythm/lox/Scanner.java:56-58 | The Java test `current >= length` holds exactly when the cursor is at the end, since the cursor never passes it. |
| Lexical.ScanFrom | src/main/java/com/rhythm/lox/Scanner.java:45-51 | The scan from a position: as many spans as tokens, and the line counter never goes back. |
| Lexical.StringLiteral | src/main/java/com/rhythm/lox/Scanner.java:142-155 | A string runs from its quote to a later point of the input, without moving the line back. The lexeme of its token is the consumed text, and the token is on the line where the string ends. |
| Lexical.BlockComment | src/main/java/com/rhythm/lox/Scanner.java:192-201 | A block comment yields no token, stays inside the input and never moves the line back. |
| Lexical.NumberEnd | src/main/java/com/rhythm/lox/Scanner.java:161-166 | A number runs at least one character past its first digit, within the input. |
| Lexical.NumberLiteral | src/main/java/com/rhythm/lox/Scanner.java:161-169 | A number always yields a token. Its lexeme is the consumed text, and it does not move the line. |
| Lexical.IdentifierWord | src/main/java/com/rhythm/lox/Scanner.java:185-191 | A word always yields a token. Its lexeme is the consumed text, and it does not move the line. |
| Lexical.OneOrTwo | src/main/java/com/rhythm/lox/Scanner.java:73-84 | An operator case yields one token of one or two characters: the consumed text, on the current line. |
| Lexical.SlashStep | src/main/java/com/rhythm/lox/Scanner.java:85-93 | The `/` case consumes at least the slash. Any token is the consumed text. |
| Lexical.OtherStep | src/main/java/com/rhythm/lox/Scanner.java:106-114 | The default case consumes at least one character and does not move the line. Any token is the consumed text. |
| Lexical.CloserFromFirst | src/main/java/com/rhythm/lox/Scanner.java:192-201 | The closer search finds the first `*/` from a point, or the end of input when there is none. |
| LexProperties.ScanShape | src/main/java/com/rhythm/lox/Scanner.java:45-54 | The token list ends with the only EOF token. It has an empty lexeme and no literal, and is on line 1 plus the number of line breaks. Every other token is located in the source and has a non-empty lexeme. |
| LexProperties.ScanFromLocated | src/main/java/com/rhythm/lox/Scanner.java:122-128 | Every token's lexeme is the source slice of its span, on the line of that slice's end. Spans are in order and do not overlap, none is empty and none is EOF. |
| LexProperties.TokenLinesOrdered | src/main/java/com/rhythm/lox/Scanner.java:122-128 | The line numbers of the token list never decrease. |
| LexProperties.ScanFromLine | src/main/java/com/rhythm/lox/Scanner.java:45-51 | The line counter at the end of a scan is the starting line plus the line breaks in the rest of the input. |
| LexProperties.StepLine | src/main/java/com/rhythm/lox/Scanner.java:99-100 | Each turn of the switch adds to the line counter exactly the line breaks it consumed. |
| LexProperties.StepNotEof | src/main/java/com/rhythm/lox/Scanner.java:60-116 | No turn of the switch produces an EOF token. |
| LexProperties.StepExclusive | src/main/java/com/rhythm/lox/Scanner.java:60-116 | A turn of the switch adds a token or reports an error, never both. |
| LexProperties.KeywordsShaped | src/main/java/com/rhythm/lox/Scanner.java:13-31 | Every reserved word is shaped like an identifier, so the identifier rule can reach it. |
| LexProperties.KeywordInverse | src/main/java/com/rhythm/lox/Scanner.java:13-31 | Each reserved word is the text of the kind the table maps it to. |
| LexProperties.KeywordTable | src/main/java/com/rhythm/lox/Scanner.java:13-31 | The table's kinds are exactly the sixteen reserved kinds, and no two words share a kind. |
| LexProperties.KeywordKinds | src/main/java/com/rhythm/lox/Scanner.java:13-31 | A kind is in the table's range if and only if it is reserved. |
| LexProperties.KeywordOf | src/main/java/com/rhythm/lox/Scanner.java:13-31 | The table maps each reserved kind's word back to that kind. |
| LexProperties.KeywordsReserved | src/main/java/com/rhythm/lox/Scanner.java:13-31 | Every kind in the table is reserved. |
| LexProperties.WordKindReserved | src/main/java/com/rhythm/lox/Scanner.java:187-189 | A word's kind is IDENTIFIER if and only if the word is not in the table, and otherwise the table's kind. It is never EOF. |
| LexProperties.PunctuationRule | src/main/java/com/rhythm/lox/Scanner.java:63-72 | Each of the ten punctuation characters is a one-character token of its kind by itself. |
| LexProperties.OperatorRule | src/main/java/com/rhythm/lox/Scanner.java:73-84 | Maximal munch: `!`, `=`, `<` and `>` take a following `=` if and only if there is one, and give the two-character kind then. |
| LexProperties.BlankRule | src/main/java/com/rhythm/lox/Scanner.java:94-100 | A blank is skipped, and a line break also advances the line counter. |
| LexProperties.LineCommentRule | src/main/java/com/rhythm/lox/Scanner.java:86-87 | A line comment yields nothing, holds no line break, and ends at the next line break or at the end of input. |
| LexProperties.BlockCommentRule | src/main/java/com/rhythm/lox/Scanner.java:88-89 | A block comment yields no token. It ends exactly after the first `*/` after its opener. There is no report if and only if such a closer exists. Otherwise it runs to the end of input with one unterminated-comment report on the last line. |
| LexProperties.StringRule | src/main/java/com/rhythm/lox/Scanner.java:142-155 | A string yields a token if and only if a closing quote follows. The token's lexeme runs through that first quote, its literal is the text between the quotes, and it is on the closing quote's line. Otherwise the string runs to the end with one unterminated-string report. |
| LexProperties.StringClosedAt | src/main/java/com/rhythm/lox/Scanner.java:142-155 | A string closed at a given quote ends just after it, with the inner text as literal. |
| LexProperties.StringUnclosed | src/main/java/com/rhythm/lox/Scanner.java:147-150 | A string with no closing quote runs to the end of input and is reported there. |
| LexProperties.NumberRule | src/main/java/com/rhythm/lox/Scanner.java:161-169 | A number's lexeme has the number shape: digits, optionally a dot and more digits. Its literal is that text. It is maximal: no digit follows it, nor a dot and a digit when it has no fraction. |
| LexProperties.NumberEndAt | src/main/java/com/rhythm/lox/Scanner.java:161-169 | Conversely, a number-shaped slice that nothing could extend is exactly where the number ends. |
| LexProperties.NumberEndFraction | src/main/java/com/rhythm/lox/Scanner.java:163-166 | Digits, one dot and digits, then no digit, make a number that ends there. |
| LexProperties.NumberEndFacts | src/main/java/com/rhythm/lox/Scanner.java:161-166 | A number's characters are digits up to an optional dot and digits, and no digit follows it. |
| LexProperties.WordRule | src/main/java/com/rhythm/lox/Scanner.java:185-191 | A word is the longest run of letters, digits and `_` after a letter. Its kind comes from the table, or is IDENTIFIER if and only if the word is not reserved. |
| LexProperties.IdentifierWordRule | src/main/java/com/rhythm/lox/Scanner.java:185-191 | The same, for the identifier rule on its own. |
| LexProperties.UnexpectedRule | src/main/java/com/rhythm/lox/Scanner.java:106-114 | "Unexpected character." is reported if and only if the character starts nothing. It is reported on the current line and the character is skipped. |
| LexProperties.ChainTail | src/main/java/com/rhythm/lox/Scanner.java:47-50 | Without its first turn, a chain of switch turns is the chain from where that turn ends. |
| LexProperties.ScanChain | src/main/java/com/rhythm/lox/Scanner.java:47-50 | A scan's tokens and reports are those of its turns, in order. |
| Pieces.PieceStep | src/main/java/com/rhythm/lox/Scanner.java:60-116 | One switch turn over a piece gives exactly that piece's token or report, end and line: a piece that is good and not extended by what follows. |
| Pieces.PiecesChain | src/main/java/com/rhythm/lox/Scanner.java:47-50 | A text of well-formed pieces is scanned piece by piece. |
| Pieces.EndLine | src/main/java/com/rhythm/lox/Scanner.java:52 | The EOF token's line is 1 plus the line breaks of the input. |
| Pieces.ScanText | src/main/java/com/rhythm/lox/Scanner.java:45-54 | Round trip: the text of well-formed pieces scans to exactly their tokens, then EOF on its last line, and exactly their reports. |
| Scanning.Scanner.constructor | src/main/java/com/rhythm/lox/Scanner.java:35-43 | A new scanner is at the start of its source, on line 1, with no tokens and no reports. |
| Scanning.Scanner.ScanTokens | src/main/java/com/rhythm/lox/Scanner.java:45-54 | The loop adds the tokens and reports of the scan from the cursor, then one EOF token on the final line. It ends at the end of the source. The result is the token list. |
| Scanning.Scanner.Advance | src/main/java/com/rhythm/lox/Scanner.java:118-120 | Returns the character under the cursor and moves one past it. |
| Scanning.Scanner.AddToken | src/main/java/com/rhythm/lox/Scanner.java:122-128 | Appends one token whose lexeme is the text from `start` to `current`, on the current line. |
| Scanning.Scanner.ReportError | src/main/java/com/rhythm/lox/Utils/LoxError.java:9-11 | Appends the (line, message) pair to the reports. |
| Scanning.Scanner.Match | src/main/java/com/rhythm/lox/Scanner.java:130-135 | Consumes the next character if and only if there is one and it is the expected one. |
| Scanning.Scanner.Peek | src/main/java/com/rhythm/lox/Scanner.java:137-140 | The character under the cursor, or NUL at the end. |
| Scanning.Scanner.PeekNext | src/main/java/com/rhythm/lox/Scanner.java:171-174 | The character after it, or NUL when there is none. |
| Scanning.Scanner.ScanToken | src/main/java/com/rhythm/lox/Scanner.java:60-116 | One call moves the cursor, the line, the tokens and the reports exactly as `Step` says. |
| Scanning.Scanner.Slash | src/main/java/com/rhythm/lox/Scanner.java:85-93 | The `/` case, comments included, does exactly what `SlashStep` says. |
| Scanning.Scanner.String | src/main/java/com/rhythm/lox/Scanner.java:142-155 | Does exactly what `StringLiteral` says, to the cursor, line, tokens and reports. |
| Scanning.Scanner.Number | src/main/java/com/rhythm/lox/Scanner.java:161-169 | Ends at `NumberEnd` and appends one NUMBER token of the consumed text, changing nothing else. |
| Scanning.Scanner.Identifier | src/main/java/com/rhythm/lox/Scanner.java:185-191 | Ends where `IdentifierWord` ends and appends its token. |
| Scanning.Scanner.MultiLineComment | src/main/java/com/rhythm/lox/Scanner.java:192-201 | Does exactly what `BlockComment` says: cursor, line and at most one report. |
| Scanning.Lex | src/main/java/com/rhythm/lox/Lox.java:59-61 | A fresh scanner over a source yields the tokens and reports of `Scan(source)`. |
| ScannerExamples.SingleTokensTest | src/test/java/com/rhythm/lox/ScannerTest.java:12-33 | `(){},.-+;*!<>/` scans to the fourteen one-character kinds in order, then EOF, with no report. |
| ScannerExamples.SingleRun | src/main/java/com/rhythm/lox/Scanner.java:63-93 | A text of characters that nothing after them extends scans character by character. |
| ScannerExamples.MultiCharOperatorsTest | src/test/java/com/rhythm/lox/ScannerTest.java:36-46 | `<=>===!==` scans to LESS_EQUAL, GREATER_EQUAL, EQUAL_EQUAL, BANG_EQUAL, EQUAL, EOF, with no report. |
| ScannerExamples.OperatorRun | src/main/java/com/rhythm/lox/Scanner.java:73-84 | Any text of operator characters scans to its maximal-munch kinds. |
| ScannerExamples.QuietText | src/test/java/com/rhythm/lox/ScannerTest.java:49-79 | White space and closed comments, over any number of lines, scan to EOF alone with no report. |
| ScannerExamples.UnclosedText | src/test/java/com/rhythm/lox/ScannerTest.java:82-116 | An unclosed comment or string on its own scans to EOF alone, with one report of its message on the line where the input ends. |
| ScannerExamples.StringAloneText | src/test/java/com/rhythm/lox/ScannerTest.java:95-102 | A string literal on its own is one STRING token whose literal is the text between the quotes, then EOF, with no report. |
| ScannerExamples.NumberText | src/main/java/com/rhythm/lox/Scanner.java:161-169 | A text of number shape is one NUMBER token, with the whole text as literal, then EOF. |
| ScannerExamples.NumberThenDotText | src/main/java/com/rhythm/lox/Scanner.java:162-164 | Digits and a trailing dot are a NUMBER token of the digits, then a DOT token, then EOF. |
| ScannerExamples.NumberTest | src/test/java/com/rhythm/lox/ScannerTest.java:119-126 | `123` is one NUMBER token whose literal is `123`. |
| ScannerExamples.FractionTest | src/test/java/com/rhythm/lox/ScannerTest.java:129-136 | `123.23` is one NUMBER token whose literal is `123.23`. |
| ScannerExamples.TrailingDotTest | src/test/java/com/rhythm/lox/ScannerTest.java:138-146 | `123.` is NUMBER then DOT. |
| ScannerExamples.WordsText | src/main/java/com/rhythm/lox/Scanner.java:185-191 | Identifier-shaped words joined by spaces scan to one token per word, each of the word's kind with the word as lexeme, then EOF. |
| ScannerExamples.WordTokensAt | src/main/java/com/rhythm/lox/Scanner.java:185-191 | The i-th word token is the i-th word with its kind. |
| ScannerExamples.KeywordsTest | src/test/java/com/rhythm/lox/ScannerTest.java:149-171 | The sixteen reserved words joined by spaces scan to their sixteen kinds in order, then EOF. |
| ScannerExamples.ReturnIdentifierTest | src/test/java/com/rhythm/lox/ScannerTest.java:174-182 | `return x` scans to RETURN, IDENTIFIER, EOF. |
| ScannerExamples.ReturnIdentifierInput | src/test/java/com/rhythm/lox/ScannerTest.java:176 | The words `return` and `x` joined by a space are the test's input. |
| AsWritten.StringAsWritten | src/main/java/com/rhythm/lox/Scanner.java:142-155 | The Java string branch. It throws if and only if the quotes are adjacent. When it yields a token, it stops before the end of input, on the closing quote. |
| AsWritten.StringLeavesQuote | src/main/java/com/rhythm/lox/Scanner.java:142-155 | For every closed non-empty string, the Java branch stops one character before the rule, on the closing quote. Its literal is one character shorter. |
| AsWritten.StringCounterexample | src/main/java/com/rhythm/lox/Scanner.java:153-154 | On `"hi"` the Java branch gives the lexeme `"hi` and the literal `h`; the rule gives `"hi"` and `hi`. |
| AsWritten.EmptyStringCounterexample | src/main/java/com/rhythm/lox/Scanner.java:153 | On `""` the Java branch throws; the rule gives an empty literal. |
| AsWritten.CommentAsWritten | src/main/java/com/rhythm/lox/Scanner.java:192-201 | The Java comment loop. It ends just after a `*`, before a `/`, or with the unterminated report where the next character reads as NUL. |
| AsWritten.CommentCounterexample | src/main/java/com/rhythm/lox/Scanner.java:193 | On `/* a */` the Java loop stops before the final `/`, which then scans as SLASH; the rule consumes the whole comment. |
| AsWritten.OtherAsWritten | src/main/java/com/rhythm/lox/Scanner.java:106-114 | The Java default case yields a token if and only if the character is a letter or a digit. |
| AsWritten.OtherReportsTokens | src/main/java/com/rhythm/lox/Scanner.java:106-114 | For every number and identifier, the Java default case also reports "Unexpected character."; the rule never does. |

## Left out

- The driver's file and console input/output, the token printing, and the parser after the scanner (Lox.java) are not modelled. `Scanning.Lex` is the driver's call of the scanner.
- The reporter's output format and its error flag (LoxError.java) are not modelled. A report is the (line, message) pair it receives.
- The scanner calls `Lox.error`, which Lox.java does not declare. The model takes `LoxError.error` as the reporter.
- A NUMBER token's literal is the text of its lexeme (`NumLit`) rather than the `double` from `Double.parseDouble`, because floating point is not modelled.
- The source is a sequence of `char`. File bytes and the platform charset are not modelled.
- A Java `char` is a UTF-16 code unit, while a Dafny `char` is a Unicode scalar value. A character outside the Basic Multilingual Plane is two units in Java and draws two "Unexpected character." reports there (Scanner.java:113). In the model it is one character with one report.
- A NUL character inside a comment ends the Java comment loop as if it were the end of input. Only `AsWritten.CommentAsWritten` models that. The comment rule of the model tests for the end of input itself.
- ScannerExamples.QuietText, ScannerExamples.UnclosedText, ScannerExamples.StringAloneText: the comment, unterminated-input and string tests are stated for every text of the shape the tests use. These are texts built of white-space and comment pieces, and one unclosed or one closed piece. They are not stated for the literal test strings.
- ScannerExamples.UnclosedText: the unterminated-input examples cover texts that are a single unclosed piece.
- ScannerExamples.KeywordsTest: the input is the sixteen reserved words joined by single spaces, in the test's order. The literal string is not restated.
- ScannerExamples.SingleTokensTest, ScannerExamples.MultiCharOperatorsTest, ScannerExamples.NumberTest, ScannerExamples.FractionTest, ScannerExamples.TrailingDotTest: each input is given character by character.
- ScannerExamples.NumberTest, ScannerExamples.FractionTest: the test's `123.0` and `123.23` literal values are stated as the literal texts `123` and `123.23`, because parsing is left out.
- The unit test scaffolding (stream redirection and assertion calls) is not modelled.

## Findings

| source | as written | input that shows it | evidently intended | confidence | as-written member | corrected member |
|---|---|---|---|---|---|---|
| src/main/java/com/rhythm/lox/Scanner.java:142-155 | `string()` stops on the closing quote without consuming it. The lexeme lacks the quote, the literal loses its last character, and the quote left behind opens a new string. | `"hi"` | Consume the closing quote: lexeme `"hi"`, literal `hi` | not executed | AsWritten.StringCounterexample | LexProperties.StringRule |
| src/main/java/com/rhythm/lox/Scanner.java:153 | The literal is taken from `start + 1` to `current - 1`. For an empty string the end is before the start, so the call throws. | `""` | An empty literal | not executed | AsWritten.EmptyStringCounterexample | LexProperties.StringRule |
| src/main/java/com/rhythm/lox/Scanner.java:192-201 | The comment loop ends at the first `*` it consumes, or before any `/`, so the closing `/` becomes a SLASH token. | `/* a */` | The comment runs through its first `*/` and leaves nothing behind | not executed | AsWritten.CommentCounterexample | LexProperties.BlockCommentRule |
| src/main/java/com/rhythm/lox/Scanner.java:106-114 | The report "Unexpected character." follows the number and identifier branches instead of an `else`, so every number and identifier draws it. | `1` | Report only a character that no rule accepts | not executed | AsWritten.OtherReportsTokens | LexProperties.UnexpectedRule |
