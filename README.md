# Lox front end and evaluator: a Dafny model

This project models the core of the `crafting-interpreters` repository: the Kotlin `klox` interpreter and its C# sibling `lox.net`, both implementations of the Lox language.

The model covers the following.

- The four scanners, which turn source text into tokens:
  - the current Kotlin scanner;
  - the older Kotlin scanner, which has no identifier rule;
  - the C# scanner, which keeps comments as `LINE_COMMENT` tokens;
  - the first C# scanner, which knows only punctuation and operators.
- The recursive-descent parser, which turns tokens into syntax trees and recovers at statement boundaries after a parse error.
- The resolver, which works out how many scopes out each local variable is declared.
- The expression evaluator of the interpreter: unary and binary operators, truthiness, and `stringify`.
- The runtime: the variable environment, functions, classes and instances.
- The token value semantics of both languages: equality, hash code and `toString`.
- The error reporter, and the Lisp-style printer of expressions.

The model follows the source's own shape. Each piece of code that changes state in place is a class holding the source's fields, with `modifies` clauses on its methods and `reads` clauses on its functions:

- `Scanner`;
- `Parser`;
- `Resolver`;
- `ErrorReporter`;
- `Environment`.

Two classes differ from the source where the code they call is not part of this model. `Resolving.Resolver` keeps a `resolutions` log of the `interpreter.resolve` calls instead of an interpreter. `Runtime.LoxFunction.Call` and `Runtime.LoxClass.Call` take the outcome of the body as a parameter instead of an interpreter that would run it.

Each such method is proved to compute a pure specification function of the state it starts in:

| Class | Specification |
|---|---|
| the scanner classes | `LexSpec.ScanStep`, `LexSpec.ScanFrom` and `LexSpec.Scan` |
| `Parsing.Parser` | `ParserSpec` |
| `Resolving.Resolver` | `ResolverSpec` |

The lemmas then state what the source promises about those functions:

- tokens are ordered slices of the source;
- EOF comes last;
- line counts are right;
- operator precedence and left associativity hold;
- `for` loops desugar into `while` loops;
- error recovery stops at the first statement boundary;
- the 255-parameter limit only reports;
- resolution depths are exact;
- runtime errors carry the operator and the right message;
- printed trees are balanced.

The pure parts of the source are functions and lemmas: the interpreter's visitors, the token semantics and the printer's visitors. The printer's `paranthesize` is a `StringBuilder` loop, so it is a method proved equal to the function the visitors use.

The host platform supplies some operations, and the model takes them as parameters (`Numbers.NumberOps`):

- double arithmetic and comparison;
- `String.toDouble` and `Double.toString`;
- the enum hash codes, and .NET's randomised string hash.

A double is the value of its canonical IEEE-754 bit pattern. Kotlin's `==` on boxed doubles is therefore equality of those values.

Modules, file by file:

| Module | File | Contents |
|---|---|---|
| `Wrappers` | wrappers.dfy | Option and Result |
| `TokenTypes` | token_types.dfy | token kinds, tokens, 32-bit wrap-around |
| `Numbers` | numbers.dfy | host doubles |
| `Errors` | error_reporter.dfy | the error reporter |
| `LexSpec` | lex_spec.dfy | the scanners' specification |
| `KloxScanner` | klox_scanner.dfy | the current Kotlin scanner |
| `OldKloxScanner` | old_klox_scanner.dfy | the older Kotlin scanner |
| `NetScanner` | net_scanner.dfy | the C# scanner |
| `FirstNetScanner` | first_net_scanner.dfy | the first C# scanner |
| `KloxToken` | klox_token.dfy | Kotlin token semantics |
| `NetToken` | net_token.dfy | C# token semantics |
| `Ast` | ast.dfy | syntax trees |
| `ParserSpec` | parser_spec.dfy | the parser's specification |
| `Parsing` | parser.dfy | the parser class |
| `ParserProperties` | parser_properties.dfy | parser properties |
| `ResolverSpec` | resolver_spec.dfy | the resolver's specification |
| `Resolving` | resolver.dfy | the resolver class |
| `ResolverProperties` | resolver_properties.dfy | resolver properties |
| `Runtime` | runtime.dfy | environment, functions, classes, instances |
| `Interpreter` | interpreter.dfy | the expression evaluator |
| `AstPrinter` | ast_printer.dfy | the printer |

## Model

| member | source | states |
|---|---|---|
| TokenTypes.EofToken | kotlin/klox/src/main/kotlin/eu/grigoriu/craftinginterpreters/klox/Scanner.kt:40 | the end token has kind EOF, an empty lexeme, no literal and the given line |
| Errors.LineError | kotlin/klox/src/main/kotlin/eu/grigoriu/craftinginterpreters/klox/ErrorReporter.kt:6-8 | `error(line, message)` reports that line and message with an empty location |
| Errors.Where | kotlin/klox/src/main/kotlin/eu/grigoriu/craftinginterpreters/klox/ErrorReporter.kt:10-16 | the location is " at end" for an EOF token, and " at '<lexeme>'" otherwise |
| Errors.TokenError | kotlin/klox/src/main/kotlin/eu/grigoriu/craftinginterpreters/klox/ErrorReporter.kt:10-16 | `error(token, message)` reports the token's line, the message and the token's location |
| Errors.WhereAtEndOnlyForEof | kotlin/klox/src/main/kotlin/eu/grigoriu/craftinginterpreters/klox/ErrorReporter.kt:11-15 | the location is " at end" exactly when the token is EOF, whatever the lexeme |
| Errors.TokenErrorHasLocation | kotlin/klox/src/main/kotlin/eu/grigoriu/craftinginterpreters/klox/ErrorReporter.kt:6-16 | a token error is never the same report as a line error |
| Errors.ErrorReporter.constructor | kotlin/klox/src/main/kotlin/eu/grigoriu/craftinginterpreters/klox/ErrorReporter.kt:4 | a new reporter has no error and no report |
| Errors.ErrorReporter.Report | kotlin/klox/src/main/kotlin/eu/grigoriu/craftinginterpreters/klox/ErrorReporter.kt:18-21 | appends exactly one report and sets `hadError` |
| Errors.ErrorReporter.ErrorAtLine | kotlin/klox/src/main/kotlin/eu/grigoriu/craftinginterpreters/klox/ErrorReporter.kt:6-8 | appends the line error and sets `hadError` |
| Errors.ErrorReporter.ErrorAtToken | kotlin/klox/src/main/kotlin/eu/grigoriu/craftinginterpreters/klox/ErrorReporter.kt:10-16 | appends the token error and sets `hadError` |
| Errors.ErrorReporter.Reset | kotlin/klox/src/main/kotlin/eu/grigoriu/craftinginterpreters/klox/ErrorReporter.kt:25-27 | clears `hadError` and keeps every report |
| LexSpec.KeywordsAgreeWithSpelling | kotlin/klox/src/main/kotlin/eu/grigoriu/craftinginterpreters/klox/Scanner.kt:7-26 | the keyword map sends each reserved word to the keyword kind spelt that way, and every keyword kind's spelling is in the map (both directions) |
| LexSpec.IsDigit | kotlin/klox/src/main/kotlin/eu/grigoriu/craftinginterpreters/klox/Scanner.kt:176-178 | `0` to `9`; NumberRule and IdentifierRule use it |
| LexSpec.IsAlpha | kotlin/klox/src/main/kotlin/eu/grigoriu/craftinginterpreters/klox/Scanner.kt:180-182 | ASCII letters and `_` |
| LexSpec.IsAlphaNumeric | kotlin/klox/src/main/kotlin/eu/grigoriu/craftinginterpreters/klox/Scanner.kt:184-186 | a letter, `_` or a digit |
| LexSpec.SkipWhile | kotlin/klox/src/main/kotlin/eu/grigoriu/craftinginterpreters/klox/Scanner.kt:91-93 | the loop stops at the first index whose character fails the test, or at the end, and every character it passed satisfies the test |
| LexSpec.NumberEnd | kotlin/klox/src/main/kotlin/eu/grigoriu/craftinginterpreters/klox/Scanner.kt:188-204 | a number's end lies after its first digit and within the source |
| LexSpec.SingleCharSpelling | kotlin/klox/src/main/kotlin/eu/grigoriu/craftinginterpreters/klox/Scanner.kt:46-75 | exactly the ten one-character punctuation marks have a kind of their own, and each kind is spelt by its character |
| LexSpec.OperatorStep | kotlin/klox/src/main/kotlin/eu/grigoriu/craftinginterpreters/klox/Scanner.kt:76-87 | the operator step; OperatorStepOk and OperatorRule state it |
| LexSpec.CommentStep | kotlin/klox/src/main/kotlin/eu/grigoriu/craftinginterpreters/klox/Scanner.kt:88-94 | the comment step; CommentStepOk, CommentSkipped and CommentToken state it |
| LexSpec.StringStep | kotlin/klox/src/main/kotlin/eu/grigoriu/craftinginterpreters/klox/Scanner.kt:154-174 | the string step; StringStepOk, StringStepOutcome, StringRule and UnterminatedString state it |
| LexSpec.NumberStep | kotlin/klox/src/main/kotlin/eu/grigoriu/craftinginterpreters/klox/Scanner.kt:188-204 | the number step; NumberStepOk and NumberRule state it |
| LexSpec.IdentifierStep | kotlin/klox/src/main/kotlin/eu/grigoriu/craftinginterpreters/klox/Scanner.kt:206-215 | the identifier step; IdentifierRule states it |
| LexSpec.ScanStep | kotlin/klox/src/main/kotlin/eu/grigoriu/craftinginterpreters/klox/Scanner.kt:44-116 | one `scanToken` call always moves the cursor forward, and stays within the source |
| LexSpec.ScanFromStep | kotlin/klox/src/main/kotlin/eu/grigoriu/craftinginterpreters/klox/Scanner.kt:34-38 | the loop invariant's step: a loop turn adds the step's token and error to what is already done, then goes on from where the step ended |
| LexSpec.ScanFrom | kotlin/klox/src/main/kotlin/eu/grigoriu/craftinginterpreters/klox/Scanner.kt:34-38 | the scanning loop; ScanFromSlices, ScanFromLines and ScanFromShapes state it |
| LexSpec.Scan | kotlin/klox/src/main/kotlin/eu/grigoriu/craftinginterpreters/klox/Scanner.kt:34-42 | `scanTokens` from a fresh scanner; ScanEndsWithEof, LexemesAreOrderedSlices, TokensWellFormed and EofLineCountsNewlines state it |
| LexSpec.ScanErrors | kotlin/klox/src/main/kotlin/eu/grigoriu/craftinginterpreters/klox/Scanner.kt:34-42 | the errors a fresh scanner reports; ScanEmpty, UnterminatedString and UnexpectedReported describe them |
| LexSpec.CommentStepOk | kotlin/klox/src/main/kotlin/eu/grigoriu/craftinginterpreters/klox/Scanner.kt:88-94 | for `//`, the comment step keeps the step contract (it moves forward; the line grows by the line breaks consumed; a token is the consumed slice, shaped for its kind); it stops at the line break or the end, passes no line break, reports nothing, and emits a token exactly in the C# scanner |
| LexSpec.StringStepOk | kotlin/klox/src/main/kotlin/eu/grigoriu/craftinginterpreters/klox/Scanner.kt:154-174 | for a quote, the string step keeps the step contract: it moves forward, the line grows by the line breaks in the string, and a token is the consumed slice, a STRING whose literal is the text between the quotes |
| LexSpec.StringStepOutcome | kotlin/klox/src/main/kotlin/eu/grigoriu/craftinginterpreters/klox/Scanner.kt:154-174 | a string emits a STRING token exactly when a closing quote exists; otherwise it reaches the end and reports "Unterminated string." on the line it reached |
| LexSpec.NumberRule | kotlin/klox/src/main/kotlin/eu/grigoriu/craftinginterpreters/klox/Scanner.kt:188-204 | a number lexeme is digits with at most one `.`, and is followed by a non-digit or the end; when it has no `.`, no `.` followed by a digit comes after it |
| LexSpec.NumberStepOk | kotlin/klox/src/main/kotlin/Scanner.kt:155-171 | in the Kotlin scanners, a digit's step keeps the step contract: the NUMBER token is the consumed slice, a number lexeme, with its text as literal, on the line the step ends on |
| LexSpec.IdentifierRule | kotlin/klox/src/main/kotlin/eu/grigoriu/craftinginterpreters/klox/Scanner.kt:206-215 | an identifier step keeps the step contract and emits a token with no error; the lexeme is the longest run of letters, digits and `_`; its kind is the keyword map's entry for it, else IDENTIFIER |
| LexSpec.SingleStepFacts | kotlin/klox/src/main/kotlin/eu/grigoriu/craftinginterpreters/klox/Scanner.kt:46-75 | for each single-character punctuation mark, the step keeps the step contract in every scanner |
| LexSpec.OperatorStepOk | kotlin/klox/src/main/kotlin/eu/grigoriu/craftinginterpreters/klox/Scanner.kt:76-87 | an operator step that picks between a one- and a two-character kind keeps the step contract |
| LexSpec.OperatorStepFacts | kotlin/klox/src/main/kotlin/eu/grigoriu/craftinginterpreters/klox/Scanner.kt:76-87 | for `!`, `=`, `<` and `>`, the step keeps the step contract in every scanner |
| LexSpec.SlashStepFacts | kotlin/klox/src/main/kotlin/eu/grigoriu/craftinginterpreters/klox/Scanner.kt:88-97 | for `/`, the step keeps the step contract in every scanner |
| LexSpec.OtherStepFacts | kotlin/klox/src/main/kotlin/eu/grigoriu/craftinginterpreters/klox/Scanner.kt:99-114 | for whitespace, line breaks, quotes, digits, letters and any other character, the step keeps the step contract in every scanner |
| LexSpec.StepFacts | kotlin/klox/src/main/kotlin/eu/grigoriu/craftinginterpreters/klox/Scanner.kt:44-116 | every `scanToken` step, in every scanner, moves forward within the source; adds the line breaks it consumed to the line (none in the first C# scanner); and emits a token only as the consumed slice, on the step's final line, shaped as its kind calls for |
| LexSpec.StepLines | kotlin/klox/src/main/kotlin/eu/grigoriu/craftinginterpreters/klox/Scanner.kt:100-102 | a step's new line is the old one plus the line breaks in its lexeme; the first C# scanner never changes the line |
| LexSpec.StepSlice | kotlin/klox/src/main/kotlin/eu/grigoriu/craftinginterpreters/klox/Scanner.kt:122-125 | a step's token lexeme is exactly the source slice the step consumed |
| LexSpec.ScanFromSlices | kotlin/klox/src/main/kotlin/eu/grigoriu/craftinginterpreters/klox/Scanner.kt:34-38 | the loop's tokens match its spans one to one; each lexeme is its span's slice, and the spans are ordered and disjoint |
| LexSpec.ScanFromLines | kotlin/klox/src/main/kotlin/eu/grigoriu/craftinginterpreters/klox/Scanner.kt:34-38 | the loop ends on its start line plus the line breaks it passed, and never moves in the first C# scanner |
| LexSpec.ScanFromShapes | kotlin/klox/src/main/kotlin/eu/grigoriu/craftinginterpreters/klox/Scanner.kt:34-38 | every token of the loop is well formed, and none is EOF |
| LexSpec.FirstLoxNetLines | csharp/lox.net/Scanner.cs:22-37 | the first C# scanner puts every token on the starting line |
| LexSpec.ScanEndsWithEof | kotlin/klox/src/main/kotlin/eu/grigoriu/craftinginterpreters/klox/Scanner.kt:34-42 | the output is never empty; it ends with an EOF token with an empty lexeme and no literal, and no earlier token is EOF |
| LexSpec.ScanEmpty | kotlin/klox/src/main/kotlin/eu/grigoriu/craftinginterpreters/klox/Scanner.kt:34-42 | empty input gives EOF on line 1 and no error |
| LexSpec.EofLineCountsNewlines | kotlin/klox/src/main/kotlin/eu/grigoriu/craftinginterpreters/klox/Scanner.kt:40 | EOF sits on line 1 plus the number of line breaks in the source |
| LexSpec.FirstLoxNetOnLineOne | csharp/lox.net/Scanner.cs:36 | in the first C# scanner every token, EOF included, is on line 1 |
| LexSpec.LexemesAreOrderedSlices | kotlin/klox/src/main/kotlin/eu/grigoriu/craftinginterpreters/klox/Scanner.kt:122-125 | every lexeme before EOF is a source slice; the slices are in source order and do not overlap |
| LexSpec.TokensWellFormed | kotlin/klox/src/main/kotlin/eu/grigoriu/craftinginterpreters/klox/Scanner.kt:44-116 | every token before EOF has the shape its kind calls for in that scanner |
| LexSpec.OperatorRule | kotlin/klox/src/main/kotlin/eu/grigoriu/craftinginterpreters/klox/Scanner.kt:76-87 | `!`, `=`, `<` and `>` take a following `=` into a two-character token, and otherwise stand alone |
| LexSpec.SlashRule | kotlin/klox/src/main/kotlin/eu/grigoriu/craftinginterpreters/klox/Scanner.kt:88-97 | a `/` that does not start `//` is SLASH; in the first C# scanner every `/` is |
| LexSpec.CommentSkipped | kotlin/klox/src/main/kotlin/eu/grigoriu/craftinginterpreters/klox/Scanner.kt:88-94 | the Kotlin scanners skip a comment up to (not past) its line break, emitting and reporting nothing |
| LexSpec.CommentToken | lox.net/Scanner.cs:65-75 | the C# scanner turns `//` and the rest of the line, without its break, into a LINE_COMMENT token |
| LexSpec.StringRule | kotlin/klox/src/main/kotlin/eu/grigoriu/craftinginterpreters/klox/Scanner.kt:154-174 | `string()` on a string whose closing quote exists emits a STRING token whose lexeme is a quoted run without inner quotes and whose literal is that lexeme without its quotes, and the line moves by the line breaks consumed |
| LexSpec.StringDispatch | kotlin/klox/src/main/kotlin/eu/grigoriu/craftinginterpreters/klox/Scanner.kt:103-105 | a quote starts a string in every scanner except the first C# one |
| LexSpec.UnterminatedString | kotlin/klox/src/main/kotlin/eu/grigoriu/craftinginterpreters/klox/Scanner.kt:163-166 | an unclosed string runs to the end, emits nothing, and reports "Unterminated string." on the line it reached |
| LexSpec.WhitespaceIgnored | kotlin/klox/src/main/kotlin/eu/grigoriu/craftinginterpreters/klox/Scanner.kt:99-102 | blanks emit nothing, and a line break only moves to the next line |
| LexSpec.UnexpectedReported | kotlin/klox/src/main/kotlin/eu/grigoriu/craftinginterpreters/klox/Scanner.kt:111-113 | any other character is reported on the current line with that scanner's message, emits nothing, and scanning moves on by one character (a Unicode scalar value, see Left out) |
| LexSpec.OldKloxRejectsLetters | kotlin/klox/src/main/kotlin/Scanner.kt:83-88 | the older Kotlin scanner reports a letter as "Unexpected character: <c>" |
| LexSpec.NetRejectsDigitsAndLetters | lox.net/Scanner.cs:104-108 | the C# scanners report letters and digits as "Unexpected character." |
| LexSpec.KloxScansEmptyString | kotlin/klox/src/test/kotlin/eu/grigoriu/craftinginterpreters/klox/ScannerTest.kt:8-14 | the empty source scans to EOF alone on line 1 |
| LexSpec.NetScansSingleOperator | lox.net/lox.net.Tests/ScannerTests.cs:19-31 | `*` scans to STAR and EOF on line 1 |
| LexSpec.NetScansLineComment | lox.net/lox.net.Tests/ScannerTests.cs:34-48 | `() // this is a comment` scans to two parentheses, the comment and EOF |
| LexSpec.CommentAfterParens | lox.net/Scanner.cs:65-75 | the same holds for any comment text without a line break |
| LexSpec.NetStringsAreMultiline | lox.net/lox.net.Tests/ScannerTests.cs:51-63 | a four-line string is one STRING token, with the text between the quotes as literal; it and EOF are on line 4 |
| LexSpec.QuotedStringScan | lox.net/Scanner.cs:112-136 | a source made of a quote, text without quotes and a closing quote scans to one STRING token holding that text, then EOF, both on line 1 plus the text's line breaks |
| LexSpec.SingleCharRule | lox.net/Scanner.cs:47-81 | a punctuation character is a token of its own on the current line |
| KloxScanner.Scanner.constructor | kotlin/klox/src/main/kotlin/eu/grigoriu/craftinginterpreters/klox/Scanner.kt:3-32 | a new scanner has no tokens, its cursor at 0 and line 1 |
| KloxScanner.Scanner.ScanTokens | kotlin/klox/src/main/kotlin/eu/grigoriu/craftinginterpreters/klox/Scanner.kt:34-42 | the tokens are the old ones, then ScanFrom's tokens from the cursor, then EOF on the final line; ScanFrom's errors are appended to the reports, and `hadError` is set exactly when there are any |
| KloxScanner.Scanner.ScanToken | kotlin/klox/src/main/kotlin/eu/grigoriu/craftinginterpreters/klox/Scanner.kt:44-116 | one step moves the cursor, the line, the tokens and the reports exactly as ScanStep says |
| KloxScanner.Scanner.Comment | kotlin/klox/src/main/kotlin/eu/grigoriu/craftinginterpreters/klox/Scanner.kt:89-93 | the cursor stops at the next line break or the end; nothing else changes |
| KloxScanner.Scanner.Advance | kotlin/klox/src/main/kotlin/eu/grigoriu/craftinginterpreters/klox/Scanner.kt:118-120 | returns the character at the cursor and moves the cursor by one |
| KloxScanner.Scanner.AddToken | kotlin/klox/src/main/kotlin/eu/grigoriu/craftinginterpreters/klox/Scanner.kt:122-125 | appends one token: the slice from `start` to the cursor, on the current line |
| KloxScanner.Scanner.Match | kotlin/klox/src/main/kotlin/eu/grigoriu/craftinginterpreters/klox/Scanner.kt:127-137 | consumes the next character exactly when it is the expected one |
| KloxScanner.Scanner.Peek | kotlin/klox/src/main/kotlin/eu/grigoriu/craftinginterpreters/klox/Scanner.kt:139-141 | the character at the cursor, or NUL at the end |
| KloxScanner.Scanner.PeekNext | kotlin/klox/src/main/kotlin/eu/grigoriu/craftinginterpreters/klox/Scanner.kt:143-148 | the character after the cursor, or NUL past the end |
| KloxScanner.Scanner.IsAtEnd | kotlin/klox/src/main/kotlin/eu/grigoriu/craftinginterpreters/klox/Scanner.kt:150-152 | the cursor has reached the end of the source |
| KloxScanner.Scanner.String | kotlin/klox/src/main/kotlin/eu/grigoriu/craftinginterpreters/klox/Scanner.kt:154-174 | moves the cursor, the line, the tokens and the reports as StringStep says |
| KloxScanner.Scanner.SkipString | kotlin/klox/src/main/kotlin/eu/grigoriu/craftinginterpreters/klox/Scanner.kt:155-161 | stops at the closing quote or the end and counts the line breaks it passed |
| KloxScanner.Scanner.Number | kotlin/klox/src/main/kotlin/eu/grigoriu/craftinginterpreters/klox/Scanner.kt:188-204 | stops where NumberEnd says and appends a NUMBER token whose literal is its text |
| KloxScanner.Scanner.Digits | kotlin/klox/src/main/kotlin/eu/grigoriu/craftinginterpreters/klox/Scanner.kt:189-191 | skips the run of digits at the cursor |
| KloxScanner.Scanner.Identifier | kotlin/klox/src/main/kotlin/eu/grigoriu/craftinginterpreters/klox/Scanner.kt:206-215 | consumes the longest run of letters, digits and `_`, and appends a keyword or IDENTIFIER token |
| KloxScanner.ScanSource | kotlin/klox/src/main/kotlin/eu/grigoriu/craftinginterpreters/klox/Scanner.kt:34-42 | a fresh scanner returns exactly `Scan(Klox, source)` and appends exactly `ScanErrors(Klox, source)` to the reports |
| OldKloxScanner.Scanner.constructor | kotlin/klox/src/main/kotlin/Scanner.kt:1-9 | a new scanner has no tokens, its cursor at 0 and line 1 |
| OldKloxScanner.Scanner.ScanTokens | kotlin/klox/src/main/kotlin/Scanner.kt:11-19 | the tokens are ScanFrom's from the cursor (older dialect), then EOF on the final line; ScanFrom's errors are appended to the reports, and `hadError` is set exactly when there are any |
| OldKloxScanner.Scanner.ScanToken | kotlin/klox/src/main/kotlin/Scanner.kt:21-91 | one step as ScanStep says for the older dialect |
| OldKloxScanner.Scanner.Comment | kotlin/klox/src/main/kotlin/Scanner.kt:66-70 | the cursor stops at the next line break or the end |
| OldKloxScanner.Scanner.Advance | kotlin/klox/src/main/kotlin/Scanner.kt:93-95 | returns the character at the cursor and moves the cursor by one |
| OldKloxScanner.Scanner.AddToken | kotlin/klox/src/main/kotlin/Scanner.kt:97-100 | appends the slice from `start` to the cursor, on the current line |
| OldKloxScanner.Scanner.Match | kotlin/klox/src/main/kotlin/Scanner.kt:102-112 | consumes the next character exactly when it is the expected one |
| OldKloxScanner.Scanner.Peek | kotlin/klox/src/main/kotlin/Scanner.kt:114-116 | the character at the cursor, or NUL at the end |
| OldKloxScanner.Scanner.PeekNext | kotlin/klox/src/main/kotlin/Scanner.kt:118-123 | the character after the cursor, or NUL past the end |
| OldKloxScanner.Scanner.IsAtEnd | kotlin/klox/src/main/kotlin/Scanner.kt:125-127 | the cursor has reached the end of the source |
| OldKloxScanner.Scanner.String | kotlin/klox/src/main/kotlin/Scanner.kt:129-149 | as StringStep says |
| OldKloxScanner.Scanner.SkipString | kotlin/klox/src/main/kotlin/Scanner.kt:130-136 | stops at the closing quote or the end and counts the line breaks it passed |
| OldKloxScanner.Scanner.Number | kotlin/klox/src/main/kotlin/Scanner.kt:155-171 | stops where NumberEnd says and appends a NUMBER token |
| OldKloxScanner.Scanner.Digits | kotlin/klox/src/main/kotlin/Scanner.kt:156-158 | skips the run of digits at the cursor |
| OldKloxScanner.ScanSource | kotlin/klox/src/main/kotlin/Scanner.kt:11-19 | a fresh scanner returns exactly `Scan(OldKlox, source)` and appends exactly `ScanErrors(OldKlox, source)` to the reports |
| NetScanner.Scanner.constructor | lox.net/Scanner.cs:17-20 | a new scanner has its cursor at 0 and line 1 |
| NetScanner.Scanner.ScanTokens | lox.net/Scanner.cs:22-37 | the yielded tokens are ScanFrom's from the cursor, then EOF on the final line; ScanFrom's errors are appended to the reports |
| NetScanner.Scanner.ScanToken | lox.net/Scanner.cs:42-110 | one step as ScanStep says for the C# dialect; the returned token is the step's |
| NetScanner.Scanner.Comment | lox.net/Scanner.cs:69-72 | the cursor stops at the next line break or the end |
| NetScanner.Scanner.String | lox.net/Scanner.cs:112-136 | as StringStep says |
| NetScanner.Scanner.SkipString | lox.net/Scanner.cs:114-122 | stops at the closing quote or the end and counts the line breaks it passed |
| NetScanner.Scanner.Advance | lox.net/Scanner.cs:138-142 | returns the character at the cursor and moves the cursor by one |
| NetScanner.Scanner.CreateToken | lox.net/Scanner.cs:144-153 | the token has the kind and literal given, the current line, and the slice from `start` to the cursor |
| NetScanner.Scanner.Match | lox.net/Scanner.cs:155-169 | consumes the next character exactly when it is the expected one |
| NetScanner.Scanner.Peek | lox.net/Scanner.cs:171-179 | the character at the cursor, or NUL at the end |
| NetScanner.Scanner.IsAtEnd | lox.net/Scanner.cs:39-40 | the cursor has reached the end of the source |
| NetScanner.ScanSource | lox.net/Scanner.cs:22-37 | a fresh scanner yields exactly `Scan(LoxNet, source)` and appends exactly `ScanErrors(LoxNet, source)` to the reports |
| FirstNetScanner.Scanner.constructor | csharp/lox.net/Scanner.cs:17-20 | a new scanner has its cursor at 0 and line 1 |
| FirstNetScanner.Scanner.ScanTokens | csharp/lox.net/Scanner.cs:22-37 | the yielded tokens are ScanFrom's from the cursor, then EOF; ScanFrom's errors are appended to the reports |
| FirstNetScanner.Scanner.ScanToken | csharp/lox.net/Scanner.cs:42-84 | one step as ScanStep says for the first C# dialect |
| FirstNetScanner.Scanner.Advance | csharp/lox.net/Scanner.cs:86-90 | returns the character at the cursor and moves the cursor by one |
| FirstNetScanner.Scanner.CreateToken | csharp/lox.net/Scanner.cs:92-101 | the token has the kind and literal given, the current line, and the slice from `start` to the cursor |
| FirstNetScanner.Scanner.Match | csharp/lox.net/Scanner.cs:103-117 | consumes the next character exactly when it is the expected one |
| FirstNetScanner.Scanner.IsAtEnd | csharp/lox.net/Scanner.cs:39-40 | the cursor has reached the end of the source |
| FirstNetScanner.ScanSource | csharp/lox.net/Scanner.cs:22-37 | a fresh scanner yields exactly `Scan(FirstLoxNet, source)` and appends exactly `ScanErrors(FirstLoxNet, source)` to the reports |
| KloxToken.Equals | kotlin/klox/src/main/kotlin/eu/grigoriu/craftinginterpreters/klox/Token.kt:14-25 | equal exactly when the other object is a token with the same kind, lexeme and (by value) literal; null and other classes are unequal |
| KloxToken.LiteralEquals | kotlin/klox/src/main/kotlin/eu/grigoriu/craftinginterpreters/klox/Token.kt:22 | `==` on the literals: none equals none, strings by content, numbers as parsed doubles; NumberLiteralsCompareByValue and EqualsIsEquivalence state it |
| KloxToken.LiteralText | kotlin/klox/src/main/kotlin/eu/grigoriu/craftinginterpreters/klox/Token.kt:11 | the literal in a string template: `null`, the string, or the host `Double.toString`; ToString uses it |
| KloxToken.CodeUnits | kotlin/klox/src/main/kotlin/eu/grigoriu/craftinginterpreters/klox/Token.kt:29 | a character up to U+FFFF is one code unit, itself; any other is a high surrogate then a low surrogate, from which the character is recovered |
| KloxToken.Utf16 | kotlin/klox/src/main/kotlin/eu/grigoriu/craftinginterpreters/klox/Token.kt:29 | a string has at least as many code units as characters |
| KloxToken.UnitsHashIsPolynomial | kotlin/klox/src/main/kotlin/eu/grigoriu/craftinginterpreters/klox/Token.kt:29 | the 32-bit `31 * h + unit` fold equals the unbounded polynomial modulo 2^32 |
| KloxToken.Utf16OfPlaneZero | kotlin/klox/src/main/kotlin/eu/grigoriu/craftinginterpreters/klox/Token.kt:29 | a string with no character above U+FFFF has one code unit per character, its code |
| KloxToken.SurrogatePairHash | kotlin/klox/src/main/kotlin/eu/grigoriu/craftinginterpreters/klox/Token.kt:29 | U+1F600 is the two units D83D and DE00, and hashes as `31*0xD83D + 0xDE00` |
| KloxToken.StringHash | kotlin/klox/src/main/kotlin/eu/grigoriu/craftinginterpreters/klox/Token.kt:29 | Java's `String.hashCode`; its meaning is stated by StringHashIsPolynomial and SurrogatePairHash |
| KloxToken.UnitsHash | kotlin/klox/src/main/kotlin/eu/grigoriu/craftinginterpreters/klox/Token.kt:29 | the 32-bit hash loop; UnitsHashIsPolynomial states it |
| KloxToken.HashPolynomial | kotlin/klox/src/main/kotlin/eu/grigoriu/craftinginterpreters/klox/Token.kt:29 | the unbounded reference definition the hash lemmas compare against |
| KloxToken.LiteralHash | kotlin/klox/src/main/kotlin/eu/grigoriu/craftinginterpreters/klox/Token.kt:30 | `literal?.hashCode() ?: 0`: no literal hashes as 0, a string by StringHash, a number by DoubleHash; EqualTokensHashAlike relies on it |
| Numbers.DoubleHash | kotlin/klox/src/main/kotlin/eu/grigoriu/craftinginterpreters/klox/Token.kt:30 | Kotlin's `Double.hashCode`, the two halves of the bit pattern exclusive-or'ed; NumberLiteralsCompareByValue and EqualTokensHashAlike use it |
| KloxToken.StringHashIsPolynomial | kotlin/klox/src/main/kotlin/eu/grigoriu/craftinginterpreters/klox/Token.kt:29 | the 32-bit hash of a string equals, modulo 2^32, the unbounded hash polynomial of its UTF-16 code units |
| KloxToken.HashCode | kotlin/klox/src/main/kotlin/eu/grigoriu/craftinginterpreters/klox/Token.kt:27-32 | the hash is `961*type + 31*lexeme + literal` modulo 2^32, where the lexeme's hash runs over its UTF-16 code units (StringHashIsPolynomial) |
| KloxToken.ToString | kotlin/klox/src/main/kotlin/eu/grigoriu/craftinginterpreters/klox/Token.kt:10-12 | the text is the kind's name, a space, the lexeme, a space, then the literal's text (`null` when there is none) |
| KloxToken.EqualsIsEquivalence | kotlin/klox/src/main/kotlin/eu/grigoriu/craftinginterpreters/klox/Token.kt:14-25 | equality is reflexive, symmetric and transitive |
| KloxToken.LineIsIgnored | kotlin/klox/src/main/kotlin/eu/grigoriu/craftinginterpreters/klox/Token.kt:3-9 | tokens that differ only in their line are equal and hash alike |
| KloxToken.EqualTokensHashAlike | kotlin/klox/src/main/kotlin/eu/grigoriu/craftinginterpreters/klox/Token.kt:27-32 | equal tokens have equal hash codes, whatever the enum's hash |
| KloxToken.NumberLiteralsCompareByValue | kotlin/klox/src/main/kotlin/eu/grigoriu/craftinginterpreters/klox/Token.kt:22 | number literals compare as parsed doubles, not as text |
| NetToken.Equals | lox.net/lox.net/Token.cs:22-26 | equal exactly when the other object is a token with the same type and lexeme; literal and line are ignored |
| NetToken.GetHashCode | lox.net/lox.net/Token.cs:28 | the hash is `type*31 + lexeme` modulo 2^32 |
| NetToken.ToString | lox.net/lox.net/Token.cs:30-33 | the type, the lexeme and the literal, separated by spaces; a null literal prints as nothing |
| NetToken.EqualsIsEquivalence | lox.net/lox.net/Token.cs:22-26 | equality is an equivalence on tokens, and false for null and other classes |
| NetToken.LiteralAndLineIgnored | lox.net/lox.net/Token.cs:22-26 | tokens that differ only in literal and line are equal |
| NetToken.EqualTokensHashAlike | lox.net/lox.net/Token.cs:22-28 | equal tokens have equal hash codes, whatever the host hashes |
| NetToken.MultilineStringTestPasses | lox.net/lox.net.Tests/ScannerTests.cs:51-63 | the test's expected tokens, on line 1, equal the scanned ones one for one under `Equals`, though the token values differ: they are on line 4 |
| Ast.FromTokenLiteral | kotlin/klox/src/main/kotlin/eu/grigoriu/craftinginterpreters/klox/Parser.kt:332-334 | a token's literal becomes a string or number literal value; no literal becomes nil, and never a boolean |
| ParserSpec.Advance | kotlin/klox/src/main/kotlin/eu/grigoriu/craftinginterpreters/klox/Parser.kt:418-424 | one token forward, except at EOF where the cursor stays; reports are unchanged |
| ParserSpec.Report | kotlin/klox/src/main/kotlin/eu/grigoriu/craftinginterpreters/klox/Parser.kt:359-362 | one token error more, and `hadError`; the cursor stays |
| ParserSpec.Consume | kotlin/klox/src/main/kotlin/eu/grigoriu/craftinginterpreters/klox/Parser.kt:351-357 | it succeeds exactly when the next token has the kind; then it returns that token and moves by one, and otherwise it reports the message at that token |
| ParserSpec.Lift | kotlin/klox/src/main/kotlin/eu/grigoriu/craftinginterpreters/klox/Parser.kt:117-123 | a rule's result, wrapped as present, with the same state |
| ParserSpec.Build | kotlin/klox/src/main/kotlin/eu/grigoriu/craftinginterpreters/klox/Parser.kt:379-397 | `or`/`and` build Logical nodes and the other levels Binary nodes, with the given operands and operator |
| ParserSpec.Expression | kotlin/klox/src/main/kotlin/eu/grigoriu/craftinginterpreters/klox/Parser.kt:219-221 | moves only forward, only appends reports, has reported before it throws, and consumes at least one token when it succeeds |
| ParserSpec.Assignment | kotlin/klox/src/main/kotlin/eu/grigoriu/craftinginterpreters/klox/Parser.kt:224-242 | moves only forward, only appends reports, has reported before it throws, and consumes at least one token when it succeeds; what it builds is stated by AssignToRewrites, AssignmentOfVariable and ChainedAssignmentNestsRight |
| ParserSpec.AssignTo | kotlin/klox/src/main/kotlin/eu/grigoriu/craftinginterpreters/klox/Parser.kt:227-239 | the same, for the part after `=`; AssignToRewrites states the node it builds |
| ParserSpec.LeftAssoc | kotlin/klox/src/main/kotlin/eu/grigoriu/craftinginterpreters/klox/Parser.kt:383-397 | moves only forward, only appends reports, has reported before it throws, and consumes at least one token when it succeeds |
| ParserSpec.LeftAssocLoop | kotlin/klox/src/main/kotlin/eu/grigoriu/craftinginterpreters/klox/Parser.kt:390-394 | moves only forward, only appends reports, and has reported before it throws |
| ParserSpec.Operand | kotlin/klox/src/main/kotlin/eu/grigoriu/craftinginterpreters/klox/Parser.kt:245-272 | moves only forward, only appends reports, has reported before it throws, and consumes at least one token when it succeeds |
| ParserSpec.Unary | kotlin/klox/src/main/kotlin/eu/grigoriu/craftinginterpreters/klox/Parser.kt:275-283 | moves only forward, only appends reports, has reported before it throws, and consumes at least one token when it succeeds |
| ParserSpec.Call | kotlin/klox/src/main/kotlin/eu/grigoriu/craftinginterpreters/klox/Parser.kt:286-301 | moves only forward, only appends reports, has reported before it throws, and consumes at least one token when it succeeds; CallWrapsPrimary states that the result wraps the primary |
| ParserSpec.CallLoop | kotlin/klox/src/main/kotlin/eu/grigoriu/craftinginterpreters/klox/Parser.kt:289-298 | moves only forward, only appends reports, and has reported before it throws |
| ParserSpec.FinishCall | kotlin/klox/src/main/kotlin/eu/grigoriu/craftinginterpreters/klox/Parser.kt:304-318 | moves only forward, only appends reports, has reported before it throws, and consumes at least one token when it succeeds |
| ParserSpec.Arguments | kotlin/klox/src/main/kotlin/eu/grigoriu/craftinginterpreters/klox/Parser.kt:306-313 | moves only forward, only appends reports, has reported before it throws, and consumes at least one token when it succeeds |
| ParserSpec.Primary | kotlin/klox/src/main/kotlin/eu/grigoriu/craftinginterpreters/klox/Parser.kt:321-349 | moves only forward, only appends reports, has reported before it throws, and consumes at least one token when it succeeds |
| ParserSpec.ExpressionStatement | kotlin/klox/src/main/kotlin/eu/grigoriu/craftinginterpreters/klox/Parser.kt:212-216 | moves only forward, only appends reports, has reported before it throws, and consumes at least one token when it succeeds |
| ParserSpec.PrintStatement | kotlin/klox/src/main/kotlin/eu/grigoriu/craftinginterpreters/klox/Parser.kt:170-174 | moves only forward, only appends reports, has reported before it throws, and consumes at least one token when it succeeds |
| ParserSpec.ReturnStatement | kotlin/klox/src/main/kotlin/eu/grigoriu/craftinginterpreters/klox/Parser.kt:177-187 | moves only forward, only appends reports, has reported before it throws, and consumes at least one token when it succeeds |
| ParserSpec.WhileStatement | kotlin/klox/src/main/kotlin/eu/grigoriu/craftinginterpreters/klox/Parser.kt:190-197 | moves only forward, only appends reports, has reported before it throws, and consumes at least one token when it succeeds |
| ParserSpec.IfStatement | kotlin/klox/src/main/kotlin/eu/grigoriu/craftinginterpreters/klox/Parser.kt:155-167 | moves only forward, only appends reports, has reported before it throws, and consumes at least one token when it succeeds |
| ParserSpec.IfBranches | kotlin/klox/src/main/kotlin/eu/grigoriu/craftinginterpreters/klox/Parser.kt:160-166 | moves only forward, only appends reports, has reported before it throws, and consumes at least one token when it succeeds |
| ParserSpec.ForInitializer | kotlin/klox/src/main/kotlin/eu/grigoriu/craftinginterpreters/klox/Parser.kt:117-123 | moves only forward, only appends reports, has reported before it throws, and consumes at least one token when it succeeds |
| ParserSpec.ForStatement | kotlin/klox/src/main/kotlin/eu/grigoriu/craftinginterpreters/klox/Parser.kt:114-152 | moves only forward, only appends reports, has reported before it throws, and consumes at least one token when it succeeds |
| ParserSpec.ForCondition | kotlin/klox/src/main/kotlin/eu/grigoriu/craftinginterpreters/klox/Parser.kt:125-130 | moves only forward, only appends reports, has reported before it throws, and consumes at least one token when it succeeds |
| ParserSpec.ConditionClause | kotlin/klox/src/main/kotlin/eu/grigoriu/craftinginterpreters/klox/Parser.kt:125-129 | moves only forward, only appends reports, and has reported before it throws |
| ParserSpec.ForIncrement | kotlin/klox/src/main/kotlin/eu/grigoriu/craftinginterpreters/klox/Parser.kt:132-151 | moves only forward, only appends reports, has reported before it throws, and consumes at least one token when it succeeds |
| ParserSpec.IncrementClause | kotlin/klox/src/main/kotlin/eu/grigoriu/craftinginterpreters/klox/Parser.kt:132-136 | moves only forward, only appends reports, and has reported before it throws |
| ParserSpec.Block | kotlin/klox/src/main/kotlin/eu/grigoriu/craftinginterpreters/klox/Parser.kt:200-209 | moves only forward, only appends reports, has reported before it throws, and consumes at least one token when it succeeds |
| ParserSpec.BlockLoop | kotlin/klox/src/main/kotlin/eu/grigoriu/craftinginterpreters/klox/Parser.kt:203-208 | moves only forward, only appends reports, has reported before it throws, and consumes at least one token when it succeeds |
| ParserSpec.Statement | kotlin/klox/src/main/kotlin/eu/grigoriu/craftinginterpreters/klox/Parser.kt:93-109 | moves only forward, only appends reports, has reported before it throws, and consumes at least one token when it succeeds |
| ParserSpec.VarDeclaration | kotlin/klox/src/main/kotlin/eu/grigoriu/craftinginterpreters/klox/Parser.kt:80-90 | moves only forward, only appends reports, has reported before it throws, and consumes at least one token when it succeeds |
| ParserSpec.FunctionDeclaration | kotlin/klox/src/main/kotlin/eu/grigoriu/craftinginterpreters/klox/Parser.kt:58-61 | moves only forward, only appends reports, has reported before it throws, and consumes at least one token when it succeeds |
| ParserSpec.FunctionParameters | kotlin/klox/src/main/kotlin/eu/grigoriu/craftinginterpreters/klox/Parser.kt:62-72 | moves only forward, only appends reports, has reported before it throws, and consumes at least one token when it succeeds |
| ParserSpec.FunctionBody | kotlin/klox/src/main/kotlin/eu/grigoriu/craftinginterpreters/klox/Parser.kt:74-76 | moves only forward, only appends reports, has reported before it throws, and consumes at least one token when it succeeds |
| ParserSpec.Parameters | kotlin/klox/src/main/kotlin/eu/grigoriu/craftinginterpreters/klox/Parser.kt:64-70 | moves only forward, has reported before it throws, consumes at least one token, and on success extends the list by at least one parameter |
| ParserSpec.ClassDeclaration | kotlin/klox/src/main/kotlin/eu/grigoriu/craftinginterpreters/klox/Parser.kt:41-53 | moves only forward, only appends reports, has reported before it throws, and consumes at least one token when it succeeds |
| ParserSpec.Methods | kotlin/klox/src/main/kotlin/eu/grigoriu/craftinginterpreters/klox/Parser.kt:45-48 | moves only forward, only appends reports, and has reported before it throws |
| ParserSpec.DeclarationBody | kotlin/klox/src/main/kotlin/eu/grigoriu/craftinginterpreters/klox/Parser.kt:22-34 | moves only forward, only appends reports, has reported before it throws, and consumes at least one token when it succeeds |
| ParserSpec.Declaration | kotlin/klox/src/main/kotlin/eu/grigoriu/craftinginterpreters/klox/Parser.kt:21-39 | never throws; off EOF it always moves forward; a dropped declaration (`null`) always comes with a new report |
| ParserSpec.Synchronize | kotlin/klox/src/main/kotlin/eu/grigoriu/craftinginterpreters/klox/Parser.kt:364-377 | moves past the offending token unless at EOF, and reports nothing |
| ParserSpec.SyncLoop | kotlin/klox/src/main/kotlin/eu/grigoriu/craftinginterpreters/klox/Parser.kt:367-376 | never moves backwards and reports nothing |
| ParserSpec.ParseLoop | kotlin/klox/src/main/kotlin/eu/grigoriu/craftinginterpreters/klox/Parser.kt:9-11 | ends at EOF and only appends reports |
| ParserSpec.Parse | kotlin/klox/src/main/kotlin/eu/grigoriu/craftinginterpreters/klox/Parser.kt:7-14 | ends at EOF and only appends reports; `hadError` is never cleared |
| Parsing.Parser.constructor | kotlin/klox/src/main/kotlin/eu/grigoriu/craftinginterpreters/klox/Parser.kt:5-18 | a new parser's cursor is at 0, over a token list that ends with EOF |
| Parsing.Parser.Parse | kotlin/klox/src/main/kotlin/eu/grigoriu/craftinginterpreters/klox/Parser.kt:7-14 | computes ParserSpec.Parse from the state it starts in: the same statements, cursor and reports |
| Parsing.Parser.Declaration | kotlin/klox/src/main/kotlin/eu/grigoriu/craftinginterpreters/klox/Parser.kt:21-39 | computes ParserSpec.Declaration |
| Parsing.Parser.DeclarationBody | kotlin/klox/src/main/kotlin/eu/grigoriu/craftinginterpreters/klox/Parser.kt:22-34 | computes ParserSpec.DeclarationBody |
| Parsing.Parser.ClassDeclaration | kotlin/klox/src/main/kotlin/eu/grigoriu/craftinginterpreters/klox/Parser.kt:41-53 | computes ParserSpec.ClassDeclaration |
| Parsing.Parser.Methods | kotlin/klox/src/main/kotlin/eu/grigoriu/craftinginterpreters/klox/Parser.kt:45-48 | computes ParserSpec.Methods |
| Parsing.Parser.FunctionDeclaration | kotlin/klox/src/main/kotlin/eu/grigoriu/craftinginterpreters/klox/Parser.kt:58-61 | computes ParserSpec.FunctionDeclaration |
| Parsing.Parser.FunctionParameters | kotlin/klox/src/main/kotlin/eu/grigoriu/craftinginterpreters/klox/Parser.kt:62-72 | computes ParserSpec.FunctionParameters |
| Parsing.Parser.Parameters | kotlin/klox/src/main/kotlin/eu/grigoriu/craftinginterpreters/klox/Parser.kt:64-70 | computes ParserSpec.Parameters |
| Parsing.Parser.FunctionBody | kotlin/klox/src/main/kotlin/eu/grigoriu/craftinginterpreters/klox/Parser.kt:74-76 | computes ParserSpec.FunctionBody |
| Parsing.Parser.VarDeclaration | kotlin/klox/src/main/kotlin/eu/grigoriu/craftinginterpreters/klox/Parser.kt:80-90 | computes ParserSpec.VarDeclaration |
| Parsing.Parser.Statement | kotlin/klox/src/main/kotlin/eu/grigoriu/craftinginterpreters/klox/Parser.kt:93-109 | computes ParserSpec.Statement |
| Parsing.Parser.ForStatement | kotlin/klox/src/main/kotlin/eu/grigoriu/craftinginterpreters/klox/Parser.kt:114-152 | computes ParserSpec.ForStatement |
| Parsing.Parser.ForInitializer | kotlin/klox/src/main/kotlin/eu/grigoriu/craftinginterpreters/klox/Parser.kt:117-123 | computes ParserSpec.ForInitializer |
| Parsing.Parser.ForCondition | kotlin/klox/src/main/kotlin/eu/grigoriu/craftinginterpreters/klox/Parser.kt:125-130 | computes ParserSpec.ForCondition |
| Parsing.Parser.ConditionClause | kotlin/klox/src/main/kotlin/eu/grigoriu/craftinginterpreters/klox/Parser.kt:125-129 | computes ParserSpec.ConditionClause |
| Parsing.Parser.ForIncrement | kotlin/klox/src/main/kotlin/eu/grigoriu/craftinginterpreters/klox/Parser.kt:132-151 | computes ParserSpec.ForIncrement |
| Parsing.Parser.IncrementClause | kotlin/klox/src/main/kotlin/eu/grigoriu/craftinginterpreters/klox/Parser.kt:132-136 | computes ParserSpec.IncrementClause |
| Parsing.Parser.IfStatement | kotlin/klox/src/main/kotlin/eu/grigoriu/craftinginterpreters/klox/Parser.kt:155-167 | computes ParserSpec.IfStatement |
| Parsing.Parser.IfBranches | kotlin/klox/src/main/kotlin/eu/grigoriu/craftinginterpreters/klox/Parser.kt:160-166 | computes ParserSpec.IfBranches |
| Parsing.Parser.PrintStatement | kotlin/klox/src/main/kotlin/eu/grigoriu/craftinginterpreters/klox/Parser.kt:170-174 | computes ParserSpec.PrintStatement |
| Parsing.Parser.ReturnStatement | kotlin/klox/src/main/kotlin/eu/grigoriu/craftinginterpreters/klox/Parser.kt:177-187 | computes ParserSpec.ReturnStatement |
| Parsing.Parser.WhileStatement | kotlin/klox/src/main/kotlin/eu/grigoriu/craftinginterpreters/klox/Parser.kt:190-197 | computes ParserSpec.WhileStatement |
| Parsing.Parser.Block | kotlin/klox/src/main/kotlin/eu/grigoriu/craftinginterpreters/klox/Parser.kt:200-209 | computes ParserSpec.Block |
| Parsing.Parser.ExpressionStatement | kotlin/klox/src/main/kotlin/eu/grigoriu/craftinginterpreters/klox/Parser.kt:212-216 | computes ParserSpec.ExpressionStatement |
| Parsing.Parser.Expression | kotlin/klox/src/main/kotlin/eu/grigoriu/craftinginterpreters/klox/Parser.kt:219-221 | computes ParserSpec.Expression |
| Parsing.Parser.Assignment | kotlin/klox/src/main/kotlin/eu/grigoriu/craftinginterpreters/klox/Parser.kt:224-242 | computes ParserSpec.Assignment: a variable target becomes an assignment, a property access a set, and any other target is reported and kept (AssignToRewrites) |
| Parsing.Parser.AssignTo | kotlin/klox/src/main/kotlin/eu/grigoriu/craftinginterpreters/klox/Parser.kt:227-239 | computes ParserSpec.AssignTo, whose rewriting AssignToRewrites states |
| Parsing.Parser.Or | kotlin/klox/src/main/kotlin/eu/grigoriu/craftinginterpreters/klox/Parser.kt:245-247 | computes ParserSpec.LeftAssoc at the `or` level |
| Parsing.Parser.And | kotlin/klox/src/main/kotlin/eu/grigoriu/craftinginterpreters/klox/Parser.kt:250-252 | computes ParserSpec.LeftAssoc at the `and` level |
| Parsing.Parser.Equality | kotlin/klox/src/main/kotlin/eu/grigoriu/craftinginterpreters/klox/Parser.kt:255-257 | computes ParserSpec.LeftAssoc at the equality level |
| Parsing.Parser.Comparison | kotlin/klox/src/main/kotlin/eu/grigoriu/craftinginterpreters/klox/Parser.kt:260-262 | computes ParserSpec.LeftAssoc at the comparison level |
| Parsing.Parser.Term | kotlin/klox/src/main/kotlin/eu/grigoriu/craftinginterpreters/klox/Parser.kt:265-267 | computes ParserSpec.LeftAssoc at the term level |
| Parsing.Parser.Factor | kotlin/klox/src/main/kotlin/eu/grigoriu/craftinginterpreters/klox/Parser.kt:270-272 | computes ParserSpec.LeftAssoc at the factor level |
| Parsing.Parser.LeftAssocExpr | kotlin/klox/src/main/kotlin/eu/grigoriu/craftinginterpreters/klox/Parser.kt:379-397 | computes ParserSpec.LeftAssoc |
| Parsing.Parser.OperatorLoop | kotlin/klox/src/main/kotlin/eu/grigoriu/craftinginterpreters/klox/Parser.kt:390-394 | computes ParserSpec.LeftAssocLoop |
| Parsing.Parser.FoldOperator | kotlin/klox/src/main/kotlin/eu/grigoriu/craftinginterpreters/klox/Parser.kt:391-393 | one turn of the loop moves past the operator and its operand; on an error the loop ends in that error, otherwise it goes on from the new state with the operator folded into the left side |
| Parsing.Parser.Operand | kotlin/klox/src/main/kotlin/eu/grigoriu/craftinginterpreters/klox/Parser.kt:245-272 | computes ParserSpec.Operand |
| Parsing.Parser.Unary | kotlin/klox/src/main/kotlin/eu/grigoriu/craftinginterpreters/klox/Parser.kt:275-283 | computes ParserSpec.Unary |
| Parsing.Parser.Call | kotlin/klox/src/main/kotlin/eu/grigoriu/craftinginterpreters/klox/Parser.kt:286-301 | computes ParserSpec.Call: the primary wrapped in calls and property accesses (CallWrapsPrimary) |
| Parsing.Parser.FinishCall | kotlin/klox/src/main/kotlin/eu/grigoriu/craftinginterpreters/klox/Parser.kt:304-318 | computes ParserSpec.FinishCall |
| Parsing.Parser.Arguments | kotlin/klox/src/main/kotlin/eu/grigoriu/craftinginterpreters/klox/Parser.kt:306-313 | computes ParserSpec.Arguments |
| Parsing.Parser.Primary | kotlin/klox/src/main/kotlin/eu/grigoriu/craftinginterpreters/klox/Parser.kt:321-349 | computes ParserSpec.Primary |
| Parsing.Parser.Consume | kotlin/klox/src/main/kotlin/eu/grigoriu/craftinginterpreters/klox/Parser.kt:351-357 | computes ParserSpec.Consume |
| Parsing.Parser.Error | kotlin/klox/src/main/kotlin/eu/grigoriu/craftinginterpreters/klox/Parser.kt:359-362 | reports at the token and returns the ParseError; only the reporter changes |
| Parsing.Parser.Synchronize | kotlin/klox/src/main/kotlin/eu/grigoriu/craftinginterpreters/klox/Parser.kt:364-377 | computes ParserSpec.Synchronize |
| Parsing.Parser.Match | kotlin/klox/src/main/kotlin/eu/grigoriu/craftinginterpreters/klox/Parser.kt:399-408 | consumes the next token exactly when one of the kinds fits it |
| Parsing.Parser.Advance | kotlin/klox/src/main/kotlin/eu/grigoriu/craftinginterpreters/klox/Parser.kt:418-424 | computes ParserSpec.Advance and returns the token before the new cursor |
| Parsing.Parser.Check | kotlin/klox/src/main/kotlin/eu/grigoriu/craftinginterpreters/klox/Parser.kt:410-416 | computes ParserSpec.Check, which CheckFalseAtEnd shows is false at EOF, so never true for EOF itself |
| Parsing.Parser.IsAtEnd | kotlin/klox/src/main/kotlin/eu/grigoriu/craftinginterpreters/klox/Parser.kt:426-428 | computes ParserSpec.AtEnd: the token at the cursor is EOF |
| Parsing.Parser.Peek | kotlin/klox/src/main/kotlin/eu/grigoriu/craftinginterpreters/klox/Parser.kt:430-432 | the token at the cursor, which `Valid` keeps within the list |
| Parsing.Parser.Previous | kotlin/klox/src/main/kotlin/eu/grigoriu/craftinginterpreters/klox/Parser.kt:434-436 | the token just before the cursor |
| Parsing.ParseTokens | kotlin/klox/src/main/kotlin/eu/grigoriu/craftinginterpreters/klox/Parser.kt:5-14 | a fresh parser returns exactly the statements and reports of ParserSpec.Parse from position 0 |
| ParserProperties.OperatorPrecOfLevel | kotlin/klox/src/main/kotlin/eu/grigoriu/craftinginterpreters/klox/Parser.kt:245-272 | the levels' operator sets are disjoint: each operator has the precedence of the one level that matches it |
| ParserProperties.TighterIsNested | kotlin/klox/src/main/kotlin/eu/grigoriu/craftinginterpreters/klox/Parser.kt:383-397 | an expression binding tighter than a level is an expression of that level |
| ParserProperties.NestedBindsAtLeast | kotlin/klox/src/main/kotlin/eu/grigoriu/craftinginterpreters/klox/Parser.kt:383-397 | an expression of a level binds at least as tightly as the level |
| ParserProperties.Wraps | kotlin/klox/src/main/kotlin/eu/grigoriu/craftinginterpreters/klox/Parser.kt:289-298 | the relation the call loop builds: the expression itself, or a call or property access whose callee or object wraps it |
| ParserProperties.WrapsTransitive | kotlin/klox/src/main/kotlin/eu/grigoriu/craftinginterpreters/klox/Parser.kt:289-298 | wrapping a wrapper still wraps the original |
| ParserProperties.CallLoopWraps | kotlin/klox/src/main/kotlin/eu/grigoriu/craftinginterpreters/klox/Parser.kt:289-298 | the result wraps the expression the loop was given: that expression stays innermost under calls and property accesses |
| ParserProperties.CallWrapsPrimary | kotlin/klox/src/main/kotlin/eu/grigoriu/craftinginterpreters/klox/Parser.kt:286-301 | a successful `call` has parsed a primary, and its result wraps that primary |
| ParserProperties.FinishCallIsCall | kotlin/klox/src/main/kotlin/eu/grigoriu/craftinginterpreters/klox/Parser.kt:304-318 | a successful `finishCall` yields a call node whose callee is the expression it was given |
| ParserProperties.CheckFalseAtEnd | kotlin/klox/src/main/kotlin/eu/grigoriu/craftinginterpreters/klox/Parser.kt:410-416 | `check(kind)` holds exactly when the kind is not EOF and the next token has it: it is false at EOF whatever the kind |
| ParserProperties.AssignToRewrites | kotlin/klox/src/main/kotlin/eu/grigoriu/craftinginterpreters/klox/Parser.kt:227-239 | after `=`, the value is parsed first; an error there is the result; a variable target becomes an assignment of the name, a property access a set on its object; any other target is kept and "Invalid assignment target." is reported at the `=`, without throwing |
| ParserProperties.IdentifierAtLevel | kotlin/klox/src/main/kotlin/eu/grigoriu/craftinginterpreters/klox/Parser.kt:245-349 | an identifier followed by a token that ends an operand parses, at every level, as that variable alone, one token on |
| ParserProperties.IdentifierIsUnary | kotlin/klox/src/main/kotlin/eu/grigoriu/craftinginterpreters/klox/Parser.kt:275-283 | the same at the unary level |
| ParserProperties.IdentifierIsCall | kotlin/klox/src/main/kotlin/eu/grigoriu/craftinginterpreters/klox/Parser.kt:286-301 | the same at the call level |
| ParserProperties.AssignmentOfVariable | kotlin/klox/src/main/kotlin/eu/grigoriu/craftinginterpreters/klox/Parser.kt:224-242 | `name = value` is an assignment of the name exactly when the value parses, with the value's state |
| ParserProperties.VariableIsAssignment | kotlin/klox/src/main/kotlin/eu/grigoriu/craftinginterpreters/klox/Parser.kt:224-242 | a lone identifier before a token that ends an operand and is not `=` is a variable expression at the assignment level, one token on |
| ParserProperties.ChainedAssignmentNestsRight | kotlin/klox/src/main/kotlin/eu/grigoriu/craftinginterpreters/klox/Parser.kt:224-242 | `a = b = c` parses as `a = (b = c)`: assignment is right associative |
| ParserProperties.PrimaryIsAtom | kotlin/klox/src/main/kotlin/eu/grigoriu/craftinginterpreters/klox/Parser.kt:321-349 | a primary expression is a literal, `this`, a variable or a grouping |
| ParserProperties.UnaryBindsTightest | kotlin/klox/src/main/kotlin/eu/grigoriu/craftinginterpreters/klox/Parser.kt:275-283 | a unary expression has no binary or logical operator at its top |
| ParserProperties.OperandBindsTighter | kotlin/klox/src/main/kotlin/eu/grigoriu/craftinginterpreters/klox/Parser.kt:245-272 | each level's operand binds strictly tighter than the level |
| ParserProperties.LeftAssocNested | kotlin/klox/src/main/kotlin/eu/grigoriu/craftinginterpreters/klox/Parser.kt:383-397 | each level builds a left-nested chain of its own operators over tighter operands, which is left associativity with the right precedence |
| ParserProperties.OperatorLoopNested | kotlin/klox/src/main/kotlin/eu/grigoriu/craftinginterpreters/klox/Parser.kt:390-394 | the operator loop keeps a left-nested chain left nested |
| ParserProperties.Dropped | kotlin/klox/src/main/kotlin/eu/grigoriu/craftinginterpreters/klox/Parser.kt:35-38 | the count of dropped declarations is at most the count of all; it is zero exactly when none was dropped |
| ParserProperties.ParseLoopAccounts | kotlin/klox/src/main/kotlin/eu/grigoriu/craftinginterpreters/klox/Parser.kt:9-11 | the loop only appends; a dropped declaration costs at least one report, and each declaration at least one token |
| ParserProperties.ParseAccounts | kotlin/klox/src/main/kotlin/eu/grigoriu/craftinginterpreters/klox/Parser.kt:7-14 | `parse` drops no more declarations than it reports errors; if nothing was reported, nothing was dropped |
| ParserProperties.SyncLoopStopsFirst | kotlin/klox/src/main/kotlin/eu/grigoriu/craftinginterpreters/klox/Parser.kt:367-376 | the recovery loop stops at the first statement boundary: at EOF, after `;`, or before a declaration or statement keyword |
| ParserProperties.SynchronizeStopsFirst | kotlin/klox/src/main/kotlin/eu/grigoriu/craftinginterpreters/klox/Parser.kt:364-377 | `synchronize` skips the offending token, then stops at the first boundary after it, and reports nothing |
| ParserProperties.ForStatementDesugars | kotlin/klox/src/main/kotlin/eu/grigoriu/craftinginterpreters/klox/Parser.kt:139-151 | a `for` loop is always a `while`, or a block of its initializer and a `while` |
| ParserProperties.ForConditionDesugars | kotlin/klox/src/main/kotlin/eu/grigoriu/craftinginterpreters/klox/Parser.kt:139-151 | the result is a block exactly when there is an initializer |
| ParserProperties.ForIncrementDesugars | kotlin/klox/src/main/kotlin/eu/grigoriu/craftinginterpreters/klox/Parser.kt:141-151 | whatever the condition, the increment and body clauses make a desugared loop that is a block exactly when there is an initializer |
| ParserProperties.ForWithoutClauses | kotlin/klox/src/main/kotlin/eu/grigoriu/craftinginterpreters/klox/Parser.kt:114-152 | `for (;;) body` is exactly `while (true) body`, with the body's state |
| ParserProperties.EmptyInitializer | kotlin/klox/src/main/kotlin/eu/grigoriu/craftinginterpreters/klox/Parser.kt:114-122 | an empty initializer clause adds no statement: the condition clause follows `( ;` directly |
| ParserProperties.EmptyCondition | kotlin/klox/src/main/kotlin/eu/grigoriu/craftinginterpreters/klox/Parser.kt:125-130 | an empty condition clause is the literal `true` |
| ParserProperties.EmptyIncrement | kotlin/klox/src/main/kotlin/eu/grigoriu/craftinginterpreters/klox/Parser.kt:132-145 | an empty increment clause adds nothing around the body |
| ParserProperties.ParametersIgnoreLimit | kotlin/klox/src/main/kotlin/eu/grigoriu/craftinginterpreters/klox/Parser.kt:64-70 | the 255 limit only reports: where the list ends, whether it parses and which parameters it has do not depend on what came before |
| ParserProperties.ParametersStep | kotlin/klox/src/main/kotlin/eu/grigoriu/craftinginterpreters/klox/Parser.kt:64-70 | one loop turn consumes an identifier or throws without moving; after it, the loop goes on exactly when a comma follows, and otherwise returns the list with that identifier added |
| ParserProperties.ParametersOverLimitReported | kotlin/klox/src/main/kotlin/eu/grigoriu/craftinginterpreters/klox/Parser.kt:65-67 | a parameter list longer than 255 has reported "Can't have more than 255 parameters." |
| ParserProperties.ArgumentsOverLimitReported | kotlin/klox/src/main/kotlin/eu/grigoriu/craftinginterpreters/klox/Parser.kt:308-310 | an argument list longer than 255 has reported "Can't have more than 255 arguments." |
| ResolverSpec.BeginScope | kotlin/klox/src/main/kotlin/eu/grigoriu/craftinginterpreters/klox/Resolver.kt:36-38 | pushes one empty scope and changes nothing else |
| ResolverSpec.EndScope | kotlin/klox/src/main/kotlin/eu/grigoriu/craftinginterpreters/klox/Resolver.kt:40-42 | pops the innermost scope and changes nothing else |
| ResolverSpec.Declare | kotlin/klox/src/main/kotlin/eu/grigoriu/craftinginterpreters/klox/Resolver.kt:58-64 | at top level nothing changes; otherwise the innermost scope marks the name as not ready, and the outer scopes are kept |
| ResolverSpec.Define | kotlin/klox/src/main/kotlin/eu/grigoriu/craftinginterpreters/klox/Resolver.kt:66-72 | at top level nothing changes; otherwise the innermost scope marks the name as ready |
| ResolverSpec.DistancesFromSound | kotlin/klox/src/main/kotlin/eu/grigoriu/craftinginterpreters/klox/Resolver.kt:74-80 | every recorded distance names a scope that holds the name |
| ResolverSpec.DistancesFromComplete | kotlin/klox/src/main/kotlin/eu/grigoriu/craftinginterpreters/klox/Resolver.kt:74-80 | every scope that holds the name gives a recorded distance |
| ResolverSpec.DistancesFromIncreasing | kotlin/klox/src/main/kotlin/eu/grigoriu/craftinginterpreters/klox/Resolver.kt:75 | the distances come innermost first, strictly increasing |
| ResolverSpec.DistancesExact | kotlin/klox/src/main/kotlin/eu/grigoriu/craftinginterpreters/klox/Resolver.kt:74-80 | the distances are exactly those of the scopes holding the name, in increasing order; there are none exactly when no scope holds it |
| ResolverSpec.ResolveLocal | kotlin/klox/src/main/kotlin/eu/grigoriu/craftinginterpreters/klox/Resolver.kt:74-80 | the scopes, reports and error flag are kept; the resolutions grow by one record of the expression per scope holding the name, innermost first; ResolveLocalRecords states which scopes those are |
| ResolverSpec.CheckOwnInitializer | kotlin/klox/src/main/kotlin/eu/grigoriu/craftinginterpreters/klox/Resolver.kt:24-26 | reports "Can't read local variable in its own initializer." exactly when the innermost scope has the name declared but not ready; otherwise nothing changes |
| ResolverSpec.ResolveExpr | kotlin/klox/src/main/kotlin/eu/grigoriu/craftinginterpreters/klox/Resolver.kt:23-34 | the scopes are unchanged; resolutions and reports only grow; `hadError` is never cleared; the order of an assignment's resolutions is stated by AssignResolvesValueFirst |
| ResolverSpec.ResolveInitializer | kotlin/klox/src/main/kotlin/eu/grigoriu/craftinginterpreters/klox/Resolver.kt:17-19 | the same for an optional initializer |
| ResolverSpec.ResolveStmt | kotlin/klox/src/main/kotlin/eu/grigoriu/craftinginterpreters/klox/Resolver.kt:9-21 | the stack keeps its depth and its outer scopes; a block leaves the scopes exactly as it found them |
| ResolverSpec.ResolveStatements | kotlin/klox/src/main/kotlin/eu/grigoriu/craftinginterpreters/klox/Resolver.kt:44-48 | the stack keeps its depth and its outer scopes; resolutions and reports only grow |
| Resolving.Resolver.constructor | kotlin/klox/src/main/kotlin/eu/grigoriu/craftinginterpreters/klox/Resolver.kt:5-7 | a new resolver has no scope and no resolution |
| Resolving.Resolver.VisitBlockStmt | kotlin/klox/src/main/kotlin/eu/grigoriu/craftinginterpreters/klox/Resolver.kt:9-13 | computes ResolverSpec.ResolveStmt for a block |
| Resolving.Resolver.VisitVarStmt | kotlin/klox/src/main/kotlin/eu/grigoriu/craftinginterpreters/klox/Resolver.kt:15-21 | computes ResolverSpec.ResolveStmt for a `var` statement |
| Resolving.Resolver.VisitVariableExpr | kotlin/klox/src/main/kotlin/eu/grigoriu/craftinginterpreters/klox/Resolver.kt:23-29 | computes ResolverSpec.ResolveExpr for a variable |
| Resolving.Resolver.VisitAssignExpr | kotlin/klox/src/main/kotlin/eu/grigoriu/craftinginterpreters/klox/Resolver.kt:31-34 | computes ResolverSpec.ResolveExpr for an assignment |
| Resolving.Resolver.BeginScope | kotlin/klox/src/main/kotlin/eu/grigoriu/craftinginterpreters/klox/Resolver.kt:36-38 | computes ResolverSpec.BeginScope |
| Resolving.Resolver.EndScope | kotlin/klox/src/main/kotlin/eu/grigoriu/craftinginterpreters/klox/Resolver.kt:40-42 | computes ResolverSpec.EndScope |
| Resolving.Resolver.ResolveStatements | kotlin/klox/src/main/kotlin/eu/grigoriu/craftinginterpreters/klox/Resolver.kt:44-48 | computes ResolverSpec.ResolveStatements, skipping null statements |
| Resolving.Resolver.ResolveStmt | kotlin/klox/src/main/kotlin/eu/grigoriu/craftinginterpreters/klox/Resolver.kt:50-52 | computes ResolverSpec.ResolveStmt |
| Resolving.Resolver.ResolveExpr | kotlin/klox/src/main/kotlin/eu/grigoriu/craftinginterpreters/klox/Resolver.kt:54-56 | computes ResolverSpec.ResolveExpr |
| Resolving.Resolver.Declare | kotlin/klox/src/main/kotlin/eu/grigoriu/craftinginterpreters/klox/Resolver.kt:58-64 | computes ResolverSpec.Declare |
| Resolving.Resolver.Define | kotlin/klox/src/main/kotlin/eu/grigoriu/craftinginterpreters/klox/Resolver.kt:66-72 | computes ResolverSpec.Define |
| Resolving.Resolver.ResolveLocal | kotlin/klox/src/main/kotlin/eu/grigoriu/craftinginterpreters/klox/Resolver.kt:74-80 | computes ResolverSpec.ResolveLocal |
| ResolverProperties.ResolveLocalRecords | kotlin/klox/src/main/kotlin/eu/grigoriu/craftinginterpreters/klox/Resolver.kt:74-80 | every added resolution is for the expression; a depth is added exactly when that scope holds the name; depths increase; nothing is added exactly when no scope holds the name |
| ResolverProperties.InnermostFirst | kotlin/klox/src/main/kotlin/eu/grigoriu/craftinginterpreters/klox/Resolver.kt:74-80 | a name in the innermost scope is first resolved at depth 0 |
| ResolverProperties.ResolvesWithin | kotlin/klox/src/main/kotlin/eu/grigoriu/craftinginterpreters/klox/Resolver.kt:23-34 | resolving an expression records resolutions only of that expression and of expressions inside it |
| ResolverProperties.AssignResolvesValueFirst | kotlin/klox/src/main/kotlin/eu/grigoriu/craftinginterpreters/klox/Resolver.kt:31-34 | an assignment first resolves its value, then records its own distances after the value's; it reports only what the value reports and keeps the scopes |
| ResolverProperties.TopLevelExprUnchanged | kotlin/klox/src/main/kotlin/eu/grigoriu/craftinginterpreters/klox/Resolver.kt:23-34 | with no scope open, resolving an expression changes nothing |
| ResolverProperties.TopLevelVarUnchanged | kotlin/klox/src/main/kotlin/eu/grigoriu/craftinginterpreters/klox/Resolver.kt:15-21 | with no scope open, a `var` statement changes nothing |
| ResolverProperties.VarDeclaresThenDefines | kotlin/klox/src/main/kotlin/eu/grigoriu/craftinginterpreters/klox/Resolver.kt:15-21 | during the initializer the name is declared but not ready; afterwards it is ready, and the outer scopes are untouched |
| ResolverProperties.SelfInitializerReported | kotlin/klox/src/main/kotlin/eu/grigoriu/craftinginterpreters/klox/Resolver.kt:15-29 | `var a = a;` in a scope reports the self-read at the reference and resolves it at depth 0 |
| ResolverProperties.ExprReportsSelfReadsOnly | kotlin/klox/src/main/kotlin/eu/grigoriu/craftinginterpreters/klox/Resolver.kt:23-34 | the only error an expression can report is the self-read one |
| ResolverProperties.StmtReportsSelfReadsOnly | kotlin/klox/src/main/kotlin/eu/grigoriu/craftinginterpreters/klox/Resolver.kt:9-21 | the same for a statement |
| ResolverProperties.StatementsReportSelfReadsOnly | kotlin/klox/src/main/kotlin/eu/grigoriu/craftinginterpreters/klox/Resolver.kt:44-48 | the same for a statement list |
| ResolverProperties.NullStatementsSkipped | kotlin/klox/src/main/kotlin/eu/grigoriu/craftinginterpreters/klox/Resolver.kt:45 | a list of null statements changes nothing |
| Runtime.Lookup | kotlin/klox/src/main/kotlin/eu/grigoriu/craftinginterpreters/klox/Environment.kt:10-16 | succeeds exactly when the name is bound, with its value; otherwise the error is at the name, with "Undefined variable '<name>'." |
| Runtime.LookupAfterDefine | kotlin/klox/src/main/kotlin/eu/grigoriu/craftinginterpreters/klox/Environment.kt:6-16 | after defining a name, looking it up gives the new value, and looking up any other name is unaffected |
| Runtime.OwnBinding | kotlin/klox/src/main/kotlin/eu/grigoriu/craftinginterpreters/klox/LoxFunction.kt:20-28 | `getAt(0, name)` read as the environment's own binding; LoxFunction.Call and LoxClass.Call state their results with it |
| Runtime.Bindings | kotlin/klox/src/main/kotlin/eu/grigoriu/craftinginterpreters/klox/LoxFunction.kt:13-15 | the parameter bindings; BindingsBindExactlyParameters and BindingsBindLastArgument state them |
| Runtime.BoundCount | kotlin/klox/src/main/kotlin/eu/grigoriu/craftinginterpreters/klox/LoxFunction.kt:13-14 | how many parameters `call` binds: all of them, or as many as there are arguments when there are fewer |
| Runtime.Environment.constructor | kotlin/klox/src/main/kotlin/eu/grigoriu/craftinginterpreters/klox/Environment.kt:3-4 | a new environment binds nothing and has no enclosing one |
| Runtime.Environment.Inside | kotlin/klox/src/main/kotlin/eu/grigoriu/craftinginterpreters/klox/LoxFunction.kt:12 | an environment created inside another binds nothing and encloses in it |
| Runtime.Environment.Define | kotlin/klox/src/main/kotlin/eu/grigoriu/craftinginterpreters/klox/Environment.kt:6-8 | binds the name to the value and keeps every other binding |
| Runtime.Environment.Get | kotlin/klox/src/main/kotlin/eu/grigoriu/craftinginterpreters/klox/Environment.kt:10-16 | returns the Lookup of the name |
| Runtime.BindingsBindExactlyParameters | kotlin/klox/src/main/kotlin/eu/grigoriu/craftinginterpreters/klox/LoxFunction.kt:13-15 | the call's environment binds exactly the parameter names |
| Runtime.BindingsBindLastArgument | kotlin/klox/src/main/kotlin/eu/grigoriu/craftinginterpreters/klox/LoxFunction.kt:13-15 | each parameter is bound to its argument; for a repeated name, the last one wins |
| Runtime.LoxFunction.constructor | kotlin/klox/src/main/kotlin/eu/grigoriu/craftinginterpreters/klox/LoxFunction.kt:3-7 | keeps the declaration, the closure and the initializer flag |
| Runtime.LoxFunction.Arity | kotlin/klox/src/main/kotlin/eu/grigoriu/craftinginterpreters/klox/LoxFunction.kt:8-9 | the arity is the number of parameters |
| Runtime.LoxFunction.Call | kotlin/klox/src/main/kotlin/eu/grigoriu/craftinginterpreters/klox/LoxFunction.kt:11-31 | a fresh environment inside the closure binds the parameters to the arguments; with too few arguments, only the parameters that have one are bound and `arguments[i]` fails with IndexOutOfBounds at the first missing index; a thrown error is passed on; otherwise an initializer returns the closure's `this`, and any other function the returned value or nil |
| Runtime.LoxFunction.Bind | kotlin/klox/src/main/kotlin/eu/grigoriu/craftinginterpreters/klox/LoxFunction.kt:33-37 | a fresh function with the same declaration, flag and arity, whose closure binds only `this` to the instance, inside the old closure |
| Runtime.LoxFunction.ToString | kotlin/klox/src/main/kotlin/eu/grigoriu/craftinginterpreters/klox/LoxFunction.kt:39-41 | `<fn name>` |
| Runtime.FunctionsPrintByName | kotlin/klox/src/main/kotlin/eu/grigoriu/craftinginterpreters/klox/LoxFunction.kt:39-41 | two functions print alike exactly when their names agree |
| Runtime.LoxClass.constructor | kotlin/klox/src/main/kotlin/eu/grigoriu/craftinginterpreters/klox/LoxClass.kt:3-7 | keeps the name, superclass and methods |
| Runtime.LoxClass.FindMethod | kotlin/klox/src/main/kotlin/eu/grigoriu/craftinginterpreters/klox/LoxClass.kt:26-28 | finds a method exactly when the class itself has one of that name |
| Runtime.LoxClass.Arity | kotlin/klox/src/main/kotlin/eu/grigoriu/craftinginterpreters/klox/LoxClass.kt:8-12 | the arity is the `init` method's, or 0 without one |
| Runtime.LoxClass.Call | kotlin/klox/src/main/kotlin/eu/grigoriu/craftinginterpreters/klox/LoxClass.kt:14-20 | returns a fresh instance of the class; `init` runs exactly when it exists, with the arguments bound, inside a `this` scope for the instance; an error the initializer throws, or its IndexOutOfBounds when given too few arguments, is the result instead of the instance; without `init` any arguments are accepted |
| Runtime.LoxClass.ToString | kotlin/klox/src/main/kotlin/eu/grigoriu/craftinginterpreters/klox/LoxClass.kt:22-24 | the class's name |
| Runtime.LoxInstance.constructor | kotlin/klox/src/main/kotlin/eu/grigoriu/craftinginterpreters/klox/LoxInstance.kt:3 | keeps the class |
| Runtime.LoxInstance.ToString | kotlin/klox/src/main/kotlin/eu/grigoriu/craftinginterpreters/klox/LoxInstance.kt:4-6 | `<class name> instance` |
| Runtime.InstancesPrintByClassName | kotlin/klox/src/main/kotlin/eu/grigoriu/craftinginterpreters/klox/LoxInstance.kt:4-6 | two instances print alike exactly when their classes' names agree |
| Interpreter.IsTruthy | kotlin/klox/src/main/kotlin/eu/grigoriu/craftinginterpreters/klox/Interpreter.kt:88-94 | a value is falsy exactly when it is nil or `false` |
| Interpreter.LiteralToValue | kotlin/klox/src/main/kotlin/eu/grigoriu/craftinginterpreters/klox/Interpreter.kt:15-17 | a literal evaluates to the same value, with a number parsed by the host |
| Interpreter.EvalUnary | kotlin/klox/src/main/kotlin/eu/grigoriu/craftinginterpreters/klox/Interpreter.kt:23-34 | `!` negates truthiness; `-` fails exactly on a non-number, with "Operand must be a number" at the operator, and otherwise negates; any other operator gives nil |
| Interpreter.EvalBinary | kotlin/klox/src/main/kotlin/eu/grigoriu/craftinginterpreters/klox/Interpreter.kt:36-82 | arithmetic and comparisons fail exactly when an operand is not a number ("Operands must be numbers.") and give a number or a boolean; `+` adds numbers or concatenates strings and fails otherwise; `==`/`!=` compare values; other operators give nil |
| Interpreter.Numeric | kotlin/klox/src/main/kotlin/eu/grigoriu/craftinginterpreters/klox/Interpreter.kt:36-72 | `checkNumberOperands` and the host operation; its behaviour is stated in EvalBinary's contract |
| Interpreter.Evaluate | kotlin/klox/src/main/kotlin/eu/grigoriu/craftinginterpreters/klox/Interpreter.kt:15-86 | operands first, left before right, then the operator; EvaluateYieldsData, EvaluateErrors, OperandErrorsFirst, GroupingAndLiteral and EqualityIsReflexive state its behaviour |
| Interpreter.EvaluateYieldsData | kotlin/klox/src/main/kotlin/eu/grigoriu/craftinginterpreters/klox/Interpreter.kt:15-86 | evaluating an expression gives only nil, booleans, numbers or strings |
| Interpreter.EvaluateErrors | kotlin/klox/src/main/kotlin/eu/grigoriu/craftinginterpreters/klox/Interpreter.kt:112-126 | every runtime error is at an operator of the tree, with one of the three operand messages |
| Interpreter.OperandErrorsFirst | kotlin/klox/src/main/kotlin/eu/grigoriu/craftinginterpreters/klox/Interpreter.kt:37-38 | the left operand's error wins, then the right's, before the operator is looked at |
| Interpreter.GroupingAndLiteral | kotlin/klox/src/main/kotlin/eu/grigoriu/craftinginterpreters/klox/Interpreter.kt:15-21 | a grouping evaluates to its inner expression, and a literal to its value |
| Interpreter.EqualityIsReflexive | kotlin/klox/src/main/kotlin/eu/grigoriu/craftinginterpreters/klox/Interpreter.kt:79 | `e == e` is true for any expression that evaluates |
| Interpreter.StripPointZero | kotlin/klox/src/main/kotlin/eu/grigoriu/craftinginterpreters/klox/Interpreter.kt:102-106 | a text ending in ".0" loses exactly that suffix; any other text is kept |
| Interpreter.StrippedTextEndsWithoutPointZero | kotlin/klox/src/main/kotlin/eu/grigoriu/craftinginterpreters/klox/Interpreter.kt:102-106 | for a number text with at most one point, the result no longer ends in ".0" |
| Interpreter.Stringify | kotlin/klox/src/main/kotlin/eu/grigoriu/craftinginterpreters/klox/Interpreter.kt:96-110 | nil prints as "nil", a number without a trailing ".0", a boolean as true/false, a string as itself, and callables and instances as their `toString` |
| AstPrinter.LiteralText | kotlin/klox/src/main/kotlin/eu/grigoriu/craftinginterpreters/klox/AstPrinter.kt:20-26 | nil prints as "nil", booleans by name, strings as themselves, numbers as the host's `Double.toString` |
| AstPrinter.Print | kotlin/klox/src/main/kotlin/eu/grigoriu/craftinginterpreters/klox/AstPrinter.kt:4-34 | the visitor of the node's kind; BinaryLayout, GroupingLayout, UnaryLayout, PrintFailsOnTodo and PrintBalanced state its output |
| AstPrinter.Children | kotlin/klox/src/main/kotlin/eu/grigoriu/craftinginterpreters/klox/AstPrinter.kt:40-43 | the children's texts, each after a space; ChildrenFailOnTodo and ChildrenBalanced state it |
| AstPrinter.Parenthesized | kotlin/klox/src/main/kotlin/eu/grigoriu/craftinginterpreters/klox/AstPrinter.kt:36-47 | the text starts with `(` and the name, and ends with `)` |
| AstPrinter.Paranthesize | kotlin/klox/src/main/kotlin/eu/grigoriu/craftinginterpreters/klox/AstPrinter.kt:36-47 | the builder loop returns exactly Parenthesized, failing on the first child that fails |
| AstPrinter.BinaryLayout | kotlin/klox/src/main/kotlin/eu/grigoriu/craftinginterpreters/klox/AstPrinter.kt:12-14 | a binary node prints as `(op left right)` |
| AstPrinter.GroupingLayout | kotlin/klox/src/main/kotlin/eu/grigoriu/craftinginterpreters/klox/AstPrinter.kt:16-18 | a grouping prints as `(group inner)` |
| AstPrinter.UnaryLayout | kotlin/klox/src/main/kotlin/eu/grigoriu/craftinginterpreters/klox/AstPrinter.kt:28-30 | a unary node prints as `(op right)` |
| AstPrinter.PrintFailsOnTodo | kotlin/klox/src/main/kotlin/eu/grigoriu/craftinginterpreters/klox/AstPrinter.kt:8-34 | printing fails exactly when the tree reaches an assignment or a variable, whose visitors are `TODO()` |
| AstPrinter.ChildrenFailOnTodo | kotlin/klox/src/main/kotlin/eu/grigoriu/craftinginterpreters/klox/AstPrinter.kt:40-43 | the children fail exactly when one of them reaches a `TODO()` |
| AstPrinter.PrintBalanced | kotlin/klox/src/main/kotlin/eu/grigoriu/craftinginterpreters/klox/AstPrinter.kt:36-47 | when no leaf or operator contains a parenthesis, the printed text has balanced parentheses |
| AstPrinter.ChildrenBalanced | kotlin/klox/src/main/kotlin/eu/grigoriu/craftinginterpreters/klox/AstPrinter.kt:40-43 | under the same condition, the children's text is balanced |
| AstPrinter.StringLiteralCanUnbalance | kotlin/klox/src/main/kotlin/eu/grigoriu/craftinginterpreters/klox/AstPrinter.kt:20-26 | without that condition the claim fails: the string literal `(` prints unbalanced |

## Left out

- Console I/O is not modelled: `println` in `interpret`, `ConsoleErrorReporter`, and the C# `Program.ErrorAsync`. Errors are values appended to `ErrorReporter.reports`; the C# scanners report through the same class.
- The C# scanners are asynchronous (`IAsyncEnumerable`, `await`). The model runs them to completion and returns the yielded tokens as a sequence.
- Floating point is not modelled: double arithmetic, comparison, `String.toDouble` and `Double.toString` are host operations passed in `NumberOps`. Only the bit pattern of a double is modelled, and `Double.hashCode` is computed from it in `Numbers.DoubleHash`.
- The JVM's enum `hashCode` and .NET's randomised `string.GetHashCode` are parameters. Java's `String.hashCode` is modelled over the string's UTF-16 code units (`KloxToken.Utf16`), a character above U+FFFF giving its two surrogates.
- `Interpreter.interpret` and `errorReporter.runtimeError` are not modelled, because they only print. `runtimeError` is not declared in ErrorReporter.kt.
- The older Kotlin ErrorReporter.kt and Token.kt, outside the `klox` package, are not part of this model. The older scanner reports through the same error reporter class.
- Interpreter.EvaluateErrors: the messages are kept as written. That includes the missing period in "Operand must be a number" and the wording "two numbers or new strings".
- Interpreter.Evaluate: Interpreter.kt visits only literals, groupings, unary and binary expressions. Other nodes are outside `Evaluable`, and statements are not executed.
- ResolverSpec.ResolveLocal: `resolveLocal` has no early exit. It calls `interpreter.resolve` once for every enclosing scope that holds the name, innermost first, and the model records every call. Interpreter.kt has no `resolve` method, so which call would win is not part of this model.
- ResolverSpec.ResolveStmt: the Kotlin resolver is abstract. It visits only blocks, `var` statements, variables and assignments, and leaves every other node to subclasses that are not part of this model.
- Resolving.Resolver.EndScope requires an open scope. On an empty stack, Kotlin's `Stack.pop` throws, and the only caller follows a `beginScope`.
- Runtime.Environment.Inside: Environment.kt has no enclosing constructor, no `getAt` and no `assign`, yet LoxFunction.kt uses `Environment(closure)` and `getAt(0, "this")`. The model gives the environment an `enclosing` field and reads `getAt(0, name)` as the closure's own binding, nil if absent.
- Runtime.Environment.Define: Kotlin's `define` takes a non-null `Any`, while the model can bind nil.
- Runtime.LoxFunction.Call takes the body's outcome as a parameter: it completes normally, returns a value, or throws a runtime error, which `call` passes on. `executeBlock` is not in Interpreter.kt, so the statements are not executed. No caller in these files checks the arity (Interpreter.kt has no `visitCallExpr`), so a call with too few arguments is modelled as the `IndexOutOfBoundsException` that `arguments[i]` throws.
- Runtime.LoxClass.Call passes its arguments to `init` unchecked, as LoxClass.kt does, so too few of them fail inside `init`'s `call`. Its initializer outcome, an error included, is a parameter for the same reason as the body's outcome of `LoxFunction.Call`.
- Runtime.LoxClass.FindMethod never searches the superclass, as written. The parser has no superclass syntax, so no class has one.
- Runtime.BindingsBindLastArgument: duplicate parameter names are not rejected; the last argument of a name wins.
- KloxToken.Equals: the identity shortcut `this === other` is not modelled separately, because a token equals itself anyway.
- Parsing.Parser.constructor requires the token list to end with EOF, as every scanner's output does. `peek` at the end of the list would throw otherwise.
- AstPrinter.Print: the `TODO()` visitors throw `NotImplementedError`, modelled as `Err(NotImplemented)`. Expressions without a visitor (calls, logical, get, set, this) are outside `Printable`.
- AstPrinter.PrintBalanced needs leaves and operators without parentheses. A string literal can hold a parenthesis, as StringLiteralCanUnbalance shows.
- Parser.kt stores `Expr.Literal(true)` and similar host objects; the model's `LiteralValue` keeps a number as its text until the interpreter parses it.
- TokenTypes.Token keeps the line, although Token.kt takes `line` only as a constructor parameter and stores no field for it. ErrorReporter.kt reads `token.line`, so the model keeps it, and `equals`, `hashCode` and `toString` ignore it as the source does.
- LexSpec.UnexpectedReported: source text is a sequence of Unicode scalar values, while Scanner.kt and Scanner.cs index UTF-16 code units. A character above U+FFFF, such as U+1F600, is one step, one cursor position and one "Unexpected character" report here, but two in every scanner of the source, and the model's Kotlin message names the whole character where the source's names each surrogate. All four scanners (`LexSpec.ScanStep`) share this gap; for characters up to U+FFFF the model and the source agree.
- The scanners' and the parser's `line` and `current` are unbounded integers; Kotlin's and C#'s 32-bit `Int` would wrap only after 2^31 lines or characters.
- Parsing.Parser splits some rules into several methods (ForInitializer, ForCondition, ConditionClause, ForIncrement, IncrementClause, IfBranches, FunctionParameters, Parameters, FunctionBody, Methods, OperatorLoop, FoldOperator, Arguments, AssignTo) where Parser.kt has one function; FoldOperator is the body of the operator loop. Each piece runs the same statements in the same order, so that each has a contract of its own.
