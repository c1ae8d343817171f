# PrintScript core, modelled in Dafny

PrintScript is a small scripting language with a Kotlin toolchain. A line of
source text goes through these stages:

- The **lexer** cuts the line into tokens with an ordered list of regular-expression rules.
- The **parser** rejects a line with more than one semicolon.
- The **statement provider** then tries each statement builder in a fixed priority order.
- The **expression providers** try the expression builders in the same way and collect their failure messages.

A separate, older set of providers and an older variable-declaration builder
still ship in the repository, so they are modelled too. Further along the
pipeline, the model covers:

- the **binary-expression interpreter**, which evaluates `+ - * /` over decimals and strings;
- the **conditional-statement formatter**, which prints `if`/`else` blocks with configurable indentation;
- the **version checker**, which compares dotted version strings component by component.

Modules, one file each:

- `Common` (`common.dfy`): `Result`/`Option`, Kotlin's `split`, `lines` and `joinToString`, and decimal rendering of integers.
- `Ast` (`ast.dfy`): tokens, syntax-tree nodes, builder results and the builder kinds.
- `Lexing` (`lexer.dfy`): the `Lexer` class, with its cursor as a mutable field. The functions `NextStep` and `Lex` specify its methods.
- `Providers` (`expression_providers.dfy`): the three providers that take a line index. Each is a class whose method runs the provider's loop. Each method is proved equal to an outcome function, and lemmas state what the outcome means.
- `LegacyProviders` (`builder_providers.dfy`): the older providers that take no line index.
- `Parsing` (`parser.dfy`): `parse`, plus lemmas that restate parser test scenarios as properties of the model.
- `LegacyDeclaration` (`variable_declaration_builder.dfy`): the older `VariableDeclarationBuilder`, both as written and as evidently intended (see Findings).
- `BinaryInterpreter` (`binary_interpreter.dfy`): `interpret` and `handleOperation`.
- `ConditionalFormatting` (`conditional_formatter.dfy`): `format` and `contentFormatter`.
- `Versions` (`version_checker.dfy`): `versionIsSameOrOlderThanCurrentVersion`.

Code these stages call but that is not part of this model becomes a
parameter:

- the individual AST builders: `verifyAndBuild` of each builder class, a function from builder kind and tokens (and line index) to a result;
- each regular expression: a function saying how long a match at the start of the remaining input is, if any;
- the identifier interpreter, decimal division and number rendering: the `Host` of the interpreter;
- the call-expression and statement formatters: the `Leaves` of the formatter;
- the variable-declarator builder.

Exceptions thrown by the Kotlin code become `Err`/`Failure` values that carry
the thrown message. Decimals (`BigDecimal`) are `real`.

The code and the parser tests disagree about the texts of some failure
messages. `Parser.parse` uses the line-index `StatementProvider`
(`parser/src/main/kotlin/astbuilder/ExpressionProviders.kt:90-122`), whose
missing-semicolon message is `Missing semicolon at (<line>, <start>`. The tests
at `parser/src/test/kotlin/ParserTest.kt:726-744` and `:812-822` expect the
messages of the older provider (`No valid statement found, errors: ...`). The
model follows the code. `Parsing.MissingSemicolonParse` and
`Parsing.MissingSemicolonLegacy` state what each provider yields on that
input, and so does `Parsing.EmptyLineMessages`.

## Model

| member | source | states |
|---|---|---|
| Lexing.Lexer.constructor | lexer/src/main/kotlin/Lexer.kt:1-4 | a new lexer holds the input and starts with its cursor at offset 0 |
| Lexing.Lexer.Tokenize | lexer/src/main/kotlin/Lexer.kt:6-15 | the loop returns exactly the token list `Lex` specifies from the starting cursor; on success the cursor is at the end of the input; on failure it stops at the offending offset with the "Unexpected character at position p: c" message for that character |
| Lexing.Lexer.GetNextToken | lexer/src/main/kotlin/Lexer.kt:20-41 | one step of the lexer: emits the token of the first matching rule and advances past it, or skips one whitespace character and returns no token, or fails without moving |
| Lexing.NextStep | lexer/src/main/kotlin/Lexer.kt:20-41 | a token is emitted iff some rule matches at the cursor; it is the first such rule's kind, spans [cursor, cursor+match length) and carries the matched text; a skip happens iff no rule matches and the character is whitespace; a failure iff no rule matches and it is not, with the unexpected-character message |
| Lexing.FirstMatch | lexer/src/main/kotlin/Lexer.kt:23-31 | the chosen rule matches at the start of the remaining input and no earlier rule does; no rule chosen means none matches |
| Lexing.LaterRulesIgnored | lexer/src/main/kotlin/Lexer.kt:23-31 | once a rule matches, the rules after it are never consulted: replacing them leaves the same rule winning |
| Lexing.LexTokensWellPlaced | lexer/src/main/kotlin/Lexer.kt:43-51 | every token of a successful run starts at or after the cursor, is the first-rule match at its own start with its exact text and span, and tokens come in order without overlapping |
| Lexing.LexSkipsOnlyWhitespace | lexer/src/main/kotlin/Lexer.kt:33-37 | in a successful run, every character no token covers is whitespace that no rule matches at |
| Lexing.LexErrorIsUnexpectedCharacter | lexer/src/main/kotlin/Lexer.kt:39-40 | a failed run names an offset in the input whose character is not whitespace and matches no rule, in the unexpected-character message |
| Lexing.PrependTwice | lexer/src/main/kotlin/Lexer.kt:7-11 | adding tokens to the list in two batches is the same as adding both at once |
| Providers.AssignableExpressionProvider.constructor | parser/src/main/kotlin/astbuilder/ExpressionProviders.kt:7-18 | the provider keeps the tokens, the line index and the builders it will try |
| Providers.AssignableExpressionProvider.GetAssignableExpressionResult | parser/src/main/kotlin/astbuilder/ExpressionProviders.kt:20-44 | succeeds iff some builder in the order call, binary, number, string, identifier yields an expression node, and then returns the first such result; otherwise fails with "No valid assignable expression found" (the collected messages are discarded) |
| Providers.ExpressionProvider.constructor | parser/src/main/kotlin/astbuilder/ExpressionProviders.kt:47-59 | the provider keeps the tokens, the line index and the builders it will try |
| Providers.ExpressionProvider.GetVerifiedExpressionResult | parser/src/main/kotlin/astbuilder/ExpressionProviders.kt:61-87 | succeeds iff some builder in the order assignment, call, binary, number, string, identifier yields an expression node, and returns the first; otherwise fails with "No valid expression found: ", a line break and the filtered messages of the non-literal builders |
| Providers.StatementProvider.constructor | parser/src/main/kotlin/astbuilder/ExpressionProviders.kt:90-98 | the provider keeps the tokens, the line index and the builders it will try |
| Providers.StatementProvider.GetVerifiedStatementResult | parser/src/main/kotlin/astbuilder/ExpressionProviders.kt:100-122 | the loop yields the statement outcome: an empty line fails with "Empty tokens", and any success is a statement node |
| Providers.FirstAccepted | parser/src/main/kotlin/astbuilder/ExpressionProviders.kt:63-67 | the chosen builder succeeded with a node of the category and no earlier one did; none chosen means none did |
| Providers.FirstAcceptedAt | parser/src/main/kotlin/astbuilder/ExpressionProviders.kt:63-67 | a builder that succeeds after only failures before it is the one chosen |
| Providers.FirstAcceptedNone | parser/src/main/kotlin/astbuilder/ExpressionProviders.kt:63-67 | when no builder succeeds, none is chosen |
| Providers.FirstAcceptedAgree | parser/src/main/kotlin/astbuilder/ExpressionProviders.kt:63-67 | two result lists that agree on which results are accepted choose the same builder |
| Providers.SilencedFailuresIgnored | parser/src/main/kotlin/astbuilder/ExpressionProviders.kt:68-74 | the failure texts of the number, string and identifier builders never affect either provider's result |
| Providers.NotedAgree | parser/src/main/kotlin/astbuilder/ExpressionProviders.kt:68-74 | results that contribute the same note per builder produce the same collected messages |
| Providers.Unlisted | parser/src/main/kotlin/astbuilder/ExpressionProviders.kt:76-85 | the kept lines are exactly the input lines that are not on the deny list, none of them denied, and no more than there were |
| Providers.ExpressionFailureHasNoDeniedLine | parser/src/main/kotlin/astbuilder/ExpressionProviders.kt:76-86 | an expression-provider failure begins with "No valid expression found: " and a line break, and no line after that prefix is one of the five denied messages |
| Providers.FilteredKeepsLine | parser/src/main/kotlin/astbuilder/ExpressionProviders.kt:76-85 | a line of the collected messages that is not denied survives the filter |
| Providers.NotedHasLine | parser/src/main/kotlin/astbuilder/ExpressionProviders.kt:68-74 | every single-line message a reported builder contributes is a line of the collected messages |
| Providers.ExpressionFailureKeepsMessage | parser/src/main/kotlin/astbuilder/ExpressionProviders.kt:68-86 | when no builder succeeds, the single-line, non-denied failure message of any reported builder appears as a line of the provider's failure message |
| Providers.StatementStopsAtFirstRealFailure | parser/src/main/kotlin/astbuilder/ExpressionProviders.kt:113-117 | a failure of the declaration builder other than "Invalid start of variable declaration" is the provider's result, whatever the expression-statement builder would do |
| Providers.StatementLoopAfterFirst | parser/src/main/kotlin/astbuilder/ExpressionProviders.kt:108-121 | after the first builder was not accepted and did not stop the loop, the second builder's success or real failure is returned as is; "Invalid start" failures accumulate; a success that is not a statement adds nothing |
| Providers.StatementAfterInvalidStart | parser/src/main/kotlin/astbuilder/ExpressionProviders.kt:108-121 | after the declaration builder reports an invalid start, the provider returns the expression-statement builder's statement or real failure, otherwise the accumulated "Invalid start" texts |
| Providers.StatementFailureShapes | parser/src/main/kotlin/astbuilder/ExpressionProviders.kt:100-121 | a statement-provider failure message is "Empty tokens", the missing-semicolon message for the last token, some builder's own non-"Invalid start" failure, or empty, or one or two "Invalid start" texts |
| Providers.StatementSuccessIsStatement | parser/src/main/kotlin/astbuilder/ExpressionProviders.kt:110-112 | a statement-provider success is a statement node that one of its two builders produced |
| Providers.ConcatSplit | parser/src/main/kotlin/astbuilder/ExpressionProviders.kt:73 | appending messages one after another can be split at any point |
| Providers.ConcatEndsWithBreak | parser/src/main/kotlin/astbuilder/ExpressionProviders.kt:73 | messages that each end in a line break append to a text that ends in one |
| Providers.LineAfterBreak | parser/src/main/kotlin/astbuilder/ExpressionProviders.kt:76-78 | a single-line message placed after a line break is one of the text's lines |
| Providers.ConcatAround | parser/src/main/kotlin/astbuilder/ExpressionProviders.kt:73 | appended messages split around any one of them |
| LegacyProviders.AssignableExpressionProvider.constructor | parser/src/main/kotlin/astbuilder/BuilderProviders.kt:7-17 | the provider keeps the tokens and the builders it will try |
| LegacyProviders.AssignableExpressionProvider.GetAssignableExpressionResult | parser/src/main/kotlin/astbuilder/BuilderProviders.kt:19-27 | succeeds iff some builder in the order binary, call, number, string, identifier yields an expression, returning the first; otherwise "No valid assignable expression found" |
| LegacyProviders.ExpressionProvider.constructor | parser/src/main/kotlin/astbuilder/BuilderProviders.kt:30-41 | the provider keeps the tokens and the builders it will try |
| LegacyProviders.ExpressionProvider.GetVerifiedExpressionResult | parser/src/main/kotlin/astbuilder/BuilderProviders.kt:43-51 | succeeds iff some builder in the order assignment, binary, call, number, string, identifier yields an expression, returning the first; otherwise "No valid expression found" |
| LegacyProviders.StatementProvider.constructor | parser/src/main/kotlin/astbuilder/BuilderProviders.kt:54-61 | the provider keeps the tokens and the builders it will try |
| LegacyProviders.StatementProvider.GetVerifiedStatementResult | parser/src/main/kotlin/astbuilder/BuilderProviders.kt:63-75 | any success is a statement node; any failure starts with "No valid statement found, errors: " and a line break |
| LegacyProviders.FailureMessages | parser/src/main/kotlin/astbuilder/BuilderProviders.kt:70-72 | the failure texts of the tried builders, in order; never more than there were builders |
| LegacyProviders.CollectedEndsWithBreak | parser/src/main/kotlin/astbuilder/BuilderProviders.kt:70-72 | the collected messages are empty or end in a line break |
| LegacyProviders.CollectedLines | parser/src/main/kotlin/astbuilder/BuilderProviders.kt:70-72 | when every failure text is a single line, the collected messages have exactly the failure texts as their lines, in order, followed by an empty last line |
| LegacyProviders.StatementFailureListsAll | parser/src/main/kotlin/astbuilder/BuilderProviders.kt:63-75 | when neither statement builder succeeds, the provider fails and the lines after its prefix are every builder's failure text, in order |
| LegacyProviders.TwoFailures | parser/src/main/kotlin/astbuilder/BuilderProviders.kt:63-75 | two failing statement builders give the prefix followed by both messages, each on its own line |
| LegacyProviders.BinaryBeforeCall | parser/src/main/kotlin/astbuilder/BuilderProviders.kt:10-17 | when both the binary and the call builder succeed, the older providers return the binary result and the line-index providers return the call result (their priority orders differ) |
| Parsing.Parse | parser/src/main/kotlin/Parser.kt:6-15 | fails with "Only one line of code is allowed at a time." iff more than one token is a semicolon by value or kind; otherwise returns the statement provider's result |
| Parsing.SemicolonCount | parser/src/main/kotlin/Parser.kt:10 | the number of semicolon tokens is at most the number of tokens |
| Parsing.SemicolonCountPair | parser/src/main/kotlin/Parser.kt:10 | the count exceeds one iff two distinct positions hold semicolons |
| Parsing.SemicolonCountSome | parser/src/main/kotlin/Parser.kt:10 | the count is positive iff some position holds a semicolon |
| Parsing.TwoSemicolonsRejected | parser/src/main/kotlin/Parser.kt:10-12 | any line with two semicolons is rejected with the one-line message |
| Parsing.LetNumberParses | parser/src/test/kotlin/ParserTest.kt:24-54 | the tokens of `let a:number;` (no initialiser) parse to the declaration the test expects when the declaration builder yields it, and that tree's spans nest |
| Parsing.PrecedenceParses | parser/src/test/kotlin/ParserTest.kt:294-365 | the tokens of `a = 1 + 2 * 3 / 4 - 5 % 6;` pass the one-line check and parse to the tree the test expects once the declaration builder rejects the start and the expression-statement builder yields that tree; the tree spans its parts and groups left-associatively by operator strength |
| Parsing.PrecedenceSemicolons | parser/src/test/kotlin/ParserTest.kt:296-311 | the precedence line holds exactly one semicolon |
| Parsing.PrecedenceTreeShape | parser/src/test/kotlin/ParserTest.kt:312-361 | the tree the precedence test expects spans its parts and groups left-associatively by operator strength |
| Parsing.ExpressionStatementParses | parser/src/main/kotlin/Parser.kt:13-14 | a one-semicolon line that is not a declaration parses to what the expression-statement builder yields |
| Parsing.StatementFromSecondBuilder | parser/src/main/kotlin/astbuilder/ExpressionProviders.kt:108-112 | after an invalid-start failure, the expression-statement builder's statement is the provider's result |
| Parsing.MismatchedParenthesisReported | parser/src/test/kotlin/ParserTest.kt:467-481 | on the test's mismatched-parenthesis line, the parse result is a failure whose lines after the prefix include "Mismatched parenthesis" |
| Parsing.BinaryFailureReported | parser/src/main/kotlin/astbuilder/ExpressionProviders.kt:61-86 | a single-line, non-denied binary-builder failure on an expression statement surfaces as a line of the parse failure |
| Parsing.MissingSemicolonParse | parser/src/test/kotlin/ParserTest.kt:726-744 | the test's line without a semicolon yields the missing-semicolon failure at offset 16 |
| Parsing.MissingSemicolonText | parser/src/main/kotlin/astbuilder/ExpressionProviders.kt:106 | that message on line 0 reads "Missing semicolon at (0, 16" (the parenthesis is never closed) |
| Parsing.MissingSemicolonLegacy | parser/src/test/kotlin/ParserTest.kt:726-744 | the older provider reports both builders' missing-semicolon messages under its prefix, as the test expects |
| Parsing.NoSemicolonCount | parser/src/test/kotlin/ParserTest.kt:726-744 | the test's line holds no semicolon |
| Parsing.MismatchedSemicolons | parser/src/test/kotlin/ParserTest.kt:467-481 | the mismatched-parenthesis line holds exactly one semicolon, so it gets past the one-line check |
| Parsing.EmptyLineMessages | parser/src/test/kotlin/ParserTest.kt:812-822 | an empty line yields "Empty tokens" from the current provider, and the prefixed pair of messages from the older one |
| LegacyDeclaration.CommaCount | src/main/kotlin/utils/astbuilder/VariableDeclarationBuilder.kt:23 | there are never more commas than tokens |
| LegacyDeclaration.FirstComma | src/main/kotlin/utils/astbuilder/VariableDeclarationBuilder.kt:32 | -1 iff there is no comma; otherwise the index of a comma with none before it |
| LegacyDeclaration.EveryStartRejected | src/main/kotlin/utils/astbuilder/VariableDeclarationBuilder.kt:13-16 | the start test as written rejects every token kind; the intended test rejects exactly the kinds other than LET and CONST |
| LegacyDeclaration.Segments | src/main/kotlin/utils/astbuilder/VariableDeclarationBuilder.kt:30-37 | the declarator pieces number one more than the commas |
| LegacyDeclaration.SegmentsNoComma | src/main/kotlin/utils/astbuilder/VariableDeclarationBuilder.kt:24-28 | a body without commas is a single piece |
| LegacyDeclaration.SegmentsAtComma | src/main/kotlin/utils/astbuilder/VariableDeclarationBuilder.kt:32-36 | the first piece is what precedes the first comma, and the rest are the pieces of what follows it |
| LegacyDeclaration.SegmentsJoin | src/main/kotlin/utils/astbuilder/VariableDeclarationBuilder.kt:30-36 | cutting a comma-free run, a comma and a rest gives the run followed by the rest's pieces (cutting inverts joining) |
| LegacyDeclaration.Built | src/main/kotlin/utils/astbuilder/VariableDeclarationBuilder.kt:33-35 | the declarators are the builds of the leading pieces, in order, up to the first piece that does not build |
| LegacyDeclaration.BuiltPrefix | src/main/kotlin/utils/astbuilder/VariableDeclarationBuilder.kt:33-35 | building one more piece appends its declarator |
| LegacyDeclaration.BuiltStops | src/main/kotlin/utils/astbuilder/VariableDeclarationBuilder.kt:34 | a piece that does not build stops the list at the pieces before it, and the line is not accepted |
| LegacyDeclaration.BuiltAll | src/main/kotlin/utils/astbuilder/VariableDeclarationBuilder.kt:30-38 | all pieces build iff there is one declarator per piece |
| LegacyDeclaration.OnePiece | src/main/kotlin/utils/astbuilder/VariableDeclarationBuilder.kt:24-28 | a single building piece gives a single declarator |
| LegacyDeclaration.PieceStep | src/main/kotlin/utils/astbuilder/VariableDeclarationBuilder.kt:32-36 | one loop turn takes the next piece from before the remaining tokens' first comma and leaves the pieces after it with one comma fewer |
| LegacyDeclaration.CommaCountAfter | src/main/kotlin/utils/astbuilder/VariableDeclarationBuilder.kt:36 | the tokens after the first comma hold one comma fewer |
| LegacyDeclaration.AsWrittenPiecesDiffer | src/main/kotlin/utils/astbuilder/VariableDeclarationBuilder.kt:30-37 | on `kw a , b ;` the loop as written builds a single declarator from `kw` and `a` without its last token, where the intended pieces are `a` and `b` |
| LegacyDeclaration.FirstCommaAfter | src/main/kotlin/utils/astbuilder/VariableDeclarationBuilder.kt:32 | behind a comma-free run, the first comma is found right after it |
| LegacyDeclaration.CommaSum | src/main/kotlin/utils/astbuilder/VariableDeclarationBuilder.kt:23 | commas of two runs add up |
| LegacyDeclaration.BodyCommas | src/main/kotlin/utils/astbuilder/VariableDeclarationBuilder.kt:23 | on a well-shaped line only the body's commas are counted |
| LegacyDeclaration.AcceptedDeclaration | src/main/kotlin/utils/astbuilder/VariableDeclarationBuilder.kt:41-48 | an accepted line declares, with LET or CONST, one declarator per comma plus one, each the build of its piece, spanning the keyword to the semicolon |
| LegacyDeclaration.VariableDeclarationBuilder.constructor | src/main/kotlin/utils/astbuilder/VariableDeclarationBuilder.kt:5-6 | the builder keeps the tokens and its declarator list is unassigned |
| LegacyDeclaration.VariableDeclarationBuilder.Verify | src/main/kotlin/utils/astbuilder/VariableDeclarationBuilder.kt:7-39 | as written, `verify` returns false on every line and leaves the list as it was |
| LegacyDeclaration.VariableDeclarationBuilder.VerifyIntended | src/main/kotlin/utils/astbuilder/VariableDeclarationBuilder.kt:7-39 | the intended `verify` accepts iff the line starts with LET or CONST, ends with a semicolon and every comma-separated piece builds; a well-shaped line leaves the list holding the declarators built, in order, up to the first failing piece |
| LegacyDeclaration.VariableDeclarationBuilder.CollectAtCommas | src/main/kotlin/utils/astbuilder/VariableDeclarationBuilder.kt:30-38 | with commas present, the loop plus the last piece succeed iff every piece builds, and append exactly the declarators built |
| LegacyDeclaration.VariableDeclarationBuilder.CollectLeading | src/main/kotlin/utils/astbuilder/VariableDeclarationBuilder.kt:30-37 | the comma loop builds the pieces before each comma, in order, and leaves the tokens after the last comma |
| LegacyDeclaration.VariableDeclarationBuilder.Build | src/main/kotlin/utils/astbuilder/VariableDeclarationBuilder.kt:41-48 | succeeds iff the line is non-empty and the list was assigned; the node has the first token's kind, the list, and spans first to last token; otherwise the Kotlin error for an empty list or an unassigned `lateinit` |
| BinaryInterpreter.Interpret | interpreter/src/main/kotlin/BinaryExpressionInterpreter.kt:6-25 | a non-binary node is rejected; a left operand's failure wins over the right's; a right failure is reported after a good left one |
| BinaryInterpreter.Operand | interpreter/src/main/kotlin/BinaryExpressionInterpreter.kt:8-23 | an operand that is not a literal, binary expression or identifier fails with that side's message; literals evaluate to their own value |
| BinaryInterpreter.HandleOperation | interpreter/src/main/kotlin/BinaryExpressionInterpreter.kt:28-56 | `+` adds numbers and concatenates when a string is involved, in order; booleans with `+` are invalid operands; `-` and `*` subtract and multiply numbers; `-`, `*`, `/` on a non-number pair are invalid operands; any other operator is invalid |
| BinaryInterpreter.ArithmeticExact | interpreter/src/main/kotlin/BinaryExpressionInterpreter.kt:38-47 | a tree of number literals under `+`, `-` and `*` evaluates to its exact arithmetic value |
| BinaryInterpreter.OperandExact | interpreter/src/main/kotlin/BinaryExpressionInterpreter.kt:10-12 | such a tree evaluates to the same value as an operand |
| BinaryInterpreter.ConcatenationInOrder | interpreter/src/main/kotlin/BinaryExpressionInterpreter.kt:37 | a `+` tree of string literals evaluates to its leaves' texts, left to right |
| BinaryInterpreter.OperandText | interpreter/src/main/kotlin/BinaryExpressionInterpreter.kt:11-12 | such a tree evaluates to the same text as an operand |
| BinaryInterpreter.ConcatenationAssociates | interpreter/src/main/kotlin/BinaryExpressionInterpreter.kt:37 | string concatenation gives the same text however the `+` tree is grouped |
| BinaryInterpreter.MixedPlusKeepsOrder | interpreter/src/main/kotlin/BinaryExpressionInterpreter.kt:39-41 | number + string and string + number render the number and keep the operands' order |
| BinaryInterpreter.InvalidOperandReported | interpreter/src/main/kotlin/BinaryExpressionInterpreter.kt:14-22 | an invalid left operand reports "Invalid expression"; an invalid right one after a good left reports "Invalid expression " |
| BinaryInterpreter.RemainderRejected | interpreter/src/main/kotlin/BinaryExpressionInterpreter.kt:53 | `%` on two numbers is rejected with "Invalid operator: %" |
| BinaryInterpreter.LeftFailureWins | interpreter/src/main/kotlin/BinaryExpressionInterpreter.kt:8-16 | any left-operand failure is the result, whatever the right operand and the operator |
| BinaryInterpreter.PrecedenceExampleRejected | interpreter/src/main/kotlin/BinaryExpressionInterpreter.kt:44-53 | the parser test's precedence tree fails on its `%`, unless the division inside it fails first |
| ConditionalFormatting.IndentationCount | formatter/src/main/kotlin/formatter/ConditionalStatementFormatter.kt:29 | the configured indentation count when it is a number of at least 1, and 1 otherwise |
| ConditionalFormatting.Indentation | formatter/src/main/kotlin/formatter/ConditionalStatementFormatter.kt:28-31 | four spaces per indentation unit, and nothing but spaces |
| ConditionalFormatting.Repeat | formatter/src/main/kotlin/formatter/ConditionalStatementFormatter.kt:30 | repeating a text n times multiplies its length by n |
| ConditionalFormatting.Prefixed | formatter/src/main/kotlin/formatter/ConditionalStatementFormatter.kt:44-45 | each line gets the prefix, and the number of lines is unchanged |
| ConditionalFormatting.Entries | formatter/src/main/kotlin/formatter/ConditionalStatementFormatter.kt:39-79 | one formatted entry per statement, in order |
| ConditionalFormatting.ContentFormatter | formatter/src/main/kotlin/formatter/ConditionalStatementFormatter.kt:33-84 | the loop builds the entries of the statements in order and joins them with line breaks; an empty block gives the empty text |
| ConditionalFormatting.FormatEntry | formatter/src/main/kotlin/formatter/ConditionalStatementFormatter.kt:40-77 | one statement's entry: a nested block indented once more, a call indented line by line with a final `;`, any other statement indented once |
| ConditionalFormatting.IndentCallLines | formatter/src/main/kotlin/formatter/ConditionalStatementFormatter.kt:61-68 | the array loop indents every line of the call's text and then appends `;` |
| ConditionalFormatting.Format | formatter/src/main/kotlin/formatter/ConditionalStatementFormatter.kt:10-26 | only a conditional formats (the cast fails otherwise); the text starts with the `if(...) {` head and consequent; with no alternate it ends with `}`, else with `} else {`, the alternate, a line break and `}` plus a line break |
| ConditionalFormatting.EmptyContent | formatter/src/main/kotlin/formatter/ConditionalStatementFormatter.kt:81-83 | an empty block formats to the empty text |
| ConditionalFormatting.ContentLines | formatter/src/main/kotlin/formatter/ConditionalStatementFormatter.kt:70-80 | a block of single-line plain statements prints exactly one indented line per statement, in order |
| ConditionalFormatting.NoBreakInIndentation | formatter/src/main/kotlin/formatter/ConditionalStatementFormatter.kt:28-31 | the indentation holds no line break |
| ConditionalFormatting.CallLines | formatter/src/main/kotlin/formatter/ConditionalStatementFormatter.kt:61-68 | a call statement's entry has as many lines as the call's text; each is indented, and only the last ends in `;` |
| ConditionalFormatting.JoinLast | formatter/src/main/kotlin/formatter/ConditionalStatementFormatter.kt:68 | appending to a joined text appends to its last part |
| ConditionalFormatting.IndentedLines | formatter/src/main/kotlin/formatter/ConditionalStatementFormatter.kt:44-45 | indenting a nested block prefixes each of its lines and changes nothing else |
| ConditionalFormatting.EntriesStep | formatter/src/main/kotlin/formatter/ConditionalStatementFormatter.kt:39-79 | the entries of one more statement are the earlier entries plus that statement's entry |
| Versions.ParseInt | utils/src/main/kotlin/VersionChecker.kt:6-7 | a parsed component lies in the 32-bit range and comes from an optional sign and decimal digits; anything else fails with Kotlin's "For input string" message |
| Versions.ParseAll | utils/src/main/kotlin/VersionChecker.kt:6-7 | succeeds iff every component parses, keeping their values in order; otherwise fails with the first bad component's message |
| Versions.IsSameOrOlder | utils/src/main/kotlin/VersionChecker.kt:2-10 | the target's parse error is reported first, then the current version's; otherwise true iff on every position both versions have, the current component is at least the target's |
| Versions.AtLeastIff | utils/src/main/kotlin/VersionChecker.kt:8 | `zip(...).all { current >= target }` holds iff the current version is not behind on any shared position |
| Versions.ExtraComponentsIgnored | utils/src/main/kotlin/VersionChecker.kt:8 | components beyond the shorter version never matter |
| Versions.Reflexive | utils/src/main/kotlin/VersionChecker.kt:2-10 | a well-formed version is the same as or older than itself |
| Versions.Transitive | utils/src/main/kotlin/VersionChecker.kt:8 | for versions of equal length, the comparison chains |
| Versions.UnequalLengthsDoNotChain | utils/src/main/kotlin/VersionChecker.kt:8 | with unequal lengths it does not: [1] vs [1,5] and [1,0] vs [1] hold, but [1,0] vs [1,5] does not |
| Versions.DigitsOfNat | utils/src/main/kotlin/VersionChecker.kt:6-7 | the decimal rendering of a natural number is digits that read back as that number |
| Versions.ParseRendered | utils/src/main/kotlin/VersionChecker.kt:6-7 | any 32-bit integer rendered in decimal parses back to itself |
| Versions.Render | utils/src/main/kotlin/VersionChecker.kt:6-7 | a one-component version renders as that component |
| Versions.RenderAll | utils/src/main/kotlin/VersionChecker.kt:6-7 | each component renders as its own decimal text |
| Versions.RenderParses | utils/src/main/kotlin/VersionChecker.kt:6-7 | a dotted rendering of 32-bit components splits and parses back to the same components |
| Versions.AllParse | utils/src/main/kotlin/VersionChecker.kt:6-7 | the rendered components all parse back to themselves |
| Versions.NoDotInRendered | utils/src/main/kotlin/VersionChecker.kt:6 | a rendered integer holds no dot, so splitting never cuts inside one |
| Versions.EmptyComponentFails | utils/src/main/kotlin/VersionChecker.kt:6-7 | an empty component, as in "1..2" or "1.", makes the comparison fail |
| Versions.ShorterVersionDecides | utils/src/main/kotlin/VersionChecker.kt:8 | "1.2" against "1.2.9" holds in both directions, because only shared positions are compared |
| Versions.ComponentwiseNotLexicographic | utils/src/main/kotlin/VersionChecker.kt:8 | "1.5" is not the same as or older than "2.0", because 0 < 5 on the second position, although 2.0 is the later version |
| Common.JoinSplit | utils/src/main/kotlin/VersionChecker.kt:6 | joining the pieces of a split with the separator gives the text back |
| Common.SplitJoin | formatter/src/main/kotlin/formatter/ConditionalStatementFormatter.kt:44-45 | splitting a join of separator-free pieces gives the pieces back |
| Common.SplitAppend | formatter/src/main/kotlin/formatter/ConditionalStatementFormatter.kt:64 | a separator-free front piece is the first piece of the split |
| Common.LinesJoin | parser/src/main/kotlin/astbuilder/ExpressionProviders.kt:76-85 | `lines()` of break-free lines joined with line breaks gives them back |
| Common.LinesConcat | parser/src/main/kotlin/astbuilder/ExpressionProviders.kt:73-78 | the lines of a text ending in a line break, followed by more text, are its lines before the final empty one, then the lines of the rest |
| Common.LinesAppend | parser/src/main/kotlin/astbuilder/ExpressionProviders.kt:76-78 | a break-free line then a line break is the first line |

## Left out

- The token table `tokenReg` and Kotlin's regular-expression engine are not part of this model. Each rule is reduced to the length of its match at the start of the remaining input (`Lexing.Rule`). The table is a constructor parameter instead of a global.
- Lexing.NextStep: offsets count characters (Unicode scalar values), not UTF-16 code units as Kotlin's `length`, `substring` and indexing do. On a line with a character outside the Basic Multilingual Plane, every later token's position is smaller by one per such character than in Kotlin. If such a character matches no rule, Kotlin's message carries only its high surrogate, and the model's carries the whole character. The same holds for Lexing.Lexer.GetNextToken and Lexing.Lexer.Tokenize.
- Lexing.Lexer.constructor: requires every rule match to be non-empty. A rule that matches the empty string makes `tokenize` loop forever, and the model does not represent non-termination.
- The `println` calls of `VariableDeclarationBuilder.verify` are left out, because they are console output.
- The AST builders, `VariableDeclaratorBuilder`, `CallExpressionFormatter` and `StatementFormatter` are not part of this model. Their results are function parameters. `AbstractASTBuilder.verifyAndBuild` is not part of this model either.
- `Ast.IsExpression` holds for the literal, identifier, binary, assignment and call nodes, and `Ast.IsStatement` for variable declarations, expression statements and conditionals. The Kotlin interfaces that decide this are not among the modelled files.
- The identifier interpreter and the variable map are not part of this model. They are the `lookup` field of `BinaryInterpreter.Host`.
- `BigDecimal` division, with its scale, rounding and division-by-zero exception, is the host's `divide` parameter. Number rendering is the host's `showNumber` parameter.
- Decimals are exact reals. The scale a `BigDecimal` carries (`2.0` versus `2`) is not represented.
- Exceptions become `Err`/`Failure` values carrying the thrown message. Their classes are not distinguished.
- A thrown exception also discards the partial results, as it does in Kotlin: the tokens read before a lexer error, and the declarators read before a failed build.
- ConditionalFormatting.Format: a non-conditional node gives `None`, standing for the `ClassCastException` of the cast. The JDK message is not modelled.
- ConditionalFormatting.IndentationCount: a configured number is an `int` setting. `Number.toInt()` truncation of fractional or wide numbers is not modelled.
- ConditionalFormatting.IndentCallLines: assumes the cast of `split`'s result to a mutable list succeeds, as it does on the JVM.
- Versions.ParseInt: accepts only the ASCII digits `0`-`9`. Kotlin's `toInt()` also accepts other Unicode decimal digits.
- Providers.AssignableExpressionProvider.GetAssignableExpressionResult: the collected and filtered messages are computed and then discarded by the source. The model does not build them, because nothing observes them.
- The command-line entry point (`cli/src/main/kotlin/Main.kt`) and the static-code analyser (`sca/src/main/kotlin/analyzers/ExpressionStatementAnalyzer.kt`) are not part of this model.
- `parser/src/test/kotlin/ParserTest.kt` is not modelled as a whole. Only the scenarios named in the table are stated as lemmas, with the builders' outputs those tests rely on given as hypotheses.

## Findings

| source | as written | input that shows it | evidently intended | confidence | as-written member | corrected member |
|---|---|---|---|---|---|---|
| src/main/kotlin/utils/astbuilder/VariableDeclarationBuilder.kt:13 | the start test `type != "LET" \|\| type != "CONST"` holds for every token kind, so `verify` rejects every line | `let a: number;` (first token LET) | reject only lines whose first token is neither LET nor CONST (`&&`) | not executed; follows from the condition alone | LegacyDeclaration.EveryStartRejected | LegacyDeclaration.VariableDeclarationBuilder.VerifyIntended |
| src/main/kotlin/utils/astbuilder/VariableDeclarationBuilder.kt:30-37 | the comma loop builds `tokens.subList(0, commaIndex)`, a prefix of the whole line, with an index found in the remaining tokens; the piece after the last comma is never built; the `lateinit` list is appended to before it is assigned | `let a: number, b: number;` | build each comma-separated piece of the remaining tokens, including the last, into a list that starts empty | not executed; the line is unreachable behind the first finding | LegacyDeclaration.AsWrittenPiecesDiffer | LegacyDeclaration.VariableDeclarationBuilder.CollectAtCommas |
