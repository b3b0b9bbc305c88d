# A verified model of a PHP-flavoured template interpreter

The system reads a template: literal text with `<?php ... ?>` code regions in it. It runs
this text through three stages.

1. **Tokenizer.** This is a scanner with two modes, outside and inside a code region. At
   each position it tries a fixed, ordered list of anchored patterns.
   - Outside a region it collects text. A `<` is held back as a pending prefix for the
     next text chunk.
   - Inside a region it skips `//` and `/* */` comments. It emits keyword (`echo`, `db`,
     `http`), variable, number, operator, string and punctuation tokens.
   - An open tag inside a region, or a close tag outside one, ends the scan early. The
     tokens collected so far are returned without the closing EOF token.
2. **Parser.** This is a recursive-descent parser with one forward cursor. It reads text,
   `echo e;`, `db "q";`, `http($v, "url", "data", "header", "type");` and `$v = e;`
   statements.
   - Expressions have two levels of precedence, `+ - .` under `* /`, and both levels
     group to the left.
   - A malformed statement is dropped. A token that cannot start a factor becomes a
     null node.
3. **Interpreter.** It runs the statements once, in order.
   - It appends to the output and binds variables to numbers or strings.
   - Database queries and http requests are shell commands run through an external
     command runner.

The repository also holds an older single-file variant of the whole pipeline (php.cpp).
It has tag tokens, emits every `<` as a text token of its own, and has no `http` statement
and no block comment. It is modelled in the `Legacy*` modules beside the canonical ones.

Every stage that works by updating state is a Dafny class:
- `Lexer.Tokenizer` and `LegacyLexer.Tokenizer` (fields `source`, `position`, `first`,
  `lastMatch`, `insidePHP`);
- `Parsing.Parser` and `LegacyParsing.Parser` (a const token vector and a `position` cursor);
- `Interp.Interpreter` and `LegacyInterp.Interpreter` (the `variables` map).

Each method is proved to compute a specification function: `Lexer.ScanFrom`,
`Grammar.ParseFrom`, `Interp.RunFrom` and their legacy counterparts. The properties are
proved as lemmas about those functions.

The two parts that are not deterministic code are parameters of the model.
- `Interp.Numerics` holds the number parser (`std::stod`, with the outcomes Numeric,
  Invalid and OutOfRange), the formatter (`std::to_string`) and the four arithmetic
  operations. The number type is a type parameter `N`.
- `Interp.Context` holds that value and `exec`, a function from a command line to the
  text the command prints.

Every property below holds for all such oracles.

Reading past the end of the token vector has undefined behaviour in the source. The
parser model reads an EOF token there instead (`Grammar.At`).

The legacy parser reuses the canonical grammar through a token projection
(`LegacyParsing.Project`):
- a tag token stands for a comma, since outside an http statement both are only an
  unexpected token;
- `T_PRINT` stands for `echo`;
- every other kind stands for its namesake.

The legacy parser class is proved against `Grammar.ParseFrom` of the projected tokens.
The legacy interpreter is the canonical one without the http branch, and
`LegacyInterp.AgreesWithCanonical` proves the two agree on what the legacy parser builds.

`Printer` is an independent second definition used as a reference. It prints a syntax
tree back to tokens, with parentheses only where precedence and left grouping need them.
Parsing its output gives the tree back (`Printer.ParsePrinted`). It is not the source's
`printAST`.

Behaviours of the code worth knowing:
- Keywords are bare prefixes with no word boundary, so `dbx` is the keyword `db`
  followed by a skipped `x`.
- Text without code regions is not always copied verbatim by the canonical tokenizer.
  It drops a `<` that is followed by another `<` or ends the input
  (`LexerFacts.KeptText`). The legacy tokenizer keeps every `<`.
- After `/*` the canonical scanner skips two more characters before it looks for `*/`,
  so `/**/` does not close at the first `*/`.
- The parser's top-level loop always advances. A malformed statement leaves the cursor
  on the offending token, and the next pass consumes at least that token, so parse
  terminates on every input (`Grammar.Statement` ensures `pos < r.next`).
- The branch that would emit a `<` text token before an open tag can never fire. After
  the match, the character before the cursor is the `p` of `<?php`.

## Model

| member | source | states |
|---|---|---|
| Lexer.Tokenizer.constructor | lexer.h:44-57 | a new tokenizer holds the given source, is at position 0, outside any code region, with empty `first` and `lastMatch` |
| Lexer.Tokenizer.Match | lexer.cpp:72-82 | succeeds exactly when the pattern matches at the position; then it advances by the match length and records the matched text; otherwise nothing changes |
| Lexer.Tokenizer.SkipComment | lexer.cpp:85-96 | stops where `Lexer.SkipLine` says |
| Lexer.SkipLine | lexer.cpp:85-96 | a `//` comment ends just after the first newline or just before the first `?>`, whichever is first, or at the end of the input; no `?>` starts inside the skipped part |
| Lexer.Tokenizer.SkipCommentMultiline | lexer.cpp:99-110 | stops where `Lexer.SkipBlock` says |
| Lexer.SkipBlock | lexer.cpp:99-110 | a block comment ends just after the first `*/` or just before the first `?>`, or at the end of the input |
| Lexer.CodeStep | lexer.cpp:23-34 | one pass inside a code region advances at least one character and emits at most one token, which is well formed (lexeme in its pattern's language, never EOF) |
| Lexer.WordStep | lexer.cpp:35-42 | variable, number, operator and `=` patterns: progress, at most one well-formed token |
| Lexer.PunctStep | lexer.cpp:43-55 | string, `;`, `,`, parentheses, else one character skipped: progress, at most one well-formed token |
| Lexer.TextStep | lexer.cpp:57-63 | a text run is emitted behind the pending prefix: progress, at most one well-formed token |
| Lexer.Step | lexer.cpp:7-22 | a pass that goes on advances and only appends tokens; a stop is an open tag inside a region or a close tag (not part of an open tag) outside one |
| Lexer.ScanFrom | lexer.cpp:6-65 | the scan only appends to the tokens collected so far |
| Lexer.Tokenizer.ScanCode | lexer.cpp:24-34 | the position and tokens after the pass are those of `Lexer.CodeStep` |
| Lexer.Tokenizer.ScanWord | lexer.cpp:35-42 | the position and tokens after the pass are those of `Lexer.WordStep` |
| Lexer.Tokenizer.ScanPunct | lexer.cpp:43-55 | the position and tokens after the pass are those of `Lexer.PunctStep` |
| Lexer.Tokenizer.ScanText | lexer.cpp:57-63 | a `<` becomes the pending prefix, anything else is the text step |
| Lexer.Tokenizer.EnterCode | lexer.cpp:13-16 | after an accepted open tag the scanner is inside a region and emits nothing: the `<` branch is dead |
| Lexer.Tokenizer.ScanStep | lexer.cpp:7-64 | one pass of the loop moves the state exactly as `Lexer.Step` does, and stops exactly on a mismatch; after a stop the position is past the tag, the mode is unchanged and an open tag has cleared `first` |
| Lexer.Tokenizer.Tokenize | lexer.cpp:4-69 | the result is the scan from the current state, closed by EOF only when the input ran out; position, mode and `first` are left as the scan ends them, so a second call resumes there |
| Patterns.VariableLength | lexer.cpp:35 | `\$[a-zA-Z_][a-zA-Z0-9_]*`: matches exactly at `$` and an identifier start; the match is a variable name and is maximal |
| Patterns.NumeralLength | lexer.cpp:37 | `\d+(\.\d+)?`: matches exactly at a digit; the match is a numeral, maximal, and takes the fraction whenever a digit follows the dot |
| Patterns.QuotedLength | lexer.cpp:43 | `"[^"]*"`: quotes at both ends and none inside, at least two characters; no match without a closing quote |
| Patterns.TextRunLength | lexer.cpp:59 | `[^<]+`: the longest run without `<` |
| Patterns.MatchLength | lexer.cpp:72-82 | an anchored match never runs past the end of the input |
| LexerFacts.TokenizeShape | lexer.cpp:67 | EOF occurs only as the last token, and it is there exactly when the scan did not stop at a mismatch; every other token is well formed |
| LexerFacts.ScanEnd | lexer.cpp:7-20 | a scan that runs out leaves the position at or past the end; one that stops leaves it just past the offending tag (5 or 2 characters), in the same mode, with `first` cleared by an open tag |
| LexerFacts.ScanMismatch | lexer.cpp:7-21 | a scan that stops does so at an open tag inside a region or at a close tag outside one |
| LexerFacts.ScanWellFormed | lexer.cpp:23-63 | every token a scan adds is well formed |
| LexerFacts.StepWellFormed | lexer.cpp:23-63 | every token one pass adds is well formed |
| LexerFacts.StrayCloseTag | lexer.cpp:17-21 | an input starting with `?>` tokenizes to the empty vector, without EOF |
| LexerFacts.PlainText | lexer.cpp:57-60 | a non-empty input without `<` that does not start with `?>` is exactly one text token with the whole input, then EOF |
| LexerFacts.TextOnly | lexer.cpp:56-64 | input without `<?` and not starting with `?>` gives text tokens then EOF, spelling the input less the dropped `<` characters (`KeptText`) |
| LexerFacts.OutsideScan | lexer.cpp:56-64 | on such input the scan outside regions runs to the end, adding only text tokens that spell the kept text |
| LexerFacts.AngleStep | lexer.cpp:57-58 | a `<` outside a region only becomes the pending prefix |
| LexerFacts.RunStep | lexer.cpp:59-60 | any other character outside a region starts a maximal run up to the next `<`, emitted behind the prefix |
| LexerFacts.KeywordPrefix | lexer.cpp:31-32 | `db` is read as the keyword whatever follows it (no word boundary) |
| LexerFacts.UnmatchedSkipped | lexer.cpp:53-54 | a character that starts no pattern is skipped with no token |
| Grammar.Expr | parser.cpp:109-119 | parseExpression consumes at least one token and yields an expression tree |
| Grammar.ExprLoop | parser.cpp:111-117 | the `+ - .` loop never moves back and yields an expression tree |
| Grammar.Term | parser.cpp:123-133 | parseTerm consumes at least one token and yields an expression tree |
| Grammar.TermLoop | parser.cpp:125-131 | the `* /` loop never moves back and yields an expression tree |
| Grammar.Factor | parser.cpp:137-164 | parseFactor consumes at least one token and yields an expression tree |
| Grammar.VarField | parser.cpp:186-191 | the optional variable argument consumes a token only when there is one |
| Grammar.StrField | parser.cpp:195-200 | an optional string argument consumes a token only when there is one |
| Grammar.OptionalFields | parser.cpp:202-230 | the nested optional arguments stay within the vector |
| Grammar.HttpRequest | parser.cpp:179-251 | parseHttpRequest consumes at least the `http` token and stays within the vector |
| Grammar.HttpClose | parser.cpp:232-242 | the closing `)` and `;` never move the cursor back |
| Grammar.Statement | parser.cpp:10-58 | every pass of parse's loop consumes at least one token |
| Grammar.ParseFrom | parser.cpp:7-61 | parse stops at the end of the vector or at an EOF token |
| Parsing.Parser.constructor | parser.h:101 | a new parser holds the given tokens, which it never changes, at cursor 0 |
| Parsing.Parser.Parse | parser.cpp:7-61 | the nodes and final cursor are those of `Grammar.ParseFrom` from the starting cursor |
| Parsing.Parser.ParseStatement | parser.cpp:10-58 | node and cursor are those of `Grammar.Statement` |
| Parsing.Parser.ParseExpression | parser.cpp:109-119 | node and cursor are those of `Grammar.Expr` |
| Parsing.Parser.ParseTerm | parser.cpp:123-133 | node and cursor are those of `Grammar.Term` |
| Parsing.Parser.ParseFactor | parser.cpp:137-164 | node and cursor are those of `Grammar.Factor` |
| Parsing.Parser.ParseVariable | parser.cpp:168-175 | a variable token is consumed into a variable node; otherwise null and the cursor unchanged |
| Parsing.Parser.ParseHttpRequest | parser.cpp:179-251 | node and cursor are those of `Grammar.HttpRequest` |
| Parsing.Parser.VariableArgument | parser.cpp:186-191 | name and cursor are those of `Grammar.VarField` |
| Parsing.Parser.StringArgument | parser.cpp:195-200 | value and cursor are those of `Grammar.StrField` |
| Parsing.Parser.OptionalArguments | parser.cpp:202-230 | arguments and cursor are those of `Grammar.OptionalFields` |
| GrammarFacts.ParseGivesStatements | parser.h:85-92 | every node parse returns is one of the five statements; an assignment target is a variable name; the children are expressions |
| GrammarFacts.StatementIsStatement | parser.cpp:10-58 | every node one pass builds is a statement |
| GrammarFacts.ParseCount | parser.cpp:9-58 | parse from a position yields at most one node per token read |
| GrammarFacts.ParseBound | parser.cpp:9-58 | the node count is at most the token count |
| GrammarFacts.TextRun | parser.cpp:10-12 | a run of text tokens becomes text nodes with the identical strings, in order |
| GrammarFacts.LeftAssociative | parser.cpp:109-133 | for three variable operands, `x o1 y o2 z` with two operators of one level parses as `(x o1 y) o2 z`; any operands are covered by `Printer.ExprRoundTrip` |
| GrammarFacts.MulBindsTighter | parser.cpp:109-133 | for three variable operands, `x a y m z` with `a` in `+ - .` and `m` in `* /` parses as `x a (y m z)`; any operands are covered by `Printer.ExprRoundTrip` |
| GrammarFacts.UnexpectedFactor | parser.cpp:159-163 | a token that cannot start a factor is consumed and yields the null node |
| GrammarFacts.UnclosedParen | parser.cpp:150-158 | without `)` the inner expression is returned and the offending token is not consumed |
| GrammarFacts.EchoWithoutSemicolon | parser.cpp:13-21 | an echo without `;` emits nothing and parse resumes at the offending token |
| GrammarFacts.AssignmentWithoutEquals | parser.cpp:41-54 | a variable not followed by `=` emits nothing and parse resumes after it |
| GrammarFacts.QueryKeepsQuotes | parser.cpp:22-35 | `db STRING ;` yields one query node whose query is the raw lexeme, quotes included |
| Printer.ExprRoundTrip | parser.cpp:109-164 | parseExpression reads back any printed expression tree and stops right after it |
| Printer.HttpTrip | parser.cpp:179-251 | parseHttpRequest reads back a printed http statement, all five fields in constructor order |
| Printer.StatementRoundTrip | parser.cpp:10-58 | one pass of parse reads back any printed statement and resumes right after it |
| Printer.ProgramRoundTrip | parser.cpp:7-61 | parse reads back a printed statement list followed by EOF |
| Printer.ParsePrinted | parser.cpp:7-61 | parse is a left inverse of printing: `Parse(Print(ns) + [EOF]) == ns` for every statement list |
| Interp.Arithmetic | interpret.cpp:75-86 | `+ - * /` succeed exactly when both operand strings parse as numbers; any other outcome throws |
| Interp.Unquote | interpret.cpp:91 | `substr(1, length - 2)` throws exactly on the empty lexeme, gives the empty string for one character (the length wraps around) and strips the two quotes of a lexeme of length two or more |
| Interp.Interpreter.constructor | interpret.h:24 | each interpreter starts with its own empty variables map |
| Interp.Interpreter.Interpret | interpret.cpp:10-44 | output, abort flag and new variables are those of `Interp.RunFrom` from the old variables |
| InterpFacts.StepFrame | interpret.cpp:12-41 | a statement changes no variable other than its target |
| InterpFacts.StepKeepsVariables | interpret.cpp:12-18 | text, print and query statements leave the variables as they were |
| InterpFacts.StepAppends | interpret.cpp:12-41 | a statement only appends to the output; only text, print and query write |
| InterpFacts.StepAborts | interpret.cpp:14-41 | a statement throws exactly when it is a print or an assignment whose expression throws |
| InterpFacts.HttpBinds | interpret.cpp:19-30 | an http statement binds its variable to the output of the curl command, as a string, and the request type plays no part |
| InterpFacts.AssignmentReads | interpret.cpp:31-41 | after an assignment the variable reads back as the formatted number or as the string; out of range leaves every variable as it was |
| InterpFacts.RunFrame | interpret.cpp:10-44 | a variable no statement targets keeps its binding, or its absence, through a run |
| InterpFacts.RunAppends | interpret.cpp:10-44 | a run only appends to the output |
| InterpFacts.RunConcat | interpret.cpp:11 | running two statement lists one after the other is running their concatenation; an abort skips the rest |
| InterpFacts.EvaluateLocal | interpret.cpp:57-96 | an expression's value depends only on the variables it reads |
| InterpFacts.NoArithmeticEvaluates | interpret.cpp:57-96 | expressions without arithmetic and empty string literals never throw, whatever the oracles |
| InterpFacts.RejectedOperandAborts | interpret.cpp:75-86 | an operand the number parser rejects (invalid or out of range) makes `+ - * /` throw |
| InterpFacts.OperandAborts | interpret.cpp:73-74 | an operand that throws makes the whole expression throw |
| InterpFacts.QuotedLiteral | interpret.cpp:91 | a string literal evaluates to the text between its quotes |
| InterpFacts.LeafValues | interpret.cpp:68-95 | a number literal is its raw lexeme; an unbound variable and the null node read as "0" |
| InterpFacts.ConcatStrings | interpret.cpp:87-88 | `.` is the plain concatenation of the operand strings |
| InterpFacts.ConcatAssociative | interpret.cpp:87-88 | `.` is associative |
| Pipeline.TextsRun | interpret.cpp:12-13 | text nodes write their strings one after another and bind nothing |
| Pipeline.MarkerFreeSource | main.cpp:30-47 | a source without `<?` and not starting with `?>` prints its kept text, binds nothing and never throws |
| Pipeline.PlainSource | main.cpp:30-47 | a non-empty source without `<` not starting with `?>` prints exactly itself |
| LegacyLexer.Tokenizer.constructor | php.cpp:39 | a new tokenizer holds the source at position 0, outside any code region |
| LegacyLexer.Tokenizer.Match | php.cpp:107-117 | succeeds exactly when the pattern matches at the position, then advances past it and records it; otherwise nothing changes |
| LegacyLexer.Tokenizer.SkipComment | php.cpp:119-134 | stops exactly where the canonical `Lexer.SkipLine` does |
| LegacyLexer.Tokenizer.SkipCommentMultiline | php.cpp:136-151 | stops exactly where the canonical `Lexer.SkipBlock` does |
| LegacyLexer.CodeStep | php.cpp:61-89 | one pass inside a region advances, emits at most one well-formed token, never a tag |
| LegacyLexer.WordStep | php.cpp:72-75 | variable and number patterns: progress, at most one well-formed token, never a tag |
| LegacyLexer.PunctStep | php.cpp:76-90 | operator, `=`, string and punctuation, else one character skipped: progress, at most one well-formed token |
| LegacyLexer.TextStep | php.cpp:91-99 | one pass outside a region advances and emits at most one well-formed token, never a tag |
| LegacyLexerFacts.TextGo | php.cpp:91-96 | outside a region a `<` is a text token of its own; any other character starts a maximal run up to the next `<` |
| LegacyLexer.Step | php.cpp:44-60 | a pass that goes on advances and only appends; a stop is an open tag inside or a close tag outside a region |
| LegacyLexer.ScanFrom | php.cpp:43-100 | the scan only appends to the tokens collected so far |
| LegacyLexer.Tokenizer.ScanCode | php.cpp:61-71 | the position and tokens after the pass are those of `LegacyLexer.CodeStep` |
| LegacyLexer.Tokenizer.ScanWord | php.cpp:72-75 | the position and tokens after the pass are those of `LegacyLexer.WordStep` |
| LegacyLexer.Tokenizer.ScanPunct | php.cpp:76-90 | the position and tokens after the pass are those of `LegacyLexer.PunctStep` |
| LegacyLexer.Tokenizer.ScanText | php.cpp:91-99 | the position and tokens after the pass are those of `LegacyLexer.TextStep` |
| LegacyLexer.Tokenizer.EnterCode | php.cpp:49-53 | after an accepted open tag only the open tag token is emitted: the `<` branch is dead |
| LegacyLexer.Tokenizer.ScanStep | php.cpp:44-99 | one pass moves the state exactly as `LegacyLexer.Step` does; after a stop the position is past the tag and the mode is unchanged |
| LegacyLexer.Tokenizer.Tokenize | php.cpp:41-104 | the result is the scan from the current state, closed by EOF only when the input ran out; position and mode are left as the scan ends them |
| LegacyLexerFacts.TokenizeShape | php.cpp:102 | EOF occurs only last, exactly when no mismatch stopped the scan; every other token is well formed |
| LegacyLexerFacts.ScanEnd | php.cpp:44-57 | a scan that runs out leaves the position at or past the end; one that stops leaves it just past the offending tag, in the same mode |
| LegacyLexerFacts.ScanMismatch | php.cpp:44-58 | a scan that stops does so at an open tag inside a region or a close tag outside one |
| LegacyLexerFacts.ScanWellFormed | php.cpp:61-99 | every token a scan adds is well formed |
| LegacyLexerFacts.TokenizeTags | php.cpp:44-60 | the tag tokens alternate, open tag first; a mismatch is at an open tag exactly when the last tag emitted is an open tag |
| LegacyLexerFacts.ScanTags | php.cpp:44-60 | every scan keeps the tags alternating and in agreement with the mode |
| LegacyLexerFacts.VerbatimText | php.cpp:91-99 | input without `<?` and not starting with `?>` gives text tokens then EOF, spelling the input exactly, every `<` included |
| LegacyLexerFacts.ScanVerbatim | php.cpp:91-99 | from a verbatim cursor the scan of such input runs to the end with text tokens spelling the whole input |
| LegacyLexerFacts.StrayCloseTag | php.cpp:54-58 | an input starting with `?>` tokenizes to the empty vector, without EOF |
| LegacyLexerFacts.SlashStar | php.cpp:62-67 | `/*` is not a comment: the slash is an operator token |
| LegacyLexerFacts.KeywordPrefix | php.cpp:70-71 | `db` is read as the keyword whatever follows it |
| LegacyLexerFacts.UnmatchedSkipped | php.cpp:88-89 | a character that starts no pattern, `,` among them, is skipped with no token |
| LegacyParsing.Project | php.cpp:13-28 | each legacy kind stands for one canonical kind: the tags for a comma, PRINT for echo, the others for their namesakes, never `http`; the lexeme is kept |
| LegacyParsing.ProjectAt | php.cpp:236-239 | the projected token at any index, EOF beyond the end included, corresponds to the legacy one |
| LegacyParsing.AddOpSpelling | php.cpp:297-298 | the `+ - .` test of the loop is the one-character operator test |
| LegacyParsing.MulOpSpelling | php.cpp:309-310 | the `* /` test of the loop is the one-character operator test |
| LegacyParsing.Parser.constructor | php.cpp:234 | a new parser holds the tokens at cursor 0 |
| LegacyParsing.Parser.Parse | php.cpp:236-289 | the nodes and cursor are those of `Grammar.ParseFrom` on the projected tokens |
| LegacyParsing.Parser.ParseStatement | php.cpp:238-287 | node and cursor are those of `Grammar.Statement` on the projected tokens; tags are skipped |
| LegacyParsing.Parser.ParsePrint | php.cpp:242-250 | an echo statement, as `Grammar.Statement` reads it |
| LegacyParsing.Parser.ParseQuery | php.cpp:255-268 | a query statement, as `Grammar.Statement` reads it |
| LegacyParsing.Parser.ParseAssignment | php.cpp:269-282 | an assignment, as `Grammar.Statement` reads it |
| LegacyParsing.Parser.ParseExpression | php.cpp:295-305 | node and cursor are those of `Grammar.Expr` on the projected tokens |
| LegacyParsing.Parser.ParseTerm | php.cpp:307-317 | node and cursor are those of `Grammar.Term` on the projected tokens |
| LegacyParsing.Parser.ParseFactor | php.cpp:319-346 | node and cursor are those of `Grammar.Factor` on the projected tokens |
| LegacyParsing.Parser.ParseVariable | php.cpp:348-355 | a variable token is consumed into a variable node; otherwise null, cursor unchanged |
| LegacyGrammarFacts.TagSkipped | php.cpp:251-254 | a tag where a statement may start is consumed alone and contributes nothing |
| LegacyGrammarFacts.NoHttpStatement | php.cpp:236-289 | the legacy parse never builds an http statement |
| LegacyGrammarFacts.ParseGivesStatements | php.cpp:236-289 | every node the legacy parse returns is a statement with expression children |
| LegacyInterp.Interpreter.constructor | php.cpp:440 | each interpreter starts with its own empty variables map |
| LegacyInterp.Interpreter.Interpret | php.cpp:361-385 | output, abort flag and new variables are those of `LegacyInterp.RunFrom` |
| LegacyInterp.AgreesWithCanonical | php.cpp:361-385 | on statements without an http node, interpret runs exactly as the canonical one does |
| LegacyInterp.HttpIgnored | php.cpp:361-385 | an http node, which matches no branch, changes nothing |
| LegacyPipeline.CanonicalRun | php.cpp:459-466 | the variant's run of a source is the canonical interpreter's run of its parse |
| LegacyPipeline.MarkerFreeSource | php.cpp:92-95 | a source without `<?` and not starting with `?>` prints exactly itself, every `<` included, binds nothing and never throws |
| LegacyPipeline.StrayCloseTag | php.cpp:54-58 | a source starting with `?>` prints nothing |
| Lexer.Result | lexer.cpp:67-68 | definition: EOF is appended only when the input ran out; its properties are in `LexerFacts.TokenizeShape` |
| Lexer.Tokenize | main.cpp:30-31 | definition: the tokens of a source for a fresh tokenizer; its properties are in `LexerFacts.TokenizeShape`, `LexerFacts.TextOnly` and `LexerFacts.StrayCloseTag` |
| Grammar.At | parser.cpp:9-10 | definition: the token at a cursor, EOF past the end; its properties are in `LegacyParsing.ProjectAt` |
| Grammar.Parse | main.cpp:39-40 | definition: parse from cursor 0; its properties are in `GrammarFacts.ParseGivesStatements`, `GrammarFacts.ParseBound` and `Printer.ParsePrinted` |
| Interp.Evaluate | interpret.cpp:57-96 | definition of evaluateExpression; its properties are in `InterpFacts.EvaluateLocal`, `InterpFacts.NoArithmeticEvaluates`, `InterpFacts.LeafValues`, `InterpFacts.ConcatStrings` and `InterpFacts.QuotedLiteral` |
| Interp.Step | interpret.cpp:12-41 | definition of one statement; its properties are in `InterpFacts.StepFrame`, `InterpFacts.StepAppends`, `InterpFacts.StepAborts` and `InterpFacts.HttpBinds` |
| Interp.RunFrom | interpret.cpp:10-44 | definition of interpret; its properties are in `InterpFacts.RunFrame`, `InterpFacts.RunAppends` and `InterpFacts.RunConcat` |
| Pipeline.RunSource | main.cpp:30-47 | definition: tokenize, parse and interpret with a fresh interpreter; its properties are in `Pipeline.MarkerFreeSource` and `Pipeline.PlainSource` |
| LegacyLexer.Result | php.cpp:102-103 | definition: EOF is appended only when the input ran out; its properties are in `LegacyLexerFacts.TokenizeShape` |
| LegacyLexer.Tokenize | php.cpp:459-460 | definition: the tokens of a source for a fresh tokenizer; its properties are in `LegacyLexerFacts.TokenizeShape`, `LegacyLexerFacts.TokenizeTags` and `LegacyLexerFacts.VerbatimText` |
| LegacyParsing.At | php.cpp:238-239 | definition: the token at a cursor, EOF past the end; its properties are in `LegacyParsing.ProjectAt` |
| LegacyParsing.Projection | php.cpp:13-28 | the projection of a token vector keeps its length; its properties are in `LegacyParsing.ProjectAt` and `LegacyPipeline.SpellingProjection` |
| LegacyParsing.Parse | php.cpp:462-463 | definition: the canonical grammar on the projected tokens from cursor 0; its properties are in `LegacyGrammarFacts.NoHttpStatement` and `LegacyGrammarFacts.ParseGivesStatements` |
| LegacyInterp.Step | php.cpp:362-384 | definition of one statement, an http node doing nothing; its properties are in `LegacyInterp.AgreesWithCanonical` and `LegacyInterp.HttpIgnored` |
| LegacyInterp.RunFrom | php.cpp:361-385 | definition of interpret; its properties are in `LegacyInterp.AgreesWithCanonical` |
| LegacyPipeline.RunSource | php.cpp:459-466 | definition: tokenize, parse and interpret with a fresh interpreter; its properties are in `LegacyPipeline.CanonicalRun`, `LegacyPipeline.MarkerFreeSource` and `LegacyPipeline.StrayCloseTag` |

## Left out

- exec: the `popen`/`fgets` process I/O is the parameter `Context.exec`; a failure to start the process, which throws, is not modelled.
- Floating point: `std::stod` (numeric prefixes, leading whitespace), `std::to_string` formatting and double arithmetic, division by zero included, are the uninterpreted fields of `Interp.Numerics`.
- `std::regex`: each fixed pattern is a hand-written anchored recogniser in `Patterns`; the regex engine itself is not modelled.
- Patterns.OpenTagLength, Patterns.LiteralLength and Patterns.OperatorLength: the fixed-literal patterns (`<\?php\b`, the literal strings, the operator class) are definitions, not claims; their contracts only restate which literal they accept, and their uses are checked through the tokenizer lemmas.
- Lexer.Tokenizer.Tokenize and LegacyLexer.Tokenizer.Tokenize: the value of `lastMatch` after the call is not stated; every read of it follows a match that sets it.
- `std::cerr` diagnostics are not modelled; only the control flow around them is.
- `Parser::printAST` (parser.cpp:65-105), `main.cpp` and the `main` of php.cpp are not modelled, apart from the tokenize-parse-interpret sequence they run (`Pipeline.RunSource`, `LegacyPipeline.RunSource`). Command-line checks and file reading are out.
- Output is a string the interpreter appends to; the buffering of `std::cout` and `std::endl` flushing are not modelled. On an uncaught exception the model keeps the output written before the failing statement.
- Memory ownership: `unique_ptr` children become datatype fields, so the tree is finite and has no sharing by construction. The null child is the node `Hole`.
- Token vector bounds: an index past the end reads an EOF token (`Grammar.At`, `LegacyParsing.At`). The source's behaviour there is undefined.
- The legacy syntax tree is the canonical `Ast.Node`. The legacy parser never builds an http node (`LegacyGrammarFacts.NoHttpStatement`).
- LegacyParsing.Parser.ParseExpression and LegacyParsing.Parser.ParseTerm: the loop guards test `IsAddOp`/`IsMulOp` instead of the source's three and two string comparisons; `LegacyParsing.AddOpSpelling` and `LegacyParsing.MulOpSpelling` prove the tests equal.
- LegacyParsing.Parser.ParseStatement: the `echo`, `db` and assignment branches are separate methods (`ParsePrint`, `ParseQuery`, `ParseAssignment`); the control flow is the same.
- `VariableValue` is `Interp.Value`, a datatype that is a number or a string and never both.
- The `lastMatch` field of the canonical tokenizer is kept but only `Match` writes it, as in the source.
