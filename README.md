# cSharpLox core, modelled in Dafny

cSharpLox is a tree-walking interpreter for Lox, written in C#. Source text
goes through a scanner, a recursive-descent expression parser, a static
resolver that works out scope distances, and an expression evaluator. These
stages share a runtime object model: environments, functions, classes and
instances. There is also a debug printer that renders expressions in a
parenthesized prefix form.

This project models each of those components in the form the C# code has.

- **Pure code becomes functions.** The evaluator, the printer's rendering and
  the class lookups are Dafny functions.
- **Stateful code becomes classes.** The scanner, the parser, the resolver, the
  environment chain and instances are Dafny classes. Their fields are updated
  in place by methods with `while`/`for` loops.
- **Each class method is proved against a specification function.**
  - the scanner against `LexicalGrammar.ScanStep` and `ScanFrom`;
  - the parser against the grammar functions of `ExprGrammar`;
  - the resolver against the `Resolution` step functions;
  - the environment against the scope-chain functions of `Frames`.

  The properties the interpreter relies on are proved as lemmas about those
  functions.

| module | file | models |
|---|---|---|
| `Tokens` | tokens.dfy | token kinds (enumeration order kept), literal values, tokens; numbers stay symbolic |
| `Outcomes` | outcomes.dfy | options, diagnostics, Lox runtime errors, the host exceptions the C# code can throw, results |
| `Syntax` | syntax.dfy | expression and statement nodes |
| `LexicalGrammar` | lexical_grammar.dfy | keyword table, character classes, one scanning step, the whole scan |
| `Scanning` | scanning.dfy | the `Scanner` object: `start`/`current`/`line` cursor, token list, loops |
| `ExprGrammar` | expr_grammar.dfy | the expression grammar as functions over a token list and a cursor |
| `Parsing` | parsing.dfy | the `Parser` object and its cursor |
| `Resolution` | resolution.dfy | the resolver as functions over its state (scope stack, function kind, diagnostics, distances) |
| `Resolving` | resolving.dfy | the `Resolver` object, one visitor method per node |
| `Frames` | frames.dfy | a scope chain as a sequence of frames, innermost first |
| `Runtime` | runtime.dfy | `Env`, `LoxFunction`, `LoxClass`, `LoxInstance`, runtime values |
| `Evaluation` | evaluation.dfy | truthiness, unary and binary operators, expression evaluation |
| `Printing` | printing.dfy | the expression printer |

In several places the C# code behaves differently from what a Lox
interpreter usually promises. The model follows the code:

- **`peekNext` bound check (Scanner.cs:236).** It tests `current + 1 > Length`,
  so a source ending in a digit and a `.` reads past the end. The whole scan
  then fails (`Tokenize` returns `None`).
- **`primary` (Parser.cs:84-99) and `visitBinaryExpr` (Interpreter.cs:8-31)
  have a reachable end with no `return`.** A C# compiler rejects such a
  method (error CS0161), so the code as written does not build and has no
  behaviour on those paths. The model gives them one:
  - `primary` with no matching case is the parse failure `NoPrimary`;
  - `+` on operands that are neither two numbers nor two strings, and a
    binary operator without a case, are the failure `MissingReturn`.
- **`visitVariableExpr` (Resolver.cs:102-110).** It reads the innermost scope
  with the dictionary indexer, so a name missing there throws `KeyNotFound`.
- **`declare` (Resolver.cs:159-168).** It reports a duplicate, then calls
  `Add`, which throws `DuplicateKey`.
- **`resolveLocal` (Resolver.cs:176-186).** It indexes the scope stack from the
  top, so index 0 is the innermost scope. Its loop starts at the outermost
  scope and records `Count - 1 - i`.
  - The usual description is a walk from the innermost scope outwards,
    recording the number of hops.
  - The code instead records the distance of the outermost holder from the
    bottom of the stack.
  - The model reproduces the code (`Resolution.OutermostHolderCounts`,
    `Resolution.InnermostOnlyRecordsDepth`).

## Model

| member | source | states |
|---|---|---|
| Tokens.Ordinal | cSharpLox/lox/TokenType.cs:3-20 | the enumeration value of a kind is 0 exactly for IDENTIFIER (the scanner's "not a keyword" test relies on it) |
| LexicalGrammar.LookupStored | cSharpLox/lox/Scanner.cs:10-31 | a keyword lookup yields either the default kind or a kind stored under that text |
| LexicalGrammar.LookupAbsent | cSharpLox/lox/Scanner.cs:219 | a text not in the table yields the default kind, value 0 |
| LexicalGrammar.LookupPresent | cSharpLox/lox/Scanner.cs:219 | with distinct keys, a stored text yields the kind stored under it |
| LexicalGrammar.KeywordTextsDistinct | cSharpLox/lox/Scanner.cs:12-31 | the sixteen keyword texts are pairwise distinct, so the static constructor's `Add` calls never throw |
| LexicalGrammar.KeywordType | cSharpLox/lox/Scanner.cs:218-220 | an identifier-shaped lexeme never gets the EOF kind |
| LexicalGrammar.KeywordKind | cSharpLox/lox/Scanner.cs:212-222 | a keyword lexeme gets its keyword's kind |
| LexicalGrammar.NonKeywordKind | cSharpLox/lox/Scanner.cs:212-222 | a lexeme that is no keyword gets IDENTIFIER (kind 0 replaced) |
| LexicalGrammar.PeekAt | cSharpLox/lox/Scanner.cs:142-146 | the current character, or NUL at the end |
| LexicalGrammar.PeekNextAt | cSharpLox/lox/Scanner.cs:234-238 | the next character, or NUL when two or more past the end; it fails exactly when the next index equals the length (the index the bound check lets through) |
| LexicalGrammar.SpanEnd | cSharpLox/lox/Scanner.cs:203 | a skip loop stops at the first character outside its class: every character skipped is in the class and the next one is not |
| LexicalGrammar.SpanEndAt | cSharpLox/lox/Scanner.cs:214-217 | any position that ends a maximal run of the class is the position the skip loop stops at |
| LexicalGrammar.LineFeedsSplit | cSharpLox/lox/Scanner.cs:118-120 | the count of line feeds over a span is the sum over any split of it |
| LexicalGrammar.OperatorStepShape | cSharpLox/lox/Scanner.cs:90-101 | an operator step consumes one or two characters and emits one non-EOF token for exactly that text |
| LexicalGrammar.StringStepShape | cSharpLox/lox/Scanner.cs:182-199 | a string step moves forward and emits at most one token, for the text it consumed |
| LexicalGrammar.NumberStepShape | cSharpLox/lox/Scanner.cs:201-210 | a number step moves forward or fails only at a trailing `.`; its token is the text it consumed |
| LexicalGrammar.IdentifierStepShape | cSharpLox/lox/Scanner.cs:212-222 | an identifier step moves forward and emits one token for the text it consumed |
| LexicalGrammar.Classify | cSharpLox/lox/Scanner.cs:56-138 | the character switch: a character is in the digit case exactly when it is a digit, and in the letter case exactly when it is a letter or `_`; no case emits EOF |
| LexicalGrammar.ScanStep | cSharpLox/lox/Scanner.cs:55-140 | one `scanToken` call consumes at least one character, emits at most one token and at most one diagnostic, and never emits EOF; the token's lexeme is exactly the consumed text; the only crash is a trailing digit-then-`.` |
| LexicalGrammar.StringStepLineFeeds | cSharpLox/lox/Scanner.cs:184-188 | a string step raises `line` by exactly the line feeds inside the string |
| LexicalGrammar.NumberStepLineFeeds | cSharpLox/lox/Scanner.cs:201-210 | a number step consumes no line feed and keeps `line` |
| LexicalGrammar.IdentifierStepLineFeeds | cSharpLox/lox/Scanner.cs:212-222 | an identifier step consumes no line feed and keeps `line` |
| LexicalGrammar.StepCountsLineFeeds | cSharpLox/lox/Scanner.cs:118-120 | every step raises `line` by exactly the number of line feeds it consumed, in whitespace, comments or strings |
| LexicalGrammar.OperatorMunch | cSharpLox/lox/Scanner.cs:90-101 | `!`, `=`, `<`, `>` take a following `=` exactly when there is one, giving the two-character kind; otherwise the one-character kind |
| LexicalGrammar.SlashOrComment | cSharpLox/lox/Scanner.cs:102-112 | `//` emits nothing and stops just before the next line feed or at the end; a lone `/` emits SLASH |
| LexicalGrammar.StringLiteralStep | cSharpLox/lox/Scanner.cs:182-199 | a terminated string emits one STRING token whose literal is the text strictly between the quotes; an unterminated one, which has no `"` anywhere after the opening one, runs to the end, reports "Unterminated string" and emits nothing; a token comes out exactly when a closing `"` exists |
| LexicalGrammar.NumberLexeme | cSharpLox/lox/Scanner.cs:201-210 | a number lexeme is a digit run optionally followed by `.` and digits, and it is the longest one: no digit follows, and a digit run is not followed by `.` and a digit |
| LexicalGrammar.FractionLexeme | cSharpLox/lox/Scanner.cs:204-208 | digits, a `.` and at least one digit form a number lexeme with a fraction |
| LexicalGrammar.Dispatch | cSharpLox/lox/Scanner.cs:121-136 | `"` starts a string, a digit a number, a letter an identifier |
| LexicalGrammar.IdentifierKind | cSharpLox/lox/Scanner.cs:212-222 | an identifier takes the longest alphanumeric run and gets the keyword table's kind for it |
| LexicalGrammar.UnexpectedCharacter | cSharpLox/lox/Scanner.cs:126-138 | any other character reports "Unexpected character." at the current line, emits nothing, and scanning goes on after it |
| LexicalGrammar.PrependTwice | cSharpLox/lox/Scanner.cs:38-48 | output gathered over two stretches of the loop composes |
| LexicalGrammar.ScanFromNoEof | cSharpLox/lox/Scanner.cs:38-44 | the scanning loop never emits EOF |
| LexicalGrammar.ScanFromLines | cSharpLox/lox/Scanner.cs:38-44 | `line` never decreases, and a finished scan ends on the start line plus the line feeds consumed |
| LexicalGrammar.ScanFromCrash | cSharpLox/lox/Scanner.cs:234-238 | a scan crashes only on a source whose last two characters are a digit and `.` |
| LexicalGrammar.TokenizeEndsWithEof | cSharpLox/lox/Scanner.cs:38-48 | `scanTokens` ends with exactly one EOF token, carrying line 1 plus the number of line feeds in the source, and no earlier token is EOF |
| LexicalGrammar.TokenizeFails | cSharpLox/lox/Scanner.cs:234-238 | `scanTokens` fails only on a source ending in a digit and `.` |
| Scanning.ScanOn | cSharpLox/lox/Scanner.cs:40-44 | one loop turn keeps the cursor inside the source and keeps the scan's total output equal to what `ScanFrom` predicts, or crashes as it does |
| Scanning.Scanner.constructor | cSharpLox/lox/Scanner.cs:33-36 | a new scanner is at position 0, line 1, with no tokens |
| Scanning.Scanner.ScanTokens | cSharpLox/lox/Scanner.cs:38-48 | the token list grows by the scan's tokens and then the EOF token; diagnostics, `line` and `current` are those of `ScanFrom`; a crash returns no list |
| Scanning.Scanner.ScanToken | cSharpLox/lox/Scanner.cs:55-140 | the cursor, line, tokens and diagnostics change exactly as `ScanStep` says |
| Scanning.Scanner.IsAtEnd | cSharpLox/lox/Scanner.cs:50-53 | with the cursor in bounds, true exactly at the end of the source |
| Scanning.Scanner.Match | cSharpLox/lox/Scanner.cs:148-154 | consumes one character exactly when it is the expected one |
| Scanning.Scanner.Advance | cSharpLox/lox/Scanner.cs:156-159 | returns the current character and moves past it |
| Scanning.Scanner.AddToken | cSharpLox/lox/Scanner.cs:161-175 | appends one token whose lexeme is `source[start..current]`, at the current line |
| Scanning.Scanner.ScanString | cSharpLox/lox/Scanner.cs:182-199 | the state changes exactly as `StringStep` says |
| Scanning.Scanner.SkipStringBody | cSharpLox/lox/Scanner.cs:184-188 | stops at the closing quote or the end, counting line feeds |
| Scanning.Scanner.ScanNumber | cSharpLox/lox/Scanner.cs:201-210 | the state changes exactly as `NumberStep` says, including the trailing-`.` crash |
| Scanning.Scanner.SkipFraction | cSharpLox/lox/Scanner.cs:204-208 | the fraction is consumed exactly when `.` is followed by a digit; the crash case leaves the cursor |
| Scanning.Scanner.ScanIdentifier | cSharpLox/lox/Scanner.cs:212-222 | the state changes exactly as `IdentifierStep` says |
| Scanning.Scanner.SkipWhile | cSharpLox/lox/Scanner.cs:203-217 | a skip loop stops where `SpanEnd` says |
| Scanning.Scan | cSharpLox/lox/Scanner.cs:33-48 | a fresh scanner's `scanTokens` returns `Tokenize(source)` and reports the scan's diagnostics |
| ExprGrammar.Tighter | cSharpLox/lox/Parser.cs:24-71 | each binary level's operands come from the next tighter level |
| ExprGrammar.OperatorsBind | cSharpLox/lox/Parser.cs:24-71 | an operator matched at a level binds as tightly as that level |
| ExprGrammar.ExpressionAt | cSharpLox/lox/Parser.cs:19-22 | a successful parse consumes at least one token and stays before the end of the list; a failure stops inside the list |
| ExprGrammar.LevelAt | cSharpLox/lox/Parser.cs:24-71 | the same progress bounds for each binary level |
| ExprGrammar.OperandAt | cSharpLox/lox/Parser.cs:24-71 | the same progress bounds for a level's operand |
| ExprGrammar.LevelRest | cSharpLox/lox/Parser.cs:28-34 | the operator loop never moves backwards and stays inside the list |
| ExprGrammar.UnaryAt | cSharpLox/lox/Parser.cs:73-82 | progress bounds for unary |
| ExprGrammar.PrimaryAt | cSharpLox/lox/Parser.cs:84-99 | progress bounds for primary |
| ExprGrammar.GroupAt | cSharpLox/lox/Parser.cs:93-98 | progress bounds for a parenthesized expression |
| ExprGrammar.ExpressionNested | cSharpLox/lox/Parser.cs:19-71 | every tree the parser yields is well nested: each level is left-associative, `* /` bind tighter than `+ -`, which bind tighter than comparisons, which bind tighter than equality |
| ExprGrammar.LevelNested | cSharpLox/lox/Parser.cs:24-71 | a level's tree is well nested and binds at least as tightly as the level |
| ExprGrammar.OperandNested | cSharpLox/lox/Parser.cs:24-71 | an operand binds strictly tighter than its level |
| ExprGrammar.LevelRestNested | cSharpLox/lox/Parser.cs:28-34 | the loop's `expr = Binary(expr, oper, right)` builds a left-nested chain |
| ExprGrammar.UnaryNested | cSharpLox/lox/Parser.cs:73-82 | unary operators nest to the right over unary or primary operands |
| ExprGrammar.PrimaryNested | cSharpLox/lox/Parser.cs:84-99 | primary yields only a literal or a group: `false`, `true` and `nil` give their literal, a NUMBER or STRING token its stored literal, `(` a group, and any other token (a unary operator included) the failure `NoPrimary` at that token |
| ExprGrammar.GroupNested | cSharpLox/lox/Parser.cs:93-98 | a group is a `Grouping` node around a well-nested expression |
| ExprGrammar.UnaryStarts | cSharpLox/lox/Parser.cs:73-99 | unary fails at once with no result exactly when the token is none of `!`, `-`, `false`, `true`, `nil`, a number, a string or `(` |
| ExprGrammar.LevelStarts | cSharpLox/lox/Parser.cs:24-71 | every binary level fails at once exactly when unary does |
| ExprGrammar.NoExpressionStart | cSharpLox/lox/Parser.cs:19-99 | `expression` fails at once with no result exactly when the token cannot start an expression |
| ExprGrammar.ExpressionSpells | cSharpLox/lox/Parser.cs:19-99 | a tree the parser yields reads back, left to right, as exactly the tokens it consumed: the same literals, parentheses and operator tokens in the same order, nothing dropped or added |
| ExprGrammar.LevelSpells | cSharpLox/lox/Parser.cs:24-71 | the same for each binary level |
| ExprGrammar.OperandSpells | cSharpLox/lox/Parser.cs:24-71 | the same for a level's operand |
| ExprGrammar.LevelRestSpells | cSharpLox/lox/Parser.cs:28-34 | each `Binary(expr, oper, right)` the loop builds puts the operator token it matched between the tokens of its two operands |
| ExprGrammar.UnarySpells | cSharpLox/lox/Parser.cs:73-82 | a unary node is its operator token followed by its operand's tokens |
| ExprGrammar.PrimarySpells | cSharpLox/lox/Parser.cs:84-99 | a literal is its one token; a group is `(`, its expression's tokens, `)` |
| ExprGrammar.GroupSpells | cSharpLox/lox/Parser.cs:93-98 | a group's expression is followed by the `)` that `consume` passes |
| ExprGrammar.ViewsSplit | cSharpLox/lox/Parser.cs:24-71 | the symbols of adjacent token ranges concatenate |
| ExprGrammar.OperatorViews | cSharpLox/lox/Parser.cs:24-71 | an operator a level matches is not a literal or a parenthesis, so it stands for itself |
| ExprGrammar.NumberOperand | cSharpLox/lox/Parser.cs:24-99 | a number not followed by a tighter operator is an operand at any level, consuming one token |
| ExprGrammar.LevelPassesOn | cSharpLox/lox/Parser.cs:24-71 | a level whose operand is followed by none of its operators returns that operand unchanged |
| ExprGrammar.MinusChainsLeft | cSharpLox/lox/Parser.cs:44-55 | `a - b - c` parses as `(a - b) - c`, consuming all five tokens |
| ExprGrammar.StarBindsTighter | cSharpLox/lox/Parser.cs:44-71 | `a + b * c` parses as `a + (b * c)`, consuming all five tokens |
| Parsing.Parser.constructor | cSharpLox/lox/Parser.cs:15-18 | a new parser is at token 0 |
| Parsing.Parser.Expression | cSharpLox/lox/Parser.cs:19-22 | the result is `ExpressionAt`; the cursor ends where that parse stopped, and only a failed `consume` reports |
| Parsing.Parser.Level | cSharpLox/lox/Parser.cs:24-71 | `equality`, `comparison`, `term` and `factor` return `LevelAt` for their level |
| Parsing.Parser.LevelLoop | cSharpLox/lox/Parser.cs:28-34 | the operator loop returns `LevelRest` |
| Parsing.Parser.Operand | cSharpLox/lox/Parser.cs:24-71 | an operand parse returns `OperandAt` |
| Parsing.Parser.UnaryLevel | cSharpLox/lox/Parser.cs:73-82 | `unary` returns `UnaryAt` |
| Parsing.Parser.Primary | cSharpLox/lox/Parser.cs:84-99 | `primary` returns `PrimaryAt` |
| Parsing.Parser.Group | cSharpLox/lox/Parser.cs:93-98 | a group returns `GroupAt`, reporting "Expect ')' after expression." at the token where `)` was missing |
| Parsing.Parser.Consume | cSharpLox/lox/Parser.cs:101-111 | a token of the expected kind is returned and passed; otherwise the message is reported at the current token and nothing is consumed |
| Parsing.Parser.Match | cSharpLox/lox/Parser.cs:113-124 | consumes one token exactly when its kind is among those given (never EOF), else nothing |
| Parsing.Parser.Advance | cSharpLox/lox/Parser.cs:142-146 | moves one token on unless at EOF, and returns the token before the cursor |
| Parsing.Parser.Check | cSharpLox/lox/Parser.cs:126-130 | true exactly when the current token has the kind asked for and that kind is not EOF |
| Parsing.Parser.IsAtEnd | cSharpLox/lox/Parser.cs:132-135 | true exactly on the EOF token; anywhere else another token follows |
| Resolution.Declare | cSharpLox/lox/Resolver.cs:159-168 | no scope open: nothing changes; a name already in the innermost scope: the duplicate is reported and `Add` throws; otherwise the name is marked declared-not-defined in the innermost scope and nothing else changes |
| Resolution.Define | cSharpLox/lox/Resolver.cs:170-174 | no scope open: nothing changes; otherwise the name is marked defined in the innermost scope and nothing else changes |
| Resolution.HolderBelow | cSharpLox/lox/Resolver.cs:178-184 | the loop from index `Count - 1` down finds the highest index below a bound whose scope holds the name, or none |
| Resolution.ResolveLocal | cSharpLox/lox/Resolver.cs:176-186 | only the side table changes; an entry is recorded only when some open scope holds the name, and its distance lies in `[0, Count)` |
| Resolution.ExprKeepsScopes | cSharpLox/lox/Resolver.cs:13-110 | resolving an expression never changes the scope stack or the current function kind, whether it completes or throws, and only appends diagnostics |
| Resolution.ExprsKeepScopes | cSharpLox/lox/Resolver.cs:38-41 | the same for the arguments of a call |
| Resolution.StmtRestores | cSharpLox/lox/Resolver.cs:27-129 | a statement that completes leaves the scope stack as deep as before and the function kind as before; block and function scopes are pushed and popped in balance |
| Resolution.StmtsRestore | cSharpLox/lox/Resolver.cs:131-137 | the same for a statement list |
| Resolution.MethodsRestore | cSharpLox/lox/Resolver.cs:207-210 | the same for a class's methods |
| Resolution.FunctionRestores | cSharpLox/lox/Resolver.cs:188-201 | `resolveFunction` restores the enclosing function kind and the scope stack when it completes |
| Resolution.ParamsDefined | cSharpLox/lox/Resolver.cs:193-197 | after the parameter loop each parameter is defined in the innermost scope, and the outer scopes are untouched |
| Resolution.DefinedStaysDefined | cSharpLox/lox/Resolver.cs:193-197 | declaring more parameters never undoes a definition |
| Resolution.FunctionBodyScope | cSharpLox/lox/Resolver.cs:188-198 | the body of a function is resolved with the given kind, in one fresh scope over the enclosing ones that holds every parameter as defined |
| Resolution.InitializerSeesDeclared | cSharpLox/lox/Resolver.cs:102-122 | while a `var` initializer is resolved, reading the variable reports "Can't read local variable in its own initializer."; after `define` the read does not report |
| Resolution.ReturnReported | cSharpLox/lox/Resolver.cs:228-239 | at top level, `return` (with or without a value) reports "Can't return from top-level code." before its value is resolved, and the report stays whatever the value adds; inside a function it only resolves its value; without a value it always completes |
| Resolution.OutermostHolderCounts | cSharpLox/lox/Resolver.cs:176-186 | with `i` the highest stack index whose scope holds the name, the recorded distance is `Count - 1 - i` |
| Resolution.OneScopeRecordsZero | cSharpLox/lox/Resolver.cs:176-186 | with one scope open and holding the name, the distance recorded is 0 |
| Resolution.InnermostOnlyRecordsDepth | cSharpLox/lox/Resolver.cs:176-186 | a name held only by the innermost scope is recorded at distance `Count - 1` |
| Resolving.Finished | cSharpLox/lox/Resolver.cs:131-147 | a method's final state and exception give the outcome its specification function computes |
| Resolving.Resolver.constructor | cSharpLox/lox/Resolver.cs:6-11 | a new resolver has no scopes, function kind NONE and an empty side table |
| Resolving.Resolver.ResolveAll | cSharpLox/lox/Resolver.cs:131-137 | the statements are resolved in order, stopping at the first exception, as `ResolveStmts` says |
| Resolving.Resolver.ResolveStmt | cSharpLox/lox/Resolver.cs:139-142 | each statement ends in the state `Resolution.ResolveStmt` computes |
| Resolving.Resolver.VisitBlockStmt | cSharpLox/lox/Resolver.cs:27-33 | a block is resolved in a scope of its own |
| Resolving.Resolver.VisitClassStmt | cSharpLox/lox/Resolver.cs:203-213 | the class name is declared and defined, then each method is resolved as METHOD |
| Resolving.Resolver.VisitFunctionStmt | cSharpLox/lox/Resolver.cs:51-57 | the function name is declared and defined before the body is resolved as FUNCTION |
| Resolving.Resolver.VisitIfStmt | cSharpLox/lox/Resolver.cs:65-74 | condition, then branch, then the else branch when there is one |
| Resolving.Resolver.VisitReturnStmt | cSharpLox/lox/Resolver.cs:228-239 | the top-level report, then the value when there is one |
| Resolving.Resolver.VisitVarStmt | cSharpLox/lox/Resolver.cs:112-122 | declare, resolve the initializer, define |
| Resolving.Resolver.ResolveExpr | cSharpLox/lox/Resolver.cs:144-147 | each expression ends in the state `Resolution.ResolveExpr` computes; an assignment resolves its value before its target |
| Resolving.Resolver.VisitCallExpr | cSharpLox/lox/Resolver.cs:35-43 | the callee, then every argument in order |
| Resolving.Resolver.VisitVariableExpr | cSharpLox/lox/Resolver.cs:102-110 | the own-initializer check against the innermost scope (throwing when the name is not there), then `resolveLocal` |
| Resolving.Resolver.ResolveFunction | cSharpLox/lox/Resolver.cs:188-201 | the kind is set, a scope holding the parameters wraps the body, then the enclosing kind is restored and the scope popped |
| Resolving.Resolver.BeginScope | cSharpLox/lox/Resolver.cs:149-152 | pushes an empty scope |
| Resolving.Resolver.EndScope | cSharpLox/lox/Resolver.cs:154-157 | pops the innermost scope; an empty stack throws |
| Resolving.Resolver.Declare | cSharpLox/lox/Resolver.cs:159-168 | the state changes exactly as `Resolution.Declare` says |
| Resolving.Resolver.Define | cSharpLox/lox/Resolver.cs:170-174 | the state changes exactly as `Resolution.Define` says |
| Resolving.Resolver.ResolveLocal | cSharpLox/lox/Resolver.cs:176-186 | the side table changes exactly as `Resolution.ResolveLocal` says |
| Frames.Nearest | cSharpLox/lox/Environment.cs:24-33 | the innermost frame holding a name: it holds it and no frame before it does; none exactly when no frame holds it |
| Frames.NearestByMembership | cSharpLox/lox/Environment.cs:24-33 | which frame a name is found in depends only on which frames hold it |
| Frames.BindThenLookup | cSharpLox/lox/Environment.cs:18-33 | after a definition, a lookup of the name sees the new value and every other name's lookup is unchanged |
| Frames.ReassignThenLookup | cSharpLox/lox/Environment.cs:51-64 | an assignment succeeds exactly when the name is bound somewhere; it then never adds or removes a binding, the next lookup sees the value, and every other name's lookup is unchanged |
| Frames.ReassignOuter | cSharpLox/lox/Environment.cs:58-62 | past an innermost frame without the name, assigning is assigning in the enclosing chain |
| Frames.ReassignInner | cSharpLox/lox/Environment.cs:53-57 | a name held by the innermost frame is overwritten there |
| Runtime.Env.constructor | cSharpLox/lox/Environment.cs:8-16 | a new environment has the given `enclosing` and an empty table |
| Runtime.Env.AncestorLinked | cSharpLox/lox/Environment.cs:41-49 | the k-th ancestor's `enclosing` is the next one, and the chain ends in null |
| Runtime.Env.Frames | cSharpLox/lox/Environment.cs:5-6 | the tables of the chain, this environment's first, then each ancestor's in order |
| Runtime.Env.Define | cSharpLox/lox/Environment.cs:18-21 | only this environment's own table changes: the name is inserted or overwritten |
| Runtime.Env.Get | cSharpLox/lox/Environment.cs:24-33 | the value from the nearest environment holding the name, else "Undefined variable 'n'." |
| Runtime.Env.Assign | cSharpLox/lox/Environment.cs:51-64 | the chain changes as `Reassign` says: the nearest binding is overwritten; an unbound name raises "Undefined variable 'n'." and changes nothing |
| Runtime.Env.Ancestor | cSharpLox/lox/Environment.cs:41-49 | follows exactly `distance` enclosing links (`this` for 0 or less); one link past the chain is null, and going further throws a null reference |
| Runtime.Env.GetAt | cSharpLox/lox/Environment.cs:35-39 | reads only the ancestor's own table, ignoring shadowing; a missing key throws |
| Runtime.Env.AssignAt | cSharpLox/lox/Environment.cs:66-69 | writes only the ancestor's own table, inserting or overwriting; every other table is unchanged |
| Runtime.Env.Apart | cSharpLox/lox/Environment.cs:5 | the environments of a chain are distinct objects |
| Runtime.Env.StoreAt | cSharpLox/lox/Environment.cs:68 | writing one table of the chain changes that frame only |
| Runtime.LoxFunction.constructor | cSharpLox/lox/LoxFunction.cs:6-10 | a function keeps its declaration and closure |
| Runtime.LoxFunction.ToString | cSharpLox/lox/LoxFunction.cs:17-20 | `<fn `, the name, ` >` |
| Runtime.LoxFunction.Call | cSharpLox/lox/LoxFunction.cs:22-38 | a fresh environment enclosed by the closure (not the caller) binds each parameter that has an argument; too few arguments then throws, otherwise the call returns the body's returned value, null when the body completes, or the body's failure |
| Runtime.BindingsHoldArguments | cSharpLox/lox/LoxFunction.cs:25-28 | the i-th parameter is bound to the i-th argument (the last of equal names wins) |
| Runtime.BindingsBindParams | cSharpLox/lox/LoxFunction.cs:25-28 | the fresh environment binds exactly the parameter names |
| Runtime.LoxClass.constructor | cSharpLox/lox/LoxClass.cs:9-13 | a class keeps its name and method table |
| Runtime.LoxClass.Call | cSharpLox/lox/LoxClass.cs:20-24 | ignores the arguments and returns a new instance of this class with no fields |
| Runtime.LoxClass.FindMethod | cSharpLox/lox/LoxClass.cs:31-38 | the method under the name when there is one, null exactly when there is none |
| Runtime.LoxInstance.constructor | cSharpLox/lox/LoxInstance.cs:6-11 | a new instance has its class and an empty field table |
| Runtime.LoxInstance.Get | cSharpLox/lox/LoxInstance.cs:13-22 | a field wins over a method of the same name; then the class's method; else "Undefined property 'n'." |
| Runtime.LoxInstance.Set | cSharpLox/lox/LoxInstance.cs:24-34 | inserts or overwrites one field; afterwards `get` returns the value and every other name's `get` is unchanged |
| Runtime.LoxInstance.ToString | cSharpLox/lox/LoxInstance.cs:36-39 | the text starts with the class name and ends with " instance", nothing else |
| Evaluation.FromLiteral | cSharpLox/lox/Interpreter.cs:38-41 | a literal evaluates to its stored value: the same boolean, number or string, and null for nil |
| Evaluation.AsNumber | cSharpLox/lox/Interpreter.cs:14-29 | the `(double)` cast: a number unboxes to itself, null throws a null reference, anything else an invalid cast |
| Evaluation.IsTruthy | cSharpLox/lox/Interpreter.cs:62-67 | null and false are falsey, a boolean is its own truth, everything else (0 and "" included) is truthy |
| Evaluation.EvalUnary | cSharpLox/lox/Interpreter.cs:43-55 | `!` gives the boolean negation of the operand's truthiness and never fails; unary `-` succeeds exactly on a number and negates it, and null and other operands fail differently; any other operator gives null |
| Evaluation.Plus | cSharpLox/lox/Interpreter.cs:16-25 | `+` succeeds exactly on two numbers (their sum) or two strings (their concatenation) |
| Evaluation.Arithmetic | cSharpLox/lox/Interpreter.cs:14-29 | `-`, `/`, `*` succeed exactly on two numbers, giving their difference, quotient and product respectively; otherwise the left operand's cast fails first |
| Evaluation.EvalBinary | cSharpLox/lox/Interpreter.cs:12-30 | `+` is `Plus`; `-`, `/` and `*` are `Arithmetic` for that operator; an operator without a case leaves without a value; every failure is a host exception and every success a number or a string |
| Evaluation.Evaluate | cSharpLox/lox/Interpreter.cs:8-60 | evaluation never yields a function, class or instance, and never raises a Lox runtime error: each failure is a host exception |
| Evaluation.LeftFailureFirst | cSharpLox/lox/Interpreter.cs:8-12 | both operands are evaluated left first: a failing left operand is the binary node's failure |
| Evaluation.NumericEvaluates | cSharpLox/lox/Interpreter.cs:8-55 | arithmetic over number literals never fails and yields a number |
| Evaluation.ConcatenationEvaluates | cSharpLox/lox/Interpreter.cs:8-41 | a `+` chain of string literals evaluates to their concatenation in source order |
| Printing.Render | cSharpLox/lox/AstPrinter.cs:6-44 | every node but a literal prints in parentheses, with the operator's lexeme (or `group`) right after the `(` |
| Printing.Print | cSharpLox/lox/AstPrinter.cs:6-30 | printing by visitor gives `Render`: a binary node is `(op left right)`, a grouping `(group inner)`, a unary `(op operand)`, null is `nil` |
| Printing.RenderAll | cSharpLox/lox/AstPrinter.cs:35-40 | one rendering per child, in argument order |
| Printing.Parenthesize | cSharpLox/lox/AstPrinter.cs:32-44 | `(`, the name, each child's rendering after one space in argument order, `)` |
| Printing.SpacedSnoc | cSharpLox/lox/AstPrinter.cs:35-40 | appending one more child adds one space and its rendering at the end |
| Printing.ParenthesizedCount | cSharpLox/lox/AstPrinter.cs:32-44 | a parenthesized form adds exactly one `(` and one `)` to what its children hold |
| Printing.ParenthesesCountNodes | cSharpLox/lox/AstPrinter.cs:11-44 | when no operator or literal text holds a parenthesis, the output has exactly one `(` and one `)` per operator or grouping node |

## Left out

- Program.cs: the driver is not part of this model. That covers console and file I/O, the REPL and the `hadError` flag. `Lox.error` becomes an append to a diagnostics sequence.
- GenerateAst.cs: the generator writes files, so it is not modelled. Its type list gives the shapes of the `Call`, `Get`, `Set` and `Logical` nodes.
- Clock.cs: not part of this model, because it reads the wall clock.
- Floating point is not modelled. A number is a symbolic term that records how it was made: parsed text, negation, sum, difference, product or quotient.
  - `Double.Parse` and double arithmetic are therefore not modelled, and neither is division by zero.
  - The printer's rendering of a double is a parameter, `showNum`.
  - The lemmas say which operator case applies and when evaluation fails, never what number results.
- RuntimeError.cs, ReturnVal.cs and LoxCallable.cs are exception and interface plumbing. They are replaced by outcome datatypes (`Result`, `Fault`, `Completion`), which keep a returned value apart from an error.
- Statement execution, `executeBlock` and `Interpreter.resolve` are not part of this model.
  - `Runtime.LoxFunction.Call` does not run the body. It takes the body's completion, normal, returned or raised, as its `executed` parameter.
  - The resolver's side table is a map field keyed by node id, and `id` stands for the object identity of a `Variable` or `Assign` node.
- Evaluation.Evaluate and Printing.Print require `Core(e)`, meaning a binary, grouping, literal or unary expression. The interpreter and the printer have visitors for those kinds only, so the other node kinds have no evaluation or printing to model.
- Parsing.Parser.constructor requires a token list that ends with the EOF token. The scanner always produces such a list, and the parser's `peek` would read past the end of any other.
- Parsing: statements, assignment, logical operators, calls, error recovery (`synchronize`) and the argument limit do not exist in the parser as written, so they are not modelled.
- Runtime.Env.Get is modelled as a function on the chain's state, not as a recursive method. It changes nothing, so the function gives the same answer.
- Text is a sequence of Unicode scalar values, while C# strings index UTF-16 code units. A character outside the Basic Multilingual Plane is one element here and two in the source. Outside a string literal the source reports "Unexpected character." once per code unit, so twice; the model reports it once. Lexemes and string literals holding such characters are the same text either way.
- Runtime.LoxClass.ToString and Arity, Runtime.LoxFunction.Arity: these carry no contract, because each only returns a field, a constant or a count. Their bodies are the definition.
- Parsing.Parser.Peek and Previous: these carry no contract, because each only reads one element of the token list. What they give their callers is stated by Consume (the diagnostic names the current token) and Advance (it returns the token before the cursor).
- Object identity of runtime values is not compared anywhere in the modelled code, so `Value` holds references to the runtime classes without an equality over them.
