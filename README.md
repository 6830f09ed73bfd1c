# A verified model of a small compiler front end

The repository is a student compiler for a small BASIC-like language, in
three parts:

- **The phase-1 lexer** (`Lexer`, Compiler_Project_phase1.py).
  - It turns source text into `(type, lexeme)` tuples.
  - It keeps a symbol table of the identifiers it meets.
  - A second pass (`update_symbol_table_types`) refines the table's entries after `let`, `func` and `call`.
- **The phase-2 parser** (`Parser`, Compiler_Project_phase2.py).
  - It is a recursive-descent parser over those tuples.
  - It builds the AST of ast_nodes.py: programs, `let`, `if` and `call` statements, and arithmetic with the usual precedence.
- **The AST nodes' text rendering** (`__str__` of each node class, ast_nodes.py).
- **The syntax validator** (`SyntaxValidator`, syntax_validation.py).
  - It reads `Token` objects up to an end-of-file token and builds a labelled parse tree.
  - It keeps a stack of open blocks, and the `in_function` / `had_return` flags for the RETURN rule.

Each imperative class is modelled as a Dafny `class` with the same fields.
Its methods carry the same loops and change the same state. Each method is
proved against a specification written as functions, in a module of its own:

| Source class | Dafny class | Specification module(s) |
|---|---|---|
| `Lexer` | `Lexing.Lexer` | `Scanning`, `Annotation` |
| `Parser` | `Parsing.Parser` | `Grammar` |
| `SyntaxValidator` | `Validating.SyntaxValidator` | `Validation` |

The properties the source promises are proved about those functions as lemmas:

| Module | Properties |
|---|---|
| `Scanning` | Line and column tracking, case-insensitive keywords, error reporting |
| `Annotation` | What the symbol-table pass can and cannot touch |
| `Precedence`, `Statements` | Round trips from written expressions, `let` statements, calls and conditions back to their trees; precedence and associativity; the cases where the parser fails or runs forever |
| `ValidationFacts` | The validator's grammar rules: the RETURN rule, the alternating expression children, the unreachable "Unclosed" check |

The renderers of ast_nodes.py are pure functions in `AstNodes`. Lemmas give
the line layout each node class renders to, for children of any shape: a
nested child's rendering is spliced in with a mark before its first line
only.

Python exceptions become values:

| Source | Python behaviour | Dafny value |
|---|---|---|
| Lexer | Lexing error | `LexError(message, line, column)` |
| Lexer, symbol-table pass | `IndexError` / `KeyError` | `Crashed(crash, table)` |
| Parser | Parse error | `Failed(Error(message, at))` |
| Parser | Loop that never ends | `Failed(Diverges(at))` |
| Validator | `SyntaxError` | `Raised(SyntaxError(message, line, position, at))` |

The error messages are reduced to tags, each carrying the parts the message
interpolates.

Points where the model deliberately follows the code:

- **Parser: the loop that never ends.** `parse_statement` returns `None` at
  a token that starts no statement. `parse` and `parse_if_statement` then
  call it again at the same token, forever.
  - The model reports this as the outcome `Diverges(at)`.
  - `Statements.StrayTokenDiverges` shows that `BEGIN x END` reaches it.
- **Validator: where "Unclosed" cannot fire.**
  - Every statement validator pops the scope it pushed before returning.
    Errors are exceptions that leave `validate` at once.
  - So the "Unclosed ... statement" check at the end of `validate`
    (syntax_validation.py:30-36) cannot fire from a fresh validator.
  - A missing ENDWHILE, for instance, is reported as "Unexpected token"
    at the end-of-file token, because the block loop validates that token
    as a statement.
  - See `ValidationFacts.UnclosedIsUnreachable` and
    `ValidationFacts.BlockLoopAtEnd`.
- **Validator: methods defined twice.**
  - syntax_validation.py defines `_validate_expression`, `_validate_term`,
    `_validate_block` and `_validate_parameter_list` twice.
  - Python keeps the later definition of each. The model uses the later
    ones (lines 334-355, 384-438 and 496-499).
- **Validator: ELSE after ENDIF.**
  - The effective `_validate_block(ENDIF, ELSE)` consumes the ELSE and
    the ENDIF of the then-block.
  - So an ELSE *after* that ENDIF is read by `_validate_if_statement` as
    a further else block, up to another ENDIF.
  - The model keeps this: see `ValidationFacts.ElseInsideBody` and
    `ValidationFacts.ElseAfterEndifBody`. These state the branches of the
    IF scope's body. `Validation.ValidateIf` puts those branches after the
    condition.

## Model

| member | source | states |
|---|---|---|
| Scanning.Upper | Compiler_Project_phase1.py:103 | the upper-cased word has the same length and upper-cases every character in place |
| Scanning.KeywordNamed | Compiler_Project_phase1.py:17-21 | a word names a keyword exactly when it equals that keyword's upper-case spelling; no keyword is returned for any other word |
| Scanning.ClassifyWord | Compiler_Project_phase1.py:98-110 | a word is a keyword token iff its upper-case form is a keyword, keeping the word as lexeme; otherwise an `operator` iff it is AND/OR/NOT in any case, with the lower-case lexeme; otherwise an identifier with the word as lexeme |
| Scanning.LineAtCountsLineFeeds | Compiler_Project_phase1.py:29-39 | after reading n characters, the line is one plus the number of line feeds among them |
| Scanning.ColumnAtCountsSinceLineFeed | Compiler_Project_phase1.py:29-39 | after reading n characters, the column is the number of characters since the last line feed (all of them if there is none) |
| Scanning.SpaceEnd | Compiler_Project_phase1.py:48-50 | whitespace skipping stops at the first non-space character or at the end, and everything skipped is whitespace |
| Scanning.WordEnd | Compiler_Project_phase1.py:99-102 | a word is the maximal run of letters, digits and `_` |
| Scanning.CommentEnd | Compiler_Project_phase1.py:52-60 | a comment ends just after the first `}`; when there is none, no `}` follows the `{` |
| Scanning.ScanNumber | Compiler_Project_phase1.py:112-123 | a number scan stops inside the text, and reports a second decimal point only at a real character |
| Scanning.ScanNumberFormat | Compiler_Project_phase1.py:112-123 | every character read into a number is a digit or a point; a number that ends is followed by neither, and holds at most one point |
| Scanning.ScanArithmetic | Compiler_Project_phase1.py:125-139 | a compound operator is emitted exactly when the next two characters form one, with those two characters as lexeme; otherwise a single `+ - * /` character; an error exactly when neither applies; never skips |
| Scanning.ScanRelational | Compiler_Project_phase1.py:141-157 | `!=` exactly when `!` is followed by `=`, `=` as `equal`, `>` and `<` as `operator`, each with its own characters as lexeme; an error exactly for anything else |
| Scanning.StepAt | Compiler_Project_phase1.py:66-96 | every step of the tokenize loop that does not stop moves forward and stays inside the text |
| Scanning.TokenStep | Compiler_Project_phase1.py:72-83 | the word, number and operator branches always emit a token or stop, and move forward when they emit |
| Scanning.SymbolStep | Compiler_Project_phase1.py:78-95 | the operator and punctuation branches always emit a token or stop, and move forward when they emit |
| Scanning.LexTokenCount | Compiler_Project_phase1.py:66-96 | the lexer emits at most one token per source character |
| Scanning.LexNeverEmitsLeftBrace | Compiler_Project_phase1.py:70-93 | no emitted token is a `{` delimiter, because `{` always opens a comment, and none has the catch-all `delimiter` kind, because `,` and `:` have kinds of their own |
| Scanning.WhitespaceOnlyLexesToNothing | Compiler_Project_phase1.py:67-69 | a source of whitespace only lexes to no tokens and no error |
| Scanning.UnclosedCommentReported | Compiler_Project_phase1.py:52-60 | a `{` with no `}` after it ends the scan with "Unclosed comment" at the line and column of the end of input |
| Scanning.ClosedCommentSkipped | Compiler_Project_phase1.py:52-57 | a comment is skipped up to and including its first `}` |
| Scanning.GreaterEqualIsTwoTokens | Compiler_Project_phase1.py:141-157 | `>=` lexes as the two tokens `>` (operator) and `=` (equal) |
| Scanning.KeywordCaseInsensitive | Compiler_Project_phase1.py:103-107 | two words that agree up to case get the same token type |
| Scanning.AddSymbol | Compiler_Project_phase1.py:178-181 | adding a name inserts an `unknown` entry only if the name is absent, and leaves every other entry unchanged |
| Scanning.RecordedEntries | Compiler_Project_phase1.py:109 | after a scan, the table holds the old entries unchanged plus a fresh `unknown` entry for each new identifier, and nothing else |
| Annotation.NextCloseParen | Compiler_Project_phase1.py:199-203 | the parameter scan stops at the first `)` at or after its start (no `)` lies before it), or at the end of the list when there is none |
| Annotation.IdentLexemes | Compiler_Project_phase1.py:216-220 | a name is gathered exactly when some identifier token of the slice has it as lexeme; the list is as long as the slice exactly when every token of the slice is an identifier |
| Annotation.IdentLexemesAppend | Compiler_Project_phase1.py:216-220 | the names of two stretches of tokens one after the other are the names of the first followed by those of the second, so the names keep the order of their tokens |
| Annotation.AnnotateAtEffect | Compiler_Project_phase1.py:183-222 | one step of the pass keeps every key, adds a key only after `call`, changes only the entry of the name after the keyword, and raises KeyError only for that name when it has no entry |
| Annotation.TargetsUnfold | Compiler_Project_phase1.py:185-186 | the names the pass may touch from index i are those at i plus those from i + 1 |
| Annotation.AnnotateKeys | Compiler_Project_phase1.py:183-222 | the pass never removes an entry and adds only names that follow `call` |
| Annotation.AnnotateTouchesOnlyTargets | Compiler_Project_phase1.py:183-222 | every entry whose name does not follow `let`, `func` or `call` comes out unchanged |
| Annotation.AnnotateNoKeyError | Compiler_Project_phase1.py:187-205 | when every identifier already has an entry, the pass cannot raise KeyError |
| Annotation.LexedTokensAnnotateWithoutKeyError | Compiler_Project_phase1.py:183-222 | running the pass on what the lexer produced, with the table the lexer built, never raises KeyError |
| Annotation.LetAtEndCrashes | Compiler_Project_phase1.py:183-190 | whatever precedes it, a `let` as the last token makes the pass end with an exception, and any IndexError it raises is one past the end |
| Annotation.LoneLetAtEndCrashes | Compiler_Project_phase1.py:183-190 | when no earlier token is `let`, `func` or `call`, a final `let` makes the pass read one past the end (IndexError) with the table unchanged |
| Lexing.Lexer.constructor | Compiler_Project_phase1.py:6-27 | a new lexer is on the first character with line and column tracking in step, and has no tokens and an empty table |
| Lexing.Lexer.Advance | Compiler_Project_phase1.py:29-39 | the cursor moves one character; a line feed starts a new line at column 0, other characters add a column; past the end the current character is None |
| Lexing.Lexer.Peek | Compiler_Project_phase1.py:41-46 | the character after the current one, or None exactly when there is none |
| Lexing.Lexer.SkipWhitespace | Compiler_Project_phase1.py:48-50 | the cursor ends where the whitespace run ends |
| Lexing.Lexer.SkipComment | Compiler_Project_phase1.py:52-60 | the cursor ends after the first `}`, or at the end with "Unclosed comment" |
| Lexing.Lexer.IdentifyKeywordOrIdentifier | Compiler_Project_phase1.py:98-110 | reads the whole word, classifies it as `ClassifyWord`, and adds it to the table exactly when it is an identifier |
| Lexing.Lexer.ReadNumber | Compiler_Project_phase1.py:112-123 | reads the number `ScanNumber` describes, or raises the multiple-decimal-points error there |
| Lexing.Lexer.ArithmeticOperator | Compiler_Project_phase1.py:125-139 | returns the token or error `ScanArithmetic` describes, with the cursor after it |
| Lexing.Lexer.RelationalOperator | Compiler_Project_phase1.py:141-157 | returns the token or error `ScanRelational` describes, with the cursor after it |
| Lexing.Lexer.ReadDelimiter | Compiler_Project_phase1.py:159-176 | the delimiter token has the current character as lexeme and its delimiter kind |
| Lexing.Lexer.AddToSymbolTable | Compiler_Project_phase1.py:178-181 | the table becomes `AddSymbol` of the old table |
| Lexing.Lexer.TokenizeStep | Compiler_Project_phase1.py:67-95 | one loop iteration does exactly what `StepAt` says to the cursor, the tokens and the table |
| Lexing.Lexer.ScanToken | Compiler_Project_phase1.py:72-83 | the token branches do exactly what `TokenStep` says |
| Lexing.Lexer.ScanSymbol | Compiler_Project_phase1.py:78-95 | the symbol branches do exactly what `SymbolStep` says |
| Lexing.Lexer.Tokenize | Compiler_Project_phase1.py:66-96 | appends exactly the tokens `LexFrom` produces and records their identifiers; it returns them with the cursor at the end, or the error that stopped the scan |
| Lexing.Lexer.UpdateSymbolTableTypes | Compiler_Project_phase1.py:183-222 | the table becomes the one the `AnnotateFrom` pass produces, or the method returns the crash that pass raises |
| Lexing.Lexer.RefineLet | Compiler_Project_phase1.py:187-190 | the `let` branch updates the table as `AnnotateLet` |
| Lexing.Lexer.RefineFunc | Compiler_Project_phase1.py:191-204 | the `func` branch updates the table as `AnnotateFunc` |
| Lexing.Lexer.RefineCall | Compiler_Project_phase1.py:205-221 | the `call` branch updates the table as `AnnotateCall` |
| Lexing.Lexer.IdentifiersUntilCloseParen | Compiler_Project_phase1.py:199-203 | the parameter loop stops at the next `)` and gathers the identifiers before it, in order |
| AstNodes.Split | ast_nodes.py:19 | splitting on line feeds gives at least one piece |
| AstNodes.JoinSplit | ast_nodes.py:19 | joining the pieces of a split with line feeds gives back the text |
| AstNodes.SplitJoin | ast_nodes.py:19 | splitting lines that hold no line feed, joined with line feeds, gives back those lines |
| AstNodes.LStrip | ast_nodes.py:22 | `lstrip("\|-- ")` removes exactly the longest prefix of `\|`, `-` and space characters |
| AstNodes.RenderAll | ast_nodes.py:18-22 | each statement is rendered on its own, in order |
| AstNodes.Render | ast_nodes.py:11-131 | every rendering is non-empty and ends with a line feed |
| AstNodes.LeafLines | ast_nodes.py:61-74 | a number renders as the line `number: v` and an identifier as `id: n` |
| AstNodes.BinaryOperationLines | ast_nodes.py:47-58 | an operation over two leaves renders as exactly the lines `expression`, `\|-- ` left, `\|-- operation: ` operator, `\|-- ` right |
| AstNodes.ProgramLines | ast_nodes.py:11-24 | a program renders as its two header lines, then every non-empty statement line stripped and indented under `\|   \|-- `, then `\|-- End` |
| AstNodes.BlockLinesShape | ast_nodes.py:18-22 | each block line is the prefix followed by a stripped line, and holds no line feed |
| AstNodes.IndentedLinesShape | ast_nodes.py:20-22 | indenting lines that hold no line feed gives lines that start with the prefix and hold no line feed |
| AstNodes.IfLines | ast_nodes.py:77-112 | an `if` renders as its condition part, then the then section, then the else section exactly when the else list is present and non-empty, then `\|-- endif: ENDIF`, each a whole line |
| AstNodes.ArgPieces | ast_nodes.py:126-129 | n arguments give 2n-1 pieces (none for no arguments) |
| AstNodes.ArgsAlternate | ast_nodes.py:126-129 | the argument loop writes each argument under `\|   \|-- ` with a comma line between consecutive arguments and none after the last |
| AstNodes.ArgsFromPieces | ast_nodes.py:126-129 | the loop from argument i writes exactly the pieces from 2i on |
| AstNodes.CallRendersPieces | ast_nodes.py:115-131 | a call renders as its five header lines, the alternating argument and comma pieces, and the `right_paren` line |
| AstNodes.LetLines | ast_nodes.py:27-44 | a `let` of a leaf or of an operation over two leaves renders as exactly its four header lines followed by its body lines |
| AstNodes.LetLinesHaveNoLineFeed | ast_nodes.py:32-44 | no line of a `let` rendering holds a line feed of its own |
| AstNodes.LetInlinesOperation | ast_nodes.py:37-41 | a `let` of an operation inlines that operation's rendering: its header under `\|-- `, and its three operand and operator lines shifted one level right |
| AstNodes.LinesOf | ast_nodes.py:19 | a rendering that ends with a line feed is, line by line, the pieces `split('\n')` gives before the empty last one, none holding a line feed |
| AstNodes.OperationLines | ast_nodes.py:47-58 | an operation over operands of any shape renders as `expression`, the left operand's own lines with `\|-- ` before the first only, the operator line, and the right operand's lines the same way: nested operands are not re-indented |
| AstNodes.LetOperationLines | ast_nodes.py:27-41 | a `let` of an operation over operands of any shape renders as its header lines, `\|-- expression`, and the operands' own lines with `\|   \|-- ` before the first of each only, around the operator line |
| AstNodes.LetValueLines | ast_nodes.py:27-44 | a `let` of anything but an operation renders as its header lines and the expression's own lines with `\|-- ` before the first only |
| Grammar.ParseFactor | Compiler_Project_phase2.py:150-161 | a parsed factor reads at least one token; a failure is reported at or after the start |
| Grammar.TermLoop | Compiler_Project_phase2.py:140-146 | the term loop never moves back and never reads past the end |
| Grammar.ParseTerm | Compiler_Project_phase2.py:136-148 | a parsed term reads at least one token |
| Grammar.ExpressionLoop | Compiler_Project_phase2.py:126-132 | the expression loop never moves back and never reads past the end |
| Grammar.ParseExpression | Compiler_Project_phase2.py:122-134 | a parsed expression reads at least one token |
| Grammar.ParseCondition | Compiler_Project_phase2.py:163-172 | a parsed condition reads at least one token |
| Grammar.ParseLet | Compiler_Project_phase2.py:56-66 | a parsed `let` reads at least one token |
| Grammar.ArgumentLoop | Compiler_Project_phase2.py:112-115 | the argument loop reads at least one argument and keeps the arguments gathered before |
| Grammar.ParseCall | Compiler_Project_phase2.py:101-120 | a parsed call reads at least one token |
| Grammar.ParseIf | Compiler_Project_phase2.py:68-99 | a parsed `if` reads at least one token |
| Grammar.IfAfterCondition | Compiler_Project_phase2.py:80-87 | after the condition, a parsed `if` reads at least the `then` token |
| Grammar.IfAfterThen | Compiler_Project_phase2.py:89-99 | after the then branch, a parsed `if` reads at least the `endif` token |
| Grammar.AsStatement | Compiler_Project_phase2.py:47-52 | a statement parse fails exactly when the parse of its kind fails |
| Grammar.ParseStatement | Compiler_Project_phase2.py:41-54 | a statement reads at least one token, and `None` reads nothing |
| Grammar.StatementsUntil | Compiler_Project_phase2.py:26-33 | the statement loop keeps the statements gathered before, and stops only at the end of input or at one of its stop tokens |
| Grammar.ParseProgram | Compiler_Project_phase2.py:14-39 | a parsed program reads at least one token and is a `Program` node |
| Precedence.FactorRoundTrip | Compiler_Project_phase2.py:150-161 | parsing a written factor gives back the tree and stops right after it |
| Precedence.TermPrefix | Compiler_Project_phase2.py:136-148 | parsing a written term reads all of it and hands the whole tree to the term loop |
| Precedence.ExpressionPrefix | Compiler_Project_phase2.py:122-134 | parsing a written expression reads all of it and hands the whole tree to the expression loop |
| Precedence.ExpressionAt | Compiler_Project_phase2.py:122-134 | a written expression at any position, followed by a token that is no arithmetic operator, parses back to the tree |
| Precedence.ExpressionRoundTrip | Compiler_Project_phase2.py:122-161 | parsing the written form of any arithmetic tree, followed by any token that is no arithmetic operator, gives back that tree and stops right after it |
| Precedence.ExpressionStartsFactor | Compiler_Project_phase2.py:150-156 | every written expression is non-empty and starts with a number, an identifier or `(` |
| Precedence.TermStartsFactor | Compiler_Project_phase2.py:150-156 | every written term is non-empty and starts with a number, an identifier or `(` |
| Precedence.ProductBindsTighter | Compiler_Project_phase2.py:122-148 | `2 + 3 * 4` parses as `2 + (3 * 4)` |
| Precedence.DifferenceAssociatesLeft | Compiler_Project_phase2.py:122-134 | `1 - 2 - 3` parses as `(1 - 2) - 3` |
| Statements.ProgramFrame | Compiler_Project_phase2.py:23-37 | without `begin` a program fails with "Expected 'BEGIN'" at the start; a parsed program ends with an `end` token |
| Statements.ProgramEnd | Compiler_Project_phase2.py:26-39 | a statement loop that reaches the end of input fails with "Expected 'END'"; one that stops at `end` closes the program with its statements |
| Statements.StrayTokenDiverges | Compiler_Project_phase2.py:26-33 | `BEGIN x END` never finishes: the parser loops forever at `x` |
| Statements.DivergesAtStrayToken | Compiler_Project_phase2.py:26-54 | the statement loop runs forever only at a token that is no stop token and starts no statement |
| Statements.StrayTokenStopsNothing | Compiler_Project_phase2.py:26-54 | conversely, at such a token the loop runs forever |
| Statements.FactorFailsExactly | Compiler_Project_phase2.py:150-161 | "Expected number, identifier, or '('" is raised at a position exactly when no such token is there |
| Statements.ParenthesesAddNoNode | Compiler_Project_phase2.py:156-160 | a parenthesised expression yields the inner tree itself |
| Statements.ConditionRoundTrip | Compiler_Project_phase2.py:163-172 | `left cmp right`, written out, parses back to the operation over `left` and `right` with operator `cmp` |
| Statements.ConditionWithoutComparison | Compiler_Project_phase2.py:163-172 | with no comparison after it, a condition is the bare expression |
| Statements.LetRoundTrip | Compiler_Project_phase2.py:56-66 | `x = e` after `let`, for any arithmetic tree e and any token after it that is no arithmetic operator, parses to the assignment of exactly e to x and stops right after e |
| Statements.LetErrors | Compiler_Project_phase2.py:56-66 | without an identifier after `let` the error is "Expected identifier after 'LET'" at that token; with one but no `=` the error is "Expected '=' after identifier in LET statement" at the next token; a parsed `let` had both |
| Statements.IfShape | Compiler_Project_phase2.py:68-99 | a parsed `if` ends at an `endif` token, and its else branch is absent unless it holds statements, even when `else` was written |
| Statements.EmptyElseIsNone | Compiler_Project_phase2.py:99 | `IF x THEN ELSE ENDIF` has no else branch |
| Statements.EmptyBranches | Compiler_Project_phase2.py:80-99 | `THEN ELSE ENDIF` after a condition gives an `if` with no statements and no else branch |
| Statements.ArgumentsRoundTrip | Compiler_Project_phase2.py:110-116 | the argument loop reads a written non-empty argument list followed by `)` back to exactly those arguments |
| Statements.CallRoundTrip | Compiler_Project_phase2.py:101-120 | `f(a, b, ...)`, written out, parses to the call of `f` with exactly those arguments, the empty list included |
| Statements.TrailingCommaFails | Compiler_Project_phase2.py:112-116 | `CALL f(a,)` fails at `)` wanting a factor |
| Parsing.Parser.constructor | Compiler_Project_phase2.py:10-12 | a new parser is at the first token |
| Parsing.Parser.IsAtEnd | Compiler_Project_phase2.py:209-211 | at the end exactly when every token has been read |
| Parsing.Parser.Check | Compiler_Project_phase2.py:193-197 | true exactly when a current token exists and has the given type |
| Parsing.Parser.Previous | Compiler_Project_phase2.py:205-207 | the token just before the cursor, and the last token when the cursor is on the first (Python's index -1) |
| Parsing.Parser.Advance | Compiler_Project_phase2.py:199-203 | moves one token on and returns the token passed |
| Parsing.Parser.Match | Compiler_Project_phase2.py:175-180 | moves one token on exactly when `check` holds, and says so |
| Parsing.Parser.MatchAny | Compiler_Project_phase2.py:182-191 | moves one token on exactly when the current token has one of the types |
| Parsing.Parser.Raise | Compiler_Project_phase2.py:213-218 | the error carries its message and the current position |
| Parsing.Parser.ParseFactor | Compiler_Project_phase2.py:150-161 | result and new position are those of `Grammar.ParseFactor` |
| Parsing.Parser.ParseTerm | Compiler_Project_phase2.py:136-148 | result and new position are those of `Grammar.ParseTerm` |
| Parsing.Parser.ParseExpression | Compiler_Project_phase2.py:122-134 | result and new position are those of `Grammar.ParseExpression` |
| Parsing.Parser.ParseCondition | Compiler_Project_phase2.py:163-172 | result and new position are those of `Grammar.ParseCondition` |
| Parsing.Parser.ParseLet | Compiler_Project_phase2.py:56-66 | result and new position are those of `Grammar.ParseLet` |
| Parsing.Parser.ArgumentList | Compiler_Project_phase2.py:110-116 | result and new position are those of `Grammar.ArgumentLoop` |
| Parsing.Parser.ParseCall | Compiler_Project_phase2.py:101-120 | result and new position are those of `Grammar.ParseCall` |
| Parsing.Parser.ParseIf | Compiler_Project_phase2.py:68-99 | result and new position are those of `Grammar.ParseIf` |
| Parsing.Parser.IfAfterCondition | Compiler_Project_phase2.py:80-87 | result and new position are those of `Grammar.IfAfterCondition` |
| Parsing.Parser.IfAfterThen | Compiler_Project_phase2.py:89-99 | result and new position are those of `Grammar.IfAfterThen` |
| Parsing.Parser.ParseStatement | Compiler_Project_phase2.py:41-54 | result and new position are those of `Grammar.ParseStatement` |
| Parsing.Parser.StatementsUntil | Compiler_Project_phase2.py:26-33 | result and new position are those of `Grammar.StatementsUntil`, including the `Diverges` outcome |
| Parsing.Parser.Parse | Compiler_Project_phase2.py:14-39 | result and new position are those of `Grammar.ParseProgram` |
| Validation.Advance | syntax_validation.py:440-443 | moves the cursor one token on and returns the token it passed |
| Validation.MatchType | syntax_validation.py:451-455 | moves one token on exactly when `_check` holds, and says so |
| Validation.Consume | syntax_validation.py:457-460 | only the cursor moves, by one token, or an error is raised at the cursor |
| Validation.ValidateTerm | syntax_validation.py:397-438 | a term reads at least one token and changes nothing but the cursor |
| Validation.ArrayLiteral | syntax_validation.py:409-415 | an array literal reads at least one token and yields no node (`None`) |
| Validation.CallTerm | syntax_validation.py:429-436 | a call term reads at least one token and yields no node (`None`) |
| Validation.ExpressionList | syntax_validation.py:410-413 | an expression list reads at least one token and changes nothing but the cursor |
| Validation.ExpressionTail | syntax_validation.py:389-393 | the operator loop changes nothing but the cursor |
| Validation.ValidateExpression | syntax_validation.py:384-395 | an expression reads at least one token and yields an `Expression` node |
| Validation.ValidateCondition | syntax_validation.py:358-381 | a condition reads at least one token and changes nothing but the cursor |
| Validation.ValidateParameterList | syntax_validation.py:496-499 | a parameter list changes nothing but the cursor |
| Validation.ParameterTail | syntax_validation.py:498-499 | the `, name` loop changes nothing but the cursor |
| Validation.ValidateStatement | syntax_validation.py:39-65 | a statement reads at least one token, leaves the scope stack as it was, and yields a node |
| Validation.ValidateAssignment | syntax_validation.py:67-87 | an assignment reads at least one token, changes only the cursor, and yields a node |
| Validation.ValidateLet | syntax_validation.py:89-98 | a `LET` reads at least one token, changes only the cursor, and yields a node |
| Validation.StatementLoop | syntax_validation.py:343-352 | a block loop leaves the scope stack as it was and stops only on its end or middle token |
| Validation.ValidateBlock | syntax_validation.py:334-355 | a block reads at least one token and leaves the scope stack as it was |
| Validation.BlockTail | syntax_validation.py:348-355 | the rest of a block reads at least its terminator and leaves the scope stack as it was |
| Validation.ValidateIf | syntax_validation.py:132-156 | an IF reads at least one token, pops the scope it pushed, and yields a node |
| Validation.IfBody | syntax_validation.py:140-155 | the IF scope's body leaves the scope stack as it was |
| Validation.ElsePart | syntax_validation.py:149-153 | the else part yields at most one node and leaves the scope stack as it was |
| Validation.ValidateWhile | syntax_validation.py:168-185 | a WHILE reads at least one token, pops the scope it pushed, and yields a node |
| Validation.WhileBody | syntax_validation.py:177-184 | the WHILE scope's body leaves the scope stack as it was |
| Validation.ValidateFor | syntax_validation.py:188-213 | a FOR reads at least one token, pops the scope it pushed, and yields a node |
| Validation.ForBody | syntax_validation.py:200-204 | the FOR scope's body leaves the scope stack as it was |
| Validation.ForHeader | syntax_validation.py:189-191 | the header reads at least one token and changes nothing but the cursor |
| Validation.ForBounds | syntax_validation.py:192-194 | the bounds read at least one token and change nothing but the cursor |
| Validation.ForStep | syntax_validation.py:196-200 | the optional STEP and the DO read at least one token and change nothing but the cursor |
| Validation.ValidateDoWhile | syntax_validation.py:215-232 | a DO-WHILE reads at least one token, pops the scope it pushed, and yields a node |
| Validation.DoBody | syntax_validation.py:217-230 | the DO scope's body leaves the scope stack as it was |
| Validation.ClosingCondition | syntax_validation.py:227-228 | the closing keyword and condition read at least one token and change nothing but the cursor |
| Validation.ValidateRepeatUntil | syntax_validation.py:235-255 | a REPEAT reads at least one token, pops the scope it pushed, and yields a node |
| Validation.RepeatBody | syntax_validation.py:237-254 | the REPEAT scope's body leaves the scope stack as it was |
| Validation.ValidateFunctionDefinition | syntax_validation.py:259-288 | a FUNC reads at least one token, pops its scope, yields a node, and leaves both function flags false |
| Validation.FunctionBody | syntax_validation.py:267-287 | the function body leaves the scope stack as it was and both function flags false |
| Validation.FunctionHeader | syntax_validation.py:261-265 | the header reads at least one token and changes nothing but the cursor |
| Validation.ValidateReturn | syntax_validation.py:292-301 | a RETURN reads at least one token, yields a node, sets `had_return` and keeps `in_function` |
| Validation.ValidateLoop | syntax_validation.py:25-28 | the loop of `validate` leaves the scope stack as it was and ends on the end-of-file token |
| Validation.Validate | syntax_validation.py:24-37 | a successful validation ends on the end-of-file token with no open scope |
| ValidationFacts.ConsumeOutcomes | syntax_validation.py:457-460 | `_consume` succeeds exactly when `_check` holds, returning the current token one step on; otherwise "missing" is raised with the current token's line and position |
| ValidationFacts.EndIsNeverConsumed | syntax_validation.py:448-463 | at the end-of-file token nothing is consumed or matched, not even the type EOF |
| ValidationFacts.UnexpectedStatementStart | syntax_validation.py:54-65 | a token that starts no statement (CALL and EOF included) raises "Unexpected token" with its lexeme |
| ValidationFacts.BlockLoopAtEnd | syntax_validation.py:343-346 | a block that reaches the end of input before its terminator raises "Unexpected token" at the end-of-file token |
| ValidationFacts.BlockEndsWithTerminator | syntax_validation.py:334-355 | a validated block is a `Block` node whose last token read is its terminator |
| ValidationFacts.ProgramCollectsStatements | syntax_validation.py:25-28 | `validate` keeps the program node's earlier children and appends one node per statement; no `None` reaches the program |
| ValidationFacts.LoopStep | syntax_validation.py:25-28 | one round of `validate`'s loop reads a statement node and moves forward |
| ValidationFacts.UnclosedIsUnreachable | syntax_validation.py:30-37 | from an empty scope stack, `validate` succeeds exactly when its loop does: "Unclosed" never fires |
| ValidationFacts.OpenScopeIsReported | syntax_validation.py:30-36 | from a non-empty scope stack, a loop that succeeds is followed by "Unclosed" for the innermost scope |
| ValidationFacts.TermIsNotOperator | syntax_validation.py:397-438 | a term is never an operator leaf |
| ValidationFacts.TailAlternates | syntax_validation.py:389-393 | each turn of the operator loop appends an operator leaf and then a term |
| ValidationFacts.ExpressionAlternates | syntax_validation.py:384-395 | an expression node's children alternate term, operator, term, starting and ending with a term: no precedence is built |
| ValidationFacts.ConditionNeedsComparison | syntax_validation.py:358-381 | a condition has three children, the middle one the operator of a comparison token it read; without a comparison after the left expression, it raises "Expected a valid comparison operator" there |
| ValidationFacts.AssignmentOperators | syntax_validation.py:67-87 | an assignment's operator is `=`, `+=` or `*=`; any other token after the identifier (`-=` and `/=` included) raises an error there |
| ValidationFacts.ParameterTailConsumes | syntax_validation.py:496-499 | the parameter loop consumes every `, name` pair and stops at the first token that is not a comma |
| ValidationFacts.TrailingParameterCommaFails | syntax_validation.py:498-499 | a comma in a parameter list must be followed by a name |
| ValidationFacts.ElseInsideBody | syntax_validation.py:140-155 | on `ELSE ENDIF` after THEN, followed by anything but ELSE, the then-block consumes both tokens and no else part follows: the IF node gets one `ThenBlock` holding an empty block and no `ElseBlock`, and the cursor ends after the ENDIF |
| ValidationFacts.ElseAfterEndifBody | syntax_validation.py:140-155 | on `ENDIF ELSE ENDIF` after THEN, the then-block ends at the first ENDIF and the ELSE after it opens an else block up to the second ENDIF: the IF node gets a `ThenBlock` and an `ElseBlock`, each holding an empty block, and the scope stack is as it was |
| ValidationFacts.MissingReturnRule | syntax_validation.py:272-283 | once header and body validate, a function definition succeeds exactly when a RETURN was validated in its body; otherwise "must have at least one RETURN" is raised after END |
| Validating.SyntaxValidator.constructor | syntax_validation.py:16-22 | a new validator is at the first token with no open scope, both flags false, and an empty `Program` tree |
| Validating.SyntaxValidator.Peek | syntax_validation.py:445-446 | the current token |
| Validating.SyntaxValidator.IsAtEnd | syntax_validation.py:462-463 | at the end exactly when the current token is the end-of-file token |
| Validating.SyntaxValidator.Check | syntax_validation.py:448-449 | true exactly when the current token has the type and is not the end-of-file token, so never for EOF |
| Validating.SyntaxValidator.Previous | syntax_validation.py:514-516 | the token before the cursor, and None exactly at the first token |
| Validating.SyntaxValidator.IsArithmeticOperator | syntax_validation.py:465-466 | true exactly for `+ - * /` |
| Validating.SyntaxValidator.Advance | syntax_validation.py:440-443 | at the end the cursor stays put; otherwise it moves one token and returns the token passed |
| Validating.SyntaxValidator.Match | syntax_validation.py:451-455 | result and new state are those of `Validation.MatchType` |
| Validating.SyntaxValidator.Consume | syntax_validation.py:457-460 | result and new state are those of `Validation.Consume`; on error the cursor stays put |
| Validating.SyntaxValidator.Raise | syntax_validation.py:375-379 | the error is raised at the current token, with its line and position |
| Validating.SyntaxValidator.Validate | syntax_validation.py:24-37 | the new tree and state, or the error, are those of `Validation.Validate` on the old state and the tree's old children |
| Validating.SyntaxValidator.ValidateStatement | syntax_validation.py:39-65 | result and new state are those of `Validation.ValidateStatement` |
| Validating.SyntaxValidator.ValidateAssignment | syntax_validation.py:67-87 | result and new state are those of `Validation.ValidateAssignment` |
| Validating.SyntaxValidator.ValidateLet | syntax_validation.py:89-98 | result and new state are those of `Validation.ValidateLet` |
| Validating.SyntaxValidator.ValidateIf | syntax_validation.py:132-156 | result and new state are those of `Validation.ValidateIf` |
| Validating.SyntaxValidator.IfBody | syntax_validation.py:140-155 | result and new state are those of `Validation.IfBody` |
| Validating.SyntaxValidator.ElsePart | syntax_validation.py:149-153 | result and new state are those of `Validation.ElsePart` |
| Validating.SyntaxValidator.ValidateWhile | syntax_validation.py:168-185 | result and new state are those of `Validation.ValidateWhile` |
| Validating.SyntaxValidator.WhileBody | syntax_validation.py:177-184 | result and new state are those of `Validation.WhileBody` |
| Validating.SyntaxValidator.ValidateFor | syntax_validation.py:188-213 | result and new state are those of `Validation.ValidateFor` |
| Validating.SyntaxValidator.ForBody | syntax_validation.py:200-204 | result and new state are those of `Validation.ForBody` |
| Validating.SyntaxValidator.ForHeader | syntax_validation.py:189-191 | result and new state are those of `Validation.ForHeader` |
| Validating.SyntaxValidator.ForBounds | syntax_validation.py:192-194 | result and new state are those of `Validation.ForBounds` |
| Validating.SyntaxValidator.ForStep | syntax_validation.py:196-200 | result and new state are those of `Validation.ForStep` |
| Validating.SyntaxValidator.ValidateDoWhile | syntax_validation.py:215-232 | result and new state are those of `Validation.ValidateDoWhile` |
| Validating.SyntaxValidator.DoBody | syntax_validation.py:217-230 | result and new state are those of `Validation.DoBody` |
| Validating.SyntaxValidator.ClosingCondition | syntax_validation.py:227-228 | result and new state are those of `Validation.ClosingCondition` |
| Validating.SyntaxValidator.ValidateRepeatUntil | syntax_validation.py:235-255 | result and new state are those of `Validation.ValidateRepeatUntil` |
| Validating.SyntaxValidator.RepeatBody | syntax_validation.py:237-254 | result and new state are those of `Validation.RepeatBody` |
| Validating.SyntaxValidator.ValidateFunctionDefinition | syntax_validation.py:259-288 | result and new state are those of `Validation.ValidateFunctionDefinition` |
| Validating.SyntaxValidator.FunctionBody | syntax_validation.py:267-287 | result and new state are those of `Validation.FunctionBody` |
| Validating.SyntaxValidator.FunctionHeader | syntax_validation.py:261-265 | result and new state are those of `Validation.FunctionHeader` |
| Validating.SyntaxValidator.ValidateReturn | syntax_validation.py:292-301 | result and new state are those of `Validation.ValidateReturn` |
| Validating.SyntaxValidator.ValidateBlock | syntax_validation.py:334-355 | result and new state are those of `Validation.ValidateBlock` |
| Validating.SyntaxValidator.BlockTail | syntax_validation.py:348-355 | result and new state are those of `Validation.BlockTail` |
| Validating.SyntaxValidator.StatementLoop | syntax_validation.py:343-352 | result and new state are those of `Validation.StatementLoop` |
| Validating.SyntaxValidator.ValidateCondition | syntax_validation.py:358-381 | result and new state are those of `Validation.ValidateCondition` |
| Validating.SyntaxValidator.ValidateExpression | syntax_validation.py:384-395 | result and new state are those of `Validation.ValidateExpression` |
| Validating.SyntaxValidator.ValidateTerm | syntax_validation.py:397-438 | result and new state are those of `Validation.ValidateTerm` |
| Validating.SyntaxValidator.ArrayLiteral | syntax_validation.py:409-415 | result and new state are those of `Validation.ArrayLiteral` |
| Validating.SyntaxValidator.CallTerm | syntax_validation.py:429-436 | result and new state are those of `Validation.CallTerm` |
| Validating.SyntaxValidator.ExpressionList | syntax_validation.py:410-413 | result and new state are those of `Validation.ExpressionList` |
| Validating.SyntaxValidator.ValidateParameterList | syntax_validation.py:496-499 | result and new state are those of `Validation.ValidateParameterList` |

## Left out

- Input and output: the phase-1 and phase-2 scripts' file reading and printing, and the debug `print` in `parse_if_statement` (Compiler_Project_phase2.py:77-78), are not modelled. They produce output only.
- Whitespace tokens: the parser's loops that skip `whitespace` tokens (Compiler_Project_phase2.py:19-20, 28-29, 44-45, 73-74) are left out. The lexer never emits such a token, so they never run on its output.
- The base `Node.__str__` (ast_nodes.py:7-8) is not modelled. Every node class overrides it.
- Python's `str.isspace`, `isalpha`, `isdigit` and `isalnum`, and `upper` and `lower`, are modelled on ASCII only. Unicode letters and digits are outside the model.
- Error messages: the f-string text of each error is reduced to a tag carrying the parts it interpolates. The exception class hierarchy is not modelled.
- `_validate_function_call` (syntax_validation.py:304-314) is not modelled. No statement or term dispatches to it: CALL is reached only through the term rule.
- The first definitions of `_validate_expression`, `_validate_term`, `_validate_block` and `_validate_parameter_list` (syntax_validation.py:100-130, 160-166, 318-327) are not modelled. Python replaces them with the later definitions, which are.
- The branches at syntax_validation.py:418-427 are not modelled. The identifier and `(` cases they test are taken by the earlier branches at 401-407, so they are unreachable.
- `_validate_compound_assignment` and the other helpers at syntax_validation.py:468-513 are not modelled. Nothing calls them.
- `tokens.py` and `parse_tree.py` are not part of this model.
  - Their `Token` and `ParseTreeNode` are modelled as the `Token` datatype and the `Tree` datatype.
  - `add_child` is modelled as appending to the children.
  - A `None` child is kept as `NoTree`.
  - A node counts as true in `if statement_node:`, as any object without `__len__` or `__bool__` does.
- Validating.SyntaxValidator: `_peek` raises IndexError on a token list without a final end-of-file token, so the model requires one and does not model that IndexError.
- Lexing.Lexer.Advance: it requires that the cursor is not past the end. `tokenize` and its helpers call it only on a real character; only the constructor advances from before the start.
- Parsing.Parser: the parse that never ends is reported as the outcome `Diverges` instead of looping.
- Grammar.ParseFactor, Grammar.ParseTerm, Grammar.ParseExpression, Grammar.ParseCondition, Grammar.ParseLet, Grammar.ParseCall, Grammar.ParseIf: the contracts of these parsing functions state only progress and the error position. Their meaning is proved by the round-trip and error lemmas of `Precedence` and `Statements` (`ExpressionRoundTrip`, `FactorFailsExactly`, `ConditionRoundTrip`, `LetRoundTrip`, `LetErrors`, `CallRoundTrip`, `IfShape`).
- Validation.ValidateTerm: its contract, and that of each validating function, states what the function may do to the state. Its meaning is proved by the lemmas of `ValidationFacts`.
