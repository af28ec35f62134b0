# A verified model of the node-interpreter core

This project models the interpreter of the small "Monkey" language written in TypeScript in
the node-interpreter repository (`lib/`). The model covers:

- the lexer that turns source text into tokens
- the keyword table and the precedence table
- the Pratt parser that builds the syntax tree and collects error messages
- the `getString` renderers of the tree
- the object model: type tags, error messages, hash keys and `inspect`
- the scope environments
- the tree-walking evaluator, with its builtin functions

It also proves what these promise: the token stream ends in exactly one EOF; two binary
operators in a row (over names and integers) group left exactly when the first binds at least
as tightly, and prefix operators bind tighter than binary ones but looser than calls and
indexing; a `let` without its name or its `=` is dropped with one error and parsing goes on;
three of the parser's own examples, from the text through the tokens and the tree to
`getString`; a scope lookup finds the innermost binding; a block of any length yields the first
`return`, error or crash among its statements and runs nothing after it; identifiers resolve
through the scopes, then the builtins, then an error; and the recursive factorial of 10
evaluates to 3628800.

The model takes the source's own form:

- The lexer (`Lexing.Lexer`), the parser (`Parsing.Parser`), the program (`Ast.Program`) and
  the environment (`Environments.Environment`) are classes. Their methods update fields and
  are proved equal to specification functions: `Lexing.Tokenize`, and the `ParseSpec`
  functions on a token list and a cursor.
- The evaluator is recursive code that returns objects, so it is a family of functions.
  Every node allocation goes through an explicit heap of scopes, array element lists and
  object ids. JavaScript's reference identity (`==` on objects), the sharing of an array's
  element list (`pop`), and the two `Null` instances stay observable. The evaluator's scopes
  are the heap's frames (`Environments.FrameGet`, `FrameSet`, `Enclose`), not instances of
  the `Environment` class; the two are specified by the same `Environments.Lookup` on a chain
  of stores, so `Environment.Get` and `FrameGet` agree on equal chains.
- `evaluate` keeps its loop, as the method `Evaluator.Evaluate`.

JavaScript's `undefined` is `None`. Where the evaluator would crash (a property read on
`undefined`, a division that leaves the integers) the model yields `Stuck`. The renderers do
not model crashes: see `Ast.Render` under "Left out".

Module layout:

| module | file |
|---|---|
| `Wrappers` | `wrappers.dfy` |
| `Strings` | `strings.dfy` |
| `Tokens` | `tokens.dfy` |
| `ErrorTypes` | `errors.dfy` |
| `ParserHelper` | `parser_helper.dfy` |
| `Lexing` | `lexer.dfy` |
| `Ast` | `ast.dfy` |
| `ParseSpec` | `parse_spec.dfy` |
| `Parsing` | `parser.dfy` |
| `ParseProperties` | `parse_properties.dfy` |
| `Environments` | `environment.dfy` |
| `Objects` | `objects.dfy` |
| `Builtins` | `builtins.dfy` |
| `Evaluator` | `evaluator.dfy` |
| `EvalProperties` | `eval_properties.dfy` |
| `RunProperties` | `run_properties.dfy` |
| `ParseExamples` | `parse_examples.dfy` |
| `EvalExamples` | `eval_examples.dfy` |

## Model

| member | source | states |
|---|---|---|
| Tokens.LookUpToken | lib/token/helper.ts:3-15 | the kind is one of the seven keyword kinds or IDENT |
| Tokens.KeywordKinds | lib/token/helper.ts:5-12 | each of `let fn true false if else return` maps to its keyword kind |
| Tokens.IdentifierKind | lib/token/helper.ts:13 | a word is an IDENT exactly when it is not one of the seven keywords; the lookup is case-sensitive (`Let` is an IDENT) |
| Tokens.KeywordsInjective | lib/token/helper.ts:5-13 | distinct keywords get distinct kinds, none of them IDENT |
| ParserHelper.Precedence | lib/parser/helper.ts:3-18 | the level is one of the declared levels (never GREATER or PREFIX), and it is above LOWEST exactly for the ten table operators |
| ParserHelper.PrecedenceTable | lib/parser/helper.ts:5-16 | both directions for every level: `== !=` are EQUALS, `< >` LESSGREATER, `+ -` SUM, `/ *` PRODUCT, `(` CALL, `[` INDEX, everything else LOWEST |
| ParserHelper.LevelsOrdered | types/ast.ts:14-24 | the levels are strictly increasing in declaration order |
| ParserHelper.SetError | lib/parser/error.ts:3-12 | a `parse` error gives the "no prefix parse function" text, `debug` gives its message (possibly undefined), and every other kind gives the "expected next token" text |
| ParserHelper.Descriptor | lib/parser/Parser.ts:109-115 | an expected-token issue becomes an `expected` descriptor carrying the wanted kind's text and the peek literal; a missing prefix rule becomes a `parse` descriptor with only `got` |
| ParserHelper.Message | lib/parser/Parser.ts:398-400 | the message is exactly what `setError` returns for the issue's descriptor, and it is always defined |
| ParserHelper.Messages | lib/parser/Parser.ts:59-61 | one message per issue, in order |
| ParserHelper.MessageTexts | lib/parser/error.ts:6-10 | the two message texts in full, with the literal and the wanted kind quoted |
| ParserHelper.LetWithoutAssignMessage | tests/parser.test.ts:29-38 | `let x x 5;` reports `expected next token to be "=" got "x" instead` |
| ErrorTypes.Interpolate | lib/parser/error.ts:6 | a template prints a present field as itself and an absent one as `undefined` |
| Lexing.LetterRunEnd | lib/lexer/Lexer.ts:40-45 | the scan stops at the first non-letter or the end, and every character it passes is a letter |
| Lexing.DigitRunEnd | lib/lexer/Lexer.ts:52-57 | the scan stops at the first non-digit or the end, and every character it passes is a digit |
| Lexing.StringEnd | lib/lexer/Lexer.ts:79-86 | the scan stops at the first `"` or at the end of input, and passes no `"` |
| Lexing.ScanAt | lib/lexer/Lexer.ts:105-156 | one step always moves forward, emits at most one token and never emits EOF |
| Lexing.LexFromStep | lib/lexer/Lexer.ts:20-22 | one round of the `start` loop adds the step's token to those already collected |
| Lexing.LexFromHasNoEof | lib/lexer/Lexer.ts:105-156 | no scanned token is an EOF |
| Lexing.TokenizeEndsWithEof | lib/lexer/Lexer.ts:18-24 | the token list is never empty, ends with one EOF whose literal is empty, and holds no other EOF |
| Lexing.StepThenRest | lib/lexer/Lexer.ts:18-24 | lexing `p + s` is the first step's token followed by lexing `s`, when that step ends exactly at `s` |
| Lexing.WhitespaceIsSkipped | lib/lexer/Lexer.ts:107-111 | a space, tab, newline or carriage return emits nothing |
| Lexing.WordIsOneToken | lib/lexer/Lexer.ts:40-50 | a maximal run of letters is one token whose kind comes from the keyword table and whose literal is the run |
| Lexing.NumberIsOneToken | lib/lexer/Lexer.ts:52-62 | a maximal run of digits is one INT token with the digits as literal |
| Lexing.PunctuationIsOneToken | lib/lexer/Lexer.ts:112-131 | each of the fifteen one-character symbols is one token of its own kind, with the character as its literal, and lexing goes on after it |
| Lexing.WhitespaceRunIsSkipped | lib/lexer/Lexer.ts:107-111 | a run of spaces, tabs, newlines and carriage returns adds no token: lexing it and the rest gives the rest's tokens |
| Lexing.EqualsPairIsOneToken | lib/lexer/Lexer.ts:64-77 | `==` and `!=` are single two-character EQ and NOT_EQ tokens |
| Lexing.LoneEqualsIsOneToken | lib/lexer/Lexer.ts:64-77 | `=` or `!` not followed by `=` is ASSIGN or BANG with a one-character literal |
| Lexing.StringIsOneToken | lib/lexer/Lexer.ts:79-89 | a quoted text without `"` is one STRING token holding the text between the quotes |
| Lexing.UnterminatedStringRunsToEnd | lib/lexer/Lexer.ts:82-88 | an unterminated string takes the rest of the input |
| Lexing.IllegalIsOneToken | lib/lexer/Lexer.ts:147-152 | any other character is an ILLEGAL token whose literal is `ILLEGAL`, and lexing goes on after it |
| Lexing.Lexer.constructor | lib/lexer/Lexer.ts:10-16 | a new lexer already holds the full token list of its input |
| Lexing.Lexer.Start | lib/lexer/Lexer.ts:18-24 | the loop leaves exactly `Tokenize(input)`; the invariant ties the collected tokens to the remaining scan |
| Lexing.Lexer.ReadChar | lib/lexer/Lexer.ts:99-103 | the current character is the one at the read position (undefined past the end), and both positions advance by one |
| Lexing.Lexer.ReadIdentifier | lib/lexer/Lexer.ts:40-50 | the loop ends at the end of the letter run; the token is the run with its keyword-table kind |
| Lexing.Lexer.ReadDigit | lib/lexer/Lexer.ts:52-62 | the loop ends at the end of the digit run; the token is an INT with the run as literal |
| Lexing.Lexer.ReadString | lib/lexer/Lexer.ts:79-89 | the literal is the text up to the closing quote or the end, and reading resumes after the quote |
| Lexing.Lexer.ReadEqual | lib/lexer/Lexer.ts:64-77 | appends EQ/NOT_EQ when `=` follows (and consumes it), otherwise ASSIGN/BANG |
| Lexing.Lexer.NextToken | lib/lexer/Lexer.ts:105-156 | the new tokens and position are exactly one step of `ScanAt` |
| Ast.Statement.TokenLiteral | lib/ast/stmt.ts:17-19 | every statement's token literal is its own token's literal |
| Ast.Block.Add | lib/ast/stmt.ts:63-65 | the statement goes at the end; the earlier statements and the token are unchanged |
| Ast.NewBlock | lib/ast/stmt.ts:59-61 | a new block holds no statements |
| Ast.NewBooleanLiteral | lib/ast/expression.ts:25-27 | the value is `!!literal`: true exactly for a non-empty literal |
| Ast.NewIntegerLiteral | lib/ast/expression.ts:7-9 | an integer literal node carrying the token, with a value that is never negative (`Number` of a digit run); the partner lemma `IntegerLiteralRendersCanonically` reads the value back |
| Ast.Render | lib/ast/expression.ts:48-233 | a missing sub-node prints as `undefined`; names and strings print their literal; prefix, infix and index nodes are wrapped in one pair of parentheses; arrays print in `[` `]`, hashes in `{` `}`; an `if` starts with `if `; the lemmas below give each node's whole text from its parts' texts |
| Ast.JoinTwo | lib/ast/expression.ts:153-155 | two texts joined have the separator between them |
| Ast.PrefixRenders | lib/ast/expression.ts:48-50 | `(`, the operator, a space, the operand's text and `)` |
| Ast.IfRenders | lib/ast/expression.ts:109-115 | `if `, the condition's text, a space, the consequence's text and a space; with an alternative, `else ` and its text follow |
| Ast.FunctionRenders | lib/ast/expression.ts:130-136 | the `fn` literal, the parameter names joined by `, ` in parentheses, a space and the body's text in braces; a `null` parameter list prints as `()` |
| Ast.CallRenders | lib/ast/expression.ts:151-157 | the callee's text, then the arguments' texts joined by `, ` in parentheses; a `null` list prints as `()` |
| Ast.CallOfTwoRenders | lib/ast/expression.ts:151-157 | `f(a, b)` for two arguments |
| Ast.ArrayRenders | lib/ast/expression.ts:189-193 | the elements' texts joined by `,` with no space, in brackets; a `null` list prints as `[]` |
| Ast.ArrayOfTwoRenders | lib/ast/expression.ts:189-193 | `[a,b]` for two elements |
| Ast.IndexRenders | lib/ast/expression.ts:210-214 | `(`, the left side's text, the index's text in brackets and `)` |
| Ast.HashRenders | lib/ast/expression.ts:228-234 | each pair as `key: value`, in the order parsed, joined by `, ` in braces |
| Ast.HashOfTwoRenders | lib/ast/expression.ts:228-234 | `{k1: v1, k2: v2}` for two pairs |

| Ast.RenderStatement | lib/ast/stmt.ts:11-46 | `let` and `return` statements start with their keyword and a space; an expression statement prints as its expression; `Ast.LetRenders` and `Ast.ReturnRenders` give the rest |
| Ast.LetRenders | lib/ast/stmt.ts:11-15 | `let x = v`: `let `, the name, ` = ` and the value's text |
| Ast.ReturnRenders | lib/ast/stmt.ts:29-31 | `return v`: `return ` and the value's text |

| Ast.RenderBlock | lib/ast/stmt.ts:67-69 | an empty block prints nothing, and a block of one statement prints as that statement |
| Ast.RenderBlockAdd | lib/ast/stmt.ts:63-69 | after `add`, the block prints as before followed by `, ` and the new statement (just the statement when the block was empty) |
| Ast.RenderProgramAdd | lib/ast/ast.ts:12-22 | after `add`, the program prints as before followed by a line break and the new statement (just the statement when it was empty) |
| Ast.IntegerLiteralRendersCanonically | lib/ast/expression.ts:7-15 | an integer literal renders as its digits without leading zeros: `007` renders as `7` |
| Ast.BooleanLiteralsRenderTrue | lib/ast/expression.ts:25-33 | both `true` and `false` literals render as `true` |
| Ast.PrefixParens | lib/ast/expression.ts:48-50 | a prefix node adds exactly one `(` and one `)` around its operand |
| Ast.InfixParens | lib/ast/expression.ts:69-75 | an infix node adds exactly one `(` and one `)` around its operands |
| Ast.OperatorRenderingIsParenthesised | lib/ast/expression.ts:48-75 | in a tree of operators over identifiers and integers, the rendering has as many `(` and as many `)` as there are operator nodes |
| Ast.Program.constructor | lib/ast/ast.ts:5-7 | a new program has no statements |
| Ast.Program.Add | lib/ast/ast.ts:12-14 | appends the statement at the end |
| Ast.Program.TokenLiteral | lib/ast/ast.ts:8-10 | the first statement's literal, or the empty string when there is none |
| Ast.Program.Render | lib/ast/ast.ts:20-22 | an empty program prints nothing, and a program of one statement prints as that statement |
| Strings.NatToString | lib/ast/expression.ts:14 | the decimal text is non-empty, all digits, with no leading zero |
| Strings.IntToString | lib/ast/expression.ts:14 | the text starts with `-` exactly for a negative number |
| Strings.DecimalValueOfNatToString | lib/ast/expression.ts:8 | reading back the decimal text of `n` gives `n` |
| Strings.ToLower | lib/eval/builtins.ts:38 | same length, each character lower-cased |
| Strings.ToUpper | lib/eval/builtins.ts:57 | same length, each character upper-cased |
| Strings.ToLowerIdempotent | lib/eval/builtins.ts:38 | no upper-case letter is left, and lower-casing twice is lower-casing once |
| Strings.ToUpperIdempotent | lib/eval/builtins.ts:57 | no lower-case letter is left, and upper-casing twice is upper-casing once |
| ParseSpec.At | lib/parser/Parser.ts:63-67 | a token other than EOF is read from inside the list |
| ParseSpec.InfixRulesMatchPrecedences | lib/parser/Parser.ts:45-56 | a kind has an infix rule exactly when it binds above LOWEST |
| ParseSpec.ExpectPeek | lib/parser/Parser.ts:103-117 | succeeds exactly when the peek token has the kind; then it advances by one, otherwise it stays and adds exactly one error |
| ParseSpec.SkipSemicolon | lib/parser/Parser.ts:136-138 | advances by one exactly when the peek token is `;`, and adds no error |
| ParseSpec.ProgramLoop | lib/parser/Parser.ts:72-79 | the loop ends on an EOF, never moves back and never drops an error |
| ParseSpec.ProgramLoopStep | lib/parser/Parser.ts:72-79 | one round: a statement, kept unless it is `null`, then the next token |
| ParseSpec.ParseStatement | lib/parser/Parser.ts:84-93 | the first token decides the kind: a `let` statement exactly for `let`, a `return` statement exactly for `return`, each carrying that token; only a `let` can give `null`, and then with exactly one new error; the cursor never moves back |
| ParseSpec.ParseLetStatement | lib/parser/Parser.ts:119-141 | a statement exactly when the name and `=` follow, carrying the `let` token, the name and the value parsed after `=`; a missing name gives `null` with one "expected IDENT" error and the cursor on `let`; a missing `=` gives `null` with one "expected =" error and the cursor on the name |
| ParseSpec.LetFailureRecovers | lib/parser/Parser.ts:72-79 | after a `let` without a name, `parse` goes on from the token after `let` with one more error; after a `let` whose name has no `=`, it goes on from the token after the name; the loop keeps what it had collected |
| ParseSpec.ParseReturnStatement | lib/parser/Parser.ts:143-155 | always a `return` statement carrying the `return` token, whose value is the expression parsed after it |
| ParseSpec.ParseExpressionStatement | lib/parser/Parser.ts:425-439 | always an expression statement, never `null`, carrying the first token and the expression parsed from it |
| ParseSpec.ParseBlockStatement | lib/parser/Parser.ts:169-188 | the block carries the `{` token and ends on a `}` or on EOF |
| ParseSpec.BlockLoop | lib/parser/Parser.ts:174-185 | the loop ends on a `}` or on EOF and keeps the block's token |
| ParseSpec.BlockLoopStep | lib/parser/Parser.ts:174-185 | one round: a statement, added unless `null`, then the next token |
| ParseSpec.ParseExpression | lib/parser/Parser.ts:394-423 | the cursor never moves back and errors are only added |
| ParseSpec.PrattLoop | lib/parser/Parser.ts:406-420 | the cursor never moves back and errors are only added |
| ParseSpec.PrattLoopStep | lib/parser/Parser.ts:406-420 | while the loop goes on, the peek token has an infix rule and the loop continues from that rule's result |
| ParseSpec.ParsePrefixRule | lib/parser/Parser.ts:31-44 | the cursor never moves back and errors are only added |
| ParseSpec.ParseInfixRule | lib/parser/Parser.ts:45-56 | the cursor never moves back and errors are only added |
| ParseSpec.NoPrefixRule | lib/parser/Parser.ts:395-402 | a token with no prefix rule gives `null`, keeps the cursor, and adds exactly the "no prefix parse function" error for it |
| ParseSpec.PrefixRuleCases | lib/parser/Parser.ts:31-44 | the prefix-rule dispatch: an identifier, integer, boolean or string is a leaf built from the token without moving; `!`/`-` give a prefix node, `[` an array, `{` a hash or `null`; `(`, `if` and `fn` go to the grouped, `if` and function rules; every node but a group's carries the token |
| ParseSpec.InfixRuleCases | lib/parser/Parser.ts:45-56 | the infix-rule dispatch: `(` gives a call on the left side carrying the `(`, `[` an index node on the left side or `null`, every other operator an infix node on the left side carrying the operator |
| ParseSpec.ParsePrefixExpression | lib/parser/Parser.ts:290-298 | a prefix node carrying the operator token |
| ParseSpec.ParseInfixExpression | lib/parser/Parser.ts:300-310 | an infix node carrying the operator token, with the given left side |
| ParseSpec.ParseGroupedExpression | lib/parser/Parser.ts:278-288 | a result that is not `null` ends on the `)`; `ParseSpec.GroupedCases` gives the inner expression and the `null` |
| ParseSpec.GroupedCases | lib/parser/Parser.ts:278-288 | `( e )` is the inner expression parsed at LOWEST, with the cursor on the `)`; with no `)` next the result is `null`, the cursor stays on the inner expression's last token and exactly one "expected )" error is added |
| ParseSpec.ParseIfExpression | lib/parser/Parser.ts:190-222 | a missing `(` gives `null` with exactly the "expected (" error and the cursor left on `if`; otherwise the result is an `if` node carrying the `if` token or `null`; `ParseSpec.IfExpressionCases` gives the parts and each other `null` |
| ParseSpec.IfCondition | lib/parser/Parser.ts:197-209 | an `if` node carries the given token |
| ParseSpec.IfBlocks | lib/parser/Parser.ts:209-221 | an `if` node carries the given token |
| ParseSpec.ElseBlock | lib/parser/Parser.ts:211-219 | an `if` node from here has an alternative |
| ParseSpec.ElseBlockCases | lib/parser/Parser.ts:211-219 | after `else`, a missing `{` makes the whole `if` `null` with exactly one "expected {" error and the cursor on `else`; otherwise the node holds the condition, the consequence and, as alternative, the block parsed from that `{` |
| ParseSpec.IfBlocksCases | lib/parser/Parser.ts:209-221 | the consequence is the block parsed from the `{`; with no `else` after it the node has no alternative and the cursor stays on the consequence's `}`; an `else` goes on as `ElseBlock` |
| ParseSpec.IfConditionCases | lib/parser/Parser.ts:197-209 | the condition is parsed at LOWEST after the `(`; a missing `)` or `{` after it gives `null` with exactly one error for that token; otherwise the blocks are parsed from the `{` |
| ParseSpec.IfExpressionCases | lib/parser/Parser.ts:190-222 | for `if (`: the condition is parsed at LOWEST; a missing `)` or `{` after it makes the result `null` with exactly one error for that token; otherwise the node is built by `IfBlocks` with the `if` token and that condition |

| ParseSpec.ParseFunction | lib/parser/Parser.ts:260-276 | a missing `(` gives `null` with the "expected (" error and the cursor on `fn`; after the parameter list a missing `{` gives `null` with the "expected {" error; otherwise a function literal carrying the `fn` token, the parsed parameters and a body opened by the `{` |
| ParseSpec.ParseFunctionParameters | lib/parser/Parser.ts:233-258 | `()` gives no parameters; a list is `null` only with a new error; a list ends on `)`; `ParseSpec.ParametersCases` gives the tokens |
| ParseSpec.ParamsLoop | lib/parser/Parser.ts:246-257 | a list is `null` only with a new error, and a list ends on `)` |
| ParseSpec.CommaRun | lib/parser/Parser.ts:246-249 | the run of `, name` pairs is maximal: the token after it is not a `,` |
| ParseSpec.CommaRunCommas | lib/parser/Parser.ts:246-249 | each pair of the run starts with a `,` |
| ParseSpec.TokensAfterCommas | lib/parser/Parser.ts:246-249 | the names are the tokens right after each of the first `m` commas, in order |
| ParseSpec.ParamsLoopTokens | lib/parser/Parser.ts:246-257 | the loop appends the token after each `,` of the run; a `)` after the run gives that list with the cursor on the `)`; otherwise the list is `null`, the cursor stays on the last name and exactly one "expected )" error is added |
| ParseSpec.ParamsLoopCloses | lib/parser/Parser.ts:246-257 | the `)` case of `ParamsLoopTokens`, by induction over the pairs |
| ParseSpec.ParamsLoopFails | lib/parser/Parser.ts:246-257 | the missing-`)` case of `ParamsLoopTokens`, by induction over the pairs |
| ParseSpec.ParametersCases | lib/parser/Parser.ts:233-258 | `()` gives no parameters; otherwise the parameters are the token after `(` followed by the token after each `,`, closed by `)`; with no `)` the list is `null` with exactly one "expected )" error |

| ParseSpec.ParseCallExpression | lib/parser/Parser.ts:224-231 | a call node with the given callee, carrying the `(` token |
| ParseSpec.CallCases | lib/parser/Parser.ts:224-231 | the call's arguments are exactly the list `parseExpressionList` reads up to `)`, its `null` included, and the cursor is where that list ends |

| ParseSpec.ParseArray | lib/parser/Parser.ts:341-347 | an array node carrying the `[` token |
| ParseSpec.ArrayCases | lib/parser/Parser.ts:341-347 | the array's elements are exactly the list `parseExpressionList` reads up to `]`, its `null` included |

| ParseSpec.ParseIndexExpression | lib/parser/Parser.ts:349-360 | a result that is not `null` is an index node on the given left side, ending on `]` |
| ParseSpec.IndexCases | lib/parser/Parser.ts:349-360 | the index is parsed at LOWEST after `[` and the node holds the `[` token, the left side and that index, with the cursor on `]`; with no `]` the result is `null` with exactly one "expected ]" error |

| ParseSpec.ParseExpressionList | lib/parser/Parser.ts:316-339 | an immediate `end` gives the empty list; a list ends on `end`; `null` comes only with a new error |
| ParseSpec.ListLoop | lib/parser/Parser.ts:328-338 | a list ends on `end`, and `null` comes only with a new error |
| ParseSpec.ListLoopStep | lib/parser/Parser.ts:328-332 | one round: skip the `,`, parse one more expression, append it |
| ParseSpec.ParseHashLiteral | lib/parser/Parser.ts:362-392 | a result that is not `null` is a hash node carrying the `{` token and ends on `}`; `ParseSpec.HashLiteralCases` gives the pairs and the `null` |
| ParseSpec.HashLiteralCases | lib/parser/Parser.ts:362-392 | the node holds exactly the pairs the loop collected, with the cursor on `}`; it is `null` exactly when a round of the loop failed |

| ParseSpec.MissingKeyIndex | lib/parser/Parser.ts:378 | finds a pair whose key is `null` exactly when there is one |
| ParseSpec.SetPair | lib/parser/Parser.ts:378 | an object key is always new, so its pair is appended; only a `null` key can replace a pair |
| ParseSpec.HashPair | lib/parser/Parser.ts:367-378 | it always advances; a failure adds an error; at most one pair is added |
| ParseSpec.HashEntry | lib/parser/Parser.ts:367-385 | it always advances and a failure adds an error |
| ParseSpec.HashPairCases | lib/parser/Parser.ts:367-378 | the key and then the value are parsed at LOWEST and the pair is set into the pairs so far; with no `:` after the key the round fails with exactly one "expected :" error |
| ParseSpec.HashEntryCases | lib/parser/Parser.ts:367-385 | after a pair, `}` next ends the round, `,` is skipped, and anything else fails the round with exactly one "expected ," error |
| ParseSpec.HashLoopFails | lib/parser/Parser.ts:366-386 | a failed round fails the whole loop |

| ParseSpec.HashLoop | lib/parser/Parser.ts:366-386 | success leaves a `}` as the peek token; a failure adds an error |
| ParseSpec.HashLoopStep | lib/parser/Parser.ts:366-386 | one round of the loop, while the peek token is not `}` |
| Parsing.Parser.Errors | lib/parser/Parser.ts:59-61 | each message is what `setError` gives for the recorded issue, in order |
| Parsing.Parser.constructor | lib/parser/Parser.ts:25-57 | the tokens are the lexer's, nothing is consumed, there are no errors and the program is empty |
| Parsing.Parser.NextToken | lib/parser/Parser.ts:63-67 | the peek token becomes current and the position advances by one |
| Parsing.Parser.ExpectPeek | lib/parser/Parser.ts:103-117 | result and new state are those of `ParseSpec.ExpectPeek` |
| Parsing.Parser.SkipSemicolon | lib/parser/Parser.ts:136-138 | the new state is that of `ParseSpec.SkipSemicolon` |
| Parsing.Parser.Parse | lib/parser/Parser.ts:69-82 | the program's statements and the final state are those of `ParseSpec.ParseProgram` on the token list |
| Parsing.Parser.ParseProgramLoop | lib/parser/Parser.ts:72-79 | the loop leaves the statements and state of `ParseSpec.ProgramLoop` |
| Parsing.Parser.ParseProgramStep | lib/parser/Parser.ts:73-78 | one round moves forward and preserves what `ProgramLoop` yields |
| Parsing.Parser.ParseStatement | lib/parser/Parser.ts:84-93 | equals `ParseSpec.ParseStatement` |
| Parsing.Parser.ParseLetStatement | lib/parser/Parser.ts:119-141 | equals `ParseSpec.ParseLetStatement` |
| Parsing.Parser.ParseReturnStatement | lib/parser/Parser.ts:143-155 | equals `ParseSpec.ParseReturnStatement` |
| Parsing.Parser.ParseExpressionStatement | lib/parser/Parser.ts:425-439 | equals `ParseSpec.ParseExpressionStatement` |
| Parsing.Parser.ParseBlockStatement | lib/parser/Parser.ts:169-188 | equals `ParseSpec.ParseBlockStatement` |
| Parsing.Parser.ParseBlockLoop | lib/parser/Parser.ts:174-185 | the loop leaves what `ParseSpec.BlockLoop` yields |
| Parsing.Parser.ParseBlockStep | lib/parser/Parser.ts:178-184 | one round moves forward and preserves what `BlockLoop` yields |
| Parsing.Parser.ParseExpression | lib/parser/Parser.ts:394-423 | equals `ParseSpec.ParseExpression`; the loop invariant keeps what `PrattLoop` yields |
| Parsing.Parser.ParseInfixStep | lib/parser/Parser.ts:417-419 | one round moves forward and preserves what `PrattLoop` yields |
| Parsing.Parser.ParsePrefixRule | lib/parser/Parser.ts:31-44 | equals `ParseSpec.ParsePrefixRule` |
| Parsing.Parser.ParseInfixRule | lib/parser/Parser.ts:45-56 | equals `ParseSpec.ParseInfixRule` |
| Parsing.Parser.ParsePrefixExpression | lib/parser/Parser.ts:290-298 | equals `ParseSpec.ParsePrefixExpression` |
| Parsing.Parser.ParseInfixExpression | lib/parser/Parser.ts:300-310 | equals `ParseSpec.ParseInfixExpression` |
| Parsing.Parser.ParseGroupedExpression | lib/parser/Parser.ts:278-288 | equals `ParseSpec.ParseGroupedExpression` |
| Parsing.Parser.ParseIfExpression | lib/parser/Parser.ts:190-222 | equals `ParseSpec.ParseIfExpression` |
| Parsing.Parser.ParseIfCondition | lib/parser/Parser.ts:197-209 | equals `ParseSpec.IfCondition` |
| Parsing.Parser.ParseIfBlocks | lib/parser/Parser.ts:209-221 | equals `ParseSpec.IfBlocks` |
| Parsing.Parser.ParseElseBlock | lib/parser/Parser.ts:211-219 | equals `ParseSpec.ElseBlock` |
| Parsing.Parser.ParseFunctionParameters | lib/parser/Parser.ts:233-258 | equals `ParseSpec.ParseFunctionParameters`; the loop invariant keeps what `ParamsLoop` yields |
| Parsing.Parser.ParseFunction | lib/parser/Parser.ts:260-276 | equals `ParseSpec.ParseFunction` |
| Parsing.Parser.ParseCallExpression | lib/parser/Parser.ts:224-231 | equals `ParseSpec.ParseCallExpression` |
| Parsing.Parser.ParseArray | lib/parser/Parser.ts:341-347 | equals `ParseSpec.ParseArray` |
| Parsing.Parser.ParseIndexExpression | lib/parser/Parser.ts:349-360 | equals `ParseSpec.ParseIndexExpression` |
| Parsing.Parser.ParseExpressionList | lib/parser/Parser.ts:316-339 | equals `ParseSpec.ParseExpressionList` |
| Parsing.Parser.ParseListLoop | lib/parser/Parser.ts:328-338 | the loop leaves what `ParseSpec.ListLoop` yields |
| Parsing.Parser.ParseListStep | lib/parser/Parser.ts:329-331 | one round moves forward and preserves what `ListLoop` yields |
| Parsing.Parser.ParseHashLiteral | lib/parser/Parser.ts:362-392 | equals `ParseSpec.ParseHashLiteral` |
| Parsing.Parser.ParseHashEntry | lib/parser/Parser.ts:367-385 | equals `ParseSpec.HashEntry` |
| Parsing.Parser.ParseHashPair | lib/parser/Parser.ts:367-378 | equals `ParseSpec.HashPair` |
| ParseProperties.PrattLoopStopsExactly | lib/parser/Parser.ts:406-422 | the loop stays put exactly when the peek token is `;` or binds no tighter than the minimum, and then returns the left side |
| ParseProperties.AtomStops | lib/parser/Parser.ts:404-422 | an identifier or integer followed by a weaker token is a leaf |
| ParseProperties.FoldInfix | lib/parser/Parser.ts:300-310 | a binary operator that binds above the minimum takes the left side, and its right side is parsed at the operator's own level |
| ParseProperties.GroupsLeft | lib/parser/Parser.ts:406-420 | `a op1 b op2 c` with `op1` binding at least as tightly as `op2` is `((a op1 b) op2 c)` |
| ParseProperties.RightSideAbsorbs | lib/parser/Parser.ts:300-310 | when `op2` binds tighter, the right side of `op1` is `b op2 c` |
| ParseProperties.GroupsRight | lib/parser/Parser.ts:406-420 | `a op1 b op2 c` with `op2` binding tighter is `(a op1 (b op2 c))` |
| ParseProperties.TwoOperatorsGroupByPrecedence | lib/parser/helper.ts:3-18 | two binary operators group left exactly when the first binds at least as tightly |
| ParseProperties.PrefixStep | lib/parser/Parser.ts:290-298 | a prefix operator parses its operand at PREFIX, and the loop goes on with the prefix node |
| ParseProperties.LastBinary | lib/parser/Parser.ts:300-310 | a left side followed by `op b` and a weak token is one binary node |
| ParseProperties.PrefixAtom | lib/parser/Parser.ts:290-298 | `!a` or `-a` before a weaker token is a prefix node over the leaf |
| ParseProperties.PrefixBindsTighterThanBinary | lib/parser/Parser.ts:295 | `-a op b` is `((-a) op b)` for every binary operator |
| ParseProperties.CallOperand | lib/parser/Parser.ts:224-231 | `f(x)` at PREFIX is the whole call |
| ParseProperties.CallBindsTighterThanPrefix | lib/parser/helper.ts:14 | `-f(x)` is `(-(f(x)))` |
| ParseProperties.IndexOperand | lib/parser/Parser.ts:349-360 | `a[b]` at PREFIX is the whole index expression |
| ParseProperties.IndexBindsTighterThanPrefix | lib/parser/helper.ts:15 | `-a[b]` is `(-(a[b]))` |
| ParseExamples.LetWithoutAssignLexes | tests/parser.test.ts:30 | `let x x 5;` lexes to LET, IDENT `x`, IDENT `x`, INT `5`, `;` and EOF |
| ParseExamples.AfterLetParses | lib/parser/Parser.ts:72-93 | after the failed `let`, `x` and `5` are parsed as two expression statements and the input ends, with no further error |
| ParseExamples.LetWithoutAssignParses | tests/parser.test.ts:29-38 | `let x x 5;` parses to the two statements `x` and `5` and exactly one error, whose message is `expected next token to be "=" got "x" instead`: the `let` is dropped and parsing goes on |
| ParseExamples.GroupedTextSpelledOut | tests/parser.test.ts:111-113 | the input of the grouped example is the test's template text, line breaks and indentation included |
| ParseExamples.GroupedLexes | tests/parser.test.ts:111-113 | that text lexes to the eleven tokens `1 + ( 2 + 3 ) + 4 ;` and EOF |
| ParseExamples.GroupedParses | lib/parser/Parser.ts:278-310 | those tokens parse, with no error, to one expression statement holding `(1 + (2 + 3)) + 4` as a tree |
| ParseExamples.GroupedTreeRenders | lib/ast/expression.ts:69-75 | that tree prints as `((1 + (2 + 3)) + 4)` |
| ParseExamples.GroupedRendersAsTested | tests/parser.test.ts:110-118 | `getString` of the program parsed from `1 + (2 + 3) + 4;` is `((1 + (2 + 3)) + 4)`, and parsing records no error |
| ParseExamples.IfTextSpelledOut | tests/parser.test.ts:121-123 | the input of the `if` example is the test's template text |
| ParseExamples.IfLexes | tests/parser.test.ts:121-123 | that text lexes to the fifteen tokens `if ( x > y ) { x } else { y } ;` and EOF |
| ParseExamples.IfParses | lib/parser/Parser.ts:190-222 | those tokens parse, with no error, to one expression statement holding the `if` node with condition `x > y` and the one-statement blocks `x` and `y` |
| ParseExamples.IfTreeRenders | lib/ast/expression.ts:109-115 | that node prints as `if (x > y) x else y` |
| ParseExamples.IfRendersAsTested | tests/parser.test.ts:120-127 | `getString` of the program parsed from `if (x > y) { x } else { y };` is `if (x > y) x else y`, and parsing records no error |
| ParseExamples.FnTextSpelledOut | tests/parser.test.ts:130-132 | the input of the function example is the test's template text |
| ParseExamples.FnLexes | tests/parser.test.ts:130-132 | that text lexes to the thirteen tokens `fn ( x , y ) { x + y ; }` and EOF |
| ParseExamples.FnParses | lib/parser/Parser.ts:233-276 | those tokens parse, with no error, to one expression statement holding a function literal with parameters `x`, `y` and the body `x + y` |
| ParseExamples.FnTreeRenders | lib/ast/expression.ts:130-136 | that literal prints as `fn(x, y) {(x + y)}` |
| ParseExamples.FnRendersAsTested | tests/parser.test.ts:129-136 | `getString` of the program parsed from `fn(x, y) { x + y; }` is `fn(x, y) {(x + y)}`, and parsing records no error |
| ParseExamples.AtomStatementParses | lib/parser/Parser.ts:425-439 | a name or integer followed by a token that binds at LOWEST is an expression statement of that leaf, ending on it or on the `;` after it |
| ParseExamples.ExpressionStatementParses | lib/parser/Parser.ts:84-93 | a statement that starts with neither `let` nor `return` is the expression there, with an optional `;` |
| ParseExamples.ProgramLoopLastStatement | lib/parser/Parser.ts:72-79 | a statement followed by the end of input is appended to what the loop collected, and the loop ends after it |
| ParseExamples.OneExpressionProgram | lib/parser/Parser.ts:69-82 | a program whose first expression runs up to an optional `;` and the end of input is exactly that one expression statement |
| ParseExamples.BlockLoopLastStatement | lib/parser/Parser.ts:174-185 | a statement followed by `}` is added to the block, and the block ends on that `}` |
| ParseExamples.OneStatementBlockParses | lib/parser/Parser.ts:169-188 | `{ a }` with `a` a name is a block of one expression statement carrying the `{`, ending on the `}` |
| ParseExamples.InfixRenders | lib/ast/expression.ts:69-75 | an infix node prints as `(`, the left text, the operator between spaces, the right text and `)` |
| ParseExamples.DigitRenders | lib/ast/expression.ts:7-15 | a one-digit integer literal prints as its digit |
| Environments.Local | lib/object/environment.ts:10-14 | an unset name is `undefined`, a set one is its value |
| Environments.LookupFindsInnermost | lib/object/environment.ts:31-39 | a lookup gives `x` exactly when some scope defines the name as `x` and no scope inside it defines it |
| Environments.LookupUndefined | lib/object/environment.ts:31-39 | a name is `undefined` exactly when no scope of the chain defines it |
| Environments.LookupAfterWrite | lib/object/environment.ts:41-44 | after a write of a defined value the name reads as it; every other name reads as before |
| Environments.Environment.Footprint | lib/object/environment.ts:22-29 | the scopes a lookup visits include this one, and each enclosing scope is strictly outer |
| Environments.Environment.Chain | lib/object/environment.ts:31-39 | the innermost store of the chain is this scope's store |
| Environments.Environment.constructor | lib/object/environment.ts:6-8 | an outermost scope over the given store |
| Environments.Environment.Enclosed | lib/object/environment.ts:26-29 | an empty scope whose chain continues with the outer chain |
| Environments.Environment.Get | lib/object/environment.ts:31-39 | the innermost defined binding of the chain |
| Environments.Environment.Set | lib/object/environment.ts:41-44 | writes this scope only and returns the value; the name then reads as the value, every other name and the enclosing chain are unchanged |
| Environments.FrameGet | lib/object/environment.ts:31-39 | `get` on a heap scope is the chain lookup |
| Environments.FrameSet | lib/object/environment.ts:41-44 | `set` changes that one store and no scope is added or relinked |
| Environments.Enclose | lib/object/environment.ts:26-29 | a new empty scope at the end, enclosing the given one |
| Environments.ChainOfExtend | lib/object/environment.ts:26-29 | adding scopes leaves every existing chain as it was |
| Environments.EncloseChain | lib/object/environment.ts:26-39 | a new enclosed scope looks itself up first, then its outer chain |
| Environments.FrameSetKeepsEarlierChains | lib/object/environment.ts:41-44 | a write in a scope never changes what an older scope sees |
| Environments.FrameGetAfterSet | lib/object/environment.ts:16-19 | after `set` of a defined value `get` returns it; other names are unchanged |
| Objects.TypeOf | lib/object/object.ts:5-218 | the tag identifies each class: ERROR, INTEGER, STRING, ARRAY and HASH in both directions |
| Objects.PairTypeOf | lib/object/object.ts:193-195 | a hash pair reports the tag of a hash |
| Objects.TagsIdentifyClasses | lib/object/object.ts:5-218 | two objects share a tag, and its printed text, exactly when they are of the same class |
| Objects.ErrorMessage | lib/object/object.ts:51-79 | the message each error kind selects, including `undefined` for a kind without a template and no `msg` |
| Objects.NewError | lib/object/object.ts:53-79 | an error built with a message always has one |
| Objects.ArgsErrorFor | lib/object/object.ts:70-72 | the wrong-count error is an error |
| Objects.SupportErrorFor | lib/object/object.ts:67-69 | the unsupported-argument error is an error |
| Objects.ArgsErrorsWantOne | lib/object/object.ts:71 | every wrong-count message ends in `want=1`, whatever was wanted |
| Objects.StringToHash | lib/object/object.ts:174-181 | the empty string hashes to 0 |
| Objects.HashOf | lib/object/object.ts:163-172 | a boolean hashes to 1 or 0, an integer to itself, and a string to `stringToHash` of its text |
| Objects.HashCollisions | lib/object/object.ts:163-181 | `true` and `1` collide, `false`, `0` and `""` collide, `"a"` and `97` collide, and equal texts collide whatever their identity |
| Objects.MapGet | lib/eval/Eval.ts:357-361 | `get` is undefined exactly for an absent key |
| Objects.MapSet | lib/eval/Eval.ts:152 | `set` of an existing key replaces it in place; a new key is appended |
| Objects.MapGetAfterSet | lib/eval/Eval.ts:152 | after `set(k, v)` `get(k)` is `v`, other keys read as before, the key set grows by `k`, and keys stay unique |
| Objects.Bump | lib/eval/Eval.ts:43-47 | an allocation takes the next id and changes nothing else |
| Objects.NewArray | lib/eval/Eval.ts:103 | a new array over a new element list holding the given elements |
| Objects.Inspect | lib/object/object.ts:12-217 | `inspect` of integers, booleans, nulls, strings, errors, builtins and return values; an array holding an `undefined` element has no text |
| Objects.ArrayInspects | lib/object/object.ts:147-151 | an array whose elements inspect as `texts` prints as `[` the texts joined by `,` with no space `]` |
| Objects.HashInspects | lib/object/object.ts:197-217 | a hash whose pairs inspect as `texts`, in insertion order, prints as `{` the texts joined by `, ` `}` |
| Objects.FunctionInspects | lib/object/object.ts:105-113 | a function prints as `fn(` its parameter names joined by `, ` `){` its rendered body `}`; one with a `null` parameter list has no text |
| Objects.OneTwoInspects | lib/object/object.ts:147-151 | the array of 1 and 2 prints as `[1,2]` |
| Objects.OnePairInspects | lib/object/object.ts:197-217 | the hash holding the one pair `1: 2` prints as `{1: 2}` |
| Objects.InspectPair | lib/object/object.ts:197-199 | a pair inspects exactly when its key and value do |
| Builtins.LenOf | lib/eval/builtins.ts:7-24 | the length of a string or an array; anything else is unsupported |
| Builtins.ConvertCase | lib/eval/builtins.ts:26-58 | a new string, case converted; anything else is unsupported |
| Builtins.EndElement | lib/eval/builtins.ts:60-87 | the first or last element, `undefined` for an empty array; anything else is unsupported |
| Builtins.RestOf | lib/eval/builtins.ts:89-106 | a new array of all elements but the first over a new list; the builtins' own `Null` for an empty array |
| Builtins.PushOnto | lib/eval/builtins.ts:107-121 | a new array over a new list: the elements, then the new one; old lists unchanged |
| Builtins.PopFrom | lib/eval/builtins.ts:122-137 | shrinks the argument's own list in place and returns a new array over that same list |
| Builtins.Apply | lib/eval/builtins.ts:7-143 | the count is checked first; an undefined first argument crashes; `log` crashes on any undefined argument; no builtin touches the scopes |
| Builtins.ArityCheckedFirst | lib/eval/builtins.ts:107-109 | a wrong count answers the args error whatever the argument; `push` with one argument says `got=1, want=1` |
| Builtins.PushGrowsByOne | lib/eval/builtins.ts:107-121 | `len(push(a, x))` is `len(a) + 1`, `a` is unchanged, and `last` of the result is `x` |
| Builtins.RestDropsFirst | lib/eval/builtins.ts:89-106 | `rest` is one element shorter and leaves `a`; `rest([])` is a `Null` that is not the evaluator's |
| Builtins.PopShrinksOriginal | lib/eval/builtins.ts:133-136 | after `pop(a)` both `a` and the result are one element shorter and share the same list |
| Evaluator.NativeBool | lib/eval/Eval.ts:246-248 | the singleton with the given truth |
| Evaluator.Bang | lib/eval/Eval.ts:325-336 | `!` is the negation of truthiness |
| Evaluator.Halt | lib/eval/Eval.ts:162-167 | after an `isError` guard, an error is passed on unchanged and `undefined` crashes |
| Evaluator.EvalIntegerInfix | lib/eval/Eval.ts:250-281 | each operator's arithmetic or comparison; inexact or zero division crashes the model; an unknown operator names both types |
| Evaluator.EvalStringInfix | lib/eval/Eval.ts:283-298 | `+` makes a new string of both texts; any other operator is unknown |
| Evaluator.EvalInfix | lib/eval/Eval.ts:300-323 | the branch order: integers, then identity for `==` and `!=`, then strings, then type mismatch, then unknown operator |
| Evaluator.EvalPrefix | lib/eval/Eval.ts:379-399 | `!` by truthiness, `-` negates integers, anything else is an unknown operator |
| Evaluator.EvalIndex | lib/eval/Eval.ts:338-377 | array by position (`NULL` outside), hash by usable key (`NULL` when absent), unusable key error, otherwise "index operator not supported" |
| Evaluator.EvalIdentifier | lib/eval/Eval.ts:207-217 | a defined binding first, then the builtin, then "identifier not found" |
| Evaluator.FirstError | lib/eval/Eval.ts:202 | finds an error exactly when the list holds one |
| Evaluator.FirstErrorIsFirst | lib/eval/Eval.ts:202-204 | the error found is the first in the list |
| Evaluator.ListHalt | lib/eval/Eval.ts:94 | the first error is returned when there is one; a single `undefined` crashes |
| Evaluator.Bind | lib/eval/Eval.ts:187 | parameter binding writes only the new scope |
| Evaluator.EvalExpr | lib/eval/Eval.ts:35-116 | evaluation only adds scopes, lists and ids; a missing node is `NULL`; an identifier resolves by `EvalIdentifier`; integer, boolean, string and function literals give their objects, the string and the function under a new id |
| Evaluator.EvalPrefixNode | lib/eval/Eval.ts:59-64 | an operand that halts (an error or `undefined`) is passed on by `Halt`; otherwise the operator is applied to the operand's value in the heap it left |
| Evaluator.EvalInfixNode | lib/eval/Eval.ts:48-58 | the left operand first; if it halts, the right one is never evaluated; then the right one in the heap the left one left; then `EvalInfix` on both values |
| Evaluator.EvalIfNode | lib/eval/Eval.ts:232-244 | a condition that halts is passed on; a falsy condition with no alternative is `NULL` in the heap the condition left |
| Evaluator.EvalCallNode | lib/eval/Eval.ts:88-95 | the callee first, and it halts the call before any argument; a `null` argument list crashes; an argument crash, the first argument error, or a lone `undefined` argument ends the call; otherwise the callee is applied to the argument values |
| Evaluator.EvalArrayNode | lib/eval/Eval.ts:96-103 | a `null` element list crashes; an element crash, the first element error or a lone `undefined` element ends it; otherwise a new array over a new list holding exactly the element values, older lists unchanged |
| Evaluator.EvalIndexNode | lib/eval/Eval.ts:104-110 | the indexed value first, and it halts before the index is evaluated; then the index; then `EvalIndex` on both |
| Evaluator.EvalList | lib/eval/Eval.ts:200-205 | one value per item from `i` on, and the heap only grows; a crash of item `i` crashes the list; otherwise, unless a later item crashes, the list starts with item `i`'s value |
| Evaluator.EvalPairs | lib/eval/Eval.ts:134-156 | a key that halts is passed on and an unhashable key gives the "unusable as hash key" error before its value runs; a result is an error or a hash that keeps every earlier key, has at most one pair per remaining entry more, and keeps keys unique |
| Evaluator.EvalBlock | lib/eval/Eval.ts:65-69 | never `undefined`; an empty block is `NULL`; a first statement that crashes, returns or errs is the block's result |
| Evaluator.EvalStatements | lib/eval/Eval.ts:118-132 | never `undefined`; past the last statement it is the last defined value; a statement that crashes, returns or errs is the result |
| Evaluator.EvalStmt | lib/eval/Eval.ts:37-84 | `return` passes on a halting value and otherwise wraps the value in a new `ReturnValue`; `let` passes on a halting value and otherwise writes it in the current scope only and yields `undefined` |
| Evaluator.ApplyFunction | lib/eval/Eval.ts:169-182 | a user function with parameters runs its body in a new scope binding the arguments, enclosing its defining scope, and unwraps a `ReturnValue`; a builtin is `Builtins.Apply`; anything else is the "not a function" error; the heap only grows |
| Evaluator.Unwrap | lib/eval/Eval.ts:192-198 | a return value gives its content; anything else passes unchanged |
| Evaluator.Evaluate | lib/eval/Eval.ts:20-33 | the loop yields exactly `RunFrom` of the statements |
| EvalProperties.LookupCons | lib/object/environment.ts:31-39 | a store in front of a chain decides a name it defines, otherwise the chain does |
| EvalProperties.BindFresh | lib/eval/Eval.ts:184-190 | binding parameters in a new scope appends one scope holding them, enclosing the function's own |
| EvalProperties.ParamStoreUnnamed | lib/eval/Eval.ts:187 | a name no parameter carries is not in the new scope |
| EvalProperties.ParamStoreLast | lib/eval/Eval.ts:187 | a parameter holds the argument of its last occurrence, `undefined` without one |
| EvalProperties.CallScope | lib/eval/Eval.ts:184-190 | the new scope leaves the old ones; other names resolve where the function was defined; a parameter resolves to its argument, falling through when the argument is `undefined` |
| EvalProperties.Trace | lib/eval/Eval.ts:118-132 | the record of a block's statements run one after another: at most one result per statement, all but the last normal, and cut short only after a crash |
| EvalProperties.StatementsRecord | lib/eval/Eval.ts:118-132 | `evalStatements` from any position is the first result of the record that ends the block or, with none, the last defined value in the heap the last statement left |
| EvalProperties.BlockStopsEarly | lib/eval/Eval.ts:118-132 | for a block of any length: an empty block is `NULL`; the block yields exactly the first `ReturnValue`, `Error` or crash in the record of its statements, wherever it is, and nothing after it runs; with none, every statement runs and the block yields the last defined value, or `NULL`; and the block ends early exactly when one of its statements does |
| EvalProperties.UserCallsDefined | lib/eval/Eval.ts:169-175 | a user function call never yields `undefined` |
| RunProperties.RunRecord | lib/eval/Eval.ts:20-33 | `evaluate` from any statement on, read against the record of its statement results: the first ending entry decides the run, and with none the run collects every value |
| RunProperties.RunEndsExactly | lib/eval/Eval.ts:20-33 | a run's result crashed or holds a `ReturnValue` or `Error` exactly when some entry of the record ends the run |
| RunProperties.RunStopsAtFirst | lib/eval/Eval.ts:20-33 | `evaluate` yields the FIRST `ReturnValue` or `Error` among the statement results alone, in the heap it left, and a crash before it is the run's crash; with none, every statement runs and the results are exactly the statements' values in order; and the run stops early exactly when some statement's result ends it |
| EvalProperties.LetBinds | lib/eval/Eval.ts:79-84 | `let` writes the value in the current scope, leaves other names, and yields `undefined` |
| EvalProperties.IdentifierOrder | lib/eval/Eval.ts:207-217 | a user binding hides a builtin of the same name; an unbound `len` is the builtin |
| EvalProperties.CalleeErrorFirst | lib/eval/Eval.ts:91-92 | an erroneous callee is returned before any argument is evaluated |
| EvalProperties.NotAFunction | lib/eval/Eval.ts:179-180 | calling a non-function is "not a function" naming its type |
| EvalProperties.InfixStep | lib/eval/Eval.ts:54-58 | left operand, then right operand, then the operator |
| EvalProperties.CallStep | lib/eval/Eval.ts:91-95 | a one-argument call: callee, then the argument, then the application |
| EvalProperties.OneStatementBlock | lib/eval/Eval.ts:118-132 | a one-statement block yields that statement's result |
| EvalProperties.OneStatementProgram | lib/eval/Eval.ts:20-33 | a one-statement program yields the list of that result |
| EvalProperties.UnknownOperator | lib/eval/Eval.ts:317-321 | `true + false` is "unknown operator: BOOLEAN + BOOLEAN" |
| EvalProperties.TypeMismatch | lib/eval/Eval.ts:312-316 | `1 + true` is "type mismatch: INTEGER + BOOLEAN" |
| EvalProperties.EqualityIsIdentity | lib/eval/Eval.ts:305-308 | `==` and `!=` on strings compare identity, not text |
| EvalProperties.Truthiness | lib/eval/Eval.ts:219-230 | the evaluator's `NULL` and `FALSE` are false and `TRUE` is true; the builtins' `Null` is true, so `!` of it is `FALSE`; `!0` is `FALSE` |
| EvalProperties.IfByTruthiness | lib/eval/Eval.ts:232-244 | a truthy condition runs the consequence, else the alternative, else `NULL` |
| EvalProperties.UnusableKeyFirst | lib/eval/Eval.ts:138-146 | an unhashable key stops the literal before its value is evaluated |
| EvalProperties.HashPairStep | lib/eval/Eval.ts:138-152 | a key and value that evaluate set the key's hash to the pair, replacing one of equal hash |
| EvalProperties.ArrayLiteralReadsBack | lib/eval/Eval.ts:96-103 | an array that an array literal makes has `len` equal to the number of elements, and index `k` reads back the value element `k` evaluated to; an array comes out only when no element is an error |
| EvalExamples.EvalInt | lib/eval/Eval.ts:42-43 | an integer literal evaluates to its value |
| EvalExamples.EvalIntOp | lib/eval/Eval.ts:48-58 | an infix node over two integers is the integer operation |
| EvalExamples.FiftyValue | tests/eval.test.ts:35-41 | `(5 + 10 * 2 + 15 / 3) * 2 + -10` is 50 |
| EvalExamples.FiftyExample | tests/eval.test.ts:35-41 | that program yields the single result 50 |
| EvalExamples.IntegerComparisonExample | tests/eval.test.ts:27-33 | `(10 + 2) * 30 == 300 + 20 * 3` is `true` |
| EvalExamples.StringLiteralsAreDistinct | lib/eval/Eval.ts:305-306 | `"a" == "a"` is `false`: two literals are two objects |
| EvalExamples.StringConcatenation | lib/eval/Eval.ts:297 | `"a" + "b"` is a third string `ab` |
| EvalExamples.HashKeysCollide | lib/eval/Eval.ts:150-152 | `{true: 1, 1: 2}` holds one pair, `1: 2` |
| EvalExamples.CollidingHashInspects | lib/object/object.ts:213-217 | that hash prints as `{1: 2}` |
| EvalExamples.SingleStatementBlock | lib/eval/Eval.ts:118-132 | a one-statement block yields that statement's value |
| EvalExamples.ConditionValue | lib/eval/Eval.ts:271-272 | `n == 0` compares the bound integer with zero |
| EvalExamples.BaseCase | lib/eval/Eval.ts:237-238 | with `n` bound to 0 the body yields 1 |
| EvalExamples.RecursiveCallStep | lib/eval/Eval.ts:88-95 | `factorial(n - 1)` applies the bound function to `k - 1` |
| EvalExamples.RecursiveCase | lib/eval/Eval.ts:239-240 | with `n` bound to `k != 0` the body yields `k` times the recursive result |
| EvalExamples.FactorialScope | lib/eval/Eval.ts:184-190 | a call binds `n` in a new scope that still sees `factorial` |
| EvalExamples.BodyComputes | lib/eval/Eval.ts:169-175 | a call yields what the body's `if` yields in the new scope, the call itself taking one unit of fuel |
| EvalExamples.BaseBody | lib/eval/Eval.ts:232-244 | in a call on 0 the body yields `0! = 1` |
| EvalExamples.StepBody | lib/eval/Eval.ts:232-244 | in a call on `k > 0` the body yields `k!` given the recursive call yields `(k - 1)!` |
| EvalExamples.FactorialBase | lib/eval/Eval.ts:169-175 | the call on 0 computes 1 |
| EvalExamples.CalledKeepsFactorial | lib/eval/Eval.ts:184-190 | the new scope keeps `factorial` reachable |
| EvalExamples.FactorialStep | lib/eval/Eval.ts:169-175 | if the call on `k - 1` computes `(k - 1)!`, the call on `k` computes `k!` |
| EvalExamples.FactorialComputes | tests/eval.test.ts:85-94 | the bound function applied to `k` yields `k!` and leaves older scopes, given fuel for `k + 1` nested calls |
| EvalExamples.FactorialInduct | tests/eval.test.ts:85-94 | the inductive case of the above |
| EvalExamples.LetFactorial | lib/eval/Eval.ts:79-87 | the `let` binds `factorial` in the outermost scope and yields `undefined` |
| EvalExamples.CallTen | lib/eval/Eval.ts:88-95 | `factorial(10)` applies the bound function to 10 |
| EvalExamples.FactorialOfTen | tests/eval.test.ts:85-94 | the program yields `undefined` for the `let` and 3628800 for the call |

## Left out

- Terminal colour codes in `getString` and `inspect` are left out: they only wrap the text.
- The REPL (`lib/repl/Repl.ts`) and `console.log` output are not part of this model. `log` is
  modelled by its result, the builtins' own `Null`.
- Numbers are JavaScript doubles. The model uses unbounded integers and does not model
  precision loss above 2^53. A `/` that does not divide exactly, or divides by zero, would
  give a fraction, an infinity or NaN; there the model is `Stuck`.
- Evaluator.EvalIntegerInfix: stops at an inexact or zero division instead of yielding the
  fraction, infinity or NaN.
- Strings are sequences of code points. Neither UTF-16 code units (which `length` and
  `charCodeAt` count) nor Unicode case mapping beyond ASCII is modelled. `toLowerCase` and
  `toUpperCase` change only ASCII letters here; the one exception is `isLetter`, whose
  `Lexing.IsLetter` also accepts the Kelvin sign U+212A, the one non-ASCII character that
  lower-cases to an ASCII letter.
- Builtins.ConvertCase: converts ASCII letters only.
- Objects.StringToHash: hashes each code point as one character, not UTF-16 code units.
- Lookups in plain JavaScript objects also find names inherited from `Object.prototype`
  (`constructor`, `toString`, ...), in scopes, in the builtins table and in the keyword table
  of `lookUpToken` (lib/token/helper.ts:3-13), where `constructor` would not lex as an
  identifier. The model treats the stores and the tables as maps holding only what was put in,
  so `Tokens.IdentifierKind` differs from the source for those names.
- Tokens.IdentifierKind: a word named on `Object.prototype` (`constructor`, `toString`, ...)
  is an IDENT here; in the source its token type is that inherited member, not IDENT.
- A crash of the host program (a property read on `undefined`) is `Stuck(HostTypeError)`;
  what JavaScript would print is not modelled.
- Builtins.Apply: `log` of an array that holds `undefined` would crash inside `inspect`; the
  model only checks the arguments themselves.
- Nested user-function calls are bounded by a `fuel` parameter. Running out is
  `Stuck(FuelExhausted)`, where the source would run until the JavaScript stack overflows.
- Object ids come from a counter in the heap. Integers and errors carry no id, because no
  identity test reaches them.
- The parser reads past the end of the token list as EOF. The source reads `undefined` there
  and crashes on the next kind test.
- The parser is proved equal to its specification functions; no completeness or round-trip
  property of the grammar (parse after render) is claimed.
- Ast.NewIntegerLiteral: the value of the INT literal is its decimal value. `Number` of other
  texts (hex, exponents) cannot arise from the lexer.
- Objects.Inspect: that `Acyclic` and the list bound survive evaluation is not proved, so
  `inspect` of an evaluation result is not connected to the evaluator.
- Ast.Block.Add: a block statement is a value that the parser rebuilds with each added
  statement, not an object updated in place; nothing else holds a reference to a block while
  it is being filled.
- Lexing.Lexer.Start: modelled as run once, by the constructor, on a fresh lexer.
- Ast.Render: `getString` calls a method on some sub-nodes without `?.`, so on a `null` sub-node
  the host program crashes. This happens for an `if` condition, a `return` value, an
  expression statement's expression, an index, a hash key or value, and a `null` parameter,
  argument or element list. The model prints "undefined" for a missing node and "" for a
  missing list (so a call prints `f()` and an array `[]`). Only the prefix and infix operands
  and the `let` value use `?.` and print "undefined" in the source as well.
- Evaluator.EvalIfNode: its own contract states the halting condition and the case with no
  alternative; which block runs for a truthy or falsy condition is stated by
  `EvalProperties.IfByTruthiness`.
- Evaluator.EvalStmt: its own contract covers `let` and `return`; an expression statement is
  its expression's result, as `EvalProperties.OneStatementBlock` and the examples use.
- Evaluator.EvalPairs: its own contract bounds the hash it makes (keys kept, unique, at most
  one pair per entry); the exact pair each entry sets is stated by
  `EvalProperties.HashPairStep`.
- Evaluator.EvalList: states the first value and the length; each later value is the same
  statement one position on.
- ParseSpec.ParsePrefixRule: its own contract states only that the cursor never moves back;
  what each prefix entry builds is stated by `ParseSpec.PrefixRuleCases` and, for a token
  with no entry, by `ParseSpec.NoPrefixRule`. Stating the cases in the function's own
  contract makes every proof about the parser methods unfold them.
- ParseSpec.ParseInfixRule: its own contract states only that the cursor never moves back;
  the call, index and binary dispatch is stated by `ParseSpec.InfixRuleCases`, for the same
  reason.
- EvalExamples: the syntax trees of the evaluator's examples are written by hand in the shape
  the parser gives their text; no lemma derives them from `Tokenize` and `ParseSpec`.
- ParseExamples: only the three rendering examples and the `let x x 5;` error example of the
  parser's tests are carried from text to result; the other parser tests are not.
