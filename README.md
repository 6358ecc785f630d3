# A verified model of the query parser

This project models the recursive-descent SQL parser of `src/query/parser.rs`
and the `Token` type of `src/query/lexer.rs` in Dafny, and proves properties
of the model.

The parser reads a stream of tokens and builds a syntax tree: `Stmt`
statements (`CREATE TABLE`, `INSERT`, `SELECT`, `UPDATE`, `DELETE`, `DROP
TABLE`), their `Clause`s and scalar `Expr`essions. It keeps the current token
and one token of lookahead. It matches keywords and separators by variant.
Expressions are parsed by precedence levels: `OR`, then `AND`, then at most
one comparison, then a primary.

The model has two layers.

- `Grammar` (`grammar.dfy`) states every parser routine as a pure function
  `ParseX(toks, pos)`. Each function returns the result and the position
  after it, or the error. Each `loop`/`while` of the source is a function with
  an accumulator.
- `QueryParser.Parser` (`parser.dfy`) is the parser as the source writes it:
  a class whose `curr` and `peek` fields `Next` updates in place, and whose
  routines are methods with `while` loops. `Next` is specified by the
  tokens it shifts. Every other method is proved to compute its `Grammar`
  counterpart: the same error, or the same value with the position advanced
  to the same place. The counterpart is the function of the same name, except
  for the methods that run one inner loop of a `parse_*` routine:

  | method | function |
  |---|---|
  | `ParseDefs` | `DefsLoop` |
  | `ParseNames` | `NamesLoop` |
  | `ParseValues` | `ValuesLoop` |
  | `ParseSelectNames` | `SelectNames` |
  | `ParseAssigns` | `AssignsLoop` |
  | `ParseWhere` | `WhereClause` |

What the routines guarantee is proved about the `Grammar` functions:

- `properties.dfy` covers the shape of every statement, the comma lists, the
  optional `WHERE`, number literals and the block loop.
- `lists.dfy` covers the comma lists. For every input it states which token
  spellings each list loop accepts and the list it then returns, and the
  error a wrong separator gives.
- `precedence.dfy` covers associativity and precedence, against an
  independent left-fold definition, and that comparisons do not chain.
- `examples.dfy` covers the parser's unit tests and a few edge cases.

Supporting modules:

- `lexer.dfy`: tokens and the token stream.
- `error.dfy`: errors and `Result`.
- `numbers.dfy`: `i64` and float-literal syntax.
- `ast.dfy`: the syntax tree and the shape of the trees the parser produces.

Modelling decisions:

- The lexer is the sequence of tokens it yields for the input, followed by
  `Eof` forever. The `Parser` holds that sequence and a count of tokens
  pulled.
- `lexer.rs` declares fewer token variants than the parser uses. `Insert`,
  `Into`, `Values`, `Set`, `Bool` and `Eof` are added.
- `lexer.rs:27` calls the `=` operator `Assign`, but the parser matches `Eq`
  (`parser.rs:321`, `parser.rs:397`). Both are the one token `Token.Eq`.
- The lexer cannot fail in this model, so `next` and `maybe` cannot fail.
- An error is a value: `UnexpectedToken(expected, found)` or
  `InvalidExpr(text)`. The expected side is a token kind or one of the
  classes "<ident>", "<stmt>", "<expr>" and "',' or ')'". The message strings
  are not modelled.
- `Num` text is read as Rust's `str::parse::<i64>` reads it. Failing that,
  it is tested against the syntax `str::parse::<f64>` accepts. An `Expr.Float`
  keeps the literal text, not a floating-point value.

## Model

| member | source | states |
|---|---|---|
| QueryLexer.SameKindOfPlain | src/query/lexer.rs:1-36 | for a token without payload, matching by variant (the `discriminant` comparison) is plain equality |
| QueryParser.Parser.constructor | src/query/parser.rs:116-120 | `new` pulls the first two tokens into `curr` and `peek`; the position is 0 |
| QueryParser.Parser.Next | src/query/parser.rs:122-127 | returns the old `curr`; `curr` becomes the old `peek`; `peek` becomes the next token the lexer yields; the stream advances by exactly one token |
| QueryParser.Parser.Expect | src/query/parser.rs:129-139 | succeeds iff `curr` has the variant of `t`, payload ignored; then consumes exactly one token; otherwise returns `UnexpectedToken(kind of t, curr)` and consumes nothing |
| QueryParser.Parser.Maybe | src/query/parser.rs:141-148 | answers whether `curr` has the variant of `t`; consumes one token exactly when it does |
| QueryParser.Parser.Parse | src/query/parser.rs:150-152 | computes `Grammar.ParseBlock` with the terminator `Eof` |
| QueryParser.Parser.ParseBlock | src/query/parser.rs:154-168 | the loop skips `;`, appends each parsed statement, stops at a terminator and propagates the first error; it computes `Grammar.ParseBlock` |
| QueryParser.Parser.ConsumeIdent | src/query/parser.rs:170-178 | always consumes one token; returns its name iff it was an `Ident`, otherwise `UnexpectedToken("<ident>", token)` |
| QueryParser.Parser.ParseStmt | src/query/parser.rs:180-193 | computes `Grammar.ParseStmt` (dispatch on the leading token) |
| QueryParser.Parser.ParseCreate | src/query/parser.rs:195-224 | computes `Grammar.ParseCreate` |
| QueryParser.Parser.ParseDefs | src/query/parser.rs:203-218 | the definitions loop (`name type`, then `,` or `)`) computes `Grammar.DefsLoop` |
| QueryParser.Parser.ParseInsert | src/query/parser.rs:226-273 | computes `Grammar.ParseInsert` |
| QueryParser.Parser.ParseNames | src/query/parser.rs:236-248 | the column loop of `INSERT` computes `Grammar.NamesLoop` |
| QueryParser.Parser.ParseValues | src/query/parser.rs:253-266 | the value loop of `INSERT` computes `Grammar.ValuesLoop` |
| QueryParser.Parser.ParseSelect | src/query/parser.rs:275-309 | computes `Grammar.ParseSelect` |
| QueryParser.Parser.ParseSelectNames | src/query/parser.rs:285-290 | the column loop of `SELECT` computes `Grammar.SelectNames` |
| QueryParser.Parser.ParseWhere | src/query/parser.rs:296-300 | the optional `WHERE` computes `Grammar.WhereClause` |
| QueryParser.Parser.ParseUpdate | src/query/parser.rs:311-339 | computes `Grammar.ParseUpdate` |
| QueryParser.Parser.ParseAssigns | src/query/parser.rs:318-327 | the assignment loop computes `Grammar.AssignsLoop` |
| QueryParser.Parser.ParseDelete | src/query/parser.rs:341-354 | computes `Grammar.ParseDelete` |
| QueryParser.Parser.ParseDrop | src/query/parser.rs:356-362 | computes `Grammar.ParseDrop` |
| QueryParser.Parser.ParseExpr | src/query/parser.rs:364-366 | computes `Grammar.ParseExpr` |
| QueryParser.Parser.ParseLogicalOr | src/query/parser.rs:368-379 | the `while maybe(Or)` loop that reassigns `left` computes `Grammar.ParseLogicalOr` |
| QueryParser.Parser.ParseLogicalAnd | src/query/parser.rs:381-392 | the `while maybe(And)` loop computes `Grammar.ParseLogicalAnd` |
| QueryParser.Parser.ParseComparison | src/query/parser.rs:394-411 | computes `Grammar.ParseComparison` |
| QueryParser.Parser.ParsePrimary | src/query/parser.rs:413-438 | computes `Grammar.ParsePrimary` |
| Grammar.CmpOp | src/query/parser.rs:396-403 | a comparison token maps to one of the parser's operator tags, and only expression tokens do |
| Grammar.Expect | src/query/parser.rs:129-139 | for a token without payload, succeeds iff the token at `pos` is that token; success moves one position on |
| Grammar.Maybe | src/query/parser.rs:141-148 | for a token without payload, answers iff the token at `pos` is that token; moves one position exactly when it answers yes |
| Grammar.ParseExpr | src/query/parser.rs:364-366 | on success at least one token is consumed and the end stays within the stream |
| Grammar.ParseLogicalOr | src/query/parser.rs:368-379 | on success at least one token is consumed, within the stream |
| Grammar.OrLoop | src/query/parser.rs:370-377 | the loop either stops at once with `left` or consumes tokens |
| Grammar.ParseLogicalAnd | src/query/parser.rs:381-392 | on success at least one token is consumed, within the stream |
| Grammar.AndLoop | src/query/parser.rs:383-390 | the loop either stops at once with `left` or consumes tokens |
| Grammar.ParseComparison | src/query/parser.rs:394-411 | on success at least one token is consumed, within the stream |
| Grammar.NumberLiteral | src/query/parser.rs:417-425 | succeeds iff the text is float syntax; the result is an `Int` iff the text parses as an `i64`, and it is well formed; an error is `InvalidExpr` of the text |
| Grammar.ParsePrimary | src/query/parser.rs:413-438 | on success at least one token is consumed, within the stream |
| Grammar.DefsLoop | src/query/parser.rs:203-218 | on success at least one token is consumed, within the stream |
| Grammar.NamesLoop | src/query/parser.rs:236-248 | on success at least one token is consumed, within the stream |
| Grammar.ValuesLoop | src/query/parser.rs:253-266 | on success at least one token is consumed, within the stream |
| Grammar.SelectNames | src/query/parser.rs:285-290 | on success at least one token is consumed, within the stream |
| Grammar.AssignsLoop | src/query/parser.rs:318-327 | on success at least one token is consumed, within the stream |
| Grammar.WhereClause | src/query/parser.rs:296-300 | consumes nothing, or consumes tokens within the stream |
| Grammar.ParseCreate | src/query/parser.rs:195-224 | on success at least one token is consumed, within the stream |
| Grammar.InsertColumns | src/query/parser.rs:233-249 | consumes nothing, or consumes tokens within the stream |
| Grammar.ParseInsert | src/query/parser.rs:226-273 | on success at least one token is consumed, within the stream |
| Grammar.SelectColumns | src/query/parser.rs:279-291 | on success at least one token is consumed, within the stream |
| Grammar.ParseSelect | src/query/parser.rs:275-309 | on success at least one token is consumed, within the stream |
| Grammar.ParseUpdate | src/query/parser.rs:311-339 | on success at least one token is consumed, within the stream |
| Grammar.ParseDelete | src/query/parser.rs:341-354 | on success at least one token is consumed, within the stream |
| Grammar.ParseDrop | src/query/parser.rs:356-362 | on success at least one token is consumed, within the stream |
| Grammar.ParseStmt | src/query/parser.rs:180-193 | on success at least one token is consumed, within the stream |
| Grammar.BlockEndOrSkip | src/query/parser.rs:156-163 | the block loop returns what it holds at a terminator, and steps over a `;` that is not one |
| Numbers.Find | src/query/parser.rs:420 | the index of the first occurrence of either character, or the length |
| Numbers.FindInDigits | src/query/parser.rs:418-420 | a run of digits contains no `.`, `e` or `E` |
| Numbers.IntTextIsFloatText | src/query/parser.rs:418-421 | every text that parses as an `i64` is also float syntax, so the order of the two attempts decides the literal |
| Numbers.DigitsRoundTrip | src/query/parser.rs:418 | the decimal digits of a natural number are digits and read back as the number |
| Numbers.ParseDecimal | src/query/parser.rs:418 | the `i64` parse reads the decimal text of every `i64` back as that value |
| ParserProperties.ExprFacts | src/query/parser.rs:364-366 | a parsed expression is well formed: only the parser's operator tags, no `Unary`; it spans expression tokens only |
| ParserProperties.OrFacts | src/query/parser.rs:368-379 | the `OR` level is well formed and spans expression tokens only |
| ParserProperties.OrLoopFacts | src/query/parser.rs:370-377 | the `OR` loop keeps a well-formed tree well formed and reads expression tokens only |
| ParserProperties.AndFacts | src/query/parser.rs:381-392 | the `AND` level is well formed and spans expression tokens only |
| ParserProperties.AndLoopFacts | src/query/parser.rs:383-390 | the `AND` loop keeps a well-formed tree well formed and reads expression tokens only |
| ParserProperties.CmpFacts | src/query/parser.rs:394-411 | a comparison is well formed and spans expression tokens only |
| ParserProperties.PrimaryFacts | src/query/parser.rs:413-438 | a primary is well formed and spans expression tokens only |
| ParserProperties.ExprTokensJoin | src/query/parser.rs:364-438 | two adjacent stretches of expression tokens make one |
| ParserProperties.NumberPrimary | src/query/parser.rs:417-425 | a `Num` token becomes `Int` if its text is an `i64`, else `Float` if it is float syntax, else `InvalidExpr`; one token is consumed |
| ParserProperties.PointIsNotInt | src/query/parser.rs:418 | a text containing `.` is never an `i64` |
| ParserProperties.OverflowIsFloat | src/query/parser.rs:418-421 | a digit run too large for an `i64` becomes a `Float` that keeps the text, not an error |
| ParserProperties.DefsFacts | src/query/parser.rs:203-218 | the `CREATE` loop adds at least one definition and keeps the earlier ones in front |
| ParserProperties.NamesFacts | src/query/parser.rs:236-248 | the `INSERT` column loop adds at least one name and keeps the earlier ones in front |
| ParserProperties.ValuesFacts | src/query/parser.rs:253-266 | the `INSERT` value loop adds at least one value, keeps the earlier ones in front, and adds only well-formed expressions |
| ParserProperties.SelectNamesFacts | src/query/parser.rs:285-290 | the `SELECT` column loop adds at least one name, keeps the earlier ones, and never reads a `WHERE` |
| ParserProperties.AssignsFacts | src/query/parser.rs:318-327 | the `UPDATE` loop adds at least one assignment, keeps the earlier ones, adds only well-formed values, and never reads a `WHERE` |
| CommaLists.NamesRead | src/query/parser.rs:234-249 | the column loop of `INSERT` returns `acc + ns` and ends at `end` iff the names of `ns` are spelled from `pos` on, a `,` after every name but the last, a `)` after the last, and `end` is `pos + 2·|ns|` |
| CommaLists.NamesReadSound | src/query/parser.rs:234-249 | a successful column loop of `INSERT` has read names separated by commas, then `)`, and ends after that `)` |
| CommaLists.NamesReadComplete | src/query/parser.rs:234-249 | names separated by commas and closed by `)` are returned as they are, after what the loop already holds, ending after the `)` |
| CommaLists.NamesSeparator | src/query/parser.rs:238-246 | after names separated by commas, a token that is neither `,` nor `)` fails the column loop with `UnexpectedToken("',' or ')'", token)` |
| CommaLists.SelectNamesRead | src/query/parser.rs:284-291 | the column loop of `SELECT` returns `acc + ns` and ends at `end` iff the names of `ns` are spelled from `pos` on, a `,` after every name but the last, `end` is the position after the last name, and no `,` is there |
| CommaLists.SelectNamesReadSound | src/query/parser.rs:284-291 | a successful column loop of `SELECT` has read names separated by commas and ends after the first name no `,` follows |
| CommaLists.SelectNamesReadComplete | src/query/parser.rs:284-291 | names separated by commas, no `,` after the last, are returned as they are, ending after the last name |
| CommaLists.DefsRead | src/query/parser.rs:202-218 | the definition loop of `CREATE` returns `acc + ds` and ends at `end` iff each definition is two identifiers, a `,` follows every definition but the last, a `)` follows the last, and `end` is `pos + 3·|ds|` |
| CommaLists.DefsReadSound | src/query/parser.rs:202-218 | a successful definition loop of `CREATE` has read `name type` pairs separated by commas, then `)`, and ends after that `)` |
| CommaLists.DefsReadComplete | src/query/parser.rs:202-218 | `name type` pairs separated by commas and closed by `)` are returned as they are, ending after the `)` |
| CommaLists.DefsSeparator | src/query/parser.rs:208-216 | after definitions separated by commas, a token that is neither `,` nor `)` fails the loop with `UnexpectedToken("',' or ')'", token)` |
| CommaLists.ValuesRead | src/query/parser.rs:250-266 | the value loop of `INSERT` returns `acc + es` iff `es` are the expressions parsed in turn from `pos`, a `,` between two, and a `)` after the last, which the loop consumes |
| CommaLists.ValuesReadSound | src/query/parser.rs:250-266 | a successful value loop of `INSERT` has parsed expressions separated by commas, then `)`, which it consumes |
| CommaLists.ValuesReadComplete | src/query/parser.rs:250-266 | expressions separated by commas and closed by `)` are returned as they parse, ending after the `)` |
| CommaLists.ValuesSeparator | src/query/parser.rs:256-264 | after expressions separated by commas, a token that is neither `,` nor `)` fails the value loop with `UnexpectedToken("',' or ')'", token)` |
| CommaLists.AssignsRead | src/query/parser.rs:317-327 | the assignment loop of `UPDATE` returns `acc + ps` iff `ps` are `name = expr` pairs parsed in turn from `pos`, a `,` between two, and no `,` after the last value |
| CommaLists.AssignsReadSound | src/query/parser.rs:317-327 | a successful assignment loop of `UPDATE` has parsed `name = expr` pairs separated by commas and ends after the first value no `,` follows |
| CommaLists.AssignsReadComplete | src/query/parser.rs:317-327 | `name = expr` pairs separated by commas, no `,` after the last value, are returned as they parse, ending after the last value |
| ParserProperties.AvoidsJoin | src/query/parser.rs:296-300 | two adjacent stretches free of a token make one |
| ParserProperties.ExprAvoidsWhere | src/query/parser.rs:364-438 | an expression never contains `WHERE` |
| ParserProperties.WhereFacts | src/query/parser.rs:296-300 | the clause list is empty or one well-formed `Where`; it is empty iff the token is not `WHERE`, and then nothing is consumed |
| ParserProperties.CreateFacts | src/query/parser.rs:195-224 | `CREATE` yields a `Create` with a `Defs` clause of at least one definition and no clauses |
| ParserProperties.InsertColumnsFacts | src/query/parser.rs:233-249 | the optional column list is empty iff no `(` follows the table name |
| ParserProperties.InsertFacts | src/query/parser.rs:226-273 | `INSERT` yields an `Insert` with at least one well-formed value and no clauses; its column list is empty iff no `(` follows the table name |
| ParserProperties.SelectColumnsFacts | src/query/parser.rs:279-291 | `*` gives the single column `"*"`; otherwise the list is non-empty; no `WHERE` is read |
| ParserProperties.SelectFacts | src/query/parser.rs:275-309 | `SELECT` yields a well-formed `Select`; `SELECT *` gives `Columns(["*"])`; the clause list is non-empty iff a `WHERE` was consumed |
| ParserProperties.ClausesFollow | src/query/parser.rs:296-300 | after a `WHERE`-free prefix, the clause list is empty iff the whole statement is `WHERE`-free |
| ParserProperties.UpdateFacts | src/query/parser.rs:311-339 | `UPDATE` yields a well-formed `Update` with at least one assignment; the clause list is non-empty iff a `WHERE` was consumed |
| ParserProperties.DeleteFacts | src/query/parser.rs:341-354 | `DELETE` yields a well-formed `Delete`; the clause list is non-empty iff a `WHERE` was consumed |
| ParserProperties.StmtFacts | src/query/parser.rs:180-193 | a parsed statement is well formed and of the kind its leading keyword names; any other leading token gives `UnexpectedToken("<stmt>", token)` |
| ParserProperties.BlockFacts | src/query/parser.rs:154-168 | the block loop ends on a terminator and keeps the statements it held, in order, in front |
| ParserProperties.BlockWellFormed | src/query/parser.rs:154-168 | the block loop adds only well-formed statements |
| ParserProperties.ParseFacts | src/query/parser.rs:150-152 | every statement `parse` returns is well formed |
| ParserProperties.SkipSemicolons | src/query/parser.rs:160-163 | any run of `;` before the next statement is skipped: the block parses as if it were absent |
| ParserProperties.ParsedAccessors | src/query/parser.rs:59-82 | on a parsed statement each `as_clause!` accessor returns `Some` of the payload its field was built with (the definitions, the columns, the values, the assignments, the one `Where` condition); no `Limit` or `OrderBy` clause is ever present |
| Precedence.ChainCons | src/query/parser.rs:368-392 | putting one more operand in front of a left fold is folding it into the first operand |
| Precedence.OrLoopChain | src/query/parser.rs:370-377 | the `OR` loop is the left fold of the operands it reads |
| Precedence.AndLoopChain | src/query/parser.rs:383-390 | the `AND` loop is the left fold of the comparisons it reads |
| Precedence.OrIsLeftChain | src/query/parser.rs:368-379 | `OR` is left-associative over `AND`-level operands, so `AND` binds tighter; an error of the first operand is returned as is |
| Precedence.AndIsLeftChain | src/query/parser.rs:381-392 | `AND` is left-associative over comparisons; an error of the first comparison is returned as is |
| Precedence.AndOperandsStop | src/query/parser.rs:383 | the `AND` operands run up to a token that is not `AND` |
| Precedence.AndStops | src/query/parser.rs:381-392 | an `AND` level never ends in front of an `AND` |
| Precedence.OrOperandsStop | src/query/parser.rs:370 | the `OR` operands run up to a token that is neither `OR` nor `AND` |
| Precedence.ExprStops | src/query/parser.rs:364-392 | an expression never ends in front of `OR` or `AND` |
| Precedence.ComparisonOfPrimaries | src/query/parser.rs:394-411 | a primary, a comparison operator and a second primary make `Binary(op, left, right)`, ending after the second primary |
| Precedence.ComparisonIsExpr | src/query/parser.rs:364-392 | a comparison followed by neither `AND` nor `OR` is the whole expression, ending where the comparison ends |
| Precedence.NoChainedComparison | src/query/parser.rs:394-411 | after `a op b`, a second comparison operator is not taken: the expression is `Binary(op, a, b)` and ends in front of it |
| ParserExamples.ComparisonIsPrimary | src/query/parser.rs:396-402 | a primary that no comparison operator follows is the whole comparison |
| ParserExamples.AndIsComparison | src/query/parser.rs:381-392 | a comparison that no `AND` follows is the whole `AND` level |
| ParserExamples.ExprIsAnd | src/query/parser.rs:368-379 | an `AND` level that no `OR` follows is the whole expression |
| ParserExamples.ExprIsPrimary | src/query/parser.rs:364-411 | a primary that no operator follows is the whole expression |
| ParserExamples.TwoPrimaries | src/query/parser.rs:394-411 | `a op b` over two one-token primaries is `Binary(op, a, b)` |
| ParserExamples.AndLoopEnds | src/query/parser.rs:383 | the `AND` loop stops at a token that is not `AND` |
| ParserExamples.AndLoopStep | src/query/parser.rs:383-390 | one turn of the `AND` loop joins the next comparison on the right |
| ParserExamples.OrLoopEnds | src/query/parser.rs:370 | the `OR` loop stops at a token that is not `OR` |
| ParserExamples.OrLoopStep | src/query/parser.rs:370-377 | one turn of the `OR` loop joins the next `AND` level on the right |
| ParserExamples.TwoComparisons | src/query/parser.rs:381-392 | `a AND b` over two comparisons is `Binary("AND", a, b)` |
| ParserExamples.TwoConjunctions | src/query/parser.rs:368-379 | `a OR b` over two `AND` levels is `Binary("OR", a, b)` |
| ParserExamples.OneIsInt | src/query/parser.rs:418 | the text `1` is the `i64` 1 |
| ParserExamples.DropTable | src/query/parser.rs:446-457 | `DROP TABLE users` is `Drop("users")` |
| ParserExamples.SelectStar | src/query/parser.rs:459-472 | `SELECT * FROM users` is a `Select` of `Columns(["*"])` with no clauses |
| ParserExamples.SelectColumnList | src/query/parser.rs:474-487 | `SELECT id, name FROM users` selects `["id", "name"]` |
| ParserExamples.IdNameColumns | src/query/parser.rs:233-249 | the column list `(id, name)` is `["id", "name"]` |
| ParserExamples.OneAliceValues | src/query/parser.rs:253-266 | the value list `1, 'Alice')` is `[Int(1), Text("Alice")]` |
| ParserExamples.InsertShape | src/query/parser.rs:226-273 | an `INSERT` is assembled from its table, column list and value list |
| ParserExamples.InsertDispatch | src/query/parser.rs:183 | `parse_stmt` hands a leading `INSERT` to `parse_insert` |
| ParserExamples.InsertWithColumns | src/query/parser.rs:489-503 | `INSERT INTO users (id, name) VALUES (1, 'Alice')` gives the columns and the values `Int(1)`, `Text("Alice")`, with no clauses |
| ParserExamples.SelectWhereAnd | src/query/parser.rs:505-535 | `SELECT * FROM users WHERE id = 1 AND name = 'Alice'` gives one `Where` holding `Binary("AND", id = 1, name = 'Alice')` |
| ParserExamples.ParserDropTable | src/query/parser.rs:446-457 | the `Parser` class returns `Drop("users")` for `DROP TABLE users` and leaves `Eof` current |
| ParserExamples.SemicolonsSkipped | src/query/parser.rs:154-168 | `;;DROP TABLE t;;` parses to exactly one `Drop` |
| ParserExamples.NoSeparatorNeeded | src/query/parser.rs:154-168 | `DROP TABLE a DROP TABLE b` parses to two statements without a `;` |
| ParserExamples.SelectWithoutColumns | src/query/parser.rs:285-290 | `SELECT FROM t` fails with "<ident>" expected, `FROM` found |
| ParserExamples.CreateMissingComma | src/query/parser.rs:208-216 | `CREATE TABLE t (a INT b INT)` fails with "',' or ')'" expected, the next name found |
| ParserExamples.ComparisonsDoNotChain | src/query/parser.rs:394-411 | in `a = b = c` the expression ends before the second `=` |
| ParserExamples.DeleteBeforeSecondEq | src/query/parser.rs:341-354 | `DELETE FROM t WHERE a = b = c` parses as a statement that ends before the second `=` |
| ParserExamples.ChainedComparisonRefused | src/query/parser.rs:154-193 | the script `DELETE FROM t WHERE a = b = c` fails with "<stmt>" expected, `=` found |
| ParserExamples.AndBindsTighter | src/query/parser.rs:368-392 | `a OR b AND c` is `a OR (b AND c)` |
| ParserExamples.AndThenOr | src/query/parser.rs:368-392 | `a AND b OR c` is `(a AND b) OR c` |
| ParserExamples.AndNestsLeft | src/query/parser.rs:381-392 | `a AND b AND c` is `(a AND b) AND c` |
| ParserExamples.ParenthesisedOr | src/query/parser.rs:428-432 | `(a OR b)` is one primary |
| ParserExamples.ParenthesesGroup | src/query/parser.rs:428-432 | `(a OR b) AND c` is `(a OR b) AND c`: parentheses override precedence |
| ParserExamples.OnePointFive | src/query/parser.rs:417-425 | `1.5` is a `Float` |
| ParserExamples.TwoPoints | src/query/parser.rs:417-425 | `1.2.3` is `InvalidExpr` |

## Left out

- The scanner of the lexer: only the `Token` enum of `src/query/lexer.rs`
  is available, so the model takes the token sequence as input.
- Lexer errors: `Lexer::next` returns a `Result`, but in this model it
  cannot fail, so `next`, `expect` and `maybe` fail only on a token mismatch.
- `src/main.rs`: command-line parsing, the async runtime, file checks and
  printing are input/output plumbing.
- Floating-point values: `Expr.Float` carries the literal text. Whether a
  text is float syntax follows the grammar Rust documents for
  `str::parse::<f64>`. The value of the float is not computed.
- The `format!("{:?}")` text inside errors: an error records the expected
  kind and the token found as values.
- `Stmt::Union`, `Expr::Unary`, `Clause::OrderBy` and `Clause::Limit` are in
  the datatypes, but no parse path builds them. The only property about them
  is that parsed trees do not contain them (`WellFormedStmt`,
  `ParsedAccessors`).
- `Box` and the `boxed()` helpers: ownership plumbing with no effect on the
  trees.
- The error-path position: after a failed routine the model does not state
  where the parser stands, apart from `Expect` (nothing consumed) and
  `ConsumeIdent` (one token consumed). A failed parse is not resumed in the
  source.
- QueryParser.Parser methods: each inner `loop` of a `parse_*` routine is its
  own method (`ParseDefs`, `ParseNames`, `ParseValues`, `ParseSelectNames`,
  `ParseAssigns`, `ParseWhere`), called where the source has the loop.
