/** The parser's routines (src/query/parser.rs:129-438) as functions of the
    token stream and a position: each returns the value the routine builds and
    the position after the tokens it consumed, or the error it raises. A
    `while`/`loop` of the source is a function with an accumulator that calls
    itself once per iteration. The `Parser` class is proved to compute exactly
    these functions. */
module Grammar {
  import opened QueryLexer
  import opened QueryError
  import opened Numbers
  import opened Ast

  /** A routine's value and the position after it. */
  type Parsed<T> = Result<(T, nat)>

  /** The number of tokens before the end of the stream: the termination
      measure of every loop and every recursion of the parser. */
  function Remaining(toks: seq<Token>, pos: nat): nat {
    if pos < |toks| then |toks| - pos else 0
  }

  /** A result returned by a routine of the `Parser` class agrees with the
      function that specifies it: same error, or same value and position. */
  ghost predicate Agrees<T>(r: Result<T>, spec: Parsed<T>, pos: nat) {
    spec == if r.Ok? then Ok((r.value, pos)) else Err(r.error)
  }

  /** Tokens an expression is made of. */
  predicate IsExprToken(t: Token) {
    t.Null? || t.Bool? || t.Num? || t.Text? || t.Ident? || t.LParen? || t.RParen? ||
    t.And? || t.Or? || t.Eq? || t.Gt? || t.Lt? || t.Ge? || t.Le?
  }

  /** Every token in `toks[a..b]` is an expression token. */
  ghost predicate ExprTokens(toks: seq<Token>, a: nat, b: nat) {
    forall j | a <= j < b :: IsExprToken(At(toks, j))
  }

  /** No token in `toks[a..b]` is `t`. */
  ghost predicate Avoids(toks: seq<Token>, a: nat, b: nat, t: Token) {
    forall j | a <= j < b :: At(toks, j) != t
  }

  /** The comparison operators and the tag `parse_comparison` gives each. */
  function CmpOp(t: Token): (r: Option<string>)
    ensures r.Some? ==> IsBinaryOp(r.value) && IsExprToken(t)
  {
    if t == Token.Eq then Some("=")
    else if t == Token.Gt then Some(">")
    else if t == Token.Lt then Some("<")
    else if t == Token.Ge then Some(">=")
    else if t == Token.Le then Some("<=")
    else None
  }

  /** The leading tokens `parse_stmt` dispatches on. */
  predicate StartsStmt(t: Token) {
    t.Create? || t.Insert? || t.Select? || t.Update? || t.Delete? || t.Drop?
  }

  /** `t` is the keyword that introduces statements of the kind of `s`. */
  predicate Introduces(t: Token, s: Stmt) {
    match s
    case Create(_, _, _) => t == Token.Create
    case Insert(_, _, _, _) => t == Token.Insert
    case Select(_, _, _) => t == Token.Select
    case Update(_, _, _) => t == Token.Update
    case Delete(_, _) => t == Token.Delete
    case Drop(_) => t == Token.Drop
    case Union(_, _, _) => false
  }

  /** `t` has the variant of one of the terminators of a block. */
  predicate IsTerm(t: Token, terms: seq<Token>) {
    |terms| > 0 && (SameKind(terms[0], t) || IsTerm(t, terms[1..]))
  }

  // ---------------------------------------------------------------------
  // Primitives

  /** `expect`: the position after the current token if it has the variant
      of `t`. */
  function Expect(toks: seq<Token>, pos: nat, t: Token): (r: Result<nat>)
    ensures Plain(t) ==> (r.Ok? <==> At(toks, pos) == t)
    ensures r.Ok? ==> r.value == pos + 1
  {
    SameKindOfPlain(At(toks, pos), t);
    if SameKind(At(toks, pos), t) then Ok(pos + 1)
    else Err(UnexpectedToken(Kind(t), At(toks, pos)))
  }

  /** `maybe`: whether the current token has the variant of `t`, and the
      position after it if so. */
  function Maybe(toks: seq<Token>, pos: nat, t: Token): (r: (bool, nat))
    ensures Plain(t) ==> (r.0 <==> At(toks, pos) == t)
    ensures r.1 == if r.0 then pos + 1 else pos
  {
    SameKindOfPlain(At(toks, pos), t);
    if SameKind(At(toks, pos), t) then (true, pos + 1) else (false, pos)
  }

  /** `consume_ident`: the name of the current token if it is an identifier. */
  function ConsumeIdent(toks: seq<Token>, pos: nat): Parsed<string> {
    var tok := At(toks, pos);
    if tok.Ident? then Ok((tok.name, pos + 1)) else Err(UnexpectedToken(IdentClass, tok))
  }

  // ---------------------------------------------------------------------
  // Expressions: OR, then AND, then one comparison, then a primary

  function ParseExpr(toks: seq<Token>, pos: nat): (r: Parsed<Expr>)
    ensures r.Ok? ==> pos < r.value.1 <= |toks|
    decreases Remaining(toks, pos), 4
  {
    ParseLogicalOr(toks, pos)
  }

  function ParseLogicalOr(toks: seq<Token>, pos: nat): (r: Parsed<Expr>)
    ensures r.Ok? ==> pos < r.value.1 <= |toks|
    decreases Remaining(toks, pos), 3
  {
    var (left, p) :- ParseLogicalAnd(toks, pos);
    OrLoop(toks, p, left)
  }

  /** The `while maybe(Or)` loop of `parse_logical_or`; `left` is the
      expression built so far. */
  function OrLoop(toks: seq<Token>, pos: nat, left: Expr): (r: Parsed<Expr>)
    ensures r.Ok? ==> r.value == (left, pos) || pos < r.value.1 <= |toks|
    decreases Remaining(toks, pos), 3
  {
    var (more, p) := Maybe(toks, pos, Token.Or);
    if more then
      var (right, q) :- ParseLogicalAnd(toks, p);
      OrLoop(toks, q, Expr.Binary("OR", left, right))
    else
      Ok((left, pos))
  }

  function ParseLogicalAnd(toks: seq<Token>, pos: nat): (r: Parsed<Expr>)
    ensures r.Ok? ==> pos < r.value.1 <= |toks|
    decreases Remaining(toks, pos), 2
  {
    var (left, p) :- ParseComparison(toks, pos);
    AndLoop(toks, p, left)
  }

  /** The `while maybe(And)` loop of `parse_logical_and`. */
  function AndLoop(toks: seq<Token>, pos: nat, left: Expr): (r: Parsed<Expr>)
    ensures r.Ok? ==> r.value == (left, pos) || pos < r.value.1 <= |toks|
    decreases Remaining(toks, pos), 2
  {
    var (more, p) := Maybe(toks, pos, Token.And);
    if more then
      var (right, q) :- ParseComparison(toks, p);
      AndLoop(toks, q, Expr.Binary("AND", left, right))
    else
      Ok((left, pos))
  }

  /** A primary, then at most one comparison operator and a second primary. */
  function ParseComparison(toks: seq<Token>, pos: nat): (r: Parsed<Expr>)
    ensures r.Ok? ==> pos < r.value.1 <= |toks|
    decreases Remaining(toks, pos), 1
  {
    var (left, p) :- ParsePrimary(toks, pos);
    match CmpOp(At(toks, p))
    case None => Ok((left, p))
    case Some(op) =>
      var (right, q) :- ParsePrimary(toks, p + 1);
      Ok((Expr.Binary(op, left, right), q))
  }

  /** The literal a `Num` token's text denotes: an `Int` if it parses as an
      `i64`, else a `Float` if it is float syntax, else `InvalidExpr`. */
  function NumberLiteral(n: string): (r: Result<Expr>)
    ensures r.Ok? <==> FloatSyntax(n)
    ensures r.Ok? ==> WellFormedExpr(r.value) && (r.value.Int? <==> ParseI64(n).Some?)
    ensures r.Err? ==> r.error == InvalidExpr(n)
  {
    match ParseI64(n)
    case Some(i) => IntTextIsFloatText(n); Ok(Expr.Int(i))
    case None => if FloatSyntax(n) then Ok(Expr.Float(n)) else Err(InvalidExpr(n))
  }

  function ParsePrimary(toks: seq<Token>, pos: nat): (r: Parsed<Expr>)
    ensures r.Ok? ==> pos < r.value.1 <= |toks|
    decreases Remaining(toks, pos), 0
  {
    var tok := At(toks, pos);
    if tok == Token.Null then Ok((Expr.Null, pos + 1))
    else if tok.Bool? then Ok((Expr.Bool(tok.b), pos + 1))
    else if tok.Num? then
      var e :- NumberLiteral(tok.literal);
      Ok((e, pos + 1))
    else if tok.Text? then Ok((Expr.Text(tok.value), pos + 1))
    else if tok.Ident? then Ok((Expr.Ident(tok.name), pos + 1))
    else if tok == Token.LParen then
      var (e, p) :- ParseExpr(toks, pos + 1);
      var q :- Expect(toks, p, Token.RParen);
      Ok((e, q))
    else Err(UnexpectedToken(ExprClass, tok))
  }

  // ---------------------------------------------------------------------
  // Comma lists: one element, then (',' element)*, closed by ')' where the
  // grammar has one

  /** The loop of `parse_create`: `name type`, then `,` or `)`. */
  function DefsLoop(toks: seq<Token>, pos: nat, acc: seq<(string, string)>): (r: Parsed<seq<(string, string)>>)
    ensures r.Ok? ==> pos < r.value.1 <= |toks|
    decreases Remaining(toks, pos)
  {
    var (name, p) :- ConsumeIdent(toks, pos);
    var (ty, q) :- ConsumeIdent(toks, p);
    var cols := acc + [(name, ty)];
    var tok := At(toks, q);
    if tok == Token.Comma then DefsLoop(toks, q + 1, cols)
    else if tok == Token.RParen then Ok((cols, q + 1))
    else Err(UnexpectedToken(CommaOrRParen, tok))
  }

  /** The column loop of `parse_insert`: `name`, then `,` or `)`. */
  function NamesLoop(toks: seq<Token>, pos: nat, acc: seq<string>): (r: Parsed<seq<string>>)
    ensures r.Ok? ==> pos < r.value.1 <= |toks|
    decreases Remaining(toks, pos)
  {
    var (name, p) :- ConsumeIdent(toks, pos);
    var names := acc + [name];
    var tok := At(toks, p);
    if tok == Token.Comma then NamesLoop(toks, p + 1, names)
    else if tok == Token.RParen then Ok((names, p + 1))
    else Err(UnexpectedToken(CommaOrRParen, tok))
  }

  /** The value loop of `parse_insert`: an expression, then `,` or `)`. */
  function ValuesLoop(toks: seq<Token>, pos: nat, acc: seq<Expr>): (r: Parsed<seq<Expr>>)
    ensures r.Ok? ==> pos < r.value.1 <= |toks|
    decreases Remaining(toks, pos)
  {
    var (e, p) :- ParseExpr(toks, pos);
    var values := acc + [e];
    var tok := At(toks, p);
    if tok == Token.Comma then ValuesLoop(toks, p + 1, values)
    else if tok == Token.RParen then Ok((values, p + 1))
    else Err(UnexpectedToken(CommaOrRParen, tok))
  }

  /** The column loop of `parse_select`: `name`, continued while a `,`
      follows. */
  function SelectNames(toks: seq<Token>, pos: nat, acc: seq<string>): (r: Parsed<seq<string>>)
    ensures r.Ok? ==> pos < r.value.1 <= |toks|
    decreases Remaining(toks, pos)
  {
    var (name, p) :- ConsumeIdent(toks, pos);
    var names := acc + [name];
    var (more, q) := Maybe(toks, p, Token.Comma);
    if more then SelectNames(toks, q, names) else Ok((names, p))
  }

  /** The assignment loop of `parse_update`: `name = expr`, continued while a
      `,` follows. */
  function AssignsLoop(toks: seq<Token>, pos: nat, acc: seq<(string, Expr)>): (r: Parsed<seq<(string, Expr)>>)
    ensures r.Ok? ==> pos < r.value.1 <= |toks|
    decreases Remaining(toks, pos)
  {
    var (col, p) :- ConsumeIdent(toks, pos);
    var q :- Expect(toks, p, Token.Eq);
    var (val, p') :- ParseExpr(toks, q);
    var assigns := acc + [(col, val)];
    var (more, q') := Maybe(toks, p', Token.Comma);
    if more then AssignsLoop(toks, q', assigns) else Ok((assigns, p'))
  }

  /** The optional `WHERE expr` of `SELECT`, `UPDATE` and `DELETE`. */
  function WhereClause(toks: seq<Token>, pos: nat): (r: Parsed<seq<Clause>>)
    ensures r.Ok? ==> r.value.1 == pos || pos < r.value.1 <= |toks|
  {
    var (present, p) := Maybe(toks, pos, Token.Where);
    if present then
      var (e, q) :- ParseExpr(toks, p);
      Ok(([Clause.Where(e)], q))
    else
      Ok(([], pos))
  }

  // ---------------------------------------------------------------------
  // Statements

  function ParseCreate(toks: seq<Token>, pos: nat): (r: Parsed<Stmt>)
    ensures r.Ok? ==> pos < r.value.1 <= |toks|
  {
    var p1 :- Expect(toks, pos, Token.Create);
    var p2 :- Expect(toks, p1, Token.Table);
    var (table, p3) :- ConsumeIdent(toks, p2);
    var p4 :- Expect(toks, p3, Token.LParen);
    var (cols, p5) :- DefsLoop(toks, p4, []);
    Ok((Stmt.Create(table, Clause.Defs(cols), []), p5))
  }

  /** The optional parenthesised column list of `INSERT`. */
  function InsertColumns(toks: seq<Token>, pos: nat): (r: Parsed<seq<string>>)
    ensures r.Ok? ==> r.value.1 == pos || pos < r.value.1 <= |toks|
  {
    var (present, p) := Maybe(toks, pos, Token.LParen);
    if present then NamesLoop(toks, p, []) else Ok(([], pos))
  }

  function ParseInsert(toks: seq<Token>, pos: nat): (r: Parsed<Stmt>)
    ensures r.Ok? ==> pos < r.value.1 <= |toks|
  {
    var p1 :- Expect(toks, pos, Token.Insert);
    var p2 :- Expect(toks, p1, Token.Into);
    var (table, p3) :- ConsumeIdent(toks, p2);
    var (columns, p4) :- InsertColumns(toks, p3);
    var p5 :- Expect(toks, p4, Token.Values);
    var p6 :- Expect(toks, p5, Token.LParen);
    var (values, p7) :- ValuesLoop(toks, p6, []);
    Ok((Stmt.Insert(table, Clause.Columns(columns), Clause.Values(values), []), p7))
  }

  /** `*`, or the comma-separated column names of `SELECT`. */
  function SelectColumns(toks: seq<Token>, pos: nat): (r: Parsed<seq<string>>)
    ensures r.Ok? ==> pos < r.value.1 <= |toks|
  {
    if At(toks, pos) == Token.Mul then Ok((["*"], pos + 1)) else SelectNames(toks, pos, [])
  }

  function ParseSelect(toks: seq<Token>, pos: nat): (r: Parsed<Stmt>)
    ensures r.Ok? ==> pos < r.value.1 <= |toks|
  {
    var p1 :- Expect(toks, pos, Token.Select);
    var (columns, p2) :- SelectColumns(toks, p1);
    var p3 :- Expect(toks, p2, Token.From);
    var (table, p4) :- ConsumeIdent(toks, p3);
    var (clauses, p5) :- WhereClause(toks, p4);
    Ok((Stmt.Select(table, Clause.Columns(columns), clauses), p5))
  }

  function ParseUpdate(toks: seq<Token>, pos: nat): (r: Parsed<Stmt>)
    ensures r.Ok? ==> pos < r.value.1 <= |toks|
  {
    var p1 :- Expect(toks, pos, Token.Update);
    var (table, p2) :- ConsumeIdent(toks, p1);
    var p3 :- Expect(toks, p2, Token.Set);
    var (assigns, p4) :- AssignsLoop(toks, p3, []);
    var (clauses, p5) :- WhereClause(toks, p4);
    Ok((Stmt.Update(table, Clause.Assigns(assigns), clauses), p5))
  }

  function ParseDelete(toks: seq<Token>, pos: nat): (r: Parsed<Stmt>)
    ensures r.Ok? ==> pos < r.value.1 <= |toks|
  {
    var p1 :- Expect(toks, pos, Token.Delete);
    var p2 :- Expect(toks, p1, Token.From);
    var (table, p3) :- ConsumeIdent(toks, p2);
    var (clauses, p4) :- WhereClause(toks, p3);
    Ok((Stmt.Delete(table, clauses), p4))
  }

  function ParseDrop(toks: seq<Token>, pos: nat): (r: Parsed<Stmt>)
    ensures r.Ok? ==> pos < r.value.1 <= |toks|
  {
    var p1 :- Expect(toks, pos, Token.Drop);
    var p2 :- Expect(toks, p1, Token.Table);
    var (table, p3) :- ConsumeIdent(toks, p2);
    Ok((Stmt.Drop(table), p3))
  }

  /** `parse_stmt`: the leading token selects one of the six routines. */
  function ParseStmt(toks: seq<Token>, pos: nat): (r: Parsed<Stmt>)
    ensures r.Ok? ==> pos < r.value.1 <= |toks|
  {
    var tok := At(toks, pos);
    if tok == Token.Create then ParseCreate(toks, pos)
    else if tok == Token.Insert then ParseInsert(toks, pos)
    else if tok == Token.Select then ParseSelect(toks, pos)
    else if tok == Token.Update then ParseUpdate(toks, pos)
    else if tok == Token.Delete then ParseDelete(toks, pos)
    else if tok == Token.Drop then ParseDrop(toks, pos)
    else Err(UnexpectedToken(StmtClass, tok))
  }

  /** `parse_block`: statements up to a token of the variant of one of
      `terms`, skipping `;`; `acc` holds the statements parsed so far. */
  function ParseBlock(toks: seq<Token>, pos: nat, terms: seq<Token>, acc: seq<Stmt>): (r: Parsed<seq<Stmt>>)
    decreases Remaining(toks, pos)
  {
    var tok := At(toks, pos);
    if IsTerm(tok, terms) then Ok((acc, pos))
    else if tok == Token.Semicolon then ParseBlock(toks, pos + 1, terms, acc)
    else
      var (s, p) :- ParseStmt(toks, pos);
      ParseBlock(toks, p, terms, acc + [s])
  }

  /** `parse_block` stops at a terminator, and steps over a `;` otherwise. */
  lemma BlockEndOrSkip(toks: seq<Token>, pos: nat, terms: seq<Token>, acc: seq<Stmt>)
    ensures IsTerm(At(toks, pos), terms) ==> ParseBlock(toks, pos, terms, acc) == Ok((acc, pos))
    ensures !IsTerm(At(toks, pos), terms) && At(toks, pos) == Token.Semicolon ==>
      ParseBlock(toks, pos, terms, acc) == ParseBlock(toks, pos + 1, terms, acc)
  {
  }

  /** `parse`: the statements of the whole stream, in order. */
  function Parse(toks: seq<Token>): Result<seq<Stmt>>
  {
    var (stmts, _) :- ParseBlock(toks, 0, [Token.Eof], []);
    Ok(stmts)
  }
}
