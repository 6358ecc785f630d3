/** Concrete token streams and what the parser makes of them: the unit tests
    of src/query/parser.rs:446-535, stated for the token streams their input
    texts lex to, and a few edge cases of the grammar. Each example takes the
    stream as a parameter fixed token by token; the first group of lemmas
    are the small steps of the grammar the examples are assembled from. */
module ParserExamples {
  import opened QueryLexer
  import opened QueryError
  import opened Numbers
  import opened Ast
  import opened Grammar
  import ParserProperties
  import QueryParser

  // ---------------------------------------------------------------------
  // Steps of the expression grammar

  /** A primary that no comparison operator follows is the whole comparison. */
  lemma ComparisonIsPrimary(toks: seq<Token>, pos: nat)
    requires ParsePrimary(toks, pos).Ok? && CmpOp(At(toks, ParsePrimary(toks, pos).value.1)).None?
    ensures ParseComparison(toks, pos) == ParsePrimary(toks, pos)
  {
  }

  /** A comparison that no `AND` follows is the whole `AND` level. */
  lemma AndIsComparison(toks: seq<Token>, pos: nat)
    requires ParseComparison(toks, pos).Ok? && At(toks, ParseComparison(toks, pos).value.1) != Token.And
    ensures ParseLogicalAnd(toks, pos) == ParseComparison(toks, pos)
  {
  }

  /** An `AND` level that no `OR` follows is the whole expression. */
  lemma ExprIsAnd(toks: seq<Token>, pos: nat)
    requires ParseLogicalAnd(toks, pos).Ok? && At(toks, ParseLogicalAnd(toks, pos).value.1) != Token.Or
    ensures ParseExpr(toks, pos) == ParseLogicalAnd(toks, pos)
  {
    var (left, p) := ParseLogicalAnd(toks, pos).value;
    assert Maybe(toks, p, Token.Or) == (false, p);
    assert OrLoop(toks, p, left) == Ok((left, p));
  }

  /** A primary followed by no operator at all is the whole expression. */
  lemma ExprIsPrimary(toks: seq<Token>, pos: nat)
    requires ParsePrimary(toks, pos).Ok?
    requires var t := At(toks, ParsePrimary(toks, pos).value.1);
      CmpOp(t).None? && t != Token.And && t != Token.Or
    ensures ParseExpr(toks, pos) == ParsePrimary(toks, pos)
  {
    ComparisonIsPrimary(toks, pos);
    AndIsComparison(toks, pos);
    ExprIsAnd(toks, pos);
  }

  /** `a op b` with two one-token primaries. */
  lemma TwoPrimaries(toks: seq<Token>, pos: nat, a: Expr, op: string, b: Expr)
    requires ParsePrimary(toks, pos) == Ok((a, pos + 1)) && CmpOp(At(toks, pos + 1)) == Some(op)
    requires ParsePrimary(toks, pos + 2) == Ok((b, pos + 3))
    ensures ParseComparison(toks, pos) == Ok((Expr.Binary(op, a, b), pos + 3))
  {
  }

  /** The `AND` loop ends at a token that is not `AND`. */
  lemma AndLoopEnds(toks: seq<Token>, p: nat, left: Expr)
    requires At(toks, p) != Token.And
    ensures AndLoop(toks, p, left) == Ok((left, p))
  {
    assert Maybe(toks, p, Token.And) == (false, p);
  }

  /** One turn of the `AND` loop joins the next comparison on the right. */
  lemma AndLoopStep(toks: seq<Token>, p: nat, left: Expr, right: Expr, q: nat)
    requires At(toks, p) == Token.And && ParseComparison(toks, p + 1) == Ok((right, q))
    ensures AndLoop(toks, p, left) == AndLoop(toks, q, Expr.Binary("AND", left, right))
  {
    assert Maybe(toks, p, Token.And) == (true, p + 1);
  }

  /** The `OR` loop ends at a token that is not `OR`. */
  lemma OrLoopEnds(toks: seq<Token>, p: nat, left: Expr)
    requires At(toks, p) != Token.Or
    ensures OrLoop(toks, p, left) == Ok((left, p))
  {
    assert Maybe(toks, p, Token.Or) == (false, p);
  }

  /** One turn of the `OR` loop joins the next `AND` level on the right. */
  lemma OrLoopStep(toks: seq<Token>, p: nat, left: Expr, right: Expr, q: nat)
    requires At(toks, p) == Token.Or && ParseLogicalAnd(toks, p + 1) == Ok((right, q))
    ensures OrLoop(toks, p, left) == OrLoop(toks, q, Expr.Binary("OR", left, right))
  {
    assert Maybe(toks, p, Token.Or) == (true, p + 1);
  }

  /** `a AND b` with two comparisons. */
  lemma TwoComparisons(toks: seq<Token>, pos: nat, a: Expr, p: nat, b: Expr, q: nat)
    requires ParseComparison(toks, pos) == Ok((a, p)) && At(toks, p) == Token.And
    requires ParseComparison(toks, p + 1) == Ok((b, q)) && At(toks, q) != Token.And
    ensures ParseLogicalAnd(toks, pos) == Ok((Expr.Binary("AND", a, b), q))
  {
    AndLoopStep(toks, p, a, b, q);
    AndLoopEnds(toks, q, Expr.Binary("AND", a, b));
  }

  /** `a OR b` with two `AND` levels. */
  lemma TwoConjunctions(toks: seq<Token>, pos: nat, a: Expr, p: nat, b: Expr, q: nat)
    requires ParseLogicalAnd(toks, pos) == Ok((a, p)) && At(toks, p) == Token.Or
    requires ParseLogicalAnd(toks, p + 1) == Ok((b, q)) && At(toks, q) != Token.Or
    ensures ParseExpr(toks, pos) == Ok((Expr.Binary("OR", a, b), q))
  {
    OrLoopStep(toks, p, a, b, q);
    OrLoopEnds(toks, q, Expr.Binary("OR", a, b));
  }

  /** The text `1` is the `i64` 1. */
  lemma OneIsInt()
    ensures ParseI64("1") == Some(1)
  {
    assert Unsigned("1") == "1";
    assert DigitsValue("1") == 1 by {
      assert "1"[..0] == [];
    }
  }

  // ---------------------------------------------------------------------
  // The unit tests of the parser

  /** `DROP TABLE users` */
  lemma DropTable(toks: seq<Token>)
    requires |toks| == 3
    requires toks[0] == Token.Drop && toks[1] == Token.Table && toks[2] == Token.Ident("users")
    ensures ParseStmt(toks, 0) == Ok((Stmt.Drop("users"), 3))
  {
  }

  /** `SELECT * FROM users` */
  lemma SelectStar(toks: seq<Token>)
    requires |toks| == 4
    requires toks[0] == Token.Select && toks[1] == Token.Mul && toks[2] == Token.From
    requires toks[3] == Token.Ident("users")
    ensures ParseStmt(toks, 0) == Ok((Stmt.Select("users", Clause.Columns(["*"]), []), 4))
  {
  }

  /** `SELECT id, name FROM users` */
  lemma SelectColumnList(toks: seq<Token>)
    requires |toks| == 6
    requires toks[0] == Token.Select && toks[1] == Token.Ident("id") && toks[2] == Token.Comma
    requires toks[3] == Token.Ident("name") && toks[4] == Token.From && toks[5] == Token.Ident("users")
    ensures ParseStmt(toks, 0) == Ok((Stmt.Select("users", Clause.Columns(["id", "name"]), []), 6))
  {
    assert ConsumeIdent(toks, 3) == Ok(("name", 4));
    assert Maybe(toks, 4, Token.Comma) == (false, 4);
    assert ["id"] + ["name"] == ["id", "name"];
    assert SelectNames(toks, 3, ["id"]) == Ok((["id", "name"], 4));
    assert ConsumeIdent(toks, 1) == Ok(("id", 2));
    assert Maybe(toks, 2, Token.Comma) == (true, 3);
    assert [] + ["id"] == ["id"];
    assert SelectNames(toks, 1, []) == Ok((["id", "name"], 4));
  }

  /** The column list `(id, name)` of an `INSERT`. */
  lemma IdNameColumns(toks: seq<Token>, pos: nat)
    requires At(toks, pos) == Token.LParen && At(toks, pos + 1) == Token.Ident("id")
    requires At(toks, pos + 2) == Token.Comma && At(toks, pos + 3) == Token.Ident("name")
    requires At(toks, pos + 4) == Token.RParen
    ensures InsertColumns(toks, pos) == Ok((["id", "name"], pos + 5))
  {
    assert [] + ["id"] == ["id"];
    assert ["id"] + ["name"] == ["id", "name"];
    assert NamesLoop(toks, pos + 3, ["id"]) == Ok((["id", "name"], pos + 5));
    assert NamesLoop(toks, pos + 1, []) == Ok((["id", "name"], pos + 5));
  }

  /** The value list `1, 'Alice')` of an `INSERT`, after its `(`. */
  lemma OneAliceValues(toks: seq<Token>, pos: nat)
    requires At(toks, pos) == Token.Num("1") && At(toks, pos + 1) == Token.Comma
    requires At(toks, pos + 2) == Token.Text("Alice") && At(toks, pos + 3) == Token.RParen
    ensures ValuesLoop(toks, pos, []) == Ok(([Expr.Int(1), Expr.Text("Alice")], pos + 4))
  {
    OneIsInt();
    assert ParsePrimary(toks, pos) == Ok((Expr.Int(1), pos + 1));
    ExprIsPrimary(toks, pos);
    assert ParsePrimary(toks, pos + 2) == Ok((Expr.Text("Alice"), pos + 3));
    ExprIsPrimary(toks, pos + 2);
    assert [] + [Expr.Int(1)] == [Expr.Int(1)];
    assert [Expr.Int(1)] + [Expr.Text("Alice")] == [Expr.Int(1), Expr.Text("Alice")];
    assert ValuesLoop(toks, pos + 2, [Expr.Int(1)]) == Ok(([Expr.Int(1), Expr.Text("Alice")], pos + 4));
  }

  /** `INSERT INTO table <columns> VALUES (<values>`, given its column and
      value lists. */
  lemma InsertShape(toks: seq<Token>, pos: nat, table: string, columns: seq<string>, p: nat, values: seq<Expr>, q: nat)
    requires At(toks, pos) == Token.Insert && At(toks, pos + 1) == Token.Into && At(toks, pos + 2) == Token.Ident(table)
    requires InsertColumns(toks, pos + 3) == Ok((columns, p))
    requires At(toks, p) == Token.Values && At(toks, p + 1) == Token.LParen
    requires ValuesLoop(toks, p + 2, []) == Ok((values, q))
    ensures ParseInsert(toks, pos) == Ok((Stmt.Insert(table, Clause.Columns(columns), Clause.Values(values), []), q))
  {
    assert Expect(toks, pos, Token.Insert) == Ok(pos + 1);
    assert Expect(toks, pos + 1, Token.Into) == Ok(pos + 2);
    assert ConsumeIdent(toks, pos + 2) == Ok((table, pos + 3));
    assert Expect(toks, p, Token.Values) == Ok(p + 1);
    assert Expect(toks, p + 1, Token.LParen) == Ok(p + 2);
  }

  /** `parse_stmt` hands a stream that starts with `INSERT` to `parse_insert`. */
  lemma InsertDispatch(toks: seq<Token>, pos: nat)
    requires At(toks, pos) == Token.Insert
    ensures ParseStmt(toks, pos) == ParseInsert(toks, pos)
  {
  }

  /** `INSERT INTO users (id, name) VALUES (1, 'Alice')` */
  lemma InsertWithColumns(toks: seq<Token>)
    requires |toks| == 14
    requires toks[0] == Token.Insert && toks[1] == Token.Into && toks[2] == Token.Ident("users")
    requires toks[3] == Token.LParen && toks[4] == Token.Ident("id") && toks[5] == Token.Comma
    requires toks[6] == Token.Ident("name") && toks[7] == Token.RParen && toks[8] == Token.Values
    requires toks[9] == Token.LParen && toks[10] == Token.Num("1") && toks[11] == Token.Comma
    requires toks[12] == Token.Text("Alice") && toks[13] == Token.RParen
    ensures ParseStmt(toks, 0) ==
      Ok((Stmt.Insert("users", Clause.Columns(["id", "name"]),
                      Clause.Values([Expr.Int(1), Expr.Text("Alice")]), []), 14))
  {
    IdNameColumns(toks, 3);
    OneAliceValues(toks, 10);
    InsertShape(toks, 0, "users", ["id", "name"], 8, [Expr.Int(1), Expr.Text("Alice")], 14);
    InsertDispatch(toks, 0);
  }

  /** `SELECT * FROM users WHERE id = 1 AND name = 'Alice'` */
  lemma SelectWhereAnd(toks: seq<Token>)
    requires |toks| == 12
    requires toks[0] == Token.Select && toks[1] == Token.Mul && toks[2] == Token.From
    requires toks[3] == Token.Ident("users") && toks[4] == Token.Where && toks[5] == Token.Ident("id")
    requires toks[6] == Token.Eq && toks[7] == Token.Num("1") && toks[8] == Token.And
    requires toks[9] == Token.Ident("name") && toks[10] == Token.Eq && toks[11] == Token.Text("Alice")
    ensures ParseStmt(toks, 0) ==
      Ok((Stmt.Select("users", Clause.Columns(["*"]),
                      [Clause.Where(Expr.Binary("AND",
                         Expr.Binary("=", Expr.Ident("id"), Expr.Int(1)),
                         Expr.Binary("=", Expr.Ident("name"), Expr.Text("Alice"))))]), 12))
  {
    OneIsInt();
    var c1 := Expr.Binary("=", Expr.Ident("id"), Expr.Int(1));
    var c2 := Expr.Binary("=", Expr.Ident("name"), Expr.Text("Alice"));
    TwoPrimaries(toks, 5, Expr.Ident("id"), "=", Expr.Int(1));
    TwoPrimaries(toks, 9, Expr.Ident("name"), "=", Expr.Text("Alice"));
    TwoComparisons(toks, 5, c1, 8, c2, 12);
    ExprIsAnd(toks, 5);
    assert WhereClause(toks, 4) == Ok(([Clause.Where(Expr.Binary("AND", c1, c2))], 12));
  }

  /** The `Parser` class on `DROP TABLE users`: `parse_stmt` returns the
      statement and leaves `Eof` current. */
  method ParserDropTable() returns (r: Result<Stmt>, last: Token)
    ensures r == Ok(Stmt.Drop("users")) && last == Token.Eof
  {
    var toks := [Token.Drop, Token.Table, Token.Ident("users")];
    var p := new QueryParser.Parser(toks);
    DropTable(toks);
    r := p.ParseStmt();
    last := p.curr;
  }

  // ---------------------------------------------------------------------
  // Edge cases of the grammar

  /** `;;DROP TABLE t;;` is one statement: every `;` is skipped. */
  lemma SemicolonsSkipped(toks: seq<Token>)
    requires |toks| == 7
    requires toks[0] == Token.Semicolon && toks[1] == Token.Semicolon && toks[2] == Token.Drop
    requires toks[3] == Token.Table && toks[4] == Token.Ident("t") && toks[5] == Token.Semicolon
    requires toks[6] == Token.Semicolon
    ensures Parse(toks) == Ok([Stmt.Drop("t")])
  {
    var terms := [Token.Eof];
    assert ParseBlock(toks, 7, terms, [Stmt.Drop("t")]) == Ok(([Stmt.Drop("t")], 7));
    assert ParseBlock(toks, 6, terms, [Stmt.Drop("t")]) == Ok(([Stmt.Drop("t")], 7));
    assert ParseBlock(toks, 5, terms, [Stmt.Drop("t")]) == Ok(([Stmt.Drop("t")], 7));
    assert ParseStmt(toks, 2) == Ok((Stmt.Drop("t"), 5));
    assert [] + [Stmt.Drop("t")] == [Stmt.Drop("t")];
    assert ParseBlock(toks, 2, terms, []) == Ok(([Stmt.Drop("t")], 7));
    assert ParseBlock(toks, 1, terms, []) == Ok(([Stmt.Drop("t")], 7));
  }

  /** `DROP TABLE a DROP TABLE b`: no `;` is needed between statements. */
  lemma NoSeparatorNeeded(toks: seq<Token>)
    requires |toks| == 6
    requires toks[0] == Token.Drop && toks[1] == Token.Table && toks[2] == Token.Ident("a")
    requires toks[3] == Token.Drop && toks[4] == Token.Table && toks[5] == Token.Ident("b")
    ensures Parse(toks) == Ok([Stmt.Drop("a"), Stmt.Drop("b")])
  {
    var terms := [Token.Eof];
    var both := [Stmt.Drop("a"), Stmt.Drop("b")];
    assert [Stmt.Drop("a")] + [Stmt.Drop("b")] == both;
    assert ParseBlock(toks, 6, terms, both) == Ok((both, 6));
    assert ParseStmt(toks, 3) == Ok((Stmt.Drop("b"), 6));
    assert ParseBlock(toks, 3, terms, [Stmt.Drop("a")]) == Ok((both, 6));
    assert ParseStmt(toks, 0) == Ok((Stmt.Drop("a"), 3));
    assert [] + [Stmt.Drop("a")] == [Stmt.Drop("a")];
    assert ParseBlock(toks, 0, terms, []) == Ok((both, 6));
  }

  /** `SELECT FROM t`: the missing column is reported as "<ident>" found `FROM`. */
  lemma SelectWithoutColumns(toks: seq<Token>)
    requires |toks| == 3
    requires toks[0] == Token.Select && toks[1] == Token.From && toks[2] == Token.Ident("t")
    ensures ParseStmt(toks, 0) == Err(UnexpectedToken(IdentClass, Token.From))
  {
  }

  /** `CREATE TABLE t (a INT b INT)`: a missing comma is reported as
      "',' or ')'" found the next name. */
  lemma CreateMissingComma(toks: seq<Token>)
    requires |toks| == 9
    requires toks[0] == Token.Create && toks[1] == Token.Table && toks[2] == Token.Ident("t")
    requires toks[3] == Token.LParen && toks[4] == Token.Ident("a") && toks[5] == Token.Ident("INT")
    requires toks[6] == Token.Ident("b") && toks[7] == Token.Ident("INT") && toks[8] == Token.RParen
    ensures ParseStmt(toks, 0) == Err(UnexpectedToken(CommaOrRParen, Token.Ident("b")))
  {
  }

  /** `a = b = c`: the expression ends before the second `=`. */
  lemma ComparisonsDoNotChain(toks: seq<Token>, pos: nat)
    requires At(toks, pos) == Token.Ident("a") && At(toks, pos + 1) == Token.Eq
    requires At(toks, pos + 2) == Token.Ident("b") && At(toks, pos + 3) == Token.Eq
    ensures ParseExpr(toks, pos) == Ok((Expr.Binary("=", Expr.Ident("a"), Expr.Ident("b")), pos + 3))
  {
    TwoPrimaries(toks, pos, Expr.Ident("a"), "=", Expr.Ident("b"));
    AndIsComparison(toks, pos);
    ExprIsAnd(toks, pos);
  }

  /** `DELETE FROM t WHERE a = b` followed by `= c`: the statement ends
      before the second `=`. */
  lemma DeleteBeforeSecondEq(toks: seq<Token>)
    requires |toks| == 9
    requires toks[0] == Token.Delete && toks[1] == Token.From && toks[2] == Token.Ident("t")
    requires toks[3] == Token.Where && toks[4] == Token.Ident("a") && toks[5] == Token.Eq
    requires toks[6] == Token.Ident("b") && toks[7] == Token.Eq && toks[8] == Token.Ident("c")
    ensures ParseStmt(toks, 0) ==
      Ok((Stmt.Delete("t", [Clause.Where(Expr.Binary("=", Expr.Ident("a"), Expr.Ident("b")))]), 7))
  {
    ComparisonsDoNotChain(toks, 4);
  }

  /** `DELETE FROM t WHERE a = b = c`: no statement can start at the second
      `=`, so the script is refused there. */
  lemma ChainedComparisonRefused(toks: seq<Token>)
    requires |toks| == 9
    requires toks[0] == Token.Delete && toks[1] == Token.From && toks[2] == Token.Ident("t")
    requires toks[3] == Token.Where && toks[4] == Token.Ident("a") && toks[5] == Token.Eq
    requires toks[6] == Token.Ident("b") && toks[7] == Token.Eq && toks[8] == Token.Ident("c")
    ensures Parse(toks) == Err(UnexpectedToken(StmtClass, Token.Eq))
  {
    var delete := Stmt.Delete("t", [Clause.Where(Expr.Binary("=", Expr.Ident("a"), Expr.Ident("b")))]);
    DeleteBeforeSecondEq(toks);
    assert ParseBlock(toks, 7, [Token.Eof], [] + [delete]) == Err(UnexpectedToken(StmtClass, Token.Eq));
  }

  /** `a OR b AND c` groups as `a OR (b AND c)`. */
  lemma AndBindsTighter(toks: seq<Token>)
    requires |toks| == 5
    requires toks[0] == Token.Ident("a") && toks[1] == Token.Or && toks[2] == Token.Ident("b")
    requires toks[3] == Token.And && toks[4] == Token.Ident("c")
    ensures ParseExpr(toks, 0) ==
      Ok((Expr.Binary("OR", Expr.Ident("a"), Expr.Binary("AND", Expr.Ident("b"), Expr.Ident("c"))), 5))
  {
    var bc := Expr.Binary("AND", Expr.Ident("b"), Expr.Ident("c"));
    assert ParseComparison(toks, 0) == Ok((Expr.Ident("a"), 1));
    AndIsComparison(toks, 0);
    assert ParseComparison(toks, 2) == Ok((Expr.Ident("b"), 3));
    assert ParseComparison(toks, 4) == Ok((Expr.Ident("c"), 5));
    TwoComparisons(toks, 2, Expr.Ident("b"), 3, Expr.Ident("c"), 5);
    TwoConjunctions(toks, 0, Expr.Ident("a"), 1, bc, 5);
  }

  /** `a AND b OR c` groups as `(a AND b) OR c`. */
  lemma AndThenOr(toks: seq<Token>)
    requires |toks| == 5
    requires toks[0] == Token.Ident("a") && toks[1] == Token.And && toks[2] == Token.Ident("b")
    requires toks[3] == Token.Or && toks[4] == Token.Ident("c")
    ensures ParseExpr(toks, 0) ==
      Ok((Expr.Binary("OR", Expr.Binary("AND", Expr.Ident("a"), Expr.Ident("b")), Expr.Ident("c")), 5))
  {
    var ab := Expr.Binary("AND", Expr.Ident("a"), Expr.Ident("b"));
    assert ParseComparison(toks, 0) == Ok((Expr.Ident("a"), 1));
    assert ParseComparison(toks, 2) == Ok((Expr.Ident("b"), 3));
    TwoComparisons(toks, 0, Expr.Ident("a"), 1, Expr.Ident("b"), 3);
    assert ParseComparison(toks, 4) == Ok((Expr.Ident("c"), 5));
    AndIsComparison(toks, 4);
    TwoConjunctions(toks, 0, ab, 3, Expr.Ident("c"), 5);
  }

  /** `a AND b AND c` nests to the left: `(a AND b) AND c`. */
  lemma AndNestsLeft(toks: seq<Token>)
    requires |toks| == 5
    requires toks[0] == Token.Ident("a") && toks[1] == Token.And && toks[2] == Token.Ident("b")
    requires toks[3] == Token.And && toks[4] == Token.Ident("c")
    ensures ParseExpr(toks, 0) ==
      Ok((Expr.Binary("AND", Expr.Binary("AND", Expr.Ident("a"), Expr.Ident("b")), Expr.Ident("c")), 5))
  {
    var ab := Expr.Binary("AND", Expr.Ident("a"), Expr.Ident("b"));
    var abc := Expr.Binary("AND", ab, Expr.Ident("c"));
    assert ParseComparison(toks, 0) == Ok((Expr.Ident("a"), 1));
    assert ParseComparison(toks, 2) == Ok((Expr.Ident("b"), 3));
    assert ParseComparison(toks, 4) == Ok((Expr.Ident("c"), 5));
    AndLoopStep(toks, 1, Expr.Ident("a"), Expr.Ident("b"), 3);
    AndLoopStep(toks, 3, ab, Expr.Ident("c"), 5);
    AndLoopEnds(toks, 5, abc);
    assert ParseLogicalAnd(toks, 0) == Ok((abc, 5));
    ExprIsAnd(toks, 0);
  }

  /** `(a OR b)` is one primary. */
  lemma ParenthesisedOr(toks: seq<Token>, pos: nat)
    requires At(toks, pos) == Token.LParen && At(toks, pos + 1) == Token.Ident("a")
    requires At(toks, pos + 2) == Token.Or && At(toks, pos + 3) == Token.Ident("b")
    requires At(toks, pos + 4) == Token.RParen
    ensures ParsePrimary(toks, pos) == Ok((Expr.Binary("OR", Expr.Ident("a"), Expr.Ident("b")), pos + 5))
  {
    assert ParseComparison(toks, pos + 1) == Ok((Expr.Ident("a"), pos + 2));
    AndIsComparison(toks, pos + 1);
    assert ParseComparison(toks, pos + 3) == Ok((Expr.Ident("b"), pos + 4));
    AndIsComparison(toks, pos + 3);
    TwoConjunctions(toks, pos + 1, Expr.Ident("a"), pos + 2, Expr.Ident("b"), pos + 4);
  }

  /** `(a OR b) AND c`: parentheses override precedence. */
  lemma ParenthesesGroup(toks: seq<Token>)
    requires |toks| == 7
    requires toks[0] == Token.LParen && toks[1] == Token.Ident("a") && toks[2] == Token.Or
    requires toks[3] == Token.Ident("b") && toks[4] == Token.RParen && toks[5] == Token.And
    requires toks[6] == Token.Ident("c")
    ensures ParseExpr(toks, 0) ==
      Ok((Expr.Binary("AND", Expr.Binary("OR", Expr.Ident("a"), Expr.Ident("b")), Expr.Ident("c")), 7))
  {
    var ab := Expr.Binary("OR", Expr.Ident("a"), Expr.Ident("b"));
    ParenthesisedOr(toks, 0);
    ComparisonIsPrimary(toks, 0);
    assert ParseComparison(toks, 6) == Ok((Expr.Ident("c"), 7));
    TwoComparisons(toks, 0, ab, 5, Expr.Ident("c"), 7);
    ExprIsAnd(toks, 0);
  }

  /** `1.5` is a `Float`. */
  lemma OnePointFive()
    ensures NumberLiteral("1.5") == Ok(Expr.Float("1.5"))
  {
    ParserProperties.PointIsNotInt("1.5", 1);
    assert Unsigned("1.5") == "1.5";
    assert Find("1.5", 'e', 'E') == 3;
    assert "1.5"[..3] == "1.5";
    assert Find("1.5", '.', '.') == 1;
    assert "1.5"[..1] == "1";
    assert "1.5"[2..] == "5";
  }

  /** `1.2.3` is neither an integer nor float syntax. */
  lemma TwoPoints()
    ensures NumberLiteral("1.2.3") == Err(InvalidExpr("1.2.3"))
  {
    ParserProperties.PointIsNotInt("1.2.3", 1);
    assert Unsigned("1.2.3") == "1.2.3";
    assert AsciiLower("1.2.3") == "1.2.3";
    assert Find("1.2.3", 'e', 'E') == 5;
    assert "1.2.3"[..5] == "1.2.3";
    assert Find("1.2.3", '.', '.') == 1;
    assert "1.2.3"[2..] == "2.3";
    assert "2.3"[1] == '.';
  }
}
