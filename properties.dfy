/** What the routines of the parser guarantee about the trees they build:
    the shape of every statement, the comma lists, the optional `WHERE`, the
    literal of a number, and the block loop. Each lemma is about the
    functions of `Grammar`, which the `Parser` class is proved to compute. */
module ParserProperties {
  import opened QueryLexer
  import opened QueryError
  import opened Numbers
  import opened Ast
  import opened Grammar

  // ---------------------------------------------------------------------
  // Expressions

  /** A parsed expression is well formed and is made of expression tokens
      only (in particular it never swallows a `WHERE`, `,` or `;`). */
  lemma {:induction false} ExprFacts(toks: seq<Token>, pos: nat)
    ensures var r := ParseExpr(toks, pos);
      r.Ok? ==> WellFormedExpr(r.value.0) && ExprTokens(toks, pos, r.value.1)
    decreases Remaining(toks, pos), 4
  {
    OrFacts(toks, pos);
  }

  lemma {:induction false} OrFacts(toks: seq<Token>, pos: nat)
    ensures var r := ParseLogicalOr(toks, pos);
      r.Ok? ==> WellFormedExpr(r.value.0) && ExprTokens(toks, pos, r.value.1)
    decreases Remaining(toks, pos), 3
  {
    AndFacts(toks, pos);
    var a := ParseLogicalAnd(toks, pos);
    if a.Ok? {
      OrLoopFacts(toks, a.value.1, a.value.0);
      var r := OrLoop(toks, a.value.1, a.value.0);
      if r.Ok? {
        ExprTokensJoin(toks, pos, a.value.1, r.value.1);
      }
    }
  }

  lemma {:induction false} OrLoopFacts(toks: seq<Token>, pos: nat, left: Expr)
    ensures var r := OrLoop(toks, pos, left);
      r.Ok? ==> ExprTokens(toks, pos, r.value.1) && (WellFormedExpr(left) ==> WellFormedExpr(r.value.0))
    decreases Remaining(toks, pos), 3
  {
    if At(toks, pos) == Token.Or {
      AndFacts(toks, pos + 1);
      var a := ParseLogicalAnd(toks, pos + 1);
      if a.Ok? {
        OrLoopFacts(toks, a.value.1, Expr.Binary("OR", left, a.value.0));
        var r := OrLoop(toks, a.value.1, Expr.Binary("OR", left, a.value.0));
        if r.Ok? {
          assert ExprTokens(toks, pos, pos + 1);
          ExprTokensJoin(toks, pos, pos + 1, a.value.1);
          ExprTokensJoin(toks, pos, a.value.1, r.value.1);
        }
      }
    }
  }

  lemma {:induction false} AndFacts(toks: seq<Token>, pos: nat)
    ensures var r := ParseLogicalAnd(toks, pos);
      r.Ok? ==> WellFormedExpr(r.value.0) && ExprTokens(toks, pos, r.value.1)
    decreases Remaining(toks, pos), 2
  {
    CmpFacts(toks, pos);
    var c := ParseComparison(toks, pos);
    if c.Ok? {
      AndLoopFacts(toks, c.value.1, c.value.0);
      var r := AndLoop(toks, c.value.1, c.value.0);
      if r.Ok? {
        ExprTokensJoin(toks, pos, c.value.1, r.value.1);
      }
    }
  }

  lemma {:induction false} AndLoopFacts(toks: seq<Token>, pos: nat, left: Expr)
    ensures var r := AndLoop(toks, pos, left);
      r.Ok? ==> ExprTokens(toks, pos, r.value.1) && (WellFormedExpr(left) ==> WellFormedExpr(r.value.0))
    decreases Remaining(toks, pos), 2
  {
    if At(toks, pos) == Token.And {
      CmpFacts(toks, pos + 1);
      var c := ParseComparison(toks, pos + 1);
      if c.Ok? {
        AndLoopFacts(toks, c.value.1, Expr.Binary("AND", left, c.value.0));
        var r := AndLoop(toks, c.value.1, Expr.Binary("AND", left, c.value.0));
        if r.Ok? {
          assert ExprTokens(toks, pos, pos + 1);
          ExprTokensJoin(toks, pos, pos + 1, c.value.1);
          ExprTokensJoin(toks, pos, c.value.1, r.value.1);
        }
      }
    }
  }

  lemma {:induction false} CmpFacts(toks: seq<Token>, pos: nat)
    ensures var r := ParseComparison(toks, pos);
      r.Ok? ==> WellFormedExpr(r.value.0) && ExprTokens(toks, pos, r.value.1)
    decreases Remaining(toks, pos), 1
  {
    PrimaryFacts(toks, pos);
    var l := ParsePrimary(toks, pos);
    if l.Ok? {
      var p := l.value.1;
      var op := CmpOp(At(toks, p));
      if op.Some? {
        PrimaryFacts(toks, p + 1);
        var rt := ParsePrimary(toks, p + 1);
        if rt.Ok? {
          assert ParseComparison(toks, pos) == Ok((Expr.Binary(op.value, l.value.0, rt.value.0), rt.value.1));
          assert ExprTokens(toks, p, p + 1);
          ExprTokensJoin(toks, pos, p, p + 1);
          ExprTokensJoin(toks, pos, p + 1, rt.value.1);
        }
      }
    }
  }

  lemma {:induction false} PrimaryFacts(toks: seq<Token>, pos: nat)
    ensures var r := ParsePrimary(toks, pos);
      r.Ok? ==> WellFormedExpr(r.value.0) && ExprTokens(toks, pos, r.value.1)
    decreases Remaining(toks, pos), 0
  {
    if At(toks, pos) == Token.LParen {
      ExprFacts(toks, pos + 1);
      var e := ParseExpr(toks, pos + 1);
      if e.Ok? && At(toks, e.value.1) == Token.RParen {
        assert ExprTokens(toks, pos, pos + 1);
        assert ExprTokens(toks, e.value.1, e.value.1 + 1);
        ExprTokensJoin(toks, pos, pos + 1, e.value.1);
        ExprTokensJoin(toks, pos, e.value.1, e.value.1 + 1);
      }
    }
  }

  /** Two stretches of expression tokens next to each other make one. */
  lemma ExprTokensJoin(toks: seq<Token>, a: nat, b: nat, c: nat)
    requires a <= b <= c
    requires ExprTokens(toks, a, b) && ExprTokens(toks, b, c)
    ensures ExprTokens(toks, a, c)
  {
  }

  /** A `Num` token becomes an `Int` when its text is an `i64`, a `Float`
      when it is only float syntax, and `InvalidExpr` otherwise; one token
      is consumed. */
  lemma NumberPrimary(toks: seq<Token>, pos: nat, n: string)
    requires At(toks, pos) == Token.Num(n)
    ensures ParseI64(n).Some? ==> ParsePrimary(toks, pos) == Ok((Expr.Int(ParseI64(n).value), pos + 1))
    ensures ParseI64(n).None? && FloatSyntax(n) ==> ParsePrimary(toks, pos) == Ok((Expr.Float(n), pos + 1))
    ensures !FloatSyntax(n) ==> ParsePrimary(toks, pos) == Err(InvalidExpr(n))
  {
  }

  /** A text with a `.` in it is never an `i64`. */
  lemma PointIsNotInt(s: string, i: nat)
    requires i < |s| && s[i] == '.'
    ensures ParseI64(s).None?
  {
    var signed := s[0] == '+' || s[0] == '-';
    var j := if signed then i - 1 else i;
    assert j < |Unsigned(s)| && Unsigned(s)[j] == '.';
  }

  /** A run of digits too large for an `i64` is not an error: it becomes a
      `Float` that keeps the text. */
  lemma OverflowIsFloat(s: string)
    requires |s| > 0 && AllDigits(s) && DigitsValue(s) >= 0x8000_0000_0000_0000
    ensures NumberLiteral(s) == Ok(Expr.Float(s))
  {
    assert Unsigned(s) == s;
    FindInDigits(s, 'e', 'E');
    assert s[..|s|] == s;
    FindInDigits(s, '.', '.');
    assert DecimalFloat(s);
  }

  // ---------------------------------------------------------------------
  // Comma lists

  /** The definitions loop of `CREATE` yields at least one pair more than
      it was given, and keeps the ones it was given in front. */
  lemma {:induction false} DefsFacts(toks: seq<Token>, pos: nat, acc: seq<(string, string)>)
    ensures var r := DefsLoop(toks, pos, acc);
      r.Ok? ==> |r.value.0| > |acc| && r.value.0[..|acc|] == acc
    decreases Remaining(toks, pos)
  {
    if At(toks, pos).Ident? && At(toks, pos + 1).Ident? && At(toks, pos + 2) == Token.Comma {
      var cols := acc + [(At(toks, pos).name, At(toks, pos + 1).name)];
      DefsFacts(toks, pos + 3, cols);
      var r := DefsLoop(toks, pos + 3, cols);
      if r.Ok? {
        assert r.value.0[..|acc|] == cols[..|acc|];
      }
    }
  }

  lemma {:induction false} NamesFacts(toks: seq<Token>, pos: nat, acc: seq<string>)
    ensures var r := NamesLoop(toks, pos, acc);
      r.Ok? ==> |r.value.0| > |acc| && r.value.0[..|acc|] == acc
    decreases Remaining(toks, pos)
  {
    if At(toks, pos).Ident? && At(toks, pos + 1) == Token.Comma {
      var names := acc + [At(toks, pos).name];
      NamesFacts(toks, pos + 2, names);
      var r := NamesLoop(toks, pos + 2, names);
      if r.Ok? {
        assert r.value.0[..|acc|] == names[..|acc|];
      }
    }
  }

  lemma {:induction false} ValuesFacts(toks: seq<Token>, pos: nat, acc: seq<Expr>)
    ensures var r := ValuesLoop(toks, pos, acc);
      r.Ok? ==> (|r.value.0| > |acc| && r.value.0[..|acc|] == acc &&
        ((forall e <- acc :: WellFormedExpr(e)) ==> forall e <- r.value.0 :: WellFormedExpr(e)))
    decreases Remaining(toks, pos)
  {
    ExprFacts(toks, pos);
    var e := ParseExpr(toks, pos);
    if e.Ok? && At(toks, e.value.1) == Token.Comma {
      var values := acc + [e.value.0];
      ValuesFacts(toks, e.value.1 + 1, values);
      var r := ValuesLoop(toks, e.value.1 + 1, values);
      if r.Ok? {
        assert r.value.0[..|acc|] == values[..|acc|];
      }
    }
  }

  /** The column names of `SELECT` are never `WHERE`. */
  lemma {:induction false} SelectNamesFacts(toks: seq<Token>, pos: nat, acc: seq<string>)
    ensures var r := SelectNames(toks, pos, acc);
      r.Ok? ==> |r.value.0| > |acc| && r.value.0[..|acc|] == acc && Avoids(toks, pos, r.value.1, Token.Where)
    decreases Remaining(toks, pos)
  {
    if At(toks, pos).Ident? && At(toks, pos + 1) == Token.Comma {
      var names := acc + [At(toks, pos).name];
      SelectNamesFacts(toks, pos + 2, names);
      var r := SelectNames(toks, pos + 2, names);
      if r.Ok? {
        assert r.value.0[..|acc|] == names[..|acc|];
      }
    }
  }

  /** The assignments of `UPDATE` are well formed and never contain
      `WHERE`. */
  lemma {:induction false} AssignsFacts(toks: seq<Token>, pos: nat, acc: seq<(string, Expr)>)
    ensures var r := AssignsLoop(toks, pos, acc);
      r.Ok? ==> (|r.value.0| > |acc| && r.value.0[..|acc|] == acc && Avoids(toks, pos, r.value.1, Token.Where) &&
        ((forall a <- acc :: WellFormedExpr(a.1)) ==> forall a <- r.value.0 :: WellFormedExpr(a.1)))
    decreases Remaining(toks, pos)
  {
    var r := AssignsLoop(toks, pos, acc);
    if r.Ok? {
      ExprFacts(toks, pos + 2);
      var (val, p) := ParseExpr(toks, pos + 2).value;
      ExprAvoidsWhere(toks, pos + 2, p);
      assert Avoids(toks, pos, pos + 2, Token.Where);
      AvoidsJoin(toks, pos, pos + 2, p, Token.Where);
      var assigns := acc + [(At(toks, pos).name, val)];
      if At(toks, p) == Token.Comma {
        AssignsFacts(toks, p + 1, assigns);
        assert Avoids(toks, p, p + 1, Token.Where);
        AvoidsJoin(toks, pos, p, p + 1, Token.Where);
        AvoidsJoin(toks, pos, p + 1, r.value.1, Token.Where);
        assert r.value.0[..|acc|] == assigns[..|acc|];
      }
    }
  }

  /** Two stretches free of `t` next to each other make one. */
  lemma AvoidsJoin(toks: seq<Token>, a: nat, b: nat, c: nat, t: Token)
    requires a <= b <= c
    requires Avoids(toks, a, b, t) && Avoids(toks, b, c, t)
    ensures Avoids(toks, a, c, t)
  {
  }

  /** An expression never contains `WHERE`. */
  lemma ExprAvoidsWhere(toks: seq<Token>, a: nat, b: nat)
    requires ExprTokens(toks, a, b)
    ensures Avoids(toks, a, b, Token.Where)
  {
  }

  /** `WHERE` yields one `Where` clause exactly when the keyword is there,
      and no clause (and no token consumed) otherwise. */
  lemma WhereFacts(toks: seq<Token>, pos: nat)
    ensures var r := WhereClause(toks, pos);
      r.Ok? ==> (WhereOnly(r.value.0) &&
        (r.value.0 == [] <==> At(toks, pos) != Token.Where) &&
        (r.value.0 == [] ==> r.value.1 == pos) &&
        Avoids(toks, pos + 1, r.value.1, Token.Where))
  {
    if At(toks, pos) == Token.Where {
      ExprFacts(toks, pos + 1);
    }
  }

  // ---------------------------------------------------------------------
  // Statements

  /** `CREATE TABLE` has at least one column definition and no clause. */
  lemma CreateFacts(toks: seq<Token>, pos: nat)
    ensures var r := ParseCreate(toks, pos);
      r.Ok? ==> r.value.0.Create? && WellFormedStmt(r.value.0)
  {
    DefsFacts(toks, pos + 4, []);
  }

  /** The optional column list of `INSERT` is empty exactly when no `(`
      opens it. */
  lemma InsertColumnsFacts(toks: seq<Token>, pos: nat)
    ensures var c := InsertColumns(toks, pos);
      c.Ok? ==> (c.value.0 == [] <==> At(toks, pos) != Token.LParen)
  {
    if At(toks, pos) == Token.LParen {
      NamesFacts(toks, pos + 1, []);
    }
  }

  /** `INSERT` has at least one value and no clause; its column list is
      empty exactly when no `(` follows the table name. */
  lemma InsertFacts(toks: seq<Token>, pos: nat)
    ensures var r := ParseInsert(toks, pos);
      r.Ok? ==> (r.value.0.Insert? && WellFormedStmt(r.value.0) &&
        (r.value.0.columns.names == [] <==> At(toks, pos + 3) != Token.LParen))
  {
    var r := ParseInsert(toks, pos);
    if r.Ok? {
      InsertColumnsFacts(toks, pos + 3);
      var c := InsertColumns(toks, pos + 3);
      ValuesFacts(toks, c.value.1 + 2, []);
    }
  }

  /** The columns of `SELECT`: `*` alone, or a non-empty list of names;
      either way no `WHERE` among their tokens. */
  lemma SelectColumnsFacts(toks: seq<Token>, pos: nat)
    ensures var c := SelectColumns(toks, pos);
      c.Ok? ==> (|c.value.0| > 0 && Avoids(toks, pos, c.value.1, Token.Where) &&
        (At(toks, pos) == Token.Mul ==> c.value.0 == ["*"]))
  {
    if At(toks, pos) != Token.Mul {
      SelectNamesFacts(toks, pos, []);
    }
  }

  /** `SELECT *` selects the single column `"*"`; the clause list is one
      `Where` exactly when a `WHERE` was consumed. */
  lemma SelectFacts(toks: seq<Token>, pos: nat)
    ensures var r := ParseSelect(toks, pos);
      r.Ok? ==> (r.value.0.Select? && WellFormedStmt(r.value.0) &&
        (r.value.0.clauses == [] <==> Avoids(toks, pos, r.value.1, Token.Where)) &&
        (At(toks, pos + 1) == Token.Mul ==> r.value.0.columns == Clause.Columns(["*"])))
  {
    var r := ParseSelect(toks, pos);
    if r.Ok? {
      var c := SelectColumns(toks, pos + 1);
      SelectColumnsFacts(toks, pos + 1);
      var p2 := c.value.1;
      assert Avoids(toks, pos, pos + 1, Token.Where);
      AvoidsJoin(toks, pos, pos + 1, p2, Token.Where);
      ClausesFollow(toks, pos, p2 + 2);
    }
  }

  /** The clause list of a statement whose tokens up to `p` are free of
      `WHERE` is empty exactly when the whole statement is. */
  lemma ClausesFollow(toks: seq<Token>, pos: nat, p: nat)
    requires pos <= p && Avoids(toks, pos, p, Token.Where)
    ensures var w := WhereClause(toks, p);
      w.Ok? ==> (WhereOnly(w.value.0) && (w.value.0 == [] <==> Avoids(toks, pos, w.value.1, Token.Where)))
  {
    WhereFacts(toks, p);
  }

  /** `UPDATE` has at least one assignment; the clause list is one `Where`
      exactly when a `WHERE` was consumed. */
  lemma UpdateFacts(toks: seq<Token>, pos: nat)
    ensures var r := ParseUpdate(toks, pos);
      r.Ok? ==> (r.value.0.Update? && WellFormedStmt(r.value.0) &&
        (r.value.0.clauses == [] <==> Avoids(toks, pos, r.value.1, Token.Where)))
  {
    var r := ParseUpdate(toks, pos);
    if r.Ok? {
      AssignsFacts(toks, pos + 3, []);
      var (assigns, p4) := AssignsLoop(toks, pos + 3, []).value;
      assert Avoids(toks, pos, pos + 3, Token.Where);
      AvoidsJoin(toks, pos, pos + 3, p4, Token.Where);
      ClausesFollow(toks, pos, p4);
    }
  }

  /** `DELETE`: the clause list is one `Where` exactly when a `WHERE` was
      consumed. */
  lemma DeleteFacts(toks: seq<Token>, pos: nat)
    ensures var r := ParseDelete(toks, pos);
      r.Ok? ==> (r.value.0.Delete? && WellFormedStmt(r.value.0) &&
        (r.value.0.clauses == [] <==> Avoids(toks, pos, r.value.1, Token.Where)))
  {
    var r := ParseDelete(toks, pos);
    if r.Ok? {
      assert Avoids(toks, pos, pos + 3, Token.Where);
      ClausesFollow(toks, pos, pos + 3);
    }
  }

  /** `parse_stmt` builds a well-formed statement of the kind its leading
      keyword names, and rejects any other leading token with "<stmt>". */
  lemma StmtFacts(toks: seq<Token>, pos: nat)
    ensures var r := ParseStmt(toks, pos);
      (r.Ok? ==> WellFormedStmt(r.value.0) && Introduces(At(toks, pos), r.value.0)) &&
      (!StartsStmt(At(toks, pos)) ==> r == Err(UnexpectedToken(StmtClass, At(toks, pos))))
  {
    match At(toks, pos)
    case Create => CreateFacts(toks, pos);
    case Insert => InsertFacts(toks, pos);
    case Select => SelectFacts(toks, pos);
    case Update => UpdateFacts(toks, pos);
    case Delete => DeleteFacts(toks, pos);
    case Drop =>
    case _ =>
  }

  // ---------------------------------------------------------------------
  // Blocks

  /** `parse_block` stops on a terminator and keeps the statements it was
      given in front. */
  lemma {:induction false} BlockFacts(toks: seq<Token>, pos: nat, terms: seq<Token>, acc: seq<Stmt>)
    ensures var r := ParseBlock(toks, pos, terms, acc);
      r.Ok? ==> (pos <= r.value.1 && IsTerm(At(toks, r.value.1), terms) &&
        |r.value.0| >= |acc| && r.value.0[..|acc|] == acc)
    decreases Remaining(toks, pos)
  {
    var tok := At(toks, pos);
    if IsTerm(tok, terms) {
    } else if tok == Token.Semicolon {
      BlockFacts(toks, pos + 1, terms, acc);
    } else {
      var st := ParseStmt(toks, pos);
      if st.Ok? {
        var stmts := acc + [st.value.0];
        BlockFacts(toks, st.value.1, terms, stmts);
        var r := ParseBlock(toks, st.value.1, terms, stmts);
        if r.Ok? {
          assert r.value.0[..|acc|] == stmts[..|acc|];
        }
      }
    }
  }

  /** `parse_block` adds only well-formed statements. */
  lemma {:induction false} BlockWellFormed(toks: seq<Token>, pos: nat, terms: seq<Token>, acc: seq<Stmt>)
    requires forall s <- acc :: WellFormedStmt(s)
    ensures var r := ParseBlock(toks, pos, terms, acc);
      r.Ok? ==> forall s <- r.value.0 :: WellFormedStmt(s)
    decreases Remaining(toks, pos)
  {
    var tok := At(toks, pos);
    if IsTerm(tok, terms) {
    } else if tok == Token.Semicolon {
      BlockWellFormed(toks, pos + 1, terms, acc);
    } else {
      StmtFacts(toks, pos);
      var st := ParseStmt(toks, pos);
      if st.Ok? {
        BlockWellFormed(toks, st.value.1, terms, acc + [st.value.0]);
      }
    }
  }

  /** Every statement `parse` returns is well formed. */
  lemma ParseFacts(toks: seq<Token>)
    ensures Parse(toks).Ok? ==> forall s <- Parse(toks).value :: WellFormedStmt(s)
  {
    BlockWellFormed(toks, 0, [Token.Eof], []);
  }

  /** A run of `;` before a statement is skipped: the block parses as if it
      were not there. */
  lemma {:induction false} SkipSemicolons(toks: seq<Token>, pos: nat, n: nat, terms: seq<Token>, acc: seq<Stmt>)
    requires forall j | pos <= j < pos + n :: At(toks, j) == Token.Semicolon
    requires !IsTerm(Token.Semicolon, terms)
    ensures ParseBlock(toks, pos, terms, acc) == ParseBlock(toks, pos + n, terms, acc)
    decreases n
  {
    if n > 0 {
      BlockEndOrSkip(toks, pos, terms, acc);
      SkipSemicolons(toks, pos + 1, n - 1, terms, acc);
    }
  }

  /** The clause accessors of a statement `parse` produced find the clause
      each field was built with. */
  lemma ParsedAccessors(s: Stmt)
    requires WellFormedStmt(s)
    ensures s.Create? ==> s.defs.AsDefs() == Some(s.defs.cols) && |s.defs.AsDefs().value| > 0
    ensures s.Insert? ==>
      s.columns.AsColumns() == Some(s.columns.names) && s.values.AsValues() == Some(s.values.exprs) && |s.values.exprs| > 0
    ensures s.Select? ==> s.columns.AsColumns() == Some(s.columns.names) && |s.columns.names| > 0
    ensures s.Update? ==> s.assigns.AsAssigns() == Some(s.assigns.pairs) && |s.assigns.pairs| > 0
    ensures (s.Select? || s.Update? || s.Delete?) && s.clauses != [] ==>
      s.clauses == [Clause.Where(s.clauses[0].cond)] && s.clauses[0].AsWhere() == Some(s.clauses[0].cond)
    ensures (s.Select? || s.Update? || s.Delete?) ==> forall c <- s.clauses :: c.AsLimit().None? && c.AsOrderBy().None?
  {
  }
}
