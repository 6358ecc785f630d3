/** The `Parser` of src/query/parser.rs:109-439: a lexer, the current token
    and one token of lookahead, updated in place by `next`. `Next` is
    specified by the tokens it shifts. Every other routine is proved to
    compute its counterpart in `Grammar` (the same error, or the same value
    and the same new position): the function of the same name, and for the
    methods that run one inner loop of a `parse_*` routine the loop function
    (`ParseDefs`: `DefsLoop`, `ParseNames`: `NamesLoop`, `ParseValues`:
    `ValuesLoop`, `ParseSelectNames`: `SelectNames`, `ParseAssigns`:
    `AssignsLoop`, `ParseWhere`: `WhereClause`). */
module QueryParser {
  import opened QueryLexer
  import opened QueryError
  import opened Ast
  import G = Grammar

  class Parser {
    /** The tokens the lexer yields for the input, in order; past the end
        it yields `Eof`. */
    const tokens: seq<Token>
    /** How many tokens have been pulled from the lexer. */
    var lexed: nat
    var curr: Token
    var peek: Token

    /** `curr` and `peek` are the last two tokens pulled from the lexer. */
    ghost predicate Valid()
      reads this
    {
      lexed >= 2 && curr == At(tokens, lexed - 2) && peek == At(tokens, lexed - 1)
    }

    /** The index of `curr` in the token stream. */
    ghost function Pos(): nat
      reads this
      requires Valid()
    {
      lexed - 2
    }

    /** `Parser::new`: primes `curr` and `peek` with the first two tokens. */
    constructor (tokens: seq<Token>)
      ensures this.tokens == tokens && Valid() && Pos() == 0
      ensures curr == At(tokens, 0) && peek == At(tokens, 1)
    {
      this.tokens := tokens;
      lexed := 2;
      curr := At(tokens, 0);
      peek := At(tokens, 1);
    }

    /** `next`: returns `curr`, shifts `peek` into `curr` and pulls a fresh
        token into `peek`; the stream advances by exactly one token. */
    method Next() returns (t: Token)
      requires Valid()
      modifies this
      ensures Valid() && Pos() == old(Pos()) + 1
      ensures t == old(curr) && curr == old(peek) && peek == At(tokens, old(lexed))
    {
      var incoming := At(tokens, lexed);
      lexed := lexed + 1;
      t := curr;
      curr := peek;
      peek := incoming;
    }

    /** `expect`: consumes `curr` if it has the variant of `t` (payloads are
        not compared); otherwise fails and leaves the position alone. */
    method Expect(t: Token) returns (r: Result<()>)
      requires Valid()
      modifies this
      ensures Valid()
      ensures r.Ok? <==> SameKind(old(curr), t)
      ensures Pos() == if r.Ok? then old(Pos()) + 1 else old(Pos())
      ensures r.Err? ==> r.error == UnexpectedToken(Kind(t), old(curr))
      ensures G.Expect(tokens, old(Pos()), t) == if r.Ok? then Ok(Pos()) else Err(r.error)
    {
      if SameKind(curr, t) {
        var _ := Next();
        r := Ok(());
      } else {
        r := Err(UnexpectedToken(Kind(t), curr));
      }
    }

    /** `maybe`: like `expect`, but answers whether it consumed instead of
        failing. */
    method Maybe(t: Token) returns (taken: bool)
      requires Valid()
      modifies this
      ensures Valid()
      ensures taken == SameKind(old(curr), t)
      ensures Pos() == if taken then old(Pos()) + 1 else old(Pos())
      ensures G.Maybe(tokens, old(Pos()), t) == (taken, Pos())
    {
      if SameKind(curr, t) {
        var _ := Next();
        taken := true;
      } else {
        taken := false;
      }
    }

    /** `parse`: the statements up to `Eof`. */
    method Parse() returns (r: Result<seq<Stmt>>)
      requires Valid()
      modifies this
      ensures Valid()
      ensures G.Agrees(r, G.ParseBlock(tokens, old(Pos()), [Token.Eof], []), Pos())
    {
      r := ParseBlock([Token.Eof]);
    }

    /** `parse_block`: statements until a token of the variant of one of
        `terms`, skipping every `;`. */
    method ParseBlock(terms: seq<Token>) returns (r: Result<seq<Stmt>>)
      requires Valid()
      modifies this
      ensures Valid()
      ensures G.Agrees(r, G.ParseBlock(tokens, old(Pos()), terms, []), Pos())
    {
      var stmts: seq<Stmt> := [];
      while !G.IsTerm(curr, terms)
        invariant Valid()
        invariant G.ParseBlock(tokens, Pos(), terms, stmts) == G.ParseBlock(tokens, old(Pos()), terms, [])
        decreases G.Remaining(tokens, Pos())
      {
        if curr == Token.Semicolon {
          var _ := Next();
          continue;
        }
        var stmt :- ParseStmt();
        stmts := stmts + [stmt];
      }
      r := Ok(stmts);
    }

    /** `consume_ident`: always consumes `curr`, and fails unless it was an
        identifier. */
    method ConsumeIdent() returns (r: Result<string>)
      requires Valid()
      modifies this
      ensures Valid() && Pos() == old(Pos()) + 1
      ensures old(curr).Ident? ==> r == Ok(old(curr).name)
      ensures !old(curr).Ident? ==> r == Err(UnexpectedToken(IdentClass, old(curr)))
      ensures G.Agrees(r, G.ConsumeIdent(tokens, old(Pos())), Pos())
    {
      var tok := Next();
      if tok.Ident? {
        r := Ok(tok.name);
      } else {
        r := Err(UnexpectedToken(IdentClass, tok));
      }
    }

    /** `parse_stmt`: dispatch on the leading token. */
    method ParseStmt() returns (r: Result<Stmt>)
      requires Valid()
      modifies this
      ensures Valid()
      ensures G.Agrees(r, G.ParseStmt(tokens, old(Pos())), Pos())
    {
      if curr == Token.Create {
        r := ParseCreate();
      } else if curr == Token.Insert {
        r := ParseInsert();
      } else if curr == Token.Select {
        r := ParseSelect();
      } else if curr == Token.Update {
        r := ParseUpdate();
      } else if curr == Token.Delete {
        r := ParseDelete();
      } else if curr == Token.Drop {
        r := ParseDrop();
      } else {
        r := Err(UnexpectedToken(StmtClass, curr));
      }
    }

    method ParseCreate() returns (r: Result<Stmt>)
      requires Valid()
      modifies this
      ensures Valid()
      ensures G.Agrees(r, G.ParseCreate(tokens, old(Pos())), Pos())
    {
      var _ :- Expect(Token.Create);
      var _ :- Expect(Token.Table);
      var table :- ConsumeIdent();
      var _ :- Expect(Token.LParen);
      var columns :- ParseDefs();
      r := Ok(Stmt.Create(table, Clause.Defs(columns), []));
    }

    /** The loop of `parse_create`: `name type`, then `,` to go on or `)` to
        stop. */
    method ParseDefs() returns (r: Result<seq<(string, string)>>)
      requires Valid()
      modifies this
      ensures Valid()
      ensures G.Agrees(r, G.DefsLoop(tokens, old(Pos()), []), Pos())
    {
      var columns: seq<(string, string)> := [];
      while true
        invariant Valid()
        invariant G.DefsLoop(tokens, Pos(), columns) == G.DefsLoop(tokens, old(Pos()), [])
        decreases G.Remaining(tokens, Pos())
      {
        var colName :- ConsumeIdent();
        var colType :- ConsumeIdent();
        columns := columns + [(colName, colType)];
        var tok := Next();
        if tok == Token.RParen {
          break;
        } else if tok != Token.Comma {
          return Err(UnexpectedToken(CommaOrRParen, tok));
        }
      }
      r := Ok(columns);
    }

    method ParseInsert() returns (r: Result<Stmt>)
      requires Valid()
      modifies this
      ensures Valid()
      ensures G.Agrees(r, G.ParseInsert(tokens, old(Pos())), Pos())
    {
      var _ :- Expect(Token.Insert);
      var _ :- Expect(Token.Into);
      var table :- ConsumeIdent();
      var columns: seq<string> := [];
      var parenthesised := Maybe(Token.LParen);
      if parenthesised {
        columns :- ParseNames();
      }
      var _ :- Expect(Token.Values);
      var _ :- Expect(Token.LParen);
      var values :- ParseValues();
      r := Ok(Stmt.Insert(table, Clause.Columns(columns), Clause.Values(values), []));
    }

    /** The column loop of `parse_insert`: `name`, then `,` or `)`. */
    method ParseNames() returns (r: Result<seq<string>>)
      requires Valid()
      modifies this
      ensures Valid()
      ensures G.Agrees(r, G.NamesLoop(tokens, old(Pos()), []), Pos())
    {
      var columns: seq<string> := [];
      while true
        invariant Valid()
        invariant G.NamesLoop(tokens, Pos(), columns) == G.NamesLoop(tokens, old(Pos()), [])
        decreases G.Remaining(tokens, Pos())
      {
        var name :- ConsumeIdent();
        columns := columns + [name];
        var tok := Next();
        if tok == Token.RParen {
          break;
        } else if tok != Token.Comma {
          return Err(UnexpectedToken(CommaOrRParen, tok));
        }
      }
      r := Ok(columns);
    }

    /** The value loop of `parse_insert`: an expression, then `,` or `)`. */
    method ParseValues() returns (r: Result<seq<Expr>>)
      requires Valid()
      modifies this
      ensures Valid()
      ensures G.Agrees(r, G.ValuesLoop(tokens, old(Pos()), []), Pos())
    {
      var values: seq<Expr> := [];
      while true
        invariant Valid()
        invariant G.ValuesLoop(tokens, Pos(), values) == G.ValuesLoop(tokens, old(Pos()), [])
        decreases G.Remaining(tokens, Pos())
      {
        var value :- ParseExpr();
        values := values + [value];
        var tok := Next();
        if tok == Token.RParen {
          break;
        } else if tok != Token.Comma {
          return Err(UnexpectedToken(CommaOrRParen, tok));
        }
      }
      r := Ok(values);
    }

    method ParseSelect() returns (r: Result<Stmt>)
      requires Valid()
      modifies this
      ensures Valid()
      ensures G.Agrees(r, G.ParseSelect(tokens, old(Pos())), Pos())
    {
      var _ :- Expect(Token.Select);
      ghost var p1 := Pos();
      var columns: seq<string>;
      if curr == Token.Mul {
        var _ := Next();
        columns := ["*"];
      } else {
        columns :- ParseSelectNames();
      }
      assert G.SelectColumns(tokens, p1) == Ok((columns, Pos()));
      var _ :- Expect(Token.From);
      var table :- ConsumeIdent();
      var clauses :- ParseWhere();
      r := Ok(Stmt.Select(table, Clause.Columns(columns), clauses));
    }

    /** The column loop of `parse_select`: `name`, continued while a `,`
        follows. */
    method ParseSelectNames() returns (r: Result<seq<string>>)
      requires Valid()
      modifies this
      ensures Valid()
      ensures G.Agrees(r, G.SelectNames(tokens, old(Pos()), []), Pos())
    {
      var columns: seq<string> := [];
      while true
        invariant Valid()
        invariant G.SelectNames(tokens, Pos(), columns) == G.SelectNames(tokens, old(Pos()), [])
        decreases G.Remaining(tokens, Pos())
      {
        var name :- ConsumeIdent();
        columns := columns + [name];
        var more := Maybe(Token.Comma);
        if !more {
          break;
        }
      }
      r := Ok(columns);
    }

    /** The `if self.maybe(&Token::Where)?` tail shared by `SELECT`, `UPDATE`
        and `DELETE`. */
    method ParseWhere() returns (r: Result<seq<Clause>>)
      requires Valid()
      modifies this
      ensures Valid()
      ensures G.Agrees(r, G.WhereClause(tokens, old(Pos())), Pos())
    {
      ghost var p0 := Pos();
      var clauses: seq<Clause> := [];
      var present := Maybe(Token.Where);
      if present {
        var cond :- ParseExpr();
        clauses := clauses + [Clause.Where(cond)];
        assert G.ParseExpr(tokens, p0 + 1) == Ok((cond, Pos()));
        assert G.Maybe(tokens, p0, Token.Where) == (true, p0 + 1);
        assert clauses == [Clause.Where(cond)];
        assert G.WhereClause(tokens, p0) == Ok((clauses, Pos()));
      } else {
        assert G.WhereClause(tokens, p0) == Ok((clauses, Pos()));
      }
      r := Ok(clauses);
    }

    method ParseUpdate() returns (r: Result<Stmt>)
      requires Valid()
      modifies this
      ensures Valid()
      ensures G.Agrees(r, G.ParseUpdate(tokens, old(Pos())), Pos())
    {
      var _ :- Expect(Token.Update);
      var table :- ConsumeIdent();
      var _ :- Expect(Token.Set);
      var assigns :- ParseAssigns();
      var clauses :- ParseWhere();
      r := Ok(Stmt.Update(table, Clause.Assigns(assigns), clauses));
    }

    /** The loop of `parse_update`: `name = expr`, continued while a `,`
        follows. */
    method ParseAssigns() returns (r: Result<seq<(string, Expr)>>)
      requires Valid()
      modifies this
      ensures Valid()
      ensures G.Agrees(r, G.AssignsLoop(tokens, old(Pos()), []), Pos())
    {
      var assigns: seq<(string, Expr)> := [];
      while true
        invariant Valid()
        invariant G.AssignsLoop(tokens, Pos(), assigns) == G.AssignsLoop(tokens, old(Pos()), [])
        decreases G.Remaining(tokens, Pos())
      {
        var col :- ConsumeIdent();
        var _ :- Expect(Token.Eq);
        var val :- ParseExpr();
        assigns := assigns + [(col, val)];
        var more := Maybe(Token.Comma);
        if !more {
          break;
        }
      }
      r := Ok(assigns);
    }

    method ParseDelete() returns (r: Result<Stmt>)
      requires Valid()
      modifies this
      ensures Valid()
      ensures G.Agrees(r, G.ParseDelete(tokens, old(Pos())), Pos())
    {
      var _ :- Expect(Token.Delete);
      var _ :- Expect(Token.From);
      var table :- ConsumeIdent();
      var clauses :- ParseWhere();
      r := Ok(Stmt.Delete(table, clauses));
    }

    method ParseDrop() returns (r: Result<Stmt>)
      requires Valid()
      modifies this
      ensures Valid()
      ensures G.Agrees(r, G.ParseDrop(tokens, old(Pos())), Pos())
    {
      var _ :- Expect(Token.Drop);
      var _ :- Expect(Token.Table);
      var table :- ConsumeIdent();
      r := Ok(Stmt.Drop(table));
    }

    method ParseExpr() returns (r: Result<Expr>)
      requires Valid()
      modifies this
      ensures Valid()
      ensures G.Agrees(r, G.ParseExpr(tokens, old(Pos())), Pos())
      decreases G.Remaining(tokens, Pos()), 4
    {
      r := ParseLogicalOr();
    }

    method ParseLogicalOr() returns (r: Result<Expr>)
      requires Valid()
      modifies this
      ensures Valid()
      ensures G.Agrees(r, G.ParseLogicalOr(tokens, old(Pos())), Pos())
      decreases G.Remaining(tokens, Pos()), 3
    {
      var left :- ParseLogicalAnd();
      ghost var here := Pos();
      var more := Maybe(Token.Or);
      while more
        invariant Valid() && old(Pos()) < here <= |tokens|
        invariant more == (At(tokens, here) == Token.Or)
        invariant Pos() == if more then here + 1 else here
        invariant G.OrLoop(tokens, here, left) == G.ParseLogicalOr(tokens, old(Pos()))
        decreases G.Remaining(tokens, here)
      {
        var right :- ParseLogicalAnd();
        left := Expr.Binary("OR", left, right);
        here := Pos();
        more := Maybe(Token.Or);
      }
      r := Ok(left);
    }

    method ParseLogicalAnd() returns (r: Result<Expr>)
      requires Valid()
      modifies this
      ensures Valid()
      ensures G.Agrees(r, G.ParseLogicalAnd(tokens, old(Pos())), Pos())
      decreases G.Remaining(tokens, Pos()), 2
    {
      var left :- ParseComparison();
      ghost var here := Pos();
      var more := Maybe(Token.And);
      while more
        invariant Valid() && old(Pos()) < here <= |tokens|
        invariant more == (At(tokens, here) == Token.And)
        invariant Pos() == if more then here + 1 else here
        invariant G.AndLoop(tokens, here, left) == G.ParseLogicalAnd(tokens, old(Pos()))
        decreases G.Remaining(tokens, here)
      {
        var right :- ParseComparison();
        left := Expr.Binary("AND", left, right);
        here := Pos();
        more := Maybe(Token.And);
      }
      r := Ok(left);
    }

    method ParseComparison() returns (r: Result<Expr>)
      requires Valid()
      modifies this
      ensures Valid()
      ensures G.Agrees(r, G.ParseComparison(tokens, old(Pos())), Pos())
      decreases G.Remaining(tokens, Pos()), 1
    {
      var left :- ParsePrimary();
      var op := G.CmpOp(curr);
      if op.None? {
        return Ok(left);
      }
      var _ := Next();
      var right :- ParsePrimary();
      r := Ok(Expr.Binary(op.value, left, right));
    }

    method ParsePrimary() returns (r: Result<Expr>)
      requires Valid()
      modifies this
      ensures Valid()
      ensures G.Agrees(r, G.ParsePrimary(tokens, old(Pos())), Pos())
      decreases G.Remaining(tokens, Pos()), 0
    {
      var tok := Next();
      if tok == Token.Null {
        r := Ok(Expr.Null);
      } else if tok.Bool? {
        r := Ok(Expr.Bool(tok.b));
      } else if tok.Num? {
        r := G.NumberLiteral(tok.literal);
      } else if tok.Text? {
        r := Ok(Expr.Text(tok.value));
      } else if tok.Ident? {
        r := Ok(Expr.Ident(tok.name));
      } else if tok == Token.LParen {
        var e :- ParseExpr();
        var _ :- Expect(Token.RParen);
        r := Ok(e);
      } else {
        r := Err(UnexpectedToken(ExprClass, tok));
      }
    }
  }
}
