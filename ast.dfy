/** The syntax tree the parser builds (src/query/parser.rs): statements,
    their clauses and scalar expressions, and the shape every tree the parser
    produces has. */
module Ast {
  import opened QueryError
  import opened Numbers

  datatype Stmt =
    | Create(table: string, defs: Clause, clauses: seq<Clause>)
    | Insert(table: string, columns: Clause, values: Clause, clauses: seq<Clause>)
    | Select(table: string, columns: Clause, clauses: seq<Clause>)
    | Update(table: string, assigns: Clause, clauses: seq<Clause>)
    | Delete(table: string, clauses: seq<Clause>)
    | Drop(table: string)
    | Union(left: Stmt, right: Stmt, all: bool)

  datatype Clause =
    | Values(exprs: seq<Expr>)
    | Columns(names: seq<string>)
    | Assigns(pairs: seq<(string, Expr)>)     // column name, value
    | Defs(cols: seq<(string, string)>)       // column name, column type
    | OrderBy(keys: seq<(string, bool)>)      // true: ascending
    | Where(cond: Expr)
    | Limit(count: U64)
  {
    // The `as_clause!` accessors: the payload when the clause is of that variant.

    function AsValues(): Option<seq<Expr>> {
      if Values? then Some(exprs) else None
    }

    function AsColumns(): Option<seq<string>> {
      if Columns? then Some(names) else None
    }

    function AsAssigns(): Option<seq<(string, Expr)>> {
      if Assigns? then Some(pairs) else None
    }

    function AsDefs(): Option<seq<(string, string)>> {
      if Defs? then Some(cols) else None
    }

    function AsOrderBy(): Option<seq<(string, bool)>> {
      if OrderBy? then Some(keys) else None
    }

    function AsWhere(): Option<Expr> {
      if Where? then Some(cond) else None
    }

    function AsLimit(): Option<U64> {
      if Limit? then Some(count) else None
    }
  }

  /** A `Float` carries the literal text; its binary value is not modelled. */
  datatype Expr =
    | Null
    | Bool(b: bool)
    | Int(i: I64)
    | Float(literal: string)
    | Text(value: string)
    | Ident(name: string)
    | Unary(op: string, right: Expr)
    | Binary(op: string, left: Expr, right: Expr)

  /** The operator tags the expression parser writes into `Binary` nodes. */
  predicate IsBinaryOp(op: string) {
    op in {"OR", "AND", "=", ">", "<", ">=", "<="}
  }

  /** The expressions the parser can produce: no `Unary`, only the parser's
      operator tags, and a `Float` only for text that is float syntax but not
      an `i64`. */
  predicate WellFormedExpr(e: Expr) {
    match e
    case Float(t) => ParseI64(t).None? && FloatSyntax(t)
    case Unary(_, _) => false
    case Binary(op, l, r) => IsBinaryOp(op) && WellFormedExpr(l) && WellFormedExpr(r)
    case _ => true
  }

  /** No clause, or exactly one `Where`. */
  predicate WhereOnly(clauses: seq<Clause>) {
    clauses == [] || (|clauses| == 1 && clauses[0].Where? && WellFormedExpr(clauses[0].cond))
  }

  /** The statements the parser can produce: each field holds the clause
      variant its grammar builds, every comma list is non-empty (the column
      list of `INSERT` may be empty), and `clauses` is empty or one `Where`. */
  predicate WellFormedStmt(s: Stmt) {
    match s
    case Create(_, defs, clauses) =>
      defs.Defs? && |defs.cols| > 0 && clauses == []
    case Insert(_, columns, values, clauses) =>
      columns.Columns? && values.Values? && |values.exprs| > 0 &&
      (forall e <- values.exprs :: WellFormedExpr(e)) && clauses == []
    case Select(_, columns, clauses) =>
      columns.Columns? && |columns.names| > 0 && WhereOnly(clauses)
    case Update(_, assigns, clauses) =>
      assigns.Assigns? && |assigns.pairs| > 0 &&
      (forall a <- assigns.pairs :: WellFormedExpr(a.1)) && WhereOnly(clauses)
    case Delete(_, clauses) => WhereOnly(clauses)
    case Drop(_) => true
    case Union(_, _, _) => false
  }
}
