/** Associativity and precedence of the expression parser
    (src/query/parser.rs:368-411). An `OR` expression is its `AND`-level
    operands separated by `OR`, folded to the left; an `AND` expression is its
    comparisons separated by `AND`, folded to the left. The operand lists are
    read by their own functions here, so the fold is a reference definition
    independent of the loops that build the tree. */
module Precedence {
  import opened QueryLexer
  import opened QueryError
  import opened Ast
  import opened Grammar

  /** `first op rest[0] op rest[1] ... op rest[n-1]`, nested to the left:
      the last operand is the right child of the root. */
  function Chain(op: string, first: Expr, rest: seq<Expr>): Expr
    decreases |rest|
  {
    if rest == [] then first
    else Expr.Binary(op, Chain(op, first, rest[..|rest| - 1]), rest[|rest| - 1])
  }

  /** The `AND`-level operands that follow an `OR` each, up to the first
      token that is not `OR`. */
  function OrOperands(toks: seq<Token>, pos: nat): Parsed<seq<Expr>>
    decreases Remaining(toks, pos)
  {
    if At(toks, pos) == Token.Or then
      var (e, p) :- ParseLogicalAnd(toks, pos + 1);
      var (es, q) :- OrOperands(toks, p);
      Ok(([e] + es, q))
    else
      Ok(([], pos))
  }

  /** The comparisons that follow an `AND` each, up to the first token that
      is not `AND`. */
  function AndOperands(toks: seq<Token>, pos: nat): Parsed<seq<Expr>>
    decreases Remaining(toks, pos)
  {
    if At(toks, pos) == Token.And then
      var (e, p) :- ParseComparison(toks, pos + 1);
      var (es, q) :- AndOperands(toks, p);
      Ok(([e] + es, q))
    else
      Ok(([], pos))
  }

  /** Putting one more operand in front of a left fold is folding it into
      the first operand. */
  lemma {:induction false} ChainCons(op: string, a: Expr, e: Expr, es: seq<Expr>)
    ensures Chain(op, Expr.Binary(op, a, e), es) == Chain(op, a, [e] + es)
    decreases |es|
  {
    if es != [] {
      var n := |es|;
      ChainCons(op, a, e, es[..n - 1]);
      assert ([e] + es)[..n] == [e] + es[..n - 1];
      assert ([e] + es)[n] == es[n - 1];
    }
  }

  /** The loop of `parse_logical_or` folds the operands it reads to the
      left, starting from the expression it was given. */
  lemma {:induction false} OrLoopChain(toks: seq<Token>, pos: nat, left: Expr)
    ensures var ops := OrOperands(toks, pos);
      OrLoop(toks, pos, left) ==
        if ops.Ok? then Ok((Chain("OR", left, ops.value.0), ops.value.1)) else Err(ops.error)
    decreases Remaining(toks, pos)
  {
    if At(toks, pos) == Token.Or {
      var a := ParseLogicalAnd(toks, pos + 1);
      if a.Ok? {
        var (e, p) := a.value;
        OrLoopChain(toks, p, Expr.Binary("OR", left, e));
        var ops := OrOperands(toks, p);
        if ops.Ok? {
          ChainCons("OR", left, e, ops.value.0);
        }
      }
    }
  }

  /** The loop of `parse_logical_and` folds the comparisons it reads to the
      left, starting from the expression it was given. */
  lemma {:induction false} AndLoopChain(toks: seq<Token>, pos: nat, left: Expr)
    ensures var ops := AndOperands(toks, pos);
      AndLoop(toks, pos, left) ==
        if ops.Ok? then Ok((Chain("AND", left, ops.value.0), ops.value.1)) else Err(ops.error)
    decreases Remaining(toks, pos)
  {
    if At(toks, pos) == Token.And {
      var c := ParseComparison(toks, pos + 1);
      if c.Ok? {
        var (e, p) := c.value;
        AndLoopChain(toks, p, Expr.Binary("AND", left, e));
        var ops := AndOperands(toks, p);
        if ops.Ok? {
          ChainCons("AND", left, e, ops.value.0);
        }
      }
    }
  }

  /** `OR` is left-associative and binds looser than `AND`: the expression is
      the left fold of `AND`-level operands. */
  lemma OrIsLeftChain(toks: seq<Token>, pos: nat)
    ensures var a := ParseLogicalAnd(toks, pos);
      a.Ok? ==>
        var ops := OrOperands(toks, a.value.1);
        ParseLogicalOr(toks, pos) ==
          if ops.Ok? then Ok((Chain("OR", a.value.0, ops.value.0), ops.value.1)) else Err(ops.error)
    ensures ParseLogicalAnd(toks, pos).Err? ==> ParseLogicalOr(toks, pos) == Err(ParseLogicalAnd(toks, pos).error)
  {
    var a := ParseLogicalAnd(toks, pos);
    if a.Ok? {
      OrLoopChain(toks, a.value.1, a.value.0);
    }
  }

  /** `AND` is left-associative and binds looser than a comparison: the
      expression is the left fold of comparisons. */
  lemma AndIsLeftChain(toks: seq<Token>, pos: nat)
    ensures var c := ParseComparison(toks, pos);
      c.Ok? ==>
        var ops := AndOperands(toks, c.value.1);
        ParseLogicalAnd(toks, pos) ==
          if ops.Ok? then Ok((Chain("AND", c.value.0, ops.value.0), ops.value.1)) else Err(ops.error)
    ensures ParseComparison(toks, pos).Err? ==> ParseLogicalAnd(toks, pos) == Err(ParseComparison(toks, pos).error)
  {
    var c := ParseComparison(toks, pos);
    if c.Ok? {
      AndLoopChain(toks, c.value.1, c.value.0);
    }
  }

  /** The `AND` operands run up to a token that is not `AND`. */
  lemma {:induction false} AndOperandsStop(toks: seq<Token>, pos: nat)
    ensures var ops := AndOperands(toks, pos);
      ops.Ok? ==> At(toks, ops.value.1) != Token.And
    decreases Remaining(toks, pos)
  {
    if At(toks, pos) == Token.And {
      var c := ParseComparison(toks, pos + 1);
      if c.Ok? {
        AndOperandsStop(toks, c.value.1);
      }
    }
  }

  /** An `AND` expression never stops in front of an `AND`. */
  lemma AndStops(toks: seq<Token>, pos: nat)
    ensures var r := ParseLogicalAnd(toks, pos);
      r.Ok? ==> At(toks, r.value.1) != Token.And
  {
    AndIsLeftChain(toks, pos);
    var c := ParseComparison(toks, pos);
    if c.Ok? {
      AndOperandsStop(toks, c.value.1);
    }
  }

  /** The `OR` operands, read after a token that is not `AND`, run up to a
      token that is neither `OR` nor `AND`. */
  lemma {:induction false} OrOperandsStop(toks: seq<Token>, pos: nat)
    requires At(toks, pos) != Token.And
    ensures var ops := OrOperands(toks, pos);
      ops.Ok? ==> At(toks, ops.value.1) != Token.Or && At(toks, ops.value.1) != Token.And
    decreases Remaining(toks, pos)
  {
    if At(toks, pos) == Token.Or {
      var a := ParseLogicalAnd(toks, pos + 1);
      if a.Ok? {
        AndStops(toks, pos + 1);
        OrOperandsStop(toks, a.value.1);
      }
    }
  }

  /** An expression takes every `OR` and `AND` that continues it: it never
      stops in front of either. A comparison operator, by contrast, can
      follow a complete expression (`NoChainedComparison`). */
  lemma ExprStops(toks: seq<Token>, pos: nat)
    ensures var r := ParseExpr(toks, pos);
      r.Ok? ==> At(toks, r.value.1) != Token.Or && At(toks, r.value.1) != Token.And
  {
    OrIsLeftChain(toks, pos);
    var a := ParseLogicalAnd(toks, pos);
    if a.Ok? {
      AndStops(toks, pos);
      OrOperandsStop(toks, a.value.1);
    }
  }

  /** Two primaries around a comparison operator make one comparison. */
  lemma ComparisonOfPrimaries(toks: seq<Token>, pos: nat, a: Expr, p: nat, op: string, b: Expr, q: nat)
    requires ParsePrimary(toks, pos) == Ok((a, p)) && CmpOp(At(toks, p)) == Some(op)
    requires ParsePrimary(toks, p + 1) == Ok((b, q))
    ensures ParseComparison(toks, pos) == Ok((Expr.Binary(op, a, b), q))
  {
    var left := ParsePrimary(toks, pos);
    var right := ParsePrimary(toks, p + 1);
    assert left.value == (a, p) && right.value == (b, q);
  }

  /** A comparison followed by neither `AND` nor `OR` is the whole
      expression. */
  lemma ComparisonIsExpr(toks: seq<Token>, pos: nat, c: Expr, q: nat)
    requires ParseComparison(toks, pos) == Ok((c, q))
    requires At(toks, q) != Token.And && At(toks, q) != Token.Or
    ensures ParseExpr(toks, pos) == Ok((c, q))
  {
    assert Maybe(toks, q, Token.And) == (false, q);
    assert ParseLogicalAnd(toks, pos) == Ok((c, q));
    assert Maybe(toks, q, Token.Or) == (false, q);
    assert OrLoop(toks, q, c) == Ok((c, q));
  }

  /** Comparisons do not chain: after `a op b`, a second comparison
      operator is not taken. The expression is `a op b` and ends in front of
      that operator. */
  lemma NoChainedComparison(toks: seq<Token>, pos: nat, a: Expr, p: nat, op: string, b: Expr, q: nat)
    requires ParsePrimary(toks, pos) == Ok((a, p)) && CmpOp(At(toks, p)) == Some(op)
    requires ParsePrimary(toks, p + 1) == Ok((b, q)) && CmpOp(At(toks, q)).Some?
    ensures ParseExpr(toks, pos) == Ok((Expr.Binary(op, a, b), q))
  {
    ComparisonOfPrimaries(toks, pos, a, p, op, b, q);
    ComparisonIsExpr(toks, pos, Expr.Binary(op, a, b), q);
  }
}
