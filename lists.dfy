/** What the comma-list loops of src/query/parser.rs read, for every input:
    the token spellings each loop accepts and the list it returns for them
    (both directions), and the error a wrong separator gives. */
module CommaLists {
  import opened QueryLexer
  import opened QueryError
  import opened Ast
  import opened Grammar
  import opened ParserProperties

  // ---------------------------------------------------------------------
  // Names: `ns[0] , ns[1] , ... , ns[n-1]`

  /** `ns` spelled from `pos` on: a name, and a comma after every name but
      the last. */
  ghost predicate NamesAt(toks: seq<Token>, pos: nat, ns: seq<string>)
    decreases |ns|
  {
    |ns| > 0 && At(toks, pos) == Token.Ident(ns[0]) &&
    (|ns| > 1 ==> At(toks, pos + 1) == Token.Comma && NamesAt(toks, pos + 2, ns[1..]))
  }

  /** One turn of the column loop of `INSERT`. */
  lemma NamesStep(toks: seq<Token>, pos: nat, acc: seq<string>)
    requires At(toks, pos).Ident?
    ensures var n := At(toks, pos).name;
      NamesLoop(toks, pos, acc) ==
        if At(toks, pos + 1) == Token.Comma then NamesLoop(toks, pos + 2, acc + [n])
        else if At(toks, pos + 1) == Token.RParen then Ok((acc + [n], pos + 2))
        else Err(UnexpectedToken(CommaOrRParen, At(toks, pos + 1)))
  {
  }

  /** A later turn of the column loop of `INSERT` keeps the name read before it. */
  lemma NamesTail(toks: seq<Token>, pos: nat, acc: seq<string>, n: string, ns: seq<string>, end: nat)
    requires NamesLoop(toks, pos, acc + [n]) == Ok((acc + ns, end))
    ensures |ns| > 1 && ns[0] == n && acc + [n] + ns[1..] == acc + ns
  {
    NamesFacts(toks, pos, acc + [n]);
    assert (acc + ns)[|acc|] == n;
  }

  /** A successful run of the column loop of `INSERT` has read names
      separated by commas and closed by `)`. */
  lemma {:induction false} NamesReadSound(toks: seq<Token>, pos: nat, acc: seq<string>, ns: seq<string>, end: nat)
    requires NamesLoop(toks, pos, acc) == Ok((acc + ns, end))
    ensures NamesAt(toks, pos, ns) && At(toks, pos + 2 * |ns| - 1) == Token.RParen && end == pos + 2 * |ns|
    decreases |ns|
  {
    var n := At(toks, pos).name;
    NamesStep(toks, pos, acc);
    if At(toks, pos + 1) == Token.Comma {
      NamesTail(toks, pos + 2, acc, n, ns, end);
      NamesReadSound(toks, pos + 2, acc + [n], ns[1..], end);
    } else {
      assert acc + [n] == acc + ns;
      assert (acc + ns)[|acc|..] == ns;
      assert (acc + [n])[|acc|..] == [n];
    }
  }

  /** Names separated by commas and closed by `)` are read by the column loop
      of `INSERT` as those names. */
  lemma {:induction false} NamesReadComplete(toks: seq<Token>, pos: nat, acc: seq<string>, ns: seq<string>)
    requires NamesAt(toks, pos, ns) && At(toks, pos + 2 * |ns| - 1) == Token.RParen
    ensures NamesLoop(toks, pos, acc) == Ok((acc + ns, pos + 2 * |ns|))
    decreases |ns|
  {
    NamesStep(toks, pos, acc);
    if |ns| == 1 {
      assert ns == [ns[0]];
    } else {
      assert acc + [ns[0]] + ns[1..] == acc + ns;
      NamesReadComplete(toks, pos + 2, acc + [ns[0]], ns[1..]);
    }
  }

  /** The column list of `INSERT` (after its `(`) accepts exactly names
      separated by commas and closed by `)`, and returns those names. */
  lemma NamesRead(toks: seq<Token>, pos: nat, acc: seq<string>, ns: seq<string>, end: nat)
    ensures NamesLoop(toks, pos, acc) == Ok((acc + ns, end)) <==>
      NamesAt(toks, pos, ns) && At(toks, pos + 2 * |ns| - 1) == Token.RParen && end == pos + 2 * |ns|
  {
    if NamesLoop(toks, pos, acc) == Ok((acc + ns, end)) {
      NamesReadSound(toks, pos, acc, ns, end);
    }
    if NamesAt(toks, pos, ns) && At(toks, pos + 2 * |ns| - 1) == Token.RParen {
      NamesReadComplete(toks, pos, acc, ns);
    }
  }

  /** A token other than `,` or `)` after a name ends the column list of
      `INSERT` with "',' or ')'" expected and that token found. */
  lemma {:induction false} NamesSeparator(toks: seq<Token>, pos: nat, acc: seq<string>, ns: seq<string>)
    requires NamesAt(toks, pos, ns)
    requires At(toks, pos + 2 * |ns| - 1) != Token.Comma && At(toks, pos + 2 * |ns| - 1) != Token.RParen
    ensures NamesLoop(toks, pos, acc) == Err(UnexpectedToken(CommaOrRParen, At(toks, pos + 2 * |ns| - 1)))
    decreases |ns|
  {
    NamesStep(toks, pos, acc);
    if |ns| > 1 {
      NamesSeparator(toks, pos + 2, acc + [ns[0]], ns[1..]);
    }
  }

  /** One turn of the column loop of `SELECT`. */
  lemma SelectNamesStep(toks: seq<Token>, pos: nat, acc: seq<string>)
    requires At(toks, pos).Ident?
    ensures var n := At(toks, pos).name;
      SelectNames(toks, pos, acc) ==
        if At(toks, pos + 1) == Token.Comma then SelectNames(toks, pos + 2, acc + [n])
        else Ok((acc + [n], pos + 1))
  {
  }

  /** A later turn of the column loop of `SELECT` keeps the name read before it. */
  lemma SelectNamesTail(toks: seq<Token>, pos: nat, acc: seq<string>, n: string, ns: seq<string>, end: nat)
    requires SelectNames(toks, pos, acc + [n]) == Ok((acc + ns, end))
    ensures |ns| > 1 && ns[0] == n && acc + [n] + ns[1..] == acc + ns
  {
    SelectNamesFacts(toks, pos, acc + [n]);
    assert (acc + ns)[|acc|] == n;
  }

  /** A successful run of the column loop of `SELECT` has read names
      separated by commas and stopped at the first name no comma follows. */
  lemma {:induction false} SelectNamesReadSound(toks: seq<Token>, pos: nat, acc: seq<string>, ns: seq<string>, end: nat)
    requires SelectNames(toks, pos, acc) == Ok((acc + ns, end))
    ensures NamesAt(toks, pos, ns) && end == pos + 2 * |ns| - 1 && At(toks, end) != Token.Comma
    decreases |ns|
  {
    var n := At(toks, pos).name;
    SelectNamesStep(toks, pos, acc);
    if At(toks, pos + 1) == Token.Comma {
      SelectNamesTail(toks, pos + 2, acc, n, ns, end);
      SelectNamesReadSound(toks, pos + 2, acc + [n], ns[1..], end);
    } else {
      assert acc + [n] == acc + ns;
      assert (acc + ns)[|acc|..] == ns;
      assert (acc + [n])[|acc|..] == [n];
    }
  }

  /** Names separated by commas, no comma after the last, are read by the
      column loop of `SELECT` as those names. */
  lemma {:induction false} SelectNamesReadComplete(toks: seq<Token>, pos: nat, acc: seq<string>, ns: seq<string>)
    requires NamesAt(toks, pos, ns) && At(toks, pos + 2 * |ns| - 1) != Token.Comma
    ensures SelectNames(toks, pos, acc) == Ok((acc + ns, pos + 2 * |ns| - 1))
    decreases |ns|
  {
    SelectNamesStep(toks, pos, acc);
    if |ns| == 1 {
      assert ns == [ns[0]];
    } else {
      assert acc + [ns[0]] + ns[1..] == acc + ns;
      SelectNamesReadComplete(toks, pos + 2, acc + [ns[0]], ns[1..]);
    }
  }

  /** The column list of `SELECT` accepts exactly names separated by commas,
      up to the first name no comma follows, and returns those names. */
  lemma SelectNamesRead(toks: seq<Token>, pos: nat, acc: seq<string>, ns: seq<string>, end: nat)
    ensures SelectNames(toks, pos, acc) == Ok((acc + ns, end)) <==>
      NamesAt(toks, pos, ns) && end == pos + 2 * |ns| - 1 && At(toks, end) != Token.Comma
  {
    if SelectNames(toks, pos, acc) == Ok((acc + ns, end)) {
      SelectNamesReadSound(toks, pos, acc, ns, end);
    }
    if NamesAt(toks, pos, ns) && end == pos + 2 * |ns| - 1 && At(toks, end) != Token.Comma {
      SelectNamesReadComplete(toks, pos, acc, ns);
    }
  }

  // ---------------------------------------------------------------------
  // Column definitions: `name type , name type , ... , name type`

  /** `ds` spelled from `pos` on: each definition two identifiers, a comma
      after every definition but the last. */
  ghost predicate DefsAt(toks: seq<Token>, pos: nat, ds: seq<(string, string)>)
    decreases |ds|
  {
    |ds| > 0 && At(toks, pos) == Token.Ident(ds[0].0) && At(toks, pos + 1) == Token.Ident(ds[0].1) &&
    (|ds| > 1 ==> At(toks, pos + 2) == Token.Comma && DefsAt(toks, pos + 3, ds[1..]))
  }

  /** One turn of the definition loop of `CREATE`. */
  lemma DefsStep(toks: seq<Token>, pos: nat, acc: seq<(string, string)>)
    requires At(toks, pos).Ident? && At(toks, pos + 1).Ident?
    ensures var d := (At(toks, pos).name, At(toks, pos + 1).name);
      DefsLoop(toks, pos, acc) ==
        if At(toks, pos + 2) == Token.Comma then DefsLoop(toks, pos + 3, acc + [d])
        else if At(toks, pos + 2) == Token.RParen then Ok((acc + [d], pos + 3))
        else Err(UnexpectedToken(CommaOrRParen, At(toks, pos + 2)))
  {
  }

  /** A later turn of the definition loop of `CREATE` keeps the definition
      read before it. */
  lemma DefsTail(toks: seq<Token>, pos: nat, acc: seq<(string, string)>, d: (string, string), ds: seq<(string, string)>, end: nat)
    requires DefsLoop(toks, pos, acc + [d]) == Ok((acc + ds, end))
    ensures |ds| > 1 && ds[0] == d && acc + [d] + ds[1..] == acc + ds
  {
    DefsFacts(toks, pos, acc + [d]);
    assert (acc + ds)[|acc|] == d;
  }

  /** A successful run of the definition loop of `CREATE` has read `name type`
      pairs separated by commas and closed by `)`. */
  lemma {:induction false} DefsReadSound(toks: seq<Token>, pos: nat, acc: seq<(string, string)>, ds: seq<(string, string)>, end: nat)
    requires DefsLoop(toks, pos, acc) == Ok((acc + ds, end))
    ensures DefsAt(toks, pos, ds) && At(toks, pos + 3 * |ds| - 1) == Token.RParen && end == pos + 3 * |ds|
    decreases |ds|
  {
    var d := (At(toks, pos).name, At(toks, pos + 1).name);
    DefsStep(toks, pos, acc);
    if At(toks, pos + 2) == Token.Comma {
      DefsTail(toks, pos + 3, acc, d, ds, end);
      DefsReadSound(toks, pos + 3, acc + [d], ds[1..], end);
    } else {
      assert acc + [d] == acc + ds;
      assert (acc + ds)[|acc|..] == ds;
      assert (acc + [d])[|acc|..] == [d];
    }
  }

  /** `name type` pairs separated by commas and closed by `)` are read by the
      definition loop of `CREATE` as those pairs. */
  lemma {:induction false} DefsReadComplete(toks: seq<Token>, pos: nat, acc: seq<(string, string)>, ds: seq<(string, string)>)
    requires DefsAt(toks, pos, ds) && At(toks, pos + 3 * |ds| - 1) == Token.RParen
    ensures DefsLoop(toks, pos, acc) == Ok((acc + ds, pos + 3 * |ds|))
    decreases |ds|
  {
    DefsStep(toks, pos, acc);
    if |ds| == 1 {
      assert ds == [ds[0]];
    } else {
      assert acc + [ds[0]] + ds[1..] == acc + ds;
      DefsReadComplete(toks, pos + 3, acc + [ds[0]], ds[1..]);
    }
  }

  /** The definition list of `CREATE` (after its `(`) accepts exactly
      `name type` pairs separated by commas and closed by `)`, and returns
      those pairs. */
  lemma DefsRead(toks: seq<Token>, pos: nat, acc: seq<(string, string)>, ds: seq<(string, string)>, end: nat)
    ensures DefsLoop(toks, pos, acc) == Ok((acc + ds, end)) <==>
      DefsAt(toks, pos, ds) && At(toks, pos + 3 * |ds| - 1) == Token.RParen && end == pos + 3 * |ds|
  {
    if DefsLoop(toks, pos, acc) == Ok((acc + ds, end)) {
      DefsReadSound(toks, pos, acc, ds, end);
    }
    if DefsAt(toks, pos, ds) && At(toks, pos + 3 * |ds| - 1) == Token.RParen {
      DefsReadComplete(toks, pos, acc, ds);
    }
  }

  /** A token other than `,` or `)` after a definition ends the list of
      `CREATE` with "',' or ')'" expected and that token found. */
  lemma {:induction false} DefsSeparator(toks: seq<Token>, pos: nat, acc: seq<(string, string)>, ds: seq<(string, string)>)
    requires DefsAt(toks, pos, ds)
    requires At(toks, pos + 3 * |ds| - 1) != Token.Comma && At(toks, pos + 3 * |ds| - 1) != Token.RParen
    ensures DefsLoop(toks, pos, acc) == Err(UnexpectedToken(CommaOrRParen, At(toks, pos + 3 * |ds| - 1)))
    decreases |ds|
  {
    DefsStep(toks, pos, acc);
    if |ds| > 1 {
      DefsSeparator(toks, pos + 3, acc + [ds[0]], ds[1..]);
    }
  }

  // ---------------------------------------------------------------------
  // Expressions: `es[0] , es[1] , ... , es[n-1]`

  /** `es` are the expressions parsed from `pos` on, a comma between two;
      the last one ends at `last`. */
  ghost predicate ExprsAt(toks: seq<Token>, pos: nat, es: seq<Expr>, last: nat)
    decreases |es|
  {
    |es| > 0 && ParseExpr(toks, pos).Ok? && ParseExpr(toks, pos).value.0 == es[0] &&
    var p := ParseExpr(toks, pos).value.1;
    if |es| == 1 then last == p else At(toks, p) == Token.Comma && ExprsAt(toks, p + 1, es[1..], last)
  }

  /** One turn of the value loop of `INSERT`. */
  lemma ValuesStep(toks: seq<Token>, pos: nat, acc: seq<Expr>)
    requires ParseExpr(toks, pos).Ok?
    ensures var (e, p) := ParseExpr(toks, pos).value;
      ValuesLoop(toks, pos, acc) ==
        if At(toks, p) == Token.Comma then ValuesLoop(toks, p + 1, acc + [e])
        else if At(toks, p) == Token.RParen then Ok((acc + [e], p + 1))
        else Err(UnexpectedToken(CommaOrRParen, At(toks, p)))
  {
  }

  /** A later turn of the value loop of `INSERT` keeps the value read before it. */
  lemma ValuesTail(toks: seq<Token>, pos: nat, acc: seq<Expr>, v: Expr, es: seq<Expr>, end: nat)
    requires ValuesLoop(toks, pos, acc + [v]) == Ok((acc + es, end))
    ensures |es| > 1 && es[0] == v && acc + [v] + es[1..] == acc + es
  {
    ValuesFacts(toks, pos, acc + [v]);
    assert (acc + es)[|acc|] == v;
  }

  /** A successful run of the value loop of `INSERT` has read expressions
      separated by commas and closed by `)`. */
  lemma {:induction false} ValuesReadSound(toks: seq<Token>, pos: nat, acc: seq<Expr>, es: seq<Expr>, last: nat)
    requires ValuesLoop(toks, pos, acc) == Ok((acc + es, last + 1))
    ensures ExprsAt(toks, pos, es, last) && At(toks, last) == Token.RParen
    decreases |es|
  {
    var (v, p) := ParseExpr(toks, pos).value;
    ValuesStep(toks, pos, acc);
    if At(toks, p) == Token.Comma {
      ValuesTail(toks, p + 1, acc, v, es, last + 1);
      ValuesReadSound(toks, p + 1, acc + [v], es[1..], last);
    } else {
      assert acc + [v] == acc + es;
      assert (acc + es)[|acc|..] == es;
      assert (acc + [v])[|acc|..] == [v];
    }
  }

  /** Expressions separated by commas and closed by `)` are read by the value
      loop of `INSERT` as those expressions. */
  lemma {:induction false} ValuesReadComplete(toks: seq<Token>, pos: nat, acc: seq<Expr>, es: seq<Expr>, last: nat)
    requires ExprsAt(toks, pos, es, last) && At(toks, last) == Token.RParen
    ensures ValuesLoop(toks, pos, acc) == Ok((acc + es, last + 1))
    decreases |es|
  {
    var p := ParseExpr(toks, pos).value.1;
    ValuesStep(toks, pos, acc);
    if |es| == 1 {
      assert es == [es[0]];
    } else {
      assert acc + [es[0]] + es[1..] == acc + es;
      ValuesReadComplete(toks, p + 1, acc + [es[0]], es[1..], last);
    }
  }

  /** The value list of `INSERT` (after its `(`) accepts exactly expressions
      separated by commas and closed by `)`, and returns those expressions. */
  lemma ValuesRead(toks: seq<Token>, pos: nat, acc: seq<Expr>, es: seq<Expr>, last: nat)
    ensures ValuesLoop(toks, pos, acc) == Ok((acc + es, last + 1)) <==>
      ExprsAt(toks, pos, es, last) && At(toks, last) == Token.RParen
  {
    if ValuesLoop(toks, pos, acc) == Ok((acc + es, last + 1)) {
      ValuesReadSound(toks, pos, acc, es, last);
    }
    if ExprsAt(toks, pos, es, last) && At(toks, last) == Token.RParen {
      ValuesReadComplete(toks, pos, acc, es, last);
    }
  }

  /** A token other than `,` or `)` after a value ends the value list of
      `INSERT` with "',' or ')'" expected and that token found. */
  lemma {:induction false} ValuesSeparator(toks: seq<Token>, pos: nat, acc: seq<Expr>, es: seq<Expr>, last: nat)
    requires ExprsAt(toks, pos, es, last)
    requires At(toks, last) != Token.Comma && At(toks, last) != Token.RParen
    ensures ValuesLoop(toks, pos, acc) == Err(UnexpectedToken(CommaOrRParen, At(toks, last)))
    decreases |es|
  {
    if |es| > 1 {
      ValuesSeparator(toks, ParseExpr(toks, pos).value.1 + 1, acc + [es[0]], es[1..], last);
    }
  }

  // ---------------------------------------------------------------------
  // Assignments: `name = expr , ... , name = expr`

  /** `ps` are the assignments parsed from `pos` on, a comma between two;
      the last value ends at `last`. */
  ghost predicate AssignsAt(toks: seq<Token>, pos: nat, ps: seq<(string, Expr)>, last: nat)
    decreases |ps|
  {
    |ps| > 0 && At(toks, pos) == Token.Ident(ps[0].0) && At(toks, pos + 1) == Token.Eq &&
    ParseExpr(toks, pos + 2).Ok? && ParseExpr(toks, pos + 2).value.0 == ps[0].1 &&
    var p := ParseExpr(toks, pos + 2).value.1;
    if |ps| == 1 then last == p else At(toks, p) == Token.Comma && AssignsAt(toks, p + 1, ps[1..], last)
  }

  /** One turn of the assignment loop of `UPDATE`. */
  lemma AssignsStep(toks: seq<Token>, pos: nat, acc: seq<(string, Expr)>)
    requires At(toks, pos).Ident? && At(toks, pos + 1) == Token.Eq && ParseExpr(toks, pos + 2).Ok?
    ensures var (v, p) := ParseExpr(toks, pos + 2).value;
      var a := (At(toks, pos).name, v);
      AssignsLoop(toks, pos, acc) ==
        if At(toks, p) == Token.Comma then AssignsLoop(toks, p + 1, acc + [a])
        else Ok((acc + [a], p))
  {
  }

  /** A later turn of the assignment loop keeps the pair read before it. */
  lemma AssignsTail(toks: seq<Token>, pos: nat, acc: seq<(string, Expr)>, a: (string, Expr), ps: seq<(string, Expr)>, last: nat)
    requires AssignsLoop(toks, pos, acc + [a]) == Ok((acc + ps, last))
    ensures |ps| > 1 && ps[0] == a && acc + [a] + ps[1..] == acc + ps
  {
    AssignsFacts(toks, pos, acc + [a]);
    assert (acc + ps)[|acc|] == a;
  }

  /** A successful run of the assignment loop of `UPDATE` has read `name = expr`
      pairs separated by commas and stopped after the first value no comma
      follows. */
  lemma {:induction false} AssignsReadSound(toks: seq<Token>, pos: nat, acc: seq<(string, Expr)>, ps: seq<(string, Expr)>, last: nat)
    requires AssignsLoop(toks, pos, acc) == Ok((acc + ps, last))
    ensures AssignsAt(toks, pos, ps, last) && At(toks, last) != Token.Comma
    decreases |ps|
  {
    var (v, p) := ParseExpr(toks, pos + 2).value;
    var a := (At(toks, pos).name, v);
    AssignsStep(toks, pos, acc);
    if At(toks, p) == Token.Comma {
      AssignsTail(toks, p + 1, acc, a, ps, last);
      AssignsReadSound(toks, p + 1, acc + [a], ps[1..], last);
    } else {
      assert acc + [a] == acc + ps;
      assert (acc + ps)[|acc|..] == ps;
      assert (acc + [a])[|acc|..] == [a];
    }
  }

  /** `name = expr` pairs separated by commas, no comma after the last value,
      are read by the assignment loop of `UPDATE` as those pairs. */
  lemma {:induction false} AssignsReadComplete(toks: seq<Token>, pos: nat, acc: seq<(string, Expr)>, ps: seq<(string, Expr)>, last: nat)
    requires AssignsAt(toks, pos, ps, last) && At(toks, last) != Token.Comma
    ensures AssignsLoop(toks, pos, acc) == Ok((acc + ps, last))
    decreases |ps|
  {
    var p := ParseExpr(toks, pos + 2).value.1;
    AssignsStep(toks, pos, acc);
    if |ps| == 1 {
      assert ps == [ps[0]];
    } else {
      assert acc + [ps[0]] + ps[1..] == acc + ps;
      AssignsReadComplete(toks, p + 1, acc + [ps[0]], ps[1..], last);
    }
  }

  /** The assignment list of `UPDATE` accepts exactly `name = expr` pairs
      separated by commas, up to the first value no comma follows, and
      returns those pairs. */
  lemma AssignsRead(toks: seq<Token>, pos: nat, acc: seq<(string, Expr)>, ps: seq<(string, Expr)>, last: nat)
    ensures AssignsLoop(toks, pos, acc) == Ok((acc + ps, last)) <==>
      AssignsAt(toks, pos, ps, last) && At(toks, last) != Token.Comma
  {
    if AssignsLoop(toks, pos, acc) == Ok((acc + ps, last)) {
      AssignsReadSound(toks, pos, acc, ps, last);
    }
    if AssignsAt(toks, pos, ps, last) && At(toks, last) != Token.Comma {
      AssignsReadComplete(toks, pos, acc, ps, last);
    }
  }
}
