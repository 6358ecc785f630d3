/** Tokens of the query language (src/query/lexer.rs). The scanner itself is
    not part of this model: the parser pulls from the sequence of tokens the
    lexer yields for the input, followed by `Eof` forever. */
module QueryLexer {

  /** One lexical unit. The variants declared in lexer.rs, plus the ones the
      parser uses without lexer.rs declaring them: `Insert`, `Into`, `Values`,
      `Set`, `Bool` and `Eof`. lexer.rs names the `=` operator `Assign` while the
      parser matches `Eq`; here both are the single kind `Eq`. */
  datatype Token =
    | Null
    | Num(literal: string)
    | Text(value: string)
    | Ident(name: string)
    | Bool(b: bool)
    // keywords
    | Create | Table | Select | From | Where | Update | Alter | Delete | Drop
    | Insert | Into | Values | Set
    // separators
    | Dot | Comma | Semicolon | LParen | RParen
    // operators
    | Not | And | Or | Eq | Gt | Lt | Ge | Le | Add | Sub | Mul | Div
    // end of input
    | Eof

  /** Two tokens are of the same variant, whatever their payloads: the
      comparison of `std::mem::discriminant`s. */
  predicate SameKind(a: Token, b: Token) {
    if b.Num? then a.Num?
    else if b.Text? then a.Text?
    else if b.Ident? then a.Ident?
    else if b.Bool? then a.Bool?
    else a == b
  }

  /** A token of a variant without payload. */
  predicate Plain(t: Token) {
    !(t.Num? || t.Text? || t.Ident? || t.Bool?)
  }

  /** A token without payload is matched by kind exactly when it is equal. */
  lemma SameKindOfPlain(a: Token, t: Token)
    ensures Plain(t) ==> (SameKind(a, t) <==> a == t)
  {
  }

  /** The token the lexer yields at index `i` of its output: the given
      sequence, then `Eof` forever. */
  function At(toks: seq<Token>, i: nat): Token {
    if i < |toks| then toks[i] else Eof
  }
}
