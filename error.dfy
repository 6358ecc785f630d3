/** The parser's outcome types. The repository's error module is not part of
    this model; its two parse errors are recorded here as values instead of the
    formatted strings the source builds. */
module QueryError {
  import opened QueryLexer

  datatype Option<T> = None | Some(value: T)

  /** What an `UnexpectedToken` error says was expected. */
  datatype Expected =
    | Kind(token: Token)   // `expect(&token)`: the formatted token
    | IdentClass           // "<ident>"
    | StmtClass            // "<stmt>"
    | ExprClass            // "<expr>"
    | CommaOrRParen        // "',' or ')'"

  datatype QueryErr =
    | UnexpectedToken(expected: Expected, found: Token)
    | InvalidExpr(text: string)   // "Invalid number: {text}"

  /** `Result<T>` of the source, usable with `:-` as the source uses `?`. */
  datatype Result<T> = Ok(value: T) | Err(error: QueryErr) {
    predicate IsFailure() {
      Err?
    }

    function PropagateFailure<U>(): Result<U>
      requires Err?
    {
      Err(error)
    }

    function Extract(): T
      requires Ok?
    {
      value
    }
  }
}
