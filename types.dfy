/** Values shared by the whole model of the Cypher query builder: optional
    values (C#'s `null`), the outcome of an operation that can throw, the
    values bound to query parameters and the finalised query. */
module CypherTypes {

  /** A reference or `int?` that may be `null`. */
  datatype Option<+T> = None | Some(value: T)

  /** The one exception the builder can raise: `Dictionary.Add` refuses a
      parameter name that the dictionary already holds. */
  datatype QueryError = DuplicateParameter(name: string)

  /** The outcome of an operation that either returns or throws. */
  datatype Result<+T> = Ok(value: T) | Err(error: QueryError) {

    predicate IsFailure() {
      Err?
    }

    function PropagateFailure<U>(): Result<U>
      requires Err?
    {
      Err(error)
    }

    function Extract(): T
      requires Ok?
    {
      value
    }
  }

  /** A C# `int`. */
  newtype Int32 = x: int | -0x8000_0000 <= x < 0x8000_0000

  /** A boxed parameter value: the kinds the query text can refer to. */
  datatype Value = Null | Int(i: int) | Str(s: string) | Other

  /** `CypherResultMode`: the shape of the rows the query returns. */
  datatype ResultMode = Set | Projection

  /** `OrderByType`. */
  datatype OrderByType = Ascending | Descending

  /** The query `ToQuery` finalises: the working text as the clauses leave
      it (each line ending in a line break), the parameters and the mode. */
  datatype CypherQuery = CypherQuery(text: string, parameters: map<string, Value>, resultMode: ResultMode)

  /** What `StringBuilder.AppendLine` appends; fixed to CRLF whatever the host. */
  const NewLine: string := "\r\n"
}
