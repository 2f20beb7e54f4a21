/** `CypherQueryBuilder`: an immutable, clone-on-write builder. Every setter
    clones the receiver, with a new text buffer and a new parameter
    dictionary, changes fields of the clone only and returns it. Only the
    static `CreateParameter` and the `Write*Clause` helpers have a
    `modifies` clause, and they may change only the buffer and dictionary
    passed to them; the setters, `CallWriter` and `ToQuery` cannot change
    the receiver or any object that existed before the call. */
module QueryBuilder {
  import opened CypherTypes
  import opened ParameterNaming
  import opened Platform
  import opened QuerySemantics

  class CypherQueryBuilder {
    const queryTextBuilder: StringBuilder
    const queryParameters: ParameterDictionary

    var returnText: Option<string>
    var returnDistinct: bool
    var resultMode: ResultMode
    var limit: Option<Int32>
    var skip: Option<Int32>
    var orderBy: Option<string>

    /** The builder's state as a value. */
    ghost function State(): BuilderState
      reads this, queryTextBuilder, queryParameters
    {
      BuilderState(queryTextBuilder.chars, queryParameters.entries,
        returnText, returnDistinct, resultMode, limit, skip, orderBy)
    }

    /** A new, empty builder with its own buffer and dictionary. */
    constructor ()
      ensures fresh(queryTextBuilder) && fresh(queryParameters)
      ensures State() == DefaultState("", map[])
    {
      queryTextBuilder := new StringBuilder("");
      queryParameters := new ParameterDictionary();
      returnText, returnDistinct, resultMode := None, false, Set;
      limit, skip, orderBy := None, None, None;
    }

    /** A builder over the given buffer and dictionary, its clause fields at
        their defaults. */
    constructor WithStorage(textBuilder: StringBuilder, parameters: ParameterDictionary)
      ensures queryTextBuilder == textBuilder && queryParameters == parameters
      ensures State() == DefaultState(textBuilder.chars, parameters.entries)
    {
      queryTextBuilder := textBuilder;
      queryParameters := parameters;
      returnText, returnDistinct, resultMode := None, false, Set;
      limit, skip, orderBy := None, None, None;
    }

    /** A new builder equal to this one, sharing no storage with it. */
    method Clone() returns (b: CypherQueryBuilder)
      ensures fresh(b) && fresh(b.queryTextBuilder) && fresh(b.queryParameters)
      ensures b.State() == State()
      ensures unchanged(this, queryTextBuilder, queryParameters)
    {
      var clonedText := new StringBuilder(queryTextBuilder.ToString());
      var clonedParameters := new ParameterDictionary.Copy(queryParameters);
      b := new CypherQueryBuilder.WithStorage(clonedText, clonedParameters);
      b.returnText := returnText;
      b.returnDistinct := returnDistinct;
      b.resultMode := resultMode;
      b.limit := limit;
      b.skip := skip;
      b.orderBy := orderBy;
    }

    /** `SetReturn(identity, distinct, mode)`. */
    method SetReturn(identity: Option<string>, distinct: bool, mode: ResultMode) returns (b: CypherQueryBuilder)
      ensures fresh(b) && fresh(b.queryTextBuilder) && fresh(b.queryParameters)
      ensures b.State() == State().(returnText := identity, returnDistinct := distinct, resultMode := mode)
      ensures unchanged(this, queryTextBuilder, queryParameters)
    {
      b := Clone();
      b.returnText := identity;
      b.returnDistinct := distinct;
      b.resultMode := mode;
    }

    /** `SetReturn(expression, distinct)`, given the text the projection
        compiler makes of the expression. */
    method SetReturnProjection(compiledText: string, distinct: bool) returns (b: CypherQueryBuilder)
      ensures fresh(b) && fresh(b.queryTextBuilder) && fresh(b.queryParameters)
      ensures b.State() == State().(returnText := Some(compiledText), returnDistinct := distinct, resultMode := Projection)
      ensures unchanged(this, queryTextBuilder, queryParameters)
    {
      b := Clone();
      b.returnText := Some(compiledText);
      b.returnDistinct := distinct;
      b.resultMode := Projection;
    }

    method SetLimit(count: Option<Int32>) returns (b: CypherQueryBuilder)
      ensures fresh(b) && fresh(b.queryTextBuilder) && fresh(b.queryParameters)
      ensures b.State() == State().(limit := count)
      ensures unchanged(this, queryTextBuilder, queryParameters)
    {
      b := Clone();
      b.limit := count;
    }

    method SetSkip(count: Option<Int32>) returns (b: CypherQueryBuilder)
      ensures fresh(b) && fresh(b.queryTextBuilder) && fresh(b.queryParameters)
      ensures b.State() == State().(skip := count)
      ensures unchanged(this, queryTextBuilder, queryParameters)
    {
      b := Clone();
      b.skip := count;
    }

    method SetOrderBy(orderByType: OrderByType, properties: seq<string>) returns (b: CypherQueryBuilder)
      ensures fresh(b) && fresh(b.queryTextBuilder) && fresh(b.queryParameters)
      ensures b.State() == State().(orderBy := Some(OrderByText(orderByType, properties)))
      ensures unchanged(this, queryTextBuilder, queryParameters)
    {
      b := Clone();
      var joined := Join(", ", properties);
      if orderByType == Descending {
        joined := joined + " DESC";
      } else {
        assert joined + "" == joined;
      }
      b.orderBy := Some(joined);
    }

    /** `ToQuery`: the clauses are written onto copies of the buffer and the
        dictionary; the builder itself is left as it was. */
    method ToQuery() returns (r: Result<CypherQuery>)
      ensures r == Finalize(State())
      ensures unchanged(this, queryTextBuilder, queryParameters)
    {
      var textBuilder := new StringBuilder(queryTextBuilder.ToString());
      var parameters := new ParameterDictionary.Copy(queryParameters);

      WriteReturnClause(textBuilder);
      WriteOrderByClause(textBuilder);
      var skipWritten := WriteSkipClause(textBuilder, parameters);
      if skipWritten.Err? {
        return Err(skipWritten.error);
      }
      var limitWritten := WriteLimitClause(textBuilder, parameters);
      if limitWritten.Err? {
        return Err(limitWritten.error);
      }
      r := Ok(CypherQuery(textBuilder.chars, parameters.entries, resultMode));
    }

    /** `CreateParameter`: binds `p<count>` to the value in place and returns
        its placeholder; throws, leaving the dictionary alone, when that
        name is already bound. */
    static method CreateParameter(parameters: ParameterDictionary, paramValue: Value) returns (r: Result<string>)
      modifies parameters
      ensures var reg := Register(old(parameters.entries), paramValue);
        && r.Ok? == reg.Ok?
        && (reg.Ok? ==> r.value == reg.value.placeholder && parameters.entries == reg.value.params)
        && (reg.Err? ==> r.error == reg.error && parameters.entries == old(parameters.entries))
    {
      var paramName := ParamName(parameters.Count());
      var added := parameters.Add(paramName, paramValue);
      if !added {
        return Err(DuplicateParameter(paramName));
      }
      r := Ok(Placeholder(paramName));
    }

    method WriteReturnClause(target: StringBuilder)
      modifies target
      ensures target.chars == old(target.chars) + ReturnLine(returnText, returnDistinct)
    {
      if returnText.None? {
        return;
      }
      ghost var start := target.chars;
      ghost var distinctText := if returnDistinct then "distinct " else "";
      target.Append("RETURN ");
      if returnDistinct {
        target.Append("distinct ");
      } else {
        assert target.chars == target.chars + distinctText;
      }
      assert target.chars == start + ("RETURN " + distinctText);
      target.Append(returnText.value);
      target.AppendLine();
      assert target.chars == start + ("RETURN " + distinctText + returnText.value + NewLine);
    }

    method WriteLimitClause(target: StringBuilder, paramsDictionary: ParameterDictionary) returns (r: Result<()>)
      modifies target, paramsDictionary
      ensures var written := WriteParamClause("LIMIT", limit, Draft(old(target.chars), old(paramsDictionary.entries)));
        && r.Ok? == written.Ok?
        && (written.Ok? ==> target.chars == written.value.text && paramsDictionary.entries == written.value.params)
        && (written.Err? ==> r.error == written.error)
      ensures r.Err? ==> target.chars == old(target.chars) && paramsDictionary.entries == old(paramsDictionary.entries)
    {
      if limit.None? {
        return Ok(());
      }
      ghost var start := target.chars;
      ghost var reg := Register(paramsDictionary.entries, Int(limit.value as int));
      var placeholder := CreateParameter(paramsDictionary, Int(limit.value as int));
      if placeholder.Err? {
        return Err(placeholder.error);
      }
      target.Append("LIMIT " + placeholder.value);
      target.AppendLine();
      assert target.chars == start + "LIMIT" + " " + reg.value.placeholder + NewLine;
      r := Ok(());
    }

    method WriteSkipClause(target: StringBuilder, paramsDictionary: ParameterDictionary) returns (r: Result<()>)
      modifies target, paramsDictionary
      ensures var written := WriteParamClause("SKIP", skip, Draft(old(target.chars), old(paramsDictionary.entries)));
        && r.Ok? == written.Ok?
        && (written.Ok? ==> target.chars == written.value.text && paramsDictionary.entries == written.value.params)
        && (written.Err? ==> r.error == written.error)
      ensures r.Err? ==> target.chars == old(target.chars) && paramsDictionary.entries == old(paramsDictionary.entries)
    {
      if skip.None? {
        return Ok(());
      }
      ghost var start := target.chars;
      ghost var reg := Register(paramsDictionary.entries, Int(skip.value as int));
      var placeholder := CreateParameter(paramsDictionary, Int(skip.value as int));
      if placeholder.Err? {
        return Err(placeholder.error);
      }
      target.Append("SKIP " + placeholder.value);
      target.AppendLine();
      assert target.chars == start + "SKIP" + " " + reg.value.placeholder + NewLine;
      r := Ok(());
    }

    method WriteOrderByClause(target: StringBuilder)
      modifies target
      ensures target.chars == old(target.chars) + OrderByLine(orderBy)
    {
      if orderBy.None? || orderBy.value == "" {
        return;
      }
      target.Append("ORDER BY " + orderBy.value);
      target.AppendLine();
    }

    /** `CallWriter(callback)` with the callback given as the steps it takes
        on the clone's writer: texts are appended to the clone's buffer and
        registrations go through `CreateParameter` on the clone's
        dictionary. An exception from a registration ends the call. */
    method CallWriter(steps: seq<WriterStep>) returns (r: Result<CypherQueryBuilder>)
      ensures var applied := ApplySteps(Draft(queryTextBuilder.chars, queryParameters.entries), steps);
        && r.Ok? == applied.Ok?
        && (applied.Ok? ==> r.value.State() == State().(text := applied.value.text, params := applied.value.params))
        && (applied.Err? ==> r.error == applied.error)
      ensures r.Ok? ==> fresh(r.value) && fresh(r.value.queryTextBuilder) && fresh(r.value.queryParameters)
      ensures unchanged(this, queryTextBuilder, queryParameters)
    {
      var newBuilder := Clone();
      ghost var start := Draft(queryTextBuilder.chars, queryParameters.entries);
      ghost var fields := State();
      var i := 0;
      while i < |steps|
        invariant 0 <= i <= |steps|
        invariant fresh(newBuilder) && fresh(newBuilder.queryTextBuilder) && fresh(newBuilder.queryParameters)
        invariant newBuilder.State() == fields.(text := newBuilder.queryTextBuilder.chars, params := newBuilder.queryParameters.entries)
        invariant ApplySteps(start, steps)
               == ApplySteps(Draft(newBuilder.queryTextBuilder.chars, newBuilder.queryParameters.entries), steps[i..])
      {
        assert steps[i..][0] == steps[i] && steps[i..][1..] == steps[i + 1..];
        match steps[i] {
          case AppendText(t) =>
            newBuilder.queryTextBuilder.Append(t);
          case AddParameter(v) =>
            var placeholder := CreateParameter(newBuilder.queryParameters, v);
            if placeholder.Err? {
              return Err(placeholder.error);
            }
        }
        i := i + 1;
      }
      r := Ok(newBuilder);
    }

    /** `CallWriter(callback)` for a callback that does not take the
        parameter function and only appends raw text through the writer:
        such a callback cannot fail. */
    method CallWriterAppendOnly(texts: seq<string>) returns (b: CypherQueryBuilder)
      ensures fresh(b) && fresh(b.queryTextBuilder) && fresh(b.queryParameters)
      ensures b.State() == State().(text := State().text + Concat(texts))
      ensures unchanged(this, queryTextBuilder, queryParameters)
    {
      AppendOnlySteps(Draft(queryTextBuilder.chars, queryParameters.entries), texts);
      var r := CallWriter(AppendSteps(texts));
      b := r.value;
    }
  }
}
