# CypherQueryBuilder, modelled in Dafny

This project models `CypherQueryBuilder` from Neo4jClient. It is the immutable,
clone-on-write builder behind the fluent Cypher API. A builder holds a text
buffer (`StringBuilder`), a parameter dictionary and six clause fields:
`returnText`, `returnDistinct`, `resultMode`, `limit`, `skip` and `orderBy`.

- Every setter first clones the builder. The clone gets a new buffer and a new
  dictionary with the same contents. The setter then changes fields of the clone
  and returns it.
- `CreateParameter` names a new parameter `p<count>` and returns `{p<count>}`.
- `ToQuery` writes RETURN, ORDER BY, SKIP and LIMIT, in that order, onto copies
  of the text and the parameters.

Files:

- `types.dfy` (module `CypherTypes`) holds the shared values. `Option` stands
  for C# `null`. `Result` stands for "returns or throws". The other types are
  `Value` (a boxed parameter value), `ResultMode`, `OrderByType`, the finalised
  `CypherQuery` and the line terminator `"\r\n"`.
- `naming.dfy` (module `ParameterNaming`) holds decimal rendering and its
  reading back, the name `p<count>`, `Register` and the lemmas about maps built
  only through `CreateParameter`. The predicate `Sequential` says a map's keys
  are exactly `p0 .. p(n-1)`.
- `platform.dfy` (module `Platform`) models `StringBuilder` and
  `Dictionary<string, object>` as classes. Only the members the builder calls
  are modelled.
- `semantics.dfy` (module `QuerySemantics`) gives the builder's behaviour as
  functions on values: `Finalize` for `ToQuery`, `OrderByText` for
  `SetOrderBy` and `ApplySteps` for a writer callback. It also holds the
  lemmas about them.
- `builder.dfy` (module `QueryBuilder`) holds the class `CypherQueryBuilder`.
  The buffer and the dictionary are `const` fields, as they are `readonly` in
  C#. The clause fields are `var`s. `State()` gives the whole state as a
  value. Each method is proved against the functions in `QuerySemantics`.
- `example.dfy` (module `FluentChainExample`) builds a fluent chain that ends
  in a paged query and states what it finalises to. It also shows a caller-named parameter clashing with a
  generated one.

No method of the class has a `modifies` clause, except the static
`CreateParameter` and the `Write*Clause` helpers. Those may modify only the
buffer and dictionary passed to them. So a setter, `CallWriter` or `ToQuery`
cannot change the receiver or any object that existed before the call. Each
setter also states this with `unchanged(...)` and states that the result and
its storage are `fresh`.

`Dictionary.Add` throws when the name `p<count>` is already bound
(Neo4jClient/Cypher/CypherQueryBuilder.cs:118). A caller can cause this by naming a
parameter `p1` itself, or by building over a dictionary it supplies. The model
keeps that exception as `Err(DuplicateParameter(name))`. `FinalizeSucceedsIff`
says exactly when it happens. `FinalizeSequential` and `ApplyStepsSequential`
show that it never happens for a map whose parameters were all created by
`CreateParameter`.

## Model

| member | source | states |
|---|---|---|
| ParameterNaming.NatToString | Neo4jClient/Cypher/CypherQueryBuilder.cs:117 | the count's decimal text is non-empty, all digits, with no leading zero except for 0 itself |
| ParameterNaming.DecimalRoundTrip | Neo4jClient/Cypher/CypherQueryBuilder.cs:117 | reading the decimal text back gives the count: the rendering is invertible |
| ParameterNaming.ParamName | Neo4jClient/Cypher/CypherQueryBuilder.cs:117 | a generated name is `p` followed by digits that read back as the current count |
| ParameterNaming.ParamNameInjective | Neo4jClient/Cypher/CypherQueryBuilder.cs:117 | two generated names are equal if and only if their counts are equal |
| ParameterNaming.Placeholder | Neo4jClient/Cypher/CypherQueryBuilder.cs:119 | the placeholder is the name wrapped in `{` and `}` |
| ParameterNaming.NamesBelow | Neo4jClient/Cypher/CypherQueryBuilder.cs:117 | each of the first n names has shape `p<digits>` with a number below n |
| ParameterNaming.NamesDistinct | Neo4jClient/Cypher/CypherQueryBuilder.cs:115-120 | the names p0 .. p(n-1) are pairwise distinct: there are exactly n of them |
| ParameterNaming.Register | Neo4jClient/Cypher/CypherQueryBuilder.cs:115-120 | creating a parameter succeeds iff `p<count>` is free; it then adds exactly that one binding to the value, keeps all others and returns `{p<count>}`; otherwise it fails naming the taken key |
| ParameterNaming.SequentialNextNameFree | Neo4jClient/Cypher/CypherQueryBuilder.cs:117-118 | in a map built only by `CreateParameter` the next name is free, so `Add` cannot throw |
| ParameterNaming.SequentialRegister | Neo4jClient/Cypher/CypherQueryBuilder.cs:115-120 | creating a parameter on such a map succeeds, and the keys are then exactly p0 .. pn |
| ParameterNaming.SequentialKeyShape | Neo4jClient/Cypher/CypherQueryBuilder.cs:117 | every key of such a map has a suffix below its size, so the next name's suffix is larger than any earlier one |
| Platform.StringBuilder.constructor | Neo4jClient/Cypher/CypherQueryBuilder.cs:40 | a new buffer holds exactly the given text, as the clone's copy of the old buffer does (`new StringBuilder()` is the empty text) |
| Platform.StringBuilder.ToString | Neo4jClient/Cypher/CypherQueryBuilder.cs:103 | the buffer's current text, unchanged, which `Clone` and `ToQuery` copy |
| Platform.StringBuilder.Append | Neo4jClient/Cypher/CypherQueryBuilder.cs:125-127 | the buffer's text becomes the old text followed by the appended string, which is how every clause line is written |
| Platform.StringBuilder.AppendLine | Neo4jClient/Cypher/CypherQueryBuilder.cs:128 | the line break appended is `"\r\n"` |
| Platform.ParameterDictionary.constructor | Neo4jClient/Cypher/CypherQueryBuilder.cs:24 | a new dictionary holds no bindings |
| Platform.ParameterDictionary.Count | Neo4jClient/Cypher/CypherQueryBuilder.cs:117 | the number of bindings, which names the next parameter |
| Platform.ParameterDictionary.Copy | Neo4jClient/Cypher/CypherQueryBuilder.cs:104 | the copy `ToQuery` finalises into holds exactly the builder's bindings |
| Platform.ParameterDictionary.Add | Neo4jClient/Cypher/CypherQueryBuilder.cs:118 | adds the binding iff the key is absent; otherwise reports the exception and leaves the dictionary unchanged |
| QuerySemantics.ReturnLine | Neo4jClient/Cypher/CypherQueryBuilder.cs:122-129 | the RETURN line is absent exactly when the return text is null; a written line ends in a line break |
| QuerySemantics.OrderByLine | Neo4jClient/Cypher/CypherQueryBuilder.cs:145-150 | the ORDER BY line is absent exactly when the order text is null or empty; a written line ends in a line break |
| QuerySemantics.PagingLine | Neo4jClient/Cypher/CypherQueryBuilder.cs:131-143 | a SKIP or LIMIT line is absent exactly when its count is null; a written line ends in a line break |
| QuerySemantics.WriteParamClause | Neo4jClient/Cypher/CypherQueryBuilder.cs:131-143 | an unset count changes nothing; otherwise the clause fails exactly when the next name `p<n>` is taken, naming a key that was in the map, and on success the text only grows and every binding is kept |
| QuerySemantics.Finalize | Neo4jClient/Cypher/CypherQueryBuilder.cs:101-113 | a finalised query keeps the builder's result mode, starts with its text and keeps all its bindings; only SKIP or LIMIT can make finalisation fail |
| QuerySemantics.FinalizeSucceedsIff | Neo4jClient/Cypher/CypherQueryBuilder.cs:131-143 | finalisation fails iff SKIP's name p<n>, or LIMIT's name, is already bound; the failure names a key that was in the map |
| QuerySemantics.FinalizeText | Neo4jClient/Cypher/CypherQueryBuilder.cs:101-150 | the final working text is the buffer followed, in fixed order, by the RETURN line, the ORDER BY line, `SKIP {p<n>}` and `LIMIT {p<n+1>}` (`{p<n>}` without SKIP); each line is present only when its field is set and ends in a line break; the result mode is the builder's |
| QuerySemantics.FinalizeParameters | Neo4jClient/Cypher/CypherQueryBuilder.cs:131-143 | the final map keeps every binding of the builder and adds the SKIP value under p<n> and the LIMIT value under the next name, and nothing else; its size is n plus the number of set fields |
| QuerySemantics.FinalizeChangesTextIff | Neo4jClient/Cypher/CypherQueryBuilder.cs:122-150 | finalisation changes the working text iff some terminal clause is set (RETURN text, non-empty ORDER BY, SKIP, LIMIT), and the text then ends in `"\r\n"` |
| QuerySemantics.FinalizeSequential | Neo4jClient/Cypher/CypherQueryBuilder.cs:101-120 | a builder whose parameters all came from `CreateParameter` finalises without exception, and its final map still has keys exactly p0 .. p(m-1) |
| QuerySemantics.WriteParamClauseFree | Neo4jClient/Cypher/CypherQueryBuilder.cs:131-143 | one SKIP or LIMIT clause on a free next name appends its line and binds that name to the count |
| QuerySemantics.AppendClauseLine | Neo4jClient/Cypher/CypherQueryBuilder.cs:122-150 | a clause line left out keeps the text; one written makes the text end in a line break |
| QuerySemantics.Join | Neo4jClient/Cypher/CypherQueryBuilder.cs:93 | the joined text starts with the first property |
| QuerySemantics.JoinAppend | Neo4jClient/Cypher/CypherQueryBuilder.cs:93 | joining one more property appends the separator and then that property: the properties appear in order with one separator between each neighbouring pair |
| QuerySemantics.JoinLength | Neo4jClient/Cypher/CypherQueryBuilder.cs:93 | the joined text is as long as all properties together plus one separator between each neighbouring pair |
| QuerySemantics.OrderByOmittedIff | Neo4jClient/Cypher/CypherQueryBuilder.cs:90-99 | no ORDER BY line is written iff the order is ascending and the properties join to nothing (none, or a single empty one) |
| QuerySemantics.OrderByText | Neo4jClient/Cypher/CypherQueryBuilder.cs:92-96 | the stored order text starts with the properties joined by `", "`; an ascending one is exactly the join, a descending one is five characters longer and ends in `" DESC"` |
| QuerySemantics.ApplyStepsFailsOnlyOnRegistration | Neo4jClient/Cypher/CypherQueryBuilder.cs:160-162 | in the step model of a callback, only a registration step can fail: a callback whose steps register nothing always completes |
| QuerySemantics.ApplyStepsExtends | Neo4jClient/Cypher/CypherQueryBuilder.cs:157-164 | a callback that completes appends exactly its texts, grows the map by one per registration and keeps every existing binding |
| QuerySemantics.ApplyStepsSequential | Neo4jClient/Cypher/CypherQueryBuilder.cs:157-164 | on a map built only by `CreateParameter` a callback cannot fail, and the map keeps the p<count> scheme |
| QuerySemantics.ApplyStepsBoundFrom | Neo4jClient/Cypher/CypherQueryBuilder.cs:160-162 | a callback that completes on a map of size n binds the values it registers, in order, to p<n>, p<n+1>, ... |
| QuerySemantics.ApplyStepsBindings | Neo4jClient/Cypher/CypherQueryBuilder.cs:160-162 | the i-th value a callback registers on a map of size n is bound to p<n+i> |
| QuerySemantics.AppendOnlySteps | Neo4jClient/Cypher/CypherQueryBuilder.cs:152-155 | a callback that only appends cannot fail and leaves the parameters as they were |
| QueryBuilder.CypherQueryBuilder.constructor | Neo4jClient/Cypher/CypherQueryBuilder.cs:21-26 | a new builder owns a new empty buffer and dictionary, with all clause fields at their defaults |
| QueryBuilder.CypherQueryBuilder.WithStorage | Neo4jClient/Cypher/CypherQueryBuilder.cs:28-36 | the builder uses the given buffer and dictionary, with the clause fields at their defaults |
| QueryBuilder.CypherQueryBuilder.Clone | Neo4jClient/Cypher/CypherQueryBuilder.cs:38-56 | the clone, its buffer and its dictionary are new objects; its text, parameters and all six fields equal the original's; the original is unchanged |
| QueryBuilder.CypherQueryBuilder.SetReturn | Neo4jClient/Cypher/CypherQueryBuilder.cs:58-65 | a fresh builder equal to the receiver except for return text, distinct flag and mode; the receiver is unchanged |
| QueryBuilder.CypherQueryBuilder.SetReturnProjection | Neo4jClient/Cypher/CypherQueryBuilder.cs:67-74 | as SetReturn with the compiled text and mode Projection |
| QueryBuilder.CypherQueryBuilder.SetLimit | Neo4jClient/Cypher/CypherQueryBuilder.cs:76-81 | a fresh builder differing from the receiver only in `limit`; the receiver is unchanged |
| QueryBuilder.CypherQueryBuilder.SetSkip | Neo4jClient/Cypher/CypherQueryBuilder.cs:83-88 | a fresh builder differing from the receiver only in `skip`; the receiver is unchanged |
| QueryBuilder.CypherQueryBuilder.SetOrderBy | Neo4jClient/Cypher/CypherQueryBuilder.cs:90-99 | a fresh builder differing only in `orderBy`, which becomes the properties joined with `", "`, followed by `" DESC"` for a descending order |
| QueryBuilder.CypherQueryBuilder.ToQuery | Neo4jClient/Cypher/CypherQueryBuilder.cs:101-113 | the result is `Finalize` of the builder's state; the builder, its buffer and its dictionary are unchanged |
| QueryBuilder.CypherQueryBuilder.CreateParameter | Neo4jClient/Cypher/CypherQueryBuilder.cs:115-120 | the dictionary becomes `Register`'s map and the placeholder is returned, or the exception is reported and the dictionary is left alone |
| QueryBuilder.CypherQueryBuilder.WriteReturnClause | Neo4jClient/Cypher/CypherQueryBuilder.cs:122-129 | appends exactly the RETURN line (nothing when the return text is null) |
| QueryBuilder.CypherQueryBuilder.WriteLimitClause | Neo4jClient/Cypher/CypherQueryBuilder.cs:131-136 | appends the LIMIT line and binds its parameter, as `WriteParamClause` says, or reports the exception with the buffer and the dictionary unchanged |
| QueryBuilder.CypherQueryBuilder.WriteSkipClause | Neo4jClient/Cypher/CypherQueryBuilder.cs:138-143 | appends the SKIP line and binds its parameter, as `WriteParamClause` says, or reports the exception with the buffer and the dictionary unchanged |
| QueryBuilder.CypherQueryBuilder.WriteOrderByClause | Neo4jClient/Cypher/CypherQueryBuilder.cs:145-150 | appends exactly the ORDER BY line (nothing when the text is null or empty) |
| QueryBuilder.CypherQueryBuilder.CallWriter | Neo4jClient/Cypher/CypherQueryBuilder.cs:157-164 | the callback's steps act on a fresh clone only; the clone's text and parameters are those of `ApplySteps`, its clause fields are the receiver's, and the receiver is unchanged |
| QueryBuilder.CypherQueryBuilder.CallWriterAppendOnly | Neo4jClient/Cypher/CypherQueryBuilder.cs:152-155 | a callback that takes no parameter function and only appends raw text gives a fresh builder whose text is the receiver's followed by the appended texts; it cannot fail |
| FluentChainExample.PagedQuery | Neo4jClient/Cypher/CypherQueryBuilder.cs:101-113 | the chain MATCH, RETURN distinct, ORDER BY DESC, SKIP 10, LIMIT 5 finalises to the working text of five lines with p0 bound to 10 and p1 to 5, while the builder the chain started from still finalises to its own text alone |
| FluentChainExample.CallerNamedParameterCollides | Neo4jClient/Cypher/CypherQueryBuilder.cs:115-120 | a caller-supplied parameter named `p1` in a one-entry map makes SKIP's `Add` throw |

## Left out

- The debug-text renderer (`CypherQuery.DebugQueryText`, which substitutes
  parameter values into the text for display) is not part of this model; it
  only formats output and does not affect what the builder produces.
- `QueryWriter` is not part of this model, and neither is `ToCypherQuery`. The
  builder's `queryWriter` field is dropped. The finalised query is the value
  (text, parameters, result mode). `CypherQuery.text` here is the working
  buffer as `ToQuery` leaves it, ending in a line break after each clause.
  `ToCypherQuery` may post-process it: the expected query text at
  Neo4jClient.Tests.Shared/Cypher/CypherQueryTests.cs:29 has no final line
  break. So `FinalizeText`, `FinalizeChangesTextIff` and `PagedQuery` describe
  that working text, not the text of the query the program returns.
- The projection compiler `CypherReturnExpressionBuilder.BuildText` is foreign
  code over .NET expression trees. `SetReturnProjection` takes the text it
  would produce as a parameter.
- QueryBuilder.CypherQueryBuilder.CallWriterAppendOnly: the one-argument
  overload's callback is reduced to raw appends. Through the `QueryWriter` it
  is handed, such a callback can also register caller-named parameters (the
  queries expected at Neo4jClient.Tests.Shared/Cypher/CypherQueryTests.cs:39-48
  carry them), and such a registration throws on a taken name. Writer
  registrations and their exceptions are not modelled, so the member's "cannot
  fail" holds only for callbacks that append raw text.
- QueryBuilder.CypherQueryBuilder.CallWriter: the callback is any .NET
  delegate. Here it is a list of steps: append text, or register a value. The
  placeholder a registration returns is not fed back into later steps. A
  callback that catches the exception and carries on is not modelled. Neither
  is a `QueryWriter` operation other than raw appends. A callback that keeps the
  writer or the parameter function and uses it after `CallWriter` returns would
  change the returned builder's buffer or dictionary; this is not modelled, so
  the model's promise that a returned builder never changes holds only for
  callbacks that finish their work inside the call.
- `AppendLine` uses the host's `Environment.NewLine`. Here the terminator is
  fixed to `"\r\n"`.
- Dictionary enumeration order is not modelled, because parameters are a
  `map`. Order matters only for naming, and naming uses the count.
- `string.Join` with a `null` array, or with `null` elements, is not modelled.
  The properties are a `seq<string>`.
- Parameter values are `Null | Int | Str | Other`. Only `Int` is ever created
  by the builder itself, for SKIP and LIMIT. The other kinds stand for what
  callers register.
- `CypherResultMode` is modelled with the two members the builder names, `Set`
  and `Projection`.
