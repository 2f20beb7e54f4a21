/** The builder's behaviour as functions on values: the state a builder
    holds, what finalisation makes of it, what `SetOrderBy` stores and what
    a writer callback does to a clone. The class in module QueryBuilder is
    proved against these functions; the lemmas here state the properties. */
module QuerySemantics {
  import opened CypherTypes
  import opened ParameterNaming

  /** Everything a builder holds: its text buffer, its parameters and the
      six clause fields (`null` is `None`). */
  datatype BuilderState = BuilderState(
    text: string,
    params: map<string, Value>,
    returnText: Option<string>,
    returnDistinct: bool,
    resultMode: ResultMode,
    limit: Option<Int32>,
    skip: Option<Int32>,
    orderBy: Option<string>)

  /** The clause fields of a new builder: C#'s defaults. */
  function DefaultState(text: string, params: map<string, Value>): BuilderState {
    BuilderState(text, params, None, false, Set, None, None, None)
  }

  /** Text and parameters while clauses are being written onto them. */
  datatype Draft = Draft(text: string, params: map<string, Value>)

  // ---------------------------------------------------------------------
  // Finalisation (ToQuery)

  /** `WriteReturnClause`: nothing when there is no return text. */
  function ReturnLine(returnText: Option<string>, distinct: bool): (line: string)
    ensures line == "" <==> returnText.None?
    ensures ClauseLine(line)
  {
    if returnText.None? then ""
    else "RETURN " + (if distinct then "distinct " else "") + returnText.value + NewLine
  }

  /** `WriteOrderByClause`: nothing when the order-by text is null or empty. */
  function OrderByLine(orderBy: Option<string>): (line: string)
    ensures line == "" <==> orderBy.None? || orderBy.value == ""
    ensures ClauseLine(line)
  {
    if orderBy.None? || orderBy.value == "" then ""
    else "ORDER BY " + orderBy.value + NewLine
  }

  /** `WriteSkipClause` / `WriteLimitClause`: when a count is set, register it
      as a new parameter and write the keyword and its placeholder. */
  function WriteParamClause(keyword: string, count: Option<Int32>, d: Draft): (r: Result<Draft>)
    ensures count.None? ==> r == Ok(d)
    ensures r.Err? <==> count.Some? && ParamName(|d.params|) in d.params
    ensures r.Err? ==> r.error.name in d.params
    ensures r.Ok? ==> d.text <= r.value.text
    ensures r.Ok? ==> forall k :: k in d.params ==> k in r.value.params && r.value.params[k] == d.params[k]
  {
    if count.None? then Ok(d)
    else
      var reg :- Register(d.params, Int(count.value as int));
      Ok(Draft(d.text + keyword + " " + reg.placeholder + NewLine, reg.params))
  }

  /** `ToQuery`: the four terminal clauses written onto a copy of the text
      and parameters, in the order RETURN, ORDER BY, SKIP, LIMIT. */
  function Finalize(s: BuilderState): (r: Result<CypherQuery>)
    ensures r.Ok? ==> r.value.resultMode == s.resultMode && s.text <= r.value.text
    ensures r.Ok? ==> forall k :: k in s.params ==> k in r.value.parameters && r.value.parameters[k] == s.params[k]
    ensures r.Err? ==> s.skip.Some? || s.limit.Some?
  {
    var afterSkip :- WriteParamClause("SKIP", s.skip, Head(s));
    var afterLimit :- WriteParamClause("LIMIT", s.limit, afterSkip);
    Ok(CypherQuery(afterLimit.text, afterLimit.params, s.resultMode))
  }

  /** The draft after the RETURN and ORDER BY lines, which cannot fail. */
  function Head(s: BuilderState): Draft {
    Draft(s.text + ReturnLine(s.returnText, s.returnDistinct) + OrderByLine(s.orderBy), s.params)
  }

  function SkipCount(s: BuilderState): nat {
    if s.skip.Some? then 1 else 0
  }

  function LimitCount(s: BuilderState): nat {
    if s.limit.Some? then 1 else 0
  }

  /** The line a SKIP or LIMIT clause adds when it binds parameter number
      `index`; nothing when its count is unset. */
  function PagingLine(keyword: string, count: Option<Int32>, index: nat): (line: string)
    ensures line == "" <==> count.None?
    ensures ClauseLine(line)
  {
    if count.None? then "" else keyword + " " + Placeholder(ParamName(index)) + NewLine
  }

  /** The names finalisation gives the SKIP and LIMIT parameters are not
      taken yet: p<n> for SKIP, then p<n+1> for LIMIT when SKIP is set,
      p<n> otherwise. */
  predicate PagingNamesFree(s: BuilderState) {
    && (s.skip.Some? ==> ParamName(|s.params|) !in s.params)
    && (s.limit.Some? ==> ParamName(|s.params| + SkipCount(s)) !in s.params)
  }

  /** No terminal clause is set: finalisation leaves the text alone. */
  predicate NoTerminalClause(s: BuilderState) {
    s.returnText.None? && OrderByLine(s.orderBy) == "" && s.skip.None? && s.limit.None?
  }

  /** One SKIP or LIMIT clause on a draft whose next name is free. */
  lemma WriteParamClauseFree(keyword: string, count: Option<Int32>, d: Draft)
    requires count.Some? ==> ParamName(|d.params|) !in d.params
    ensures WriteParamClause(keyword, count, d).Ok?
    ensures WriteParamClause(keyword, count, d).value
         == Draft(d.text + PagingLine(keyword, count, |d.params|),
                  if count.None? then d.params else d.params[ParamName(|d.params|) := Int(count.value as int)])
  {
    if count.Some? {
      var line := keyword + " " + Placeholder(ParamName(|d.params|)) + NewLine;
      assert d.text + keyword + " " + Placeholder(ParamName(|d.params|)) + NewLine == d.text + line;
    }
  }

  /** The draft after the SKIP clause, when both generated names are free. */
  lemma AfterSkip(s: BuilderState, head: Draft) returns (afterSkip: Draft)
    requires head.params == s.params && PagingNamesFree(s)
    ensures WriteParamClause("SKIP", s.skip, head) == Ok(afterSkip)
    ensures afterSkip.text == head.text + PagingLine("SKIP", s.skip, |s.params|)
    ensures afterSkip.params == if s.skip.None? then s.params else s.params[ParamName(|s.params|) := Int(s.skip.value as int)]
    ensures |afterSkip.params| == |s.params| + SkipCount(s)
    ensures s.limit.Some? ==> ParamName(|afterSkip.params|) !in afterSkip.params
  {
    WriteParamClauseFree("SKIP", s.skip, head);
    afterSkip := WriteParamClause("SKIP", s.skip, head).value;
    ParamNameInjective(|s.params|, |s.params| + 1);
  }

  /** Finalisation throws exactly when one of the parameter names it
      generates is already bound. */
  lemma FinalizeSucceedsIff(s: BuilderState)
    ensures Finalize(s).Ok? <==> PagingNamesFree(s)
    ensures Finalize(s).Err? ==> Finalize(s).error.name in s.params
  {
    var n := |s.params|;
    var head := Head(s);
    if s.skip.Some? && ParamName(n) in s.params {
      assert WriteParamClause("SKIP", s.skip, head) == Err(DuplicateParameter(ParamName(n)));
      assert Finalize(s) == Err(DuplicateParameter(ParamName(n)));
    } else {
      WriteParamClauseFree("SKIP", s.skip, head);
      var afterSkip := WriteParamClause("SKIP", s.skip, head).value;
      var m := n + SkipCount(s);
      assert |afterSkip.params| == m;
      ParamNameInjective(n, n + 1);
      assert ParamName(m) in afterSkip.params <==> ParamName(m) in s.params;
      if s.limit.Some? && ParamName(m) in s.params {
        assert WriteParamClause("LIMIT", s.limit, afterSkip) == Err(DuplicateParameter(ParamName(m)));
        assert Finalize(s) == Err(DuplicateParameter(ParamName(m)));
      } else {
        WriteParamClauseFree("LIMIT", s.limit, afterSkip);
        assert Finalize(s).Ok?;
      }
    }
  }

  /** The finalised text is the buffer followed, in this fixed order, by the
      RETURN line, the ORDER BY line, the SKIP line bound to p<n> and the
      LIMIT line bound to the next name, each present only when its field
      is set and each ending in a line break. */
  lemma FinalizeText(s: BuilderState)
    requires PagingNamesFree(s)
    ensures Finalize(s).Ok?
    ensures Finalize(s).value.text
         == s.text
          + ReturnLine(s.returnText, s.returnDistinct)
          + OrderByLine(s.orderBy)
          + PagingLine("SKIP", s.skip, |s.params|)
          + PagingLine("LIMIT", s.limit, |s.params| + SkipCount(s))
    ensures Finalize(s).value.resultMode == s.resultMode
  {
    var afterSkip, afterLimit := FinalizeSteps(s);
  }

  /** The two drafts finalisation goes through after the RETURN and
      ORDER BY lines, when both generated names are free. */
  lemma FinalizeSteps(s: BuilderState) returns (afterSkip: Draft, afterLimit: Draft)
    requires PagingNamesFree(s)
    ensures Finalize(s) == Ok(CypherQuery(afterLimit.text, afterLimit.params, s.resultMode))
    ensures afterSkip.text
         == s.text + ReturnLine(s.returnText, s.returnDistinct) + OrderByLine(s.orderBy)
          + PagingLine("SKIP", s.skip, |s.params|)
    ensures afterSkip.params == if s.skip.None? then s.params else s.params[ParamName(|s.params|) := Int(s.skip.value as int)]
    ensures |afterSkip.params| == |s.params| + SkipCount(s)
    ensures s.limit.Some? ==> ParamName(|afterSkip.params|) !in afterSkip.params
    ensures afterLimit.text == afterSkip.text + PagingLine("LIMIT", s.limit, |s.params| + SkipCount(s))
    ensures afterLimit.params
         == if s.limit.None? then afterSkip.params else afterSkip.params[ParamName(|afterSkip.params|) := Int(s.limit.value as int)]
  {
    var head := Head(s);
    afterSkip := AfterSkip(s, head);
    WriteParamClauseFree("LIMIT", s.limit, afterSkip);
    afterLimit := WriteParamClause("LIMIT", s.limit, afterSkip).value;
  }

  /** The finalised parameters are the builder's, untouched, plus the SKIP
      value under p<n> and the LIMIT value under p<n+1> (p<n> when SKIP is
      unset), and nothing else. */
  lemma FinalizeParameters(s: BuilderState)
    requires PagingNamesFree(s)
    ensures Finalize(s).Ok?
    ensures var ps, n := Finalize(s).value.parameters, |s.params|;
      && |ps| == n + SkipCount(s) + LimitCount(s)
      && (forall k :: k in s.params ==> k in ps && ps[k] == s.params[k])
      && (s.skip.Some? ==> ParamName(n) in ps && ps[ParamName(n)] == Int(s.skip.value as int))
      && (s.limit.Some? ==> ParamName(n + SkipCount(s)) in ps && ps[ParamName(n + SkipCount(s))] == Int(s.limit.value as int))
      && (forall k :: k in ps ==> k in s.params || (s.skip.Some? && k == ParamName(n)) || (s.limit.Some? && k == ParamName(n + SkipCount(s))))
  {
    var afterSkip := FinalizedParameterMap(s);
    var n := |s.params|;
    var skipValue := if s.skip.None? then None else Some(Int(s.skip.value as int));
    var limitValue := if s.limit.None? then None else Some(Int(s.limit.value as int));
    TwoBindings(s.params, ParamName(n), ParamName(n + SkipCount(s)), skipValue, limitValue,
      afterSkip, Finalize(s).value.parameters);
  }

  /** A map after an optional binding of a free key `a`, then an optional
      binding of a key `b` that is free after the first. */
  lemma TwoBindings(m: map<string, Value>, a: string, b: string, first: Option<Value>, second: Option<Value>,
                    mid: map<string, Value>, result: map<string, Value>)
    requires first.Some? ==> a !in m
    requires mid == if first.None? then m else m[a := first.value]
    requires second.Some? ==> b !in mid
    requires result == if second.None? then mid else mid[b := second.value]
    ensures |result| == |m| + (if first.Some? then 1 else 0) + (if second.Some? then 1 else 0)
    ensures forall k :: k in m ==> k in result && result[k] == m[k]
    ensures first.Some? ==> a in result && result[a] == first.value
    ensures second.Some? ==> b in result && result[b] == second.value
    ensures forall k :: k in result ==> k in m || (first.Some? && k == a) || (second.Some? && k == b)
  {
  }

  /** The finalised map as two updates of the builder's map. */
  lemma FinalizedParameterMap(s: BuilderState) returns (afterSkip: map<string, Value>)
    requires PagingNamesFree(s)
    ensures Finalize(s).Ok?
    ensures afterSkip == if s.skip.None? then s.params else s.params[ParamName(|s.params|) := Int(s.skip.value as int)]
    ensures |afterSkip| == |s.params| + SkipCount(s)
    ensures s.limit.Some? ==> ParamName(|afterSkip|) !in afterSkip
    ensures Finalize(s).value.parameters
         == if s.limit.None? then afterSkip else afterSkip[ParamName(|afterSkip|) := Int(s.limit.value as int)]
  {
    var d, afterLimit := FinalizeSteps(s);
    afterSkip := d.params;
  }

  predicate EndsWithNewLine(t: string) {
    |t| >= 2 && t[|t| - 2..] == NewLine
  }

  /** Each clause line is either left out or ends in a line break. */
  predicate ClauseLine(line: string) {
    line == "" || EndsWithNewLine(line)
  }

  /** Appending a clause line keeps the text if the line is left out, and
      otherwise makes it end in a line break. */
  lemma AppendClauseLine(a: string, b: string)
    requires ClauseLine(b)
    ensures b == "" ==> a + b == a
    ensures b != "" ==> EndsWithNewLine(a + b)
    ensures ClauseLine(a) ==> ClauseLine(a + b)
  {
    if b != "" {
      assert (a + b)[|a + b| - 2..] == b[|b| - 2..];
    }
  }

  /** Clause lines after a text: the text is unchanged exactly when all of
      them are left out, and otherwise ends in a line break. */
  lemma AppendFourLines(t: string, r: string, o: string, sk: string, li: string)
    requires ClauseLine(r) && ClauseLine(o) && ClauseLine(sk) && ClauseLine(li)
    ensures t + r + o + sk + li == t <==> r == "" && o == "" && sk == "" && li == ""
    ensures t + r + o + sk + li != t ==> EndsWithNewLine(t + r + o + sk + li)
  {
    AppendClauseLine(t, r);
    AppendClauseLine(t + r, o);
    AppendClauseLine(t + r + o, sk);
    AppendClauseLine(t + r + o + sk, li);
  }

  /** Finalisation changes the text if and only if some terminal clause is
      set, and then the text ends in a line break. */
  lemma FinalizeChangesTextIff(s: BuilderState)
    requires PagingNamesFree(s)
    ensures Finalize(s).Ok?
    ensures Finalize(s).value.text == s.text <==> NoTerminalClause(s)
    ensures !NoTerminalClause(s) ==> EndsWithNewLine(Finalize(s).value.text)
  {
    FinalizeText(s);
    var n := |s.params|;
    AppendFourLines(s.text, ReturnLine(s.returnText, s.returnDistinct), OrderByLine(s.orderBy),
      PagingLine("SKIP", s.skip, n), PagingLine("LIMIT", s.limit, n + SkipCount(s)));
  }

  /** A builder whose parameters were all created by `CreateParameter`
      finalises without error, and its finalised parameters still follow
      the p<count> scheme. */
  lemma FinalizeSequential(s: BuilderState)
    requires Sequential(s.params)
    ensures Finalize(s).Ok?
    ensures Sequential(Finalize(s).value.parameters)
  {
    var head := Head(s);
    if s.skip.Some? {
      SequentialRegister(s.params, Int(s.skip.value as int));
    }
    var afterSkip := WriteParamClause("SKIP", s.skip, head).value;
    if s.limit.Some? {
      SequentialRegister(afterSkip.params, Int(s.limit.value as int));
    }
  }

  // ---------------------------------------------------------------------
  // SetOrderBy

  /** `string.Join(separator, values)`. */
  function Join(separator: string, values: seq<string>): (r: string)
    ensures values == [] ==> r == ""
    ensures |values| == 1 ==> r == values[0]
    ensures |values| >= 1 ==> values[0] <= r
    decreases |values|
  {
    if |values| == 0 then ""
    else if |values| == 1 then values[0]
    else values[0] + separator + Join(separator, values[1..])
  }

  /** Joining one more value adds the separator and then that value: the
      joined text is the values in order with the separator between each
      neighbouring pair. */
  lemma {:induction false} JoinAppend(separator: string, values: seq<string>, v: string)
    requires |values| >= 1
    ensures Join(separator, values + [v]) == Join(separator, values) + separator + v
    decreases |values|
  {
    assert (values + [v])[1..] == values[1..] + [v];
    if |values| > 1 {
      JoinAppend(separator, values[1..], v);
    }
  }

  function TotalLength(values: seq<string>): nat
    decreases |values|
  {
    if values == [] then 0 else |values[0]| + TotalLength(values[1..])
  }

  /** The joined text is as long as all values together plus one separator
      between each neighbouring pair. */
  lemma {:induction false} JoinLength(separator: string, values: seq<string>)
    ensures |Join(separator, values)| == TotalLength(values) + if values == [] then 0 else |separator| * (|values| - 1)
    decreases |values|
  {
    if |values| > 1 {
      JoinLength(separator, values[1..]);
      assert TotalLength(values) == |values[0]| + TotalLength(values[1..]);
    } else if |values| == 1 {
      assert TotalLength(values) == |values[0]| + TotalLength(values[1..]);
    }
  }

  /** What `SetOrderBy` stores: the properties joined with ", ", and
      " DESC" after them for a descending order. */
  function OrderByText(orderByType: OrderByType, properties: seq<string>): (t: string)
    ensures Join(", ", properties) <= t
    ensures |t| == |Join(", ", properties)| + if orderByType == Descending then 5 else 0
    ensures orderByType == Descending ==> t[|t| - 5..] == " DESC"
  {
    Join(", ", properties) + (if orderByType == Descending then " DESC" else "")
  }

  /** The ORDER BY line is left out exactly when the order is ascending and
      the properties join to nothing: no properties, or one empty one. */
  lemma OrderByOmittedIff(orderByType: OrderByType, properties: seq<string>)
    ensures OrderByLine(Some(OrderByText(orderByType, properties))) == ""
        <==> orderByType == Ascending && (properties == [] || properties == [""])
  {
    JoinLength(", ", properties);
    if |properties| == 1 {
      assert TotalLength(properties) == |properties[0]| + TotalLength(properties[1..]);
    }
  }

  // ---------------------------------------------------------------------
  // CallWriter

  /** One thing a writer callback does: append raw text through the query
      writer, or register a value through the parameter function it is
      given. */
  datatype WriterStep = AppendText(text: string) | AddParameter(value: Value)

  /** A callback run on a draft, step by step; a registration that hits a
      taken name throws and ends the callback. */
  function ApplySteps(d: Draft, steps: seq<WriterStep>): Result<Draft>
    decreases |steps|
  {
    if steps == [] then Ok(d)
    else match steps[0]
      case AppendText(t) => ApplySteps(Draft(d.text + t, d.params), steps[1..])
      case AddParameter(v) =>
        var reg :- Register(d.params, v);
        ApplySteps(Draft(d.text, reg.params), steps[1..])
  }

  /** The text the steps append, in order. */
  function AppendedText(steps: seq<WriterStep>): string
    decreases |steps|
  {
    if steps == [] then ""
    else (if steps[0].AppendText? then steps[0].text else "") + AppendedText(steps[1..])
  }

  /** The values the steps register, in order. */
  function AddedValues(steps: seq<WriterStep>): seq<Value>
    decreases |steps|
  {
    if steps == [] then []
    else (if steps[0].AddParameter? then [steps[0].value] else []) + AddedValues(steps[1..])
  }

  /** Only a registration can make a callback throw: one that registers
      nothing always completes. */
  lemma {:induction false} ApplyStepsFailsOnlyOnRegistration(d: Draft, steps: seq<WriterStep>)
    ensures ApplySteps(d, steps).Err? ==> AddedValues(steps) != []
    decreases |steps|
  {
    if steps != [] {
      match steps[0]
      case AppendText(t) =>
        ApplyStepsFailsOnlyOnRegistration(Draft(d.text + t, d.params), steps[1..]);
      case AddParameter(v) =>
    }
  }

  /** An append step, unfolded: its text comes first and the remaining
      steps run on the extended draft. */
  lemma UnfoldAppendText(d: Draft, steps: seq<WriterStep>)
    requires steps != [] && steps[0].AppendText?
    ensures ApplySteps(d, steps) == ApplySteps(Draft(d.text + steps[0].text, d.params), steps[1..])
    ensures AppendedText(steps) == steps[0].text + AppendedText(steps[1..])
    ensures AddedValues(steps) == AddedValues(steps[1..])
  {
    assert AddedValues(steps) == [] + AddedValues(steps[1..]);
  }

  /** A registration step, unfolded: its value comes first, and the
      remaining steps run on the grown map when the name was free. */
  lemma UnfoldAddParameter(d: Draft, steps: seq<WriterStep>)
    requires steps != [] && steps[0].AddParameter?
    ensures AppendedText(steps) == AppendedText(steps[1..])
    ensures AddedValues(steps) == [steps[0].value] + AddedValues(steps[1..])
    ensures ApplySteps(d, steps).Ok? ==> Register(d.params, steps[0].value).Ok?
    ensures Register(d.params, steps[0].value).Ok? ==>
      ApplySteps(d, steps) == ApplySteps(Draft(d.text, Register(d.params, steps[0].value).value.params), steps[1..])
  {
    assert AppendedText(steps) == "" + AppendedText(steps[1..]);
  }

  /** A callback that completes appends exactly its texts and keeps every
      binding that was there before it ran. */
  lemma ApplyStepsExtends(d: Draft, steps: seq<WriterStep>)
    requires ApplySteps(d, steps).Ok?
    ensures var r := ApplySteps(d, steps).value;
      && r.text == d.text + AppendedText(steps)
      && |r.params| == |d.params| + |AddedValues(steps)|
      && (forall k :: k in d.params ==> k in r.params && r.params[k] == d.params[k])
  {
    ApplyStepsText(d, steps);
    ApplyStepsKeeps(d, steps);
  }

  /** The text part of ApplyStepsExtends. */
  lemma {:induction false} ApplyStepsText(d: Draft, steps: seq<WriterStep>)
    requires ApplySteps(d, steps).Ok?
    ensures ApplySteps(d, steps).value.text == d.text + AppendedText(steps)
    decreases |steps|
  {
    if steps != [] {
      match steps[0]
      case AppendText(t) =>
        UnfoldAppendText(d, steps);
        ApplyStepsText(Draft(d.text + t, d.params), steps[1..]);
        assert d.text + (t + AppendedText(steps[1..])) == (d.text + t) + AppendedText(steps[1..]);
      case AddParameter(v) =>
        UnfoldAddParameter(d, steps);
        ApplyStepsText(Draft(d.text, Register(d.params, v).value.params), steps[1..]);
    }
  }

  /** The parameter part of ApplyStepsExtends: one binding per
      registration, and every earlier binding kept. */
  lemma {:induction false} ApplyStepsKeeps(d: Draft, steps: seq<WriterStep>)
    requires ApplySteps(d, steps).Ok?
    ensures var r := ApplySteps(d, steps).value;
      && |r.params| == |d.params| + |AddedValues(steps)|
      && (forall k :: k in d.params ==> k in r.params && r.params[k] == d.params[k])
    decreases |steps|
  {
    if steps != [] {
      match steps[0]
      case AppendText(t) =>
        UnfoldAppendText(d, steps);
        ApplyStepsKeeps(Draft(d.text + t, d.params), steps[1..]);
      case AddParameter(v) =>
        UnfoldAddParameter(d, steps);
        ApplyStepsKeeps(Draft(d.text, Register(d.params, v).value.params), steps[1..]);
    }
  }

  /** On a sequential map a callback cannot fail, and the map stays
      sequential. */
  lemma {:induction false} ApplyStepsSequential(d: Draft, steps: seq<WriterStep>)
    requires Sequential(d.params)
    ensures ApplySteps(d, steps).Ok?
    ensures Sequential(ApplySteps(d, steps).value.params)
    decreases |steps|
  {
    if steps != [] {
      match steps[0]
      case AppendText(t) =>
        ApplyStepsSequential(Draft(d.text + t, d.params), steps[1..]);
      case AddParameter(v) =>
        SequentialRegister(d.params, v);
        ApplyStepsSequential(Draft(d.text, Register(d.params, v).value.params), steps[1..]);
    }
  }

  /** Parameter number `index` of the draft is bound to `v`. */
  predicate BoundAt(d: Draft, index: nat, v: Value) {
    ParamName(index) in d.params && d.params[ParamName(index)] == v
  }

  /** The values are bound in order to the parameters numbered from `n`. */
  predicate BoundFrom(d: Draft, n: nat, values: seq<Value>)
    decreases |values|
  {
    values == [] || (BoundAt(d, n, values[0]) && BoundFrom(d, n + 1, values[1..]))
  }

  /** Value j of a run bound from `n` is parameter n + j. */
  lemma {:induction false} BoundFromAt(d: Draft, n: nat, values: seq<Value>, j: nat)
    requires BoundFrom(d, n, values) && j < |values|
    ensures BoundAt(d, n + j, values[j])
    decreases j
  {
    if j > 0 {
      BoundFromAt(d, n + 1, values[1..], j - 1);
    }
  }

  /** A callback that completes on a map of size n binds the values it
      registers, in order, to p<n>, p<n+1>, ... */
  lemma {:induction false} ApplyStepsBoundFrom(d: Draft, steps: seq<WriterStep>)
    requires ApplySteps(d, steps).Ok?
    ensures BoundFrom(ApplySteps(d, steps).value, |d.params|, AddedValues(steps))
    decreases |steps|
  {
    if steps != [] {
      match steps[0]
      case AppendText(t) =>
        UnfoldAppendText(d, steps);
        ApplyStepsBoundFrom(Draft(d.text + t, d.params), steps[1..]);
      case AddParameter(v) =>
        UnfoldAddParameter(d, steps);
        var d' := Draft(d.text, Register(d.params, v).value.params);
        ApplyStepsBoundFrom(d', steps[1..]);
        ApplyStepsKeeps(d', steps[1..]);
        assert ([v] + AddedValues(steps[1..]))[1..] == AddedValues(steps[1..]);
    }
  }

  /** When a callback completes on a map of size n, the i-th value it
      registered is bound to p<n+i>: the parameter function follows the
      same naming scheme on the clone's map. */
  lemma {:induction false} ApplyStepsBindings(d: Draft, steps: seq<WriterStep>, j: nat)
    requires ApplySteps(d, steps).Ok? && j < |AddedValues(steps)|
    ensures BoundAt(ApplySteps(d, steps).value, |d.params| + j, AddedValues(steps)[j])
  {
    ApplyStepsBoundFrom(d, steps);
    BoundFromAt(ApplySteps(d, steps).value, |d.params|, AddedValues(steps), j);
  }

  /** The steps of a callback that only appends text. */
  function AppendSteps(texts: seq<string>): (steps: seq<WriterStep>)
    ensures |steps| == |texts|
    ensures forall i :: 0 <= i < |texts| ==> steps[i] == AppendText(texts[i])
  {
    seq(|texts|, i requires 0 <= i < |texts| => AppendText(texts[i]))
  }

  /** `string.Concat(texts)`. */
  function Concat(texts: seq<string>): string
    decreases |texts|
  {
    if texts == [] then "" else texts[0] + Concat(texts[1..])
  }

  /** A callback that only appends never touches the parameters and cannot
      fail, whatever they are. */
  lemma {:induction false} AppendOnlySteps(d: Draft, texts: seq<string>)
    ensures ApplySteps(d, AppendSteps(texts)) == Ok(Draft(d.text + Concat(texts), d.params))
    decreases |texts|
  {
    var steps := AppendSteps(texts);
    if texts != [] {
      assert steps[0] == AppendText(texts[0]);
      assert steps[1..] == AppendSteps(texts[1..]);
      assert ApplySteps(d, steps) == ApplySteps(Draft(d.text + texts[0], d.params), steps[1..]);
      AppendOnlySteps(Draft(d.text + texts[0], d.params), texts[1..]);
      assert d.text + texts[0] + Concat(texts[1..]) == d.text + Concat(texts);
    } else {
      assert d.text + Concat(texts) == d.text;
    }
  }
}
