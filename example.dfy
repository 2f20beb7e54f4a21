/** A client of the builder: a fluent chain as `CypherFluentQuery` makes it,
    and what the contracts alone say about every builder along the way. */
module FluentChainExample {
  import opened CypherTypes
  import opened ParameterNaming
  import opened QuerySemantics
  import opened QueryBuilder

  const Match: string := "MATCH (n)\r\n"
  const Paged: string :=
    Match + "RETURN distinct n\r\n" + "ORDER BY n.Name, n.Age DESC\r\n" + "SKIP {p0}\r\n" + "LIMIT {p1}\r\n"

  /** The state the chain in PagedQuery ends in. */
  function PagedState(): BuilderState {
    BuilderState(Match, map[], Some("n"), true, Set, Some(5), Some(10),
      Some(OrderByText(Descending, ["n.Name", "n.Age"])))
  }

  lemma FirstNames()
    ensures ParamName(0) == "p0" && ParamName(1) == "p1"
  {
    assert NatToString(0) == "0" && NatToString(1) == "1";
  }

  lemma ReturnLineExample()
    ensures ReturnLine(Some("n"), true) == "RETURN distinct n\r\n"
  {
  }

  lemma OrderByLineExample()
    ensures OrderByLine(Some(OrderByText(Descending, ["n.Name", "n.Age"]))) == "ORDER BY n.Name, n.Age DESC\r\n"
  {
    var properties := ["n.Name", "n.Age"];
    assert Join(", ", properties) == "n.Name, n.Age" by {
      assert Join(", ", properties[1..]) == "n.Age";
    }
    assert OrderByText(Descending, properties) == "n.Name, n.Age DESC";
  }

  lemma PagingLinesExample()
    ensures PagingLine("SKIP", Some(10), 0) == "SKIP {p0}\r\n"
    ensures PagingLine("LIMIT", Some(5), 1) == "LIMIT {p1}\r\n"
  {
    FirstNames();
  }

  /** The five lines of the paged query, clause by clause. */
  lemma PagedLines()
    ensures Match + ReturnLine(Some("n"), true) + OrderByLine(Some(OrderByText(Descending, ["n.Name", "n.Age"])))
          + PagingLine("SKIP", Some(10), 0) + PagingLine("LIMIT", Some(5), 1) == Paged
  {
    ReturnLineExample();
    OrderByLineExample();
    PagingLinesExample();
  }

  lemma PagedStateText(s: BuilderState)
    requires s == PagedState()
    ensures Finalize(s).Ok? && Finalize(s).value.text == Paged
  {
    FinalizeText(s);
    assert |s.params| + SkipCount(s) == 1;
    PagedLines();
  }

  lemma PagedStateParameters(s: BuilderState)
    requires s == PagedState()
    ensures Finalize(s).Ok?
    ensures Finalize(s).value.parameters == map["p0" := Int(10), "p1" := Int(5)]
  {
    var afterSkip := FinalizedParameterMap(s);
    assert afterSkip == map[ParamName(0) := Int(10)];
    assert Finalize(s).value.parameters == map[ParamName(0) := Int(10), ParamName(1) := Int(5)];
    FirstNames();
  }

  /** Finalising that state gives the five lines and binds p0 and p1. */
  lemma PagedStateFinalizes()
    ensures Finalize(PagedState()) == Ok(CypherQuery(Paged, map["p0" := Int(10), "p1" := Int(5)], Set))
  {
    PagedStateText(PagedState());
    PagedStateParameters(PagedState());
    FinalizeText(PagedState());
  }

  /** MATCH, then RETURN distinct, ORDER BY descending, SKIP 10 and LIMIT 5.
      The builder the chain starts from still finalises to its own text
      alone after the chain has run. */
  method PagedQuery() returns (paged: Result<CypherQuery>, unpaged: Result<CypherQuery>)
    ensures paged == Ok(CypherQuery(Paged, map["p0" := Int(10), "p1" := Int(5)], Set))
    ensures unpaged == Ok(CypherQuery(Match, map[], Set))
  {
    var empty := new CypherQueryBuilder();
    var matched := empty.CallWriterAppendOnly([Match]);
    assert Concat([Match]) == Match;
    var returned := matched.SetReturn(Some("n"), true, Set);
    var ordered := returned.SetOrderBy(Descending, ["n.Name", "n.Age"]);
    var skipped := ordered.SetSkip(Some(10));
    var limited := skipped.SetLimit(Some(5));
    paged := limited.ToQuery();
    unpaged := matched.ToQuery();
    assert limited.State() == PagedState();
    PagedStateFinalizes();
    FinalizeText(matched.State());
  }

  /** A parameter the caller named "p1" and a SKIP: the map has one entry,
      so SKIP asks for the name p1, `Dictionary.Add` throws and no query is
      produced. */
  lemma CallerNamedParameterCollides()
    ensures Finalize(BuilderState(Match, map["p1" := Int(7)], None, false, Set, None, Some(3), None))
         == Err(DuplicateParameter("p1"))
  {
    FirstNames();
  }
}
