/** The results posts route: one page of a results table, newest first, or every
    row matching a keyword search, with the pagination metadata. */
module ResultsPosts {
  import opened Wrappers
  import opened Strings
  import opened Numbers
  import opened Keywords
  import opened Pagination
  import opened Access
  import opened PostFilters

  const DefaultPage := "1"
  const DefaultLimit := "100"
  const DefaultTable := "posts"

  /** Without parameters the route reads page 1 of 100 rows of `posts`. */
  lemma RouteDefaults()
    ensures IntParam(None, DefaultPage) == Some(1)
    ensures IntParam(None, DefaultLimit) == Some(100)
    ensures ParamOr(None, DefaultTable) == "posts"
  {
    assert Decimal(1) == "1";
    assert Decimal(10) == "10";
    assert Decimal(100) == "100";
    IntParamDefaults(0, 1);
    IntParamDefaults(0, 100);
  }

  /** One PostgREST condition: `field` contains `kw`, ignoring case. */
  function Condition(field: string, kw: string): string {
    field + ".ilike.%" + kw + "%"
  }

  lemma ConditionHasNoComma(field: string, kw: string)
    requires ',' !in field && ',' !in kw
    ensures ',' !in Condition(field, kw)
  {
    assert ',' !in ".ilike.%";
    assert ',' !in "%";
  }

  /** The three conditions one keyword contributes, in this order. */
  function ClauseTriple(kw: string): (clauses: seq<string>)
    ensures |clauses| == 3
  {
    [Condition("message", kw), Condition("author", kw), Condition("group_name", kw)]
  }

  /** What `keywords.map(...)` writes for one keyword. */
  function Clause(kw: string): string {
    Condition("message", kw) + "," + Condition("author", kw) + "," + Condition("group_name", kw)
  }

  /** `orConditions`: the clauses of all keywords joined by ','. */
  function OrConditions(tokens: seq<string>): (r: string)
    ensures r == "" <==> tokens == []
  {
    Join(seq(|tokens|, i requires 0 <= i < |tokens| => Clause(tokens[i])), ",")
  }

  /** Every keyword's three clauses, keyword after keyword. */
  function Clauses(tokens: seq<string>): (clauses: seq<string>)
    ensures |clauses| == 3 * |tokens|
    decreases |tokens|
  {
    if tokens == [] then [] else ClauseTriple(tokens[0]) + Clauses(tokens[1..])
  }

  lemma ClauseSplits(kw: string)
    requires ',' !in kw
    ensures Split(Clause(kw), ',') == ClauseTriple(kw)
  {
    assert ',' !in "message" && ',' !in "author" && ',' !in "group_name";
    ConditionHasNoComma("message", kw);
    ConditionHasNoComma("author", kw);
    ConditionHasNoComma("group_name", kw);
    SplitThree(Condition("message", kw), Condition("author", kw), Condition("group_name", kw));
  }

  /** For keywords without commas, the filter string is read by PostgREST as exactly
      three conditions per keyword, in keyword order. */
  lemma {:induction false} OrConditionsClauses(tokens: seq<string>)
    requires tokens != []
    requires forall i :: 0 <= i < |tokens| ==> ',' !in tokens[i]
    ensures Split(OrConditions(tokens), ',') == Clauses(tokens)
    decreases |tokens|
  {
    var cs := seq(|tokens|, i requires 0 <= i < |tokens| => Clause(tokens[i]));
    ClauseSplits(tokens[0]);
    if |tokens| > 1 {
      var rest := tokens[1..];
      OrConditionsClauses(rest);
      assert cs[1..] == seq(|rest|, i requires 0 <= i < |rest| => Clause(rest[i]));
      assert OrConditions(tokens) == cs[0] + [','] + OrConditions(rest);
      SplitConcat(cs[0], OrConditions(rest), ',');
    } else {
      assert Clauses(tokens[1..]) == [];
    }
  }

  /** The query sent to PostgREST: the table, every row counted, newest first, and
      either an `or` filter, an inclusive row range, or neither. */
  datatype Query = Query(table: string, orFilter: Option<string>, range: Option<(int, int)>)

  /** `keyword && keyword.trim()`. */
  predicate Searching(keyword: Option<string>) {
    keyword.Some? && NonBlank(keyword.value)
  }

  /** The query the route builds. */
  function QueryFor(table: string, keyword: Option<string>, page: int, limit: int): (q: Query)
    requires page >= 1 && limit >= 1
    ensures q.table == table
    ensures q.range.Some? <==> !Searching(keyword)
    ensures q.orFilter.Some? <==> Searching(keyword) && Tokenize(keyword.value) != []
  {
    if Searching(keyword) then
      var tokens := Tokenize(keyword.value);
      Query(table, if tokens != [] then Some(OrConditions(tokens)) else None, None)
    else Query(table, None, Some(InclusiveRange(page, limit)))
  }

  /** `let query = ...`, then `query = query.or(...)` or `query = query.range(...)`. */
  method BuildQuery(table: string, keyword: Option<string>, page: int, limit: int) returns (query: Query)
    requires page >= 1 && limit >= 1
    ensures query == QueryFor(table, keyword, page, limit)
  {
    var offset := (page - 1) * limit;
    query := Query(table, None, None);
    if keyword.Some? && NonBlank(keyword.value) {
      var keywords := Tokenize(keyword.value);
      if |keywords| > 0 {
        query := query.(orFilter := Some(OrConditions(keywords)));
      }
    } else {
      query := query.(range := Some((offset, offset + limit - 1)));
    }
  }

  /** Without a search the rows read are those of page `page`, `limit` of them; with
      one, no range applies, and a keyword of separators only (such as "&") reads
      every row unfiltered. */
  lemma QueryShapes(table: string, page: int, limit: int)
    requires page >= 1 && limit >= 1
    ensures var q := QueryFor(table, None, page, limit);
      q.orFilter.None? && q.range.Some? && q.range.value.0 == Offset(page, limit)
      && q.range.value.1 - q.range.value.0 + 1 == limit
    ensures QueryFor(table, Some("&"), page, limit) == Query(table, None, None)
  {
    assert !IsBlank("&") by { assert !IsSpace("&"[0]); }
    TokenizeSeparatorOnly();
  }

  /** What the query returns: an error, or the rows (possibly null) and the count. */
  datatype QueryResult = QueryError | Rows(data: Option<seq<Post>>, count: Option<nat>)

  datatype PostsResponse = Refused(outcome: Outcome) | HiddenTable | Failed | Posts(posts: seq<Post>, pagination: Meta)

  /** `GET` with the parameters already read; running the query is the parameter `run`. */
  function GetPosts(signedIn: bool, profile: Option<Access>, page: int, limit: int, table: string,
                    keyword: Option<string>, env: Option<string>, run: Query -> QueryResult): (r: PostsResponse)
    requires page >= 1 && limit >= 1
    ensures r.Refused? <==> !ApprovalGate(signedIn, profile).Allowed?
    ensures r.Refused? ==> r.outcome == ApprovalGate(signedIn, profile)
    ensures r.HiddenTable? <==> ApprovalGate(signedIn, profile).Allowed? && table in HiddenTables(env)
    ensures r.Failed? <==> (ApprovalGate(signedIn, profile).Allowed? && table !in HiddenTables(env)
      && run(QueryFor(table, keyword, page, limit)).QueryError?)
    ensures r.Posts? ==>
      var result := run(QueryFor(table, keyword, page, limit));
      r.posts == result.data.GetOr([])
      && r.pagination == Metadata(page, limit, result.count.GetOr(0))
      && (r.pagination.hasNext <==> Offset(page, limit) + limit < result.count.GetOr(0))
  {
    var gate := ApprovalGate(signedIn, profile);
    if !gate.Allowed? then Refused(gate)
    else if table in HiddenTables(env) then HiddenTable
    else match run(QueryFor(table, keyword, page, limit))
      case QueryError => Failed
      case Rows(data, count) =>
        var total := count.GetOr(0);
        HasNextIffNotLast(page, limit, total);
        Posts(data.GetOr([]), Metadata(page, limit, total))
  }
}
