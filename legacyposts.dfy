/** The results posts route of the earlier `facebook-scraper-v2` app: always one
    page of a results table, newest first, with the same pagination metadata. */
module LegacyPosts {
  import opened Wrappers
  import opened Numbers
  import opened Pagination
  import opened Access
  import opened PostFilters
  import opened ResultsPosts

  const LegacyDefaultLimit := "50"

  /** Without parameters the route reads page 1 of 50 rows of `posts`. */
  lemma LegacyDefaults()
    ensures IntParam(None, DefaultPage) == Some(1)
    ensures IntParam(None, LegacyDefaultLimit) == Some(50)
    ensures ParamOr(None, DefaultTable) == "posts"
  {
    assert Decimal(1) == "1";
    assert Decimal(5) == "5";
    assert Decimal(50) == "50";
    IntParamDefaults(0, 1);
    IntParamDefaults(0, 50);
  }

  /** `GET`: the approval gate, the hidden-table check, then always the inclusive
      range `[offset, offset + limit - 1]`. */
  function GetLegacyPosts(signedIn: bool, profile: Option<Access>, page: int, limit: int, table: string,
                          env: Option<string>, run: Query -> QueryResult): (r: PostsResponse)
    requires page >= 1 && limit >= 1
    ensures r.Refused? <==> !ApprovalGate(signedIn, profile).Allowed?
    ensures r.HiddenTable? <==> ApprovalGate(signedIn, profile).Allowed? && table in HiddenTables(env)
    ensures r.Posts? ==>
      var result := run(Query(table, None, Some(InclusiveRange(page, limit))));
      var count := if result.Rows? then result.count.GetOr(0) else 0;
      result.Rows? &&
      r.pagination.totalPages * limit >= count
      && (r.pagination.totalPages == 0 || (r.pagination.totalPages - 1) * limit < count)
      && (r.pagination.hasNext <==> Offset(page, limit) + limit < count)
      && (r.pagination.hasPrev <==> page > 1)
  {
    var gate := ApprovalGate(signedIn, profile);
    if !gate.Allowed? then Refused(gate)
    else if table in HiddenTables(env) then HiddenTable
    else
      var offset := (page - 1) * limit;
      match run(Query(table, None, Some((offset, offset + limit - 1))))
        case QueryError => Failed
        case Rows(data, count) =>
          var total := count.GetOr(0);
          HasNextIffNotLast(page, limit, total);
          Posts(data.GetOr([]), Meta(page, limit, total, TotalPages(total, limit), offset + limit < total, page > 1))
  }

  /** The earlier route answers exactly as the current one does when no keyword is
      given (only the default page size differs). */
  lemma LegacyIsUnsearched(signedIn: bool, profile: Option<Access>, page: int, limit: int, table: string,
                           env: Option<string>, run: Query -> QueryResult)
    requires page >= 1 && limit >= 1
    ensures GetLegacyPosts(signedIn, profile, page, limit, table, env, run)
         == GetPosts(signedIn, profile, page, limit, table, None, env, run)
  {
  }
}
