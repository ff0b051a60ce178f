/** The groups route: one page of the Airtable groups table, shaped for the
    dashboard's grid, and the creation of a new group record. */
module GroupsRoute {
  import opened Wrappers
  import opened Seqs
  import opened Strings
  import opened Numbers
  import opened Pagination
  import opened Access

  const DefaultPage := "1"
  const DefaultLimit := "100"
  const DefaultView := "Grid view"

  /** `searchParams.get('view') || 'Grid view'`. */
  function ViewParam(view: Option<string>): (r: string)
    ensures view.Some? && view.value != "" ==> r == view.value
    ensures view.None? || view.value == "" ==> r == "Grid view"
  {
    ParamOr(view, DefaultView)
  }

  /** `selectOptions`: none for 'all' or a blank view, otherwise the trimmed view name. */
  function SelectOptions(view: string): (options: Option<string>)
    ensures options.None? <==> view == "" || view == "all" || IsBlank(view)
    ensures options.Some? ==> options.value == Trim(view) && options.value != ""
  {
    TrimEmptyIffBlank(view);
    if view != "" && view != "all" && NonBlank(view) then Some(Trim(view)) else None
  }

  /** A view name without white space at either end is used as it is. */
  lemma UnpaddedViewSelected(view: string)
    requires view != "" && view != "all" && !IsSpace(view[0]) && !IsSpace(view[|view| - 1])
    ensures SelectOptions(view) == Some(view)
  {
    TrimOfUnpadded(view);
  }

  /** Without a view parameter the route reads the 'Grid view' view. */
  lemma DefaultViewIsGridView()
    ensures SelectOptions(ViewParam(None)) == Some("Grid view")
  {
    assert ViewParam(None) == "Grid view";
    var g := "Grid view";
    assert g[0] == 'G' && g[|g| - 1] == 'w' && |g| == 9;
    UnpaddedViewSelected(g);
  }

  /** The view 'all' reads every record. */
  lemma AllViewReadsEverything()
    ensures SelectOptions(ViewParam(Some("all"))).None?
  {
  }

  /** 'all' is matched before trimming: a padded ' all ' names a view called 'all'. */
  lemma PaddedAllIsAView()
    ensures SelectOptions(" all ") == Some("all")
  {
    var v := " all ";
    assert v[1] == 'a' && |v| == 5 && !IsSpace(v[1]);
    assert v != "all" && NonBlank(v);
    assert v == " " + "all" + " ";
    TrimOfPadded("all");
  }

  lemma TrimOfUnpadded(s: string)
    requires s != [] && !IsSpace(s[0]) && !IsSpace(s[|s| - 1])
    ensures Trim(s) == s
  {
    assert TrimStart(s) == s;
  }

  lemma TrimOfPadded(s: string)
    requires s != [] && !IsSpace(s[0]) && !IsSpace(s[|s| - 1])
    ensures Trim(" " + s + " ") == s
  {
    var p := " " + s + " ";
    assert p[1..] == s + " ";
    assert TrimStart(p) == TrimStart(s + " ");
    assert TrimStart(s + " ") == s + " ";
    assert (s + " ")[..|s|] == s;
  }

  /** `group_thumbnail`: absent, some non-array value, or an attachment array (the
      attachments' `url` fields). */
  datatype ThumbnailField = NoThumbnail | NotAnArray | Attachments(urls: seq<string>)

  /** The first attachment's URL when the field is a non-empty array. */
  function Thumbnail(field: ThumbnailField): (thumbnail: Option<string>)
    ensures thumbnail.Some? <==> field.Attachments? && field.urls != []
    ensures thumbnail.Some? ==> thumbnail.value == field.urls[0] && thumbnail.value in field.urls
  {
    if field.Attachments? && |field.urls| > 0 then Some(field.urls[0]) else None
  }

  /** `Member`: absent, a number, or text such as "12,345". */
  datatype MemberField = NoMember | MemberNumber(n: nat) | MemberText(text: string)

  /** `.replace(/,/g, '')`. */
  function StripCommas(s: string): (r: string)
    ensures IsSubsequence(r, s) && |r| <= |s|
    ensures forall c :: c in r <==> c in s && c != ','
    ensures ',' !in s ==> r == s
  {
    var keep := (c: char) => c != ',';
    FilterIsSubsequence(s, keep);
    FilterMembers(s, keep);
    if ',' !in s then FilterKeepsAll(s, keep); Filter(s, keep) else Filter(s, keep)
  }

  /** `member_count`: a falsy `Member` (absent, 0 or "") is null; otherwise its text
      without commas read by `parseInt(_, 10)` (`None` is NaN, sent as null). */
  /** A numeric count comes back as itself, except 0, which is falsy; "12,345"-style
      text reads as the number its digits denote; an absent or empty field is null. */
  function MemberCount(member: MemberField): (count: Option<int>)
    ensures member.NoMember? || member == MemberText("") ==> count.None?
    ensures member.MemberNumber? ==> count == if member.n == 0 then None else Some(member.n)
    ensures member.MemberText? && StripCommas(member.text) != "" && AllDigits(StripCommas(member.text)) ==>
      count == Some(DigitsValue(StripCommas(member.text)))
  {
    match member
      case NoMember => None
      case MemberNumber(n) =>
        DecimalHasNoComma(n);
        ParseIntDecimal(n);
        if n == 0 then None else ParseInt(StripCommas(Decimal(n)))
      case MemberText(text) => if text == "" then None else ParseInt(StripCommas(text))
  }

  lemma DecimalHasNoComma(n: nat)
    ensures ',' !in Decimal(n)
  {
    forall i | 0 <= i < |Decimal(n)|
      ensures Decimal(n)[i] != ','
    {
      assert IsDigit(Decimal(n)[i]);
    }
  }

  /** A record of the groups table: its id and the two fields the route derives from. */
  datatype GroupRecord = GroupRecord(id: string, thumbnail: ThumbnailField, member: MemberField)

  /** A group as sent: the record's id with the derived `thumbnail` and `member_count`. */
  datatype GroupRow = GroupRow(id: string, thumbnail: Option<string>, memberCount: Option<int>)

  function Shape(record: GroupRecord): (row: GroupRow)
    ensures row.id == record.id
  {
    GroupRow(record.id, Thumbnail(record.thumbnail), MemberCount(record.member))
  }

  datatype GroupsResponse = Refused(outcome: Outcome) | Failed | Page(groups: seq<GroupRow>, pagination: Meta)

  /** `GET`: the approval gate, then all records of the selected view (the Airtable read
      is the parameter `select`, `None` when it throws), one page of them, shaped, and
      the page's metadata. */
  function GetGroups(signedIn: bool, profile: Option<Access>, page: int, limit: int, view: string,
                     select: Option<string> -> Option<seq<GroupRecord>>): (r: GroupsResponse)
    requires page >= 1 && limit >= 1
    ensures r.Refused? <==> !ApprovalGate(signedIn, profile).Allowed?
    ensures r.Refused? ==> r.outcome == ApprovalGate(signedIn, profile)
    ensures r.Failed? <==> ApprovalGate(signedIn, profile).Allowed? && select(SelectOptions(view)).None?
    ensures r.Page? ==>
      var records := select(SelectOptions(view)).value;
      |r.groups| == |PageSlice(records, page, limit)|
      && (forall i :: 0 <= i < |r.groups| ==> r.groups[i] == Shape(records[Offset(page, limit) + i]))
      && r.pagination.total == |records|
      && (r.pagination.hasNext <==> Offset(page, limit) + limit < |records|)
      && (r.pagination.hasPrev <==> page > 1)
      && r.pagination.totalPages * limit >= |records|
      && (r.pagination.totalPages == 0 || (r.pagination.totalPages - 1) * limit < |records|)
  {
    var gate := ApprovalGate(signedIn, profile);
    if !gate.Allowed? then Refused(gate)
    else match select(SelectOptions(view))
      case None => Failed
      case Some(records) =>
        var rows := PageSlice(records, page, limit);
        HasNextIffNotLast(page, limit, |records|);
        Page(seq(|rows|, i requires 0 <= i < |rows| => Shape(rows[i])), Metadata(page, limit, |records|))
  }

  /** The pages of a view hold every record exactly once: record `j` is on page
      `j / limit + 1`, at position `j % limit`. */
  lemma EveryRecordOnAPage(signedIn: bool, profile: Option<Access>, limit: int, view: string,
                           select: Option<string> -> Option<seq<GroupRecord>>, j: nat)
    requires limit >= 1 && ApprovalGate(signedIn, profile).Allowed?
    requires select(SelectOptions(view)).Some? && j < |select(SelectOptions(view)).value|
    ensures var r := GetGroups(signedIn, profile, j / limit + 1, limit, view, select);
      r.Page? && j % limit < |r.groups| && r.groups[j % limit] == Shape(select(SelectOptions(view)).value[j])
      && j / limit + 1 <= r.pagination.totalPages
  {
    RowOnItsPage(select(SelectOptions(view)).value, limit, j);
  }

  /** The fields `POST` writes. */
  datatype NewGroup = NewGroup(groupName: string, groupUrl: string, status: string)

  datatype CreateResponse = CreateUnauthorized | CreateFailed | Created(record: NewGroup)

  /** `POST`: any signed-in user creates an active group with the given name and URL
      (`created` is whether the Airtable write succeeded). */
  function PostGroup(signedIn: bool, groupName: string, groupUrl: string, created: bool): (r: CreateResponse)
    ensures !signedIn <==> r.CreateUnauthorized?
    ensures r.Created? <==> signedIn && created
    ensures r.Created? ==> (r.record.status == "active" && r.record.groupName == groupName
      && r.record.groupUrl == groupUrl)
  {
    if !signedIn then CreateUnauthorized
    else if created then Created(NewGroup(groupName, groupUrl, "active"))
    else CreateFailed
  }

  /** Creating has no approval gate: a user still waiting for approval, who may not
      list groups, may create one. */
  lemma CreateSkipsApproval(groupName: string, groupUrl: string, role: Role)
    ensures PostGroup(true, groupName, groupUrl, true).Created?
    ensures GetGroups(true, Some(Access(role, PendingApproval)), 1, 100, DefaultView,
                      _ => None).Refused?
  {
  }
}
