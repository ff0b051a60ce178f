# Facebook group scraper dashboard: a Dafny model of its core logic

The application is a Next.js dashboard over an Airtable table of Facebook groups and a
Supabase database of scraped posts. Users sign in, wait for an administrator to approve them,
tick groups in a grid to scrape, and browse the collected posts in a report page with a quick
filter, image viewer and pagination. This project models the logic inside that UI and its route
handlers:

- the report page's helpers: Vietnamese diacritic folding, the `&`-separated keyword filter,
  `media_urls` parsing, message truncation, per-group statistics, post selection, the image
  carousel and the five-button page window (`Diacritics`, `Keywords`, `PostFilters`,
  `Truncation`, `GroupStats`, `PageWindow`, and the class `ReportView.ReportPage` for the page's
  state);
- the dashboard's per-view group selection, with clicks, select-all, clear and drag ranges
  (class `Dashboard.GroupSelection`);
- the pagination arithmetic of the routes (`Pagination`), the groups route (`GroupsRoute`), the
  results posts route with its keyword OR filter (`ResultsPosts`) and its earlier version in
  `facebook-scraper-v2` (`LegacyPosts`);
- the table-name filter of the results tables route (`ResultsTables`);
- the approval and admin gates (`Access`) and the `user_profiles` store behind the profile route
  and the admin users route (class `Profiles.ProfileStore`).

`Wrappers`, `Seqs`, `Strings` and `Numbers` give the JavaScript primitives the code leans on:
`filter`, `new Set` de-duplication, `split`, `join`, `trim`, `toLowerCase`, `includes`,
`toString` and `parseInt`.

Calls into code the model cannot see become parameters:

- `JSON.parse` is a function from the text to array, other value or syntax error;
- the Airtable `select` is a function from the view option to the records or a failure;
- a Supabase query is a function from the query built to rows and count, or an error;
- a `fetch` of the posts route is the reply it produced;
- the auth service is the signed-in user, or none;
- the clock is a number.

The results posts route (`src/app/api/results/posts/route.ts:61-65`) puts every clause of every
keyword into one `.or(...)`, so a row matching any one keyword in any one field is returned.
Only the client quick filter ANDs the `&`-separated keywords.

Lengths in the message truncation are JavaScript's `length`: UTF-16 code units, so a character
outside the Basic Multilingual Plane, such as an emoji, counts two (`Strings.Utf16Length`).

## Model

| member | source | states |
|---|---|---|
| Diacritics.Fold | src/app/results/report/ReportClient.tsx:108-139 | folding keeps the length and replaces each character by its table letter, leaving characters outside the table alone |
| Diacritics.FoldIdempotent | src/app/results/report/ReportClient.tsx:108-139 | folding twice is folding once, since no output letter is in the replaced class |
| Diacritics.FoldKeepsIncludes | src/app/results/report/ReportClient.tsx:279-290 | a substring match survives folding of both sides, so folding only widens the search |
| Diacritics.FoldConcat | src/app/results/report/ReportClient.tsx:108-139 | folding works character by character: it distributes over concatenation |
| Keywords.Tokenize | src/app/results/report/ReportClient.tsx:276-277 | tokens are non-empty, contain no `&` and are already trimmed |
| Keywords.TokenizeNoWords | src/app/results/report/ReportClient.tsx:276-277 | a keyword of only white space and `&` gives no tokens |
| Keywords.TokenizeSeparatorOnly | src/app/api/results/posts/route.ts:57 | the keyword `&` gives no tokens |
| Keywords.TokenizeConcat | src/app/results/report/ReportClient.tsx:276-277 | tokenizing `k1&k2` gives the tokens of `k1` followed by those of `k2` |
| PostFilters.ParseMediaUrls | src/app/results/report/ReportClient.tsx:141-158 | an absent or empty field has no URLs; text that is not JSON gives only non-blank URLs without `\|` |
| PostFilters.MediaFallback | src/app/results/report/ReportClient.tsx:141-158 | text that is not JSON gives its non-blank, untrimmed `\|` pieces in order, all of them, and joins back to the field when none is blank |
| PostFilters.MediaSingleUrl | src/app/results/report/ReportClient.tsx:150-154 | a single non-JSON URL is the only URL, and a blank one gives none |
| PostFilters.ApplyFiltersIsConjunction | src/app/results/report/ReportClient.tsx:272-307 | the three filter stages in a row equal one filter by the conjunction of the keyword, thumbnail and group tests |
| PostFilters.ApplyFiltersKeepsMatching | src/app/results/report/ReportClient.tsx:272-307 | the result is an order-preserving sub-list, and a loaded post is in it exactly when it passes every set filter |
| PostFilters.ApplyFilters | src/app/results/report/ReportClient.tsx:272-307 | never more posts than loaded, and with a group selected only posts of that group |
| PostFilters.KeywordStageIsFilter | src/app/results/report/ReportClient.tsx:276-291 | the keyword stage keeps the posts whose search text holds every folded token, and keeps every post for a blank keyword |
| PostFilters.KeywordStageAsFilter | src/app/results/report/ReportClient.tsx:276-291 | blank or not, the keyword stage filters by the keyword's tokens, so an `&`-only keyword keeps every post |
| PostFilters.KeywordConjunction | src/app/results/report/page.tsx:288-303 | filtering by `k1&k2` is filtering by `k1` and then by `k2` |
| PostFilters.MatchesAllConcat | src/app/results/report/ReportClient.tsx:286-289 | matching all of two token lists is matching each |
| PostFilters.SearchTextParts | src/app/results/report/ReportClient.tsx:280-284 | the search text is the lower-cased, folded message, author and group name around two spaces, a missing field read as empty |
| PostFilters.FieldHitMatches | src/app/results/report/ReportClient.tsx:279-290 | a token found in any one field matches |
| PostFilters.ThumbnailStageIsFilter | src/app/results/report/ReportClient.tsx:294-298 | `with` keeps the posts with media, `without` those without, any other value keeps all |
| PostFilters.ThumbnailPartition | src/app/results/report/ReportClient.tsx:294-298 | the `with` and `without` results together count exactly the `all` result |
| PostFilters.GroupStageIsFilter | src/app/results/report/ReportClient.tsx:301-303 | the group filter keeps exactly the posts whose group id is the selected one |
| PostFilters.NoFiltersShowsAll | src/app/results/report/ReportClient.tsx:272-307 | with no filter set every post is shown |
| PostFilters.BlankHasNoTokens | src/app/results/report/ReportClient.tsx:276-277 | a blank keyword has no tokens |
| PostFilters.ThumbnailCounts | src/app/results/report/page.tsx:329-330 | the two counters add up to the number of filtered posts, the second counting those without media |
| Truncation.TruncateMessage | src/app/results/report/ReportClient.tsx:196-226 | blank gives nothing; a short message shows whole; more than four lines keeps four; otherwise the word loop's text; a cut is always shorter than the message; lengths in UTF-16 code units |
| Truncation.StopFrom | src/app/results/report/ReportClient.tsx:217-220 | the word loop stops at the first word that would overflow the budget, every earlier word fitting |
| Truncation.StopIsFirstBreak | src/app/results/report/ReportClient.tsx:217-220 | any index before which every word fits and at which one does not is the stop |
| Truncation.WordTruncateBound | src/app/results/report/page.tsx:206-214 | the word cut is at most 251 code units: the budget check ignores the joining space |
| Truncation.WordTruncateBoundIsTight | src/app/results/report/page.tsx:206-214 | three words of 125 code units reach 251 |
| Truncation.FirstWordTooLong | src/app/results/report/page.tsx:206-214 | a first word over 250 code units leaves an empty text |
| Truncation.AccumulateIsJoin | src/app/results/report/ReportClient.tsx:217-220 | without empty words the loop's text is the taken words joined by single spaces |
| Truncation.WordTruncateIsPrefix | src/app/results/report/ReportClient.tsx:214-222 | without empty words the word cut is a prefix of the message |
| Truncation.CutLinesIsShorter | src/app/results/report/ReportClient.tsx:209-212 | keeping four of five or more non-blank lines always drops text |
| Truncation.WordCutCoversTheRest | src/app/results/report/ReportClient.tsx:214-225 | a non-blank message neither shown whole nor cut by lines is over 300 code units, so the final `return` is unreachable |
| Truncation.AccumulateDropsSpaces | src/app/results/report/ReportClient.tsx:217-220 | the loop's text differs from the joined words only by dropped spaces, so it is as much shorter in code units as in characters |
| Truncation.WordCutIsShorter | src/app/results/report/ReportClient.tsx:214-222 | a message over 300 code units loses something when cut by words |
| Truncation.AstralMessageIsCutToNothing | src/app/results/report/ReportClient.tsx:204-219 | 160 emoji are 160 characters but 320 code units: the message is cut by words and shows nothing |
| Strings.Utf16Length | src/app/results/report/ReportClient.tsx:204 | a string is between one and two code units per character long |
| GroupStats.GenerateGroupStats | src/app/results/report/page.tsx:79-96 | the loop over the posts with its map of counters computes the statistics function |
| GroupStats.Stats | src/app/results/report/page.tsx:79-96 | every entry counts at least one post |
| GroupStats.ScanIsEntries | src/app/results/report/page.tsx:79-96 | after any prefix of the posts the loop holds the ids in order of first appearance and one entry per id, with its first name and its count |
| GroupStats.StatsDistinct | src/app/results/report/page.tsx:79-96 | one entry per distinct group id, in order of first appearance, none repeated |
| GroupStats.StatsCover | src/app/results/report/page.tsx:82-93 | a group id has an entry exactly when some post carries it |
| GroupStats.CountIsFilterLength | src/app/results/report/page.tsx:82-92 | an entry's count is the number of posts with that group id |
| GroupStats.FirstNameIsFirstPosts | src/app/results/report/page.tsx:83-86 | an entry's name is that of the first post with the id, or "Unknown Group" |
| GroupStats.UngroupedIgnored | src/app/results/report/page.tsx:81-82 | posts without a group id leave the statistics unchanged |
| GroupStats.StatsOrderStable | src/app/results/report/page.tsx:79-96 | more posts only append entries; existing groups keep their order |
| PageWindow.Window | src/app/results/report/ReportClient.tsx:889-899 | `min(5, totalPages)` consecutive page numbers within `[1, totalPages]`, holding the current page when it is in range |
| PageWindow.LastPageLinkIffHidden | src/app/dashboard/page.tsx:611-638 | with more than five pages the "… last" link is drawn exactly when the last page is not a button |
| PageWindow.ShowingCountsPageRows | src/app/dashboard/page.tsx:594 | "Showing a to b" starts after the offset and counts exactly the rows of the page the groups route sends |
| Pagination.ParamOr | src/app/api/results/posts/route.ts:34-37 | a missing or empty parameter takes the default, any other is used as it is |
| Pagination.IntParam | src/app/api/results/posts/route.ts:34-35 | a present, non-empty parameter is parsed; otherwise the default is |
| Pagination.IntParamDefaults | src/app/api/results/posts/route.ts:34-35 | a missing or empty numeric parameter reads as its default, and a numeral as its value |
| Pagination.Offset | src/app/api/groups/route.ts:38 | the offset is `(page - 1) * limit`, zero exactly on page 1 |
| Pagination.PageSlice | src/app/api/groups/route.ts:59-62 | the rows are `records[offset .. offset + limit)` clipped to the list |
| Pagination.InclusiveRange | src/app/api/results/posts/route.ts:68-71 | the inclusive range starts at the offset and spans exactly `limit` rows |
| Pagination.RangesTile | facebook-scraper-v2/src/app/api/results/posts/route.ts:50-54 | the next page's range starts right after this page's range ends |
| Pagination.TotalPages | src/app/api/groups/route.ts:94 | `ceil(total / limit)`: enough pages for every row, and no empty last page |
| Pagination.HasNextIffNotLast | src/app/api/results/posts/route.ts:90 | `offset + limit < total` holds exactly when the page is before the last |
| Pagination.RowOnItsPage | src/app/api/groups/route.ts:56-62 | every row is on a page within the page count, at its position on that page |
| Pagination.Metadata | src/app/api/results/posts/route.ts:85-92 | the metadata carries the page, limit and total, the ceiling page count, `hasNext` iff not last, `hasPrev` iff past page 1 |
| Numbers.ParseIntDecimal | src/app/results/report/ReportClient.tsx:187-190 | `parseInt` reads back what `toString` wrote |
| Numbers.DecimalInjective | src/app/results/report/ReportClient.tsx:187-190 | distinct indices have distinct id strings |
| Numbers.ParseInt | src/app/api/groups/route.ts:73 | a plain run of digits reads as the number it denotes |
| ReportView.Toggled | src/app/results/report/ReportClient.tsx:177-185 | the clicked id's membership flips and every other id keeps its own |
| ReportView.ToggleTwice | src/app/results/report/ReportClient.tsx:177-185 | two clicks on a post give the selection back |
| ReportView.IndexIds | src/app/results/report/ReportClient.tsx:187-190 | select-all holds the id of every filtered post's index |
| ReportView.IndexIdsCount | src/app/results/report/ReportClient.tsx:187-190 | select-all selects exactly as many ids as there are filtered posts |
| ReportView.NextIndex | src/app/results/report/page.tsx:255-257 | the next image index stays in range and wraps from the last to the first |
| ReportView.PrevIndex | src/app/results/report/page.tsx:259-261 | the previous image index stays in range and wraps from the first to the last |
| ReportView.PrevUndoesNext | src/app/results/report/page.tsx:255-261 | previous undoes next and next undoes previous |
| ReportView.ReportPage.constructor | src/app/results/report/ReportClient.tsx:26-50 | the page starts on page 1 with the server's posts, nothing selected, no filter and no images open |
| ReportView.ReportPage.ApplyFilters | src/app/results/report/ReportClient.tsx:272-307 | the shown posts become the filtered posts and the selection is emptied; no other field changes |
| ReportView.ReportPage.HandleKeywordChange | src/app/results/report/ReportClient.tsx:364-366 | only the keyword filter changes, and the filter is re-run; no other field changes |
| ReportView.ReportPage.FilterByThumbnail | src/app/results/report/ReportClient.tsx:309-311 | only the thumbnail filter changes, and the filter is re-run; no other field changes |
| ReportView.ReportPage.FilterByGroup | src/app/results/report/ReportClient.tsx:313-315 | only the group filter changes, and the filter is re-run; no other field changes |
| ReportView.ReportPage.HandlePostSelect | src/app/results/report/ReportClient.tsx:177-185 | the selection becomes the toggled selection; no other field changes |
| ReportView.ReportPage.HandleSelectAll | src/app/results/report/ReportClient.tsx:187-190 | the selection becomes the index ids of all filtered posts; no other field changes |
| ReportView.ReportPage.HandleUnselectAll | src/app/results/report/ReportClient.tsx:192-194 | the selection becomes empty; no other field changes |
| ReportView.ReportPage.OpenImageModal | src/app/results/report/ReportClient.tsx:236-239 | the images and index open, keeping the index in range; no other field changes |
| ReportView.ReportPage.CloseImageModal | src/app/results/report/ReportClient.tsx:241-244 | the images close and the index returns to 0; no other field changes |
| ReportView.ReportPage.NextImage | src/app/results/report/page.tsx:255-257 | the index moves to the next image, cyclically, staying in range; no other field changes |
| ReportView.ReportPage.PrevImage | src/app/results/report/page.tsx:259-261 | the index moves to the previous image, cyclically, staying in range; no other field changes |
| ReportView.ReportPage.HandlePageChange | src/app/results/report/ReportClient.tsx:321-324 | the page changes and the selection empties; no other field changes |
| ReportView.ReportPage.LoadTableData | src/app/results/report/ReportClient.tsx:66-86 | asks for the current page of 100 posts; an ok reply replaces the posts and the statistics, takes the total and metadata and clears the server-search mark; a failed one changes no field |
| ReportView.ReportPage.PerformServerSearch | src/app/results/report/page.tsx:337-373 | a blank keyword goes back to page 1 and reloads, asking for the page shown before; otherwise asks for up to 1000 matches of the trimmed keyword, and an ok reply shows them from page 1; after an ok reply the server-search mark is set exactly for a non-blank keyword, and a failed reply leaves the shown posts, metadata, total, statistics and mark as they were |
| ReportView.ReportPage.ShowRows | src/app/results/report/ReportClient.tsx:71-78 | an ok reply's rows become the posts and the filtered posts, with the reply's metadata, its total and the rows' group statistics, and the server-search mark is cleared; nothing else changes |
| ReportView.ReportPage.CurrentPagination | src/app/results/report/ReportClient.tsx:375-383 | the server's metadata when there is one, otherwise metadata computed from the page and total with 100 per page |
| ReportView.ReportPage.PageButtons | src/app/results/report/ReportClient.tsx:879-900 | no buttons unless there is more than one page; otherwise consecutive pages within the page count, holding the current page when in range |
| ReportView.ReportPage.ThumbnailCounters | src/app/results/report/ReportClient.tsx:317-319 | the with and without counters add up to the number of filtered posts |
| Dashboard.ToggledList | src/app/dashboard/page.tsx:60-69 | the clicked group's membership flips and every other group keeps its own |
| Dashboard.ToggleKeepsDistinct | src/app/dashboard/page.tsx:63-66 | a click never introduces a repeated id |
| Dashboard.ToggleTwice | src/app/dashboard/page.tsx:63-66 | two clicks restore membership, and the list itself when the group was not ticked |
| Dashboard.GroupIds | src/app/dashboard/page.tsx:71-77 | the ids of the shown groups, in order |
| Dashboard.IsGroupSelected | src/app/dashboard/page.tsx:86-88 | a group is ticked only when the current view has a list and the id is in it |
| Dashboard.SelectedCount | src/app/dashboard/page.tsx:90-92 | zero for a view without a list, and zero means no group is ticked |
| Dashboard.SelectedGroupUrls | src/app/dashboard/page.tsx:94-99 | the URLs are a sub-list of the shown URLs in grid order, and a shown group's URL is in it exactly when the group is ticked |
| Dashboard.UrlsOfFilter | src/app/dashboard/page.tsx:94-99 | the URLs of a filtered grid are a sub-list of all URLs, holding exactly the kept groups' URLs |
| Dashboard.DragRange | src/app/dashboard/page.tsx:516-524 | the ids of the cards between the drag start and the current card, inclusive, in either direction, clipped to the grid |
| Dashboard.Union | src/app/dashboard/page.tsx:520-522 | the union has no repeats and holds exactly the earlier and the added ids |
| Dashboard.UnionKeepsEarlier | src/app/dashboard/page.tsx:520-522 | earlier ticks keep their places at the front of the list |
| Dashboard.GroupSelection.constructor | src/app/dashboard/page.tsx:25-27 | no view has a list and no drag is in progress |
| Dashboard.GroupSelection.Toggle | src/app/dashboard/page.tsx:60-69 | the current view's list becomes the toggled list, an absent one read as empty; other views are untouched |
| Dashboard.GroupSelection.SelectAll | src/app/dashboard/page.tsx:71-77 | the current view's list becomes the shown groups' ids in order; other views are untouched |
| Dashboard.GroupSelection.UnselectAll | src/app/dashboard/page.tsx:79-84 | the current view's list becomes empty; other views are untouched |
| Dashboard.GroupSelection.BeginDrag | src/app/dashboard/page.tsx:510-514 | a drag starts at the card; the selection is untouched |
| Dashboard.GroupSelection.DragEnter | src/app/dashboard/page.tsx:515-525 | while dragging, the current view's list becomes its union with the dragged range; otherwise nothing changes |
| Dashboard.GroupSelection.EndDrag | src/app/dashboard/page.tsx:155-165 | the drag ends; the selection is untouched |
| Dashboard.ToggleFlips | src/app/dashboard/page.tsx:60-69 | after a click the group's tick is flipped and every other group keeps its tick |
| Dashboard.SelectAllTicksEvery | src/app/dashboard/page.tsx:71-77 | after select-all every shown group is ticked and the count is the number shown |
| Dashboard.DragTicksRange | src/app/dashboard/page.tsx:515-525 | after a drag every dragged group is ticked and so is every group ticked before |
| Access.ApprovalGate | src/app/api/groups/route.ts:15-31 | no user is 401; allowed exactly for an active profile; otherwise 403 with `needsApproval` exactly when the profile is missing or pending |
| Access.TablesGate | src/app/api/results/tables/route.ts:14-29 | the same decision, with no `needsApproval` flag |
| Access.GatesAgree | src/app/api/results/tables/route.ts:14-29 | both gates allow, refuse with 401 and refuse with 403 the same callers |
| Access.ApprovalIgnoresRole | src/app/api/results/posts/route.ts:14-30 | the approval gate reads only the status: an inactive admin is refused |
| Access.AdminGate | src/app/api/admin/users/route.ts:41-43 | no user is 401; allowed exactly for the role admin, whatever the status; a missing profile is 403 |
| Access.InactiveAdmin | src/app/api/admin/users/route.ts:41-43 | an inactive admin passes the admin check but not the approval gate |
| Access.HiddenTables | src/app/api/results/posts/route.ts:41 | no setting hides nothing; otherwise at least one name, each trimmed and without commas |
| Access.HiddenTablesListed | src/app/api/results/tables/route.ts:49 | each comma-separated name of the setting is hidden, trimmed of its padding |
| Access.HiddenTablesSingle | facebook-scraper-v2/src/app/api/results/posts/route.ts:40 | a setting without commas hides exactly its trimmed text |
| Access.HiddenTablesOfList | src/app/api/results/tables/route.ts:49 | any list of comma-free names joined with commas is hidden name by name, trimmed |
| ResultsTables.FilterTables | src/app/api/results/tables/route.ts:48-70 | never more names than given |
| ResultsTables.FilterTablesKeepsShown | src/app/api/results/tables/route.ts:52-69 | an order-preserving sub-list; a name is kept exactly when no prefix, fragment or hidden-name rule excludes it |
| ResultsTables.FilterTablesIdempotent | src/app/api/results/tables/route.ts:48-70 | filtering twice is filtering once |
| ResultsTables.SystemTablesHidden | src/app/api/results/tables/route.ts:53-59 | migration, `pg_` and PostGIS tables are never offered |
| ResultsTables.DefaultsPass | src/app/api/results/tables/route.ts:32-33 | the two default tables pass unless the setting names them |
| ResultsTables.ShortNameNotSystem | src/app/api/results/tables/route.ts:53-59 | a short name starting with neither `_` nor `pg` is no system table |
| ResultsTables.GetTables | src/app/api/results/tables/route.ts:14-69 | tables exactly when the gate allows, refusals without the approval flag, and the tables a sub-list of the defaults |
| GroupsRoute.SelectOptions | src/app/api/groups/route.ts:49-54 | no view option exactly for an empty, `all` or blank view; otherwise the trimmed, non-empty name |
| GroupsRoute.ViewParam | src/app/api/groups/route.ts:37 | the `view` parameter when present and non-empty, otherwise `Grid view` |
| GroupsRoute.DefaultViewIsGridView | src/app/api/groups/route.ts:37 | without a view parameter the route reads the view 'Grid view' |
| GroupsRoute.AllViewReadsEverything | src/app/api/groups/route.ts:49-54 | the view `all` reads every record |
| GroupsRoute.UnpaddedViewSelected | src/app/api/groups/route.ts:49-54 | a view name without padding is used as it is |
| GroupsRoute.PaddedAllIsAView | src/app/api/groups/route.ts:49-54 | `all` is compared before trimming, so ` all ` selects a view named `all` |
| GroupsRoute.Thumbnail | src/app/api/groups/route.ts:68-71 | a thumbnail exactly for a non-empty attachment array, and then the first attachment's URL |
| GroupsRoute.StripCommas | src/app/api/groups/route.ts:73 | an order-preserving sub-sequence of the text holding exactly its characters other than commas; text without commas is kept as it is |
| GroupsRoute.MemberCount | src/app/api/groups/route.ts:73 | an absent or empty field is null; a numeric count comes back unchanged, except 0, which is null; "12,345"-style text reads as the number its digits spell |
| GroupsRoute.Shape | src/app/api/groups/route.ts:66-81 | a row keeps the record id and derives the thumbnail and member count |
| GroupsRoute.GetGroups | src/app/api/groups/route.ts:7-104 | refusals exactly as the gate decides, 500 exactly when the read fails, otherwise the shaped page slice with the metadata of the whole view |
| GroupsRoute.EveryRecordOnAPage | src/app/api/groups/route.ts:56-62 | every record of the view is sent on some page within the page count |
| GroupsRoute.PostGroup | src/app/api/groups/route.ts:106-129 | 401 exactly without a user; a created record is active with the given name and URL |
| GroupsRoute.CreateSkipsApproval | src/app/api/groups/route.ts:106-122 | a user still awaiting approval may create a group but not read the groups |
| ResultsPosts.RouteDefaults | src/app/api/results/posts/route.ts:34-37 | without parameters: page 1, 100 rows, table `posts` |
| ResultsPosts.ClauseTriple | src/app/api/results/posts/route.ts:61-63 | three clauses per keyword |
| ResultsPosts.Clauses | src/app/api/results/posts/route.ts:61-65 | three clauses per keyword, keyword after keyword |
| ResultsPosts.OrConditions | src/app/api/results/posts/route.ts:61-65 | the filter string is empty exactly when there are no keywords |
| ResultsPosts.ClauseSplits | src/app/api/results/posts/route.ts:61-63 | one keyword's text splits into its message, author and group-name clauses |
| ResultsPosts.OrConditionsClauses | src/app/api/results/posts/route.ts:61-65 | the filter string splits into exactly three clauses per token, in token order |
| ResultsPosts.QueryFor | src/app/api/results/posts/route.ts:50-72 | a range exactly when not searching; an OR filter exactly when searching with at least one token |
| ResultsPosts.BuildQuery | src/app/api/results/posts/route.ts:50-72 | reassigning the query step by step builds that query |
| ResultsPosts.QueryShapes | src/app/api/results/posts/route.ts:56-71 | without a keyword the range is the page's `limit` rows; the keyword `&` gives neither filter nor range |
| ResultsPosts.GetPosts | src/app/api/results/posts/route.ts:14-97 | refused as the gate decides; hidden tables are 403 before any query; 500 on a query error; otherwise the rows and metadata from the count, 0 when missing |
| LegacyPosts.LegacyDefaults | facebook-scraper-v2/src/app/api/results/posts/route.ts:34-37 | without parameters: page 1, 50 rows, table `posts` |
| LegacyPosts.GetLegacyPosts | facebook-scraper-v2/src/app/api/results/posts/route.ts:10-78 | refused as the gate decides; hidden tables are 403; otherwise always the inclusive range of the page, with the metadata |
| LegacyPosts.LegacyIsUnsearched | facebook-scraper-v2/src/app/api/results/posts/route.ts:50-74 | the earlier route answers exactly as the current one does without a keyword |
| Profiles.FirstTruthy | facebook-scraper-v2/src/app/api/auth/profile/route.ts:33-34 | the first present, non-empty value, and null exactly when neither is one |
| Profiles.NewProfile | facebook-scraper-v2/src/app/api/auth/profile/route.ts:29-37 | a new row has the user's id and email, pending role and status, the full name, else the name, and the avatar |
| Profiles.NewUserAwaitsApproval | facebook-scraper-v2/src/app/api/auth/profile/route.ts:29-37 | a new user's profile is refused by the approval gate and flagged as awaiting approval |
| Profiles.InsertByCreated | src/app/api/admin/users/route.ts:47-50 | inserting into a newest-first list keeps it newest first and adds exactly the one profile |
| Profiles.WithRoleStatus | src/app/api/admin/users/route.ts:92-101 | only role, status and `updated_at` change |
| Profiles.ProfileStore.constructor | facebook-scraper-v2/src/lib/types.ts:9-19 | an empty `user_profiles` table, rows keyed by their user id |
| Profiles.ProfileStore.GetProfile | facebook-scraper-v2/src/app/api/auth/profile/route.ts:7-62 | 401 without a user, 500 on a lookup error, an existing row returned unchanged, otherwise exactly one pending row inserted and returned as new, or 500 with nothing stored |
| Profiles.ProfileStore.Patch | src/app/api/admin/users/route.ts:68-113 | 401 without a user, 403 unless the caller is an admin, 500 on an update error; otherwise only the target row's role, status and `updated_at` change |
| Profiles.ProfileStore.ListUsers | src/app/api/admin/users/route.ts:24-65 | 401 without a user, 403 unless an admin, 500 on a read error; otherwise every profile once, newest first |
| Profiles.ProfileStore.SelectNewestFirst | src/app/api/admin/users/route.ts:47-50 | every stored profile exactly once, newer creation times first |
| Profiles.InactiveAdminManages | src/app/api/admin/users/route.ts:85-87 | an admin whose status is not active still manages users |

## Left out

- Rendering, React effects and `fetch`: each effect is a separate call. After the posts or filters change the caller runs `ApplyFilters`. After a change to a page past the first it runs `LoadTableData`. A fetch is its request and the reply it got back.
- The effects cascade on mount is not modelled. `ReportView.ReportPage.constructor` leaves the group statistics empty until `LoadTableData` computes them.
- The report pages' "loading" and "searching" flags are not modelled, and neither are the post and image modals' markup or the Escape-key listener.
- The 300 ms delayed re-search on the dashboard is not modelled. Neither are the dashboard's view picker or `loadGroups`, which only fetch and store a reply.
- `formatMemberCount` and `formatVietnameseDate` use floating point, time zones and locale formatting. The group statistics' `lastCollected` reads the clock.
- Unicode `toLowerCase` is modelled for ASCII capitals and the Vietnamese capitals of the diacritic table only; other characters are left as they are.
- `trim` strips a fixed list of JavaScript white-space code points.
- Supabase's `ilike` matching, its ordering and its row counting are not modelled. Only the query built and the metadata computed from the count are.
- The Airtable view listing and view creation routes, the sign-in page, the client factories and configuration files are not part of this model.
- The `facebook-scraper-v2` groups and admin users routes repeat the gates modelled here and are not part of this model.
- Row-level security, and the difference between the session client and the service-role client, are not modelled.
- The race between two first logins inserting the same profile is not modelled.
- Roles and statuses are the three values each of the type declarations. A PATCH body carrying another string is not modelled.
- Timestamps are abstract numbers taken from the caller.
- Profiles.ProfileStore.ListUsers: the order among profiles created at the same time is left open, as the database leaves it.
- Profiles.ProfileStore.Patch: one method serves both the profile route's and the admin users route's PATCH. The two differ only in how they read the body.
- ResultsPosts.OrConditionsClauses: holds only for keywords without commas. A comma inside a keyword breaks its clause apart in PostgREST's reading.
- GroupsRoute.MemberCount: `parseInt`'s NaN is modelled as null, which is how it reaches the JSON reply. Member numbers are natural numbers; fractional ones are not modelled.
- GroupsRoute.Shape: the spread of all other record fields into the row is not modelled.
- ReportView.ReportPage.CurrentPagination: `ReportClient`'s fallback metadata has no `limit` field; the model fills it with the page size of 100.
- PostFilters.ParseMediaUrls: JSON array items are modelled as strings.
- GroupsRoute.GetGroups: requires `page >= 1` and `limit >= 1`. The route also accepts page 0 (an empty page with `hasNext` true), negative pages (a slice counted from the end), limit 0 (an infinite page count, sent as null) and NaN; those replies are not modelled.
- ResultsPosts.GetPosts: requires `page >= 1` and `limit >= 1`, for the same reason; a range built from a zero, negative or NaN page or limit is not modelled.
- LegacyPosts.GetLegacyPosts: requires `page >= 1` and `limit >= 1`, as above.
- Pagination.Offset: requires `page >= 1` and `limit >= 1`; the offsets of zero, negative or NaN parameters are not modelled.
- Numbers.ParseInt: models `parseInt(s, 10)`. The `page` and `limit` parameters are parsed without a radix, so JavaScript reads `0x10` as 16 where the model reads 0.
- The report page's date filter is not modelled: the UI sets it (`src/app/results/report/ReportClient.tsx:40`, `:676-701`) and `applyFilters` never reads it, but each change re-runs the filters and so empties the selection. `PostFilters.Filters` has no date field and no handler sets one.
