/** The state of the report page (`ReportClient` and its older twin `page.tsx`): the
    loaded posts, the filtered list, the selected post ids, the image viewer and the
    pagination, with the handlers that update them. */
module ReportView {
  import opened Wrappers
  import opened Strings
  import opened Numbers
  import opened Pagination
  import opened PostFilters
  import opened GroupStats
  import opened PageWindow

  const PostsPerPage := 100
  const SearchLimit := 1000

  /** `handlePostSelect`: delete the id if present, add it otherwise. */
  function Toggled(selected: set<string>, id: string): (r: set<string>)
    ensures id in r <==> id !in selected
    ensures forall x :: x != id ==> (x in r <==> x in selected)
  {
    if id in selected then selected - {id} else selected + {id}
  }

  /** Toggling the same id twice gives the selection back. */
  lemma ToggleTwice(selected: set<string>, id: string)
    ensures Toggled(Toggled(selected, id), id) == selected
  {
    var once := Toggled(selected, id);
    assert forall x :: x in Toggled(once, id) <==> x in selected;
  }

  /** `new Set(filteredPosts.map((_, index) => index.toString()))`. */
  function IndexIds(n: nat): (ids: set<string>)
    ensures forall i :: 0 <= i < n ==> Decimal(i) in ids
  {
    set i | 0 <= i < n :: Decimal(i)
  }

  /** Select-all selects exactly as many ids as there are filtered posts. */
  lemma {:induction false} IndexIdsCount(n: nat)
    ensures |IndexIds(n)| == n
  {
    if n > 0 {
      IndexIdsCount(n - 1);
      assert IndexIds(n) == IndexIds(n - 1) + {Decimal(n - 1)};
      if Decimal(n - 1) in IndexIds(n - 1) {
        var i :| 0 <= i < n - 1 && Decimal(n - 1) == Decimal(i);
        DecimalInjective(n - 1, i);
      }
    }
  }

  /** `(prev + 1) % currentImages.length`. */
  function NextIndex(i: int, n: int): (r: int)
    requires 0 <= i < n
    ensures 0 <= r < n
    ensures r == if i == n - 1 then 0 else i + 1
  {
    (i + 1) % n
  }

  /** `(prev - 1 + currentImages.length) % currentImages.length`. */
  function PrevIndex(i: int, n: int): (r: int)
    requires 0 <= i < n
    ensures 0 <= r < n
    ensures r == if i == 0 then n - 1 else i - 1
  {
    (i - 1 + n) % n
  }

  lemma PrevUndoesNext(i: int, n: int)
    requires 0 <= i < n
    ensures PrevIndex(NextIndex(i, n), n) == i && NextIndex(PrevIndex(i, n), n) == i
  {
  }

  /** What `fetch('/api/results/posts?...')` is asked for. */
  datatype PostsRequest = PostsRequest(table: string, keyword: Option<string>, page: int, limit: int)

  /** The fetched reply: not ok (or thrown), or the parsed body. */
  datatype PostsReply = NotOk | Reply(posts: Option<seq<Post>>, pagination: Option<Meta>)

  /** `data.pagination?.total || 0`. */
  function TotalOf(pagination: Option<Meta>): nat {
    if pagination.Some? then pagination.value.total else 0
  }

  class ReportPage {
    const tableName: string
    const json: string -> JsonParse
    var posts: seq<Post>
    var filteredPosts: seq<Post>
    var selectedPosts: set<string>
    var currentPage: int
    var totalCount: nat
    var pagination: Option<Meta>
    var isServerSearch: bool
    var filters: Filters
    var currentImages: seq<string>
    var selectedImageIndex: int
    var groupStats: seq<GroupStat>

    /** The image index points into the open images, and is 0 when none are open. */
    predicate Valid()
      reads this
    {
      if currentImages == [] then selectedImageIndex == 0
      else 0 <= selectedImageIndex < |currentImages|
    }

    constructor(tableName: string, initialPosts: seq<Post>, initialTotalCount: nat, json: string -> JsonParse)
      ensures Valid()
      ensures this.tableName == tableName && this.json == json
      ensures posts == initialPosts && filteredPosts == initialPosts && selectedPosts == {}
      ensures currentPage == 1 && totalCount == initialTotalCount && pagination.None? && !isServerSearch
      ensures filters == NoFilters && currentImages == [] && groupStats == []
    {
      this.tableName := tableName;
      this.json := json;
      posts := initialPosts;
      filteredPosts := initialPosts;
      selectedPosts := {};
      currentPage := 1;
      totalCount := initialTotalCount;
      pagination := None;
      isServerSearch := false;
      filters := NoFilters;
      currentImages := [];
      selectedImageIndex := 0;
      groupStats := [];
    }

    /** `applyFilters`, run whenever the filters or the posts change: recompute the
        filtered list and clear the selection. */
    method ApplyFilters()
      modifies this`filteredPosts, this`selectedPosts
      ensures filteredPosts == PostFilters.ApplyFilters(posts, filters, json)
      ensures selectedPosts == {}
      ensures posts == old(posts) && filters == old(filters) && currentPage == old(currentPage)
      ensures totalCount == old(totalCount) && pagination == old(pagination)
      ensures currentImages == old(currentImages) && selectedImageIndex == old(selectedImageIndex)
    {
      filteredPosts := PostFilters.ApplyFilters(posts, filters, json);
      selectedPosts := {};
    }

    /** `handleKeywordChange`: set the keyword; the filter effect then runs. */
    method HandleKeywordChange(value: string)
      modifies this`filters, this`filteredPosts, this`selectedPosts
      ensures filters == old(filters).(keyword := value)
      ensures filteredPosts == PostFilters.ApplyFilters(posts, filters, json) && selectedPosts == {}
      ensures posts == old(posts) && currentPage == old(currentPage)
      ensures currentImages == old(currentImages) && selectedImageIndex == old(selectedImageIndex)
    {
      filters := filters.(keyword := value);
      ApplyFilters();
    }

    /** `filterByThumbnail`: 'all', 'with' or 'without'; the filter effect then runs. */
    method FilterByThumbnail(kind: string)
      modifies this`filters, this`filteredPosts, this`selectedPosts
      ensures filters == old(filters).(thumbnailFilter := kind)
      ensures filteredPosts == PostFilters.ApplyFilters(posts, filters, json) && selectedPosts == {}
      ensures posts == old(posts) && currentPage == old(currentPage)
      ensures currentImages == old(currentImages) && selectedImageIndex == old(selectedImageIndex)
    {
      filters := filters.(thumbnailFilter := kind);
      ApplyFilters();
    }

    /** `filterByGroup`: a group id, or `None` for every group; the filter effect then runs. */
    method FilterByGroup(groupId: Option<string>)
      modifies this`filters, this`filteredPosts, this`selectedPosts
      ensures filters == old(filters).(selectedGroupId := groupId)
      ensures filteredPosts == PostFilters.ApplyFilters(posts, filters, json) && selectedPosts == {}
      ensures posts == old(posts) && currentPage == old(currentPage)
      ensures currentImages == old(currentImages) && selectedImageIndex == old(selectedImageIndex)
    {
      filters := filters.(selectedGroupId := groupId);
      ApplyFilters();
    }

    method HandlePostSelect(id: string)
      modifies this`selectedPosts
      ensures selectedPosts == Toggled(old(selectedPosts), id)
      ensures filteredPosts == old(filteredPosts) && posts == old(posts)
    {
      var next := selectedPosts;
      if id in next {
        next := next - {id};
      } else {
        next := next + {id};
      }
      selectedPosts := next;
    }

    method HandleSelectAll()
      modifies this`selectedPosts
      ensures selectedPosts == IndexIds(|filteredPosts|)
      ensures filteredPosts == old(filteredPosts) && posts == old(posts)
    {
      selectedPosts := set i | 0 <= i < |filteredPosts| :: Decimal(i);
    }

    method HandleUnselectAll()
      modifies this`selectedPosts
      ensures selectedPosts == {}
      ensures filteredPosts == old(filteredPosts) && posts == old(posts)
    {
      selectedPosts := {};
    }

    /** `openImageModal(images, index)`, called with the index of a shown image. */
    method OpenImageModal(images: seq<string>, index: int)
      requires 0 <= index < |images|
      modifies this`currentImages, this`selectedImageIndex
      ensures Valid()
      ensures currentImages == images && selectedImageIndex == index
    {
      currentImages := images;
      selectedImageIndex := index;
    }

    method CloseImageModal()
      modifies this`currentImages, this`selectedImageIndex
      ensures Valid()
      ensures currentImages == [] && selectedImageIndex == 0
    {
      currentImages := [];
      selectedImageIndex := 0;
    }

    /** The arrows exist only while images are open. */
    method NextImage()
      requires Valid() && currentImages != []
      modifies this`selectedImageIndex
      ensures Valid()
      ensures currentImages == old(currentImages)
      ensures selectedImageIndex == NextIndex(old(selectedImageIndex), |currentImages|)
    {
      selectedImageIndex := (selectedImageIndex + 1) % |currentImages|;
    }

    method PrevImage()
      requires Valid() && currentImages != []
      modifies this`selectedImageIndex
      ensures Valid()
      ensures currentImages == old(currentImages)
      ensures selectedImageIndex == PrevIndex(old(selectedImageIndex), |currentImages|)
    {
      selectedImageIndex := (selectedImageIndex - 1 + |currentImages|) % |currentImages|;
    }

    /** `handlePageChange`: move to the page and clear the selection. */
    method HandlePageChange(page: int)
      modifies this`currentPage, this`selectedPosts
      ensures currentPage == page && selectedPosts == {}
      ensures posts == old(posts) && filteredPosts == old(filteredPosts) && filters == old(filters)
    {
      currentPage := page;
      selectedPosts := {};
    }

    /** `loadTableData`: ask for the current page; on an ok reply, show its posts
        (all of them, until the filter effect runs), its pagination and its total. */
    method LoadTableData(reply: PostsReply) returns (request: PostsRequest)
      modifies this`posts, this`filteredPosts, this`pagination, this`totalCount, this`groupStats
      modifies this`isServerSearch
      ensures request == PostsRequest(tableName, None, old(currentPage), PostsPerPage)
      ensures reply.NotOk? ==> (posts == old(posts) && filteredPosts == old(filteredPosts)
        && pagination == old(pagination) && totalCount == old(totalCount)
        && groupStats == old(groupStats) && isServerSearch == old(isServerSearch))
      ensures reply.Reply? ==> (posts == reply.posts.GetOr([]) && filteredPosts == posts
        && pagination == reply.pagination && totalCount == TotalOf(reply.pagination)
        && groupStats == Stats(posts) && !isServerSearch)
      ensures currentPage == old(currentPage) && filters == old(filters)
      ensures selectedPosts == old(selectedPosts)
    {
      request := PostsRequest(tableName, None, currentPage, PostsPerPage);
      if reply.Reply? {
        ShowRows(reply.posts.GetOr([]), reply.pagination);
      }
    }

    /** `performServerSearch`: a blank keyword goes back to page 1 and reloads, the
        reload still asking for the page shown before (the closure read it before the
        state update); any other keyword asks for up to 1000 matches and, on an ok
        reply, shows them on page 1 with the pagination marked as a server search. */
    method PerformServerSearch(keyword: string, reply: PostsReply) returns (request: PostsRequest)
      modifies this`currentPage, this`isServerSearch
      modifies this`posts, this`filteredPosts, this`pagination, this`totalCount, this`groupStats
      ensures !NonBlank(keyword) ==> (currentPage == 1
        && request == PostsRequest(tableName, None, old(currentPage), PostsPerPage))
      ensures NonBlank(keyword) ==> request == PostsRequest(tableName, Some(Trim(keyword)), 1, SearchLimit)
      ensures reply.Reply? ==> (posts == reply.posts.GetOr([]) && filteredPosts == posts
        && totalCount == TotalOf(reply.pagination) && currentPage == 1 && groupStats == Stats(posts))
      ensures reply.Reply? ==> pagination == reply.pagination
      ensures reply.Reply? ==> (isServerSearch <==> NonBlank(keyword))
      ensures reply.NotOk? ==> (posts == old(posts) && filteredPosts == old(filteredPosts)
        && pagination == old(pagination) && totalCount == old(totalCount)
        && groupStats == old(groupStats) && isServerSearch == old(isServerSearch))
      ensures reply.NotOk? && NonBlank(keyword) ==> currentPage == old(currentPage)
      ensures filters == old(filters)
    {
      if !NonBlank(keyword) {
        var page := currentPage;
        currentPage := 1;
        request := PostsRequest(tableName, None, page, PostsPerPage);
        if reply.Reply? {
          ShowRows(reply.posts.GetOr([]), reply.pagination);
        }
        return;
      }
      request := PostsRequest(tableName, Some(Trim(keyword)), 1, SearchLimit);
      if reply.Reply? {
        ShowRows(reply.posts.GetOr([]), reply.pagination);
        isServerSearch := true;
        currentPage := 1;
      }
    }

    /** The state updates shared by every fetch that succeeds: the rows become the
        posts and the filtered list, with the reply's pagination (which carries no
        server-search mark), its total and the group statistics of the rows. */
    method ShowRows(rows: seq<Post>, meta: Option<Meta>)
      modifies this`posts, this`filteredPosts, this`pagination, this`totalCount, this`groupStats
      modifies this`isServerSearch
      ensures posts == rows && filteredPosts == rows && pagination == meta && !isServerSearch
      ensures totalCount == TotalOf(meta) && groupStats == Stats(rows)
    {
      posts := rows;
      filteredPosts := rows;
      pagination := meta;
      isServerSearch := false;
      totalCount := TotalOf(meta);
      groupStats := GenerateGroupStats(rows);
    }

    /** `currentPagination`: the server's metadata, or one computed from the total
        at 100 posts per page. */
    function CurrentPagination(): (m: Meta)
      reads this
      requires currentPage >= 1
      ensures pagination.Some? ==> m == pagination.value
      ensures pagination.None? ==> m == Metadata(currentPage, PostsPerPage, totalCount)
    {
      if pagination.Some? then pagination.value
      else
        var pages := TotalPages(totalCount, PostsPerPage);
        HasNextIffNotLast(currentPage, PostsPerPage, totalCount);
        Meta(currentPage, PostsPerPage, totalCount, pages, currentPage < pages, currentPage > 1)
    }

    /** `ReportClient` draws the page buttons when the (possibly computed) metadata
        has more than one page. */
    predicate ShowsPageButtons()
      reads this
      requires currentPage >= 1
    {
      CurrentPagination().totalPages > 1
    }

    /** The numbered buttons drawn: the window around the current page, or none. */
    function PageButtons(): (buttons: seq<int>)
      reads this
      requires currentPage >= 1
      ensures !ShowsPageButtons() ==> buttons == []
      ensures forall i :: 0 <= i < |buttons| ==> 1 <= buttons[i] <= CurrentPagination().totalPages
      ensures forall i :: 0 < i < |buttons| ==> buttons[i] == buttons[i - 1] + 1
      ensures ShowsPageButtons() && currentPage <= CurrentPagination().totalPages ==> currentPage in buttons
    {
      if ShowsPageButtons() then Window(currentPage, CurrentPagination().totalPages) else []
    }

    /** The counters under the thumbnail filter: with and without media. */
    function ThumbnailCounters(): (counts: (nat, int))
      reads this
      ensures counts.0 + counts.1 == |filteredPosts| && counts.1 >= 0
    {
      ThumbnailCounts(filteredPosts, json)
    }
  }
}
