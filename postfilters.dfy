/** The report page's client-side quick filter: the post record, the `media_urls`
    parser, the keyword / thumbnail / group filters and the thumbnail counters. */
module PostFilters {
  import opened Wrappers
  import opened Seqs
  import opened Strings
  import opened Diacritics
  import opened Keywords

  /** A row of a results table as the report pages read it; every column may be absent. */
  datatype Post = Post(
    id: Option<string>,
    author: Option<string>,
    message: Option<string>,
    mediaUrls: Option<string>,
    groupId: Option<string>,
    groupName: Option<string>,
    time: Option<string>)

  /** What `JSON.parse` makes of a string: an array (its items modelled as strings),
      any other JSON value, or a syntax error. The parser itself is a parameter. */
  datatype JsonParse = JsonArray(items: seq<string>) | JsonOther | JsonSyntaxError

  /** `x || ''` on an optional string column. */
  function OrEmpty(s: Option<string>): string {
    if s.Some? then s.value else ""
  }

  /** `parseMediaUrls`: a JSON array is taken as is, another JSON value gives no
      URLs, and text that is not JSON is split on `|` keeping the non-blank pieces. */
  function ParseMediaUrls(media: Option<string>, json: string -> JsonParse): (urls: seq<string>)
    ensures media.None? || media.value == "" ==> urls == []
    ensures media.Some? && media.value != "" && json(media.value).JsonSyntaxError? ==>
      forall i :: 0 <= i < |urls| ==> NonBlank(urls[i]) && '|' !in urls[i]
  {
    if media.None? || media.value == "" then []
    else match json(media.value)
      case JsonArray(items) => items
      case JsonOther => []
      case JsonSyntaxError =>
        FilterMembers(Split(media.value, '|'), NonBlank);
        Filter(Split(media.value, '|'), NonBlank)
  }

  /** The fallback keeps exactly the non-blank `|`-separated pieces, in order and
      untrimmed; when no piece is blank, joining them with `|` gives the field back. */
  lemma MediaFallback(media: string, json: string -> JsonParse)
    requires media != "" && json(media).JsonSyntaxError?
    ensures var urls := ParseMediaUrls(Some(media), json);
      IsSubsequence(urls, Split(media, '|')) &&
      (forall i :: 0 <= i < |urls| ==> NonBlank(urls[i]) && '|' !in urls[i]) &&
      (forall i :: 0 <= i < |Split(media, '|')| && NonBlank(Split(media, '|')[i]) ==>
         Split(media, '|')[i] in urls) &&
      ((forall i :: 0 <= i < |Split(media, '|')| ==> NonBlank(Split(media, '|')[i])) ==>
         Join(urls, "|") == media)
  {
    var pieces := Split(media, '|');
    FilterIsSubsequence(pieces, NonBlank);
    FilterMembers(pieces, NonBlank);
    if forall i :: 0 <= i < |pieces| ==> NonBlank(pieces[i]) {
      FilterKeepsAll(pieces, NonBlank);
      JoinSplit(media, '|');
    }
  }

  /** A single URL that is not JSON is the only URL, unless it is blank. */
  lemma MediaSingleUrl(media: string, json: string -> JsonParse)
    requires media != "" && json(media).JsonSyntaxError? && '|' !in media
    ensures ParseMediaUrls(Some(media), json) == (if NonBlank(media) then [media] else [])
  {
    SplitNoSep(media, '|');
  }

  predicate HasMedia(p: Post, json: string -> JsonParse) {
    |ParseMediaUrls(p.mediaUrls, json)| > 0
  }

  /** The text a keyword is looked up in: message, author and group name joined by
      spaces, lower-cased, diacritics removed. */
  function SearchText(p: Post): string {
    Fold(Lower(Join([OrEmpty(p.message), OrEmpty(p.author), OrEmpty(p.groupName)], " ")))
  }

  /** `keywords.every(...)`: every token, with its diacritics removed, occurs in the text. */
  predicate MatchesAll(p: Post, tokens: seq<string>) {
    forall i :: 0 <= i < |tokens| ==> Includes(SearchText(p), Fold(tokens[i]))
  }

  /** The filter state of the report page that `applyFilters` reads. */
  datatype Filters = Filters(keyword: string, thumbnailFilter: string, selectedGroupId: Option<string>)

  const NoFilters := Filters("", "all", None)

  function KeywordStage(posts: seq<Post>, keyword: string): seq<Post> {
    if NonBlank(keyword) then Filter(posts, p => MatchesAll(p, Tokenize(keyword))) else posts
  }

  function ThumbnailStage(posts: seq<Post>, mode: string, json: string -> JsonParse): seq<Post> {
    if mode == "with" then Filter(posts, p => HasMedia(p, json))
    else if mode == "without" then Filter(posts, p => !HasMedia(p, json))
    else posts
  }

  predicate GroupActive(groupId: Option<string>) {
    groupId.Some? && groupId.value != ""
  }

  function GroupStage(posts: seq<Post>, groupId: Option<string>): seq<Post> {
    if GroupActive(groupId) then Filter(posts, (p: Post) => p.groupId == groupId) else posts
  }

  /** `applyFilters`: the keyword filter, then the thumbnail filter, then the group filter. */
  function ApplyFilters(posts: seq<Post>, f: Filters, json: string -> JsonParse): (shown: seq<Post>)
    ensures |shown| <= |posts|
    ensures GroupActive(f.selectedGroupId) ==> forall i :: 0 <= i < |shown| ==> shown[i].groupId == f.selectedGroupId
  {
    GroupStage(ThumbnailStage(KeywordStage(posts, f.keyword), f.thumbnailFilter, json), f.selectedGroupId)
  }

  /** The three conditions a post must meet, each switched off when its filter is not set. */
  predicate KeywordOk(f: Filters, p: Post) {
    NonBlank(f.keyword) ==> MatchesAll(p, Tokenize(f.keyword))
  }

  predicate ThumbnailOk(f: Filters, json: string -> JsonParse, p: Post) {
    (f.thumbnailFilter == "with" ==> HasMedia(p, json)) &&
    (f.thumbnailFilter == "without" ==> !HasMedia(p, json))
  }

  predicate GroupOk(f: Filters, p: Post) {
    GroupActive(f.selectedGroupId) ==> p.groupId == f.selectedGroupId
  }

  predicate Keeps(f: Filters, json: string -> JsonParse, p: Post) {
    KeywordOk(f, p) && ThumbnailOk(f, json, p) && GroupOk(f, p)
  }

  lemma KeywordStageIsFilter(posts: seq<Post>, f: Filters)
    ensures KeywordStage(posts, f.keyword) == Filter(posts, p => KeywordOk(f, p))
  {
    if !NonBlank(f.keyword) {
      FilterKeepsAll(posts, p => KeywordOk(f, p));
    } else {
      FilterCongruent(posts, p => MatchesAll(p, Tokenize(f.keyword)), p => KeywordOk(f, p));
    }
  }

  lemma ThumbnailStageIsFilter(posts: seq<Post>, f: Filters, json: string -> JsonParse)
    ensures ThumbnailStage(posts, f.thumbnailFilter, json) == Filter(posts, p => ThumbnailOk(f, json, p))
  {
    if f.thumbnailFilter == "with" {
      FilterCongruent(posts, p => HasMedia(p, json), p => ThumbnailOk(f, json, p));
    } else if f.thumbnailFilter == "without" {
      FilterCongruent(posts, p => !HasMedia(p, json), p => ThumbnailOk(f, json, p));
    } else {
      FilterKeepsAll(posts, p => ThumbnailOk(f, json, p));
    }
  }

  lemma GroupStageIsFilter(posts: seq<Post>, f: Filters)
    ensures GroupStage(posts, f.selectedGroupId) == Filter(posts, p => GroupOk(f, p))
  {
    if GroupActive(f.selectedGroupId) {
      FilterCongruent(posts, (p: Post) => p.groupId == f.selectedGroupId, p => GroupOk(f, p));
    } else {
      FilterKeepsAll(posts, p => GroupOk(f, p));
    }
  }

  /** Running the three stages one after the other is a single filter by the
      conjunction of their conditions: what is kept keeps its order. */
  lemma ApplyFiltersIsConjunction(posts: seq<Post>, f: Filters, json: string -> JsonParse)
    ensures ApplyFilters(posts, f, json) == Filter(posts, p => Keeps(f, json, p))
  {
    var s1 := KeywordStage(posts, f.keyword);
    KeywordStageIsFilter(posts, f);
    var s2 := ThumbnailStage(s1, f.thumbnailFilter, json);
    ThumbnailStageIsFilter(s1, f, json);
    GroupStageIsFilter(s2, f);
    var kt := p => KeywordOk(f, p) && ThumbnailOk(f, json, p);
    FilterFilter(posts, p => KeywordOk(f, p), p => ThumbnailOk(f, json, p), kt);
    FilterFilter(posts, kt, p => GroupOk(f, p), p => Keeps(f, json, p));
  }

  /** The filtered list is a sub-list of the loaded posts, and a loaded post is in it
      exactly when it meets every set filter. */
  lemma ApplyFiltersKeepsMatching(posts: seq<Post>, f: Filters, json: string -> JsonParse)
    ensures IsSubsequence(ApplyFilters(posts, f, json), posts)
    ensures forall i :: 0 <= i < |ApplyFilters(posts, f, json)| ==>
      Keeps(f, json, ApplyFilters(posts, f, json)[i])
    ensures forall i :: 0 <= i < |posts| && Keeps(f, json, posts[i]) ==>
      posts[i] in ApplyFilters(posts, f, json)
  {
    ApplyFiltersIsConjunction(posts, f, json);
    FilterIsSubsequence(posts, p => Keeps(f, json, p));
    FilterMembers(posts, p => Keeps(f, json, p));
  }

  /** With no filter set, every post is shown. */
  lemma NoFiltersShowsAll(posts: seq<Post>, json: string -> JsonParse)
    ensures ApplyFilters(posts, NoFilters, json) == posts
  {
  }

  /** The 'with' and 'without' thumbnail filters split what the other filters keep. */
  lemma ThumbnailPartition(posts: seq<Post>, f: Filters, json: string -> JsonParse)
    ensures |ApplyFilters(posts, f.(thumbnailFilter := "with"), json)|
          + |ApplyFilters(posts, f.(thumbnailFilter := "without"), json)|
         == |ApplyFilters(posts, f.(thumbnailFilter := "all"), json)|
  {
    var s1 := KeywordStage(posts, f.keyword);
    var h := p => HasMedia(p, json);
    var n := p => !HasMedia(p, json);
    if GroupActive(f.selectedGroupId) {
      var g := (p: Post) => p.groupId == f.selectedGroupId;
      FilterCommute(s1, h, g);
      FilterCommute(s1, n, g);
      FilterPartition(Filter(s1, g), h, n);
    } else {
      FilterPartition(s1, h, n);
    }
  }

  /** The search text is the three fields, each lower-cased and folded, around two spaces. */
  lemma SearchTextParts(p: Post)
    ensures SearchText(p) == Fold(Lower(OrEmpty(p.message))) + " "
      + Fold(Lower(OrEmpty(p.author))) + " " + Fold(Lower(OrEmpty(p.groupName)))
  {
    var m, a, g := OrEmpty(p.message), OrEmpty(p.author), OrEmpty(p.groupName);
    assert [m, a, g][1..] == [a, g] && [a, g][1..] == [g];
    assert Join([a, g], " ") == a + " " + g;
    assert Join([m, a, g], " ") == m + " " + (a + " " + g);
    assert m + " " + (a + " " + g) == m + " " + a + " " + g;
    LowerSpaced(m, a, g);
    FoldSpaced(Lower(m), Lower(a), Lower(g));
  }

  /** A token found in any one field, after lower-casing and folding, is a match. */
  lemma FieldHitMatches(p: Post, token: string)
    requires Includes(Fold(Lower(OrEmpty(p.message))), Fold(token))
          || Includes(Fold(Lower(OrEmpty(p.author))), Fold(token))
          || Includes(Fold(Lower(OrEmpty(p.groupName))), Fold(token))
    ensures MatchesAll(p, [token])
  {
    SearchTextParts(p);
    IncludesInSpaced(Fold(Lower(OrEmpty(p.message))), Fold(Lower(OrEmpty(p.author))),
      Fold(Lower(OrEmpty(p.groupName))), Fold(token));
    assert [token][0] == token;
  }

  /** `&` is AND: filtering by `k1 & k2` is filtering by `k1`, then by `k2`. */
  lemma KeywordConjunction(posts: seq<Post>, k1: string, k2: string)
    ensures KeywordStage(posts, k1 + "&" + k2) == KeywordStage(KeywordStage(posts, k1), k2)
  {
    var s1 := KeywordStage(posts, k1);
    KeywordStageAsFilter(posts, k1 + "&" + k2);
    KeywordStageAsFilter(posts, k1);
    KeywordStageAsFilter(s1, k2);
    TokenizeConcat(k1, k2);
    var t1, t2, t12 := Tokenize(k1), Tokenize(k2), Tokenize(k1 + "&" + k2);
    var m1, m2, m12 := p => MatchesAll(p, t1), p => MatchesAll(p, t2), p => MatchesAll(p, t12);
    forall i | 0 <= i < |posts|
      ensures m12(posts[i]) == (m1(posts[i]) && m2(posts[i]))
    {
      MatchesAllConcat(posts[i], t1, t2);
    }
    FilterFilter(posts, m1, m2, m12);
  }

  lemma MatchesAllConcat(p: Post, t1: seq<string>, t2: seq<string>)
    ensures MatchesAll(p, t1 + t2) == (MatchesAll(p, t1) && MatchesAll(p, t2))
  {
    if MatchesAll(p, t1) && MatchesAll(p, t2) {
      forall i | 0 <= i < |t1 + t2|
        ensures Includes(SearchText(p), Fold((t1 + t2)[i]))
      {
        if i >= |t1| {
          assert (t1 + t2)[i] == t2[i - |t1|];
        }
      }
    }
    if MatchesAll(p, t1 + t2) {
      forall i | 0 <= i < |t1|
        ensures Includes(SearchText(p), Fold(t1[i]))
      {
        assert (t1 + t2)[i] == t1[i];
      }
      forall i | 0 <= i < |t2|
        ensures Includes(SearchText(p), Fold(t2[i]))
      {
        assert (t1 + t2)[|t1| + i] == t2[i];
      }
    }
  }

  /** Whether or not the keyword is blank, the keyword stage filters by its tokens:
      a blank keyword has no token, and every post matches no token. */
  lemma KeywordStageAsFilter(posts: seq<Post>, keyword: string)
    ensures KeywordStage(posts, keyword) == Filter(posts, p => MatchesAll(p, Tokenize(keyword)))
  {
    if !NonBlank(keyword) {
      BlankHasNoTokens(keyword);
      FilterKeepsAll(posts, p => MatchesAll(p, Tokenize(keyword)));
    }
  }

  lemma BlankHasNoTokens(keyword: string)
    requires !NonBlank(keyword)
    ensures Tokenize(keyword) == []
  {
    TokenizeNoWords(keyword);
  }

  /** The counters under the thumbnail filter buttons. */
  function ThumbnailCounts(filtered: seq<Post>, json: string -> JsonParse): (counts: (nat, int))
    ensures counts.0 + counts.1 == |filtered|
    ensures counts.1 == |Filter(filtered, p => !HasMedia(p, json))|
  {
    var with := |Filter(filtered, p => HasMedia(p, json))|;
    FilterPartition(filtered, p => HasMedia(p, json), p => !HasMedia(p, json));
    (with, |filtered| - with)
  }
}
