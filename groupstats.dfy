/** `generateGroupStats` of the report pages: one entry per group id seen in the
    loaded posts, in order of first appearance, with the group's name and post count. */
module GroupStats {
  import opened Wrappers
  import opened Seqs
  import opened PostFilters

  const UnknownGroup := "Unknown Group"

  datatype GroupStat = GroupStat(groupId: string, groupName: string, totalPosts: nat)

  /** `post.group_id` when it is truthy: present and not empty. */
  function GroupKey(p: Post): Option<string> {
    if p.groupId.Some? && p.groupId.value != "" then p.groupId else None
  }

  /** `post.group_name || 'Unknown Group'`. */
  function NameOf(p: Post): string {
    if p.groupName.Some? && p.groupName.value != "" then p.groupName.value else UnknownGroup
  }

  /** The truthy group ids of `posts`, in order, repeats included. */
  function Ids(posts: seq<Post>): seq<string>
    decreases |posts|
  {
    if posts == [] then []
    else
      var last := posts[|posts| - 1];
      Ids(posts[..|posts| - 1]) + (if GroupKey(last).Some? then [GroupKey(last).value] else [])
  }

  /** How many of `posts` carry the group id `id`. */
  function Count(posts: seq<Post>, id: string): nat
    decreases |posts|
  {
    if posts == [] then 0
    else Count(posts[..|posts| - 1], id) + (if GroupKey(posts[|posts| - 1]) == Some(id) then 1 else 0)
  }

  /** The name recorded for `id`: that of the first post carrying it. */
  function FirstName(posts: seq<Post>, id: string): string
    decreases |posts|
  {
    if posts == [] then UnknownGroup
    else
      var init := posts[..|posts| - 1];
      if id in Ids(init) || GroupKey(posts[|posts| - 1]) != Some(id) then FirstName(init, id)
      else NameOf(posts[|posts| - 1])
  }

  /** The statistics the page shows for `posts`. */
  function Stats(posts: seq<Post>): (stats: seq<GroupStat>)
    ensures forall i :: 0 <= i < |stats| ==> stats[i].totalPosts >= 1
  {
    CountsPositive(posts);
    var order := Dedup(Ids(posts));
    seq(|order|, i requires 0 <= i < |order| => GroupStat(order[i], FirstName(posts, order[i]), Count(posts, order[i])))
  }

  /** Every id among the posts is carried by at least one of them. */
  lemma {:induction false} CountsPositive(posts: seq<Post>)
    ensures forall id :: id in Ids(posts) ==> Count(posts, id) >= 1
    decreases |posts|
  {
    if posts != [] {
      CountsPositive(posts[..|posts| - 1]);
    }
  }

  lemma IdsStep(posts: seq<Post>, i: nat)
    requires i < |posts|
    ensures var key := GroupKey(posts[i]);
      Ids(posts[..i + 1]) == Ids(posts[..i]) + (if key.Some? then [key.value] else [])
  {
    assert posts[..i + 1][..i] == posts[..i];
  }

  /** What one more post does to the ids, counts and names of a prefix. */
  lemma PrefixStep(posts: seq<Post>, i: nat)
    requires i < |posts|
    ensures var key := GroupKey(posts[i]);
      Ids(posts[..i + 1]) == Ids(posts[..i]) + (if key.Some? then [key.value] else [])
    ensures forall id :: (Count(posts[..i + 1], id)
      == Count(posts[..i], id) + (if GroupKey(posts[i]) == Some(id) then 1 else 0))
    ensures forall id :: (FirstName(posts[..i + 1], id)
      == if id in Ids(posts[..i]) || GroupKey(posts[i]) != Some(id) then FirstName(posts[..i], id)
         else NameOf(posts[i]))
  {
    assert posts[..i + 1][..i] == posts[..i];
  }

  /** The group map after the posts `ps`: one entry per id seen. */
  function Entries(ps: seq<Post>): map<string, GroupStat> {
    map id | id in Ids(ps) :: GroupStat(id, FirstName(ps, id), Count(ps, id))
  }

  /** One loop iteration's update of the map, as the code performs it. */
  function Visit(entries: map<string, GroupStat>, post: Post): map<string, GroupStat> {
    var key := GroupKey(post);
    if key.None? then entries
    else
      var id := key.value;
      var base := if id in entries then entries else entries[id := GroupStat(id, NameOf(post), 0)];
      base[id := base[id].(totalPosts := base[id].totalPosts + 1)]
  }

  lemma EntriesStep(posts: seq<Post>, i: nat)
    requires i < |posts|
    ensures Entries(posts[..i + 1]) == Visit(Entries(posts[..i]), posts[i])
  {
    var after, visited := Entries(posts[..i + 1]), Visit(Entries(posts[..i]), posts[i]);
    forall id
      ensures id in after <==> id in visited
      ensures id in after ==> after[id] == visited[id]
    {
      EntryStep(posts, i, id);
    }
  }

  /** The step for one group id. */
  lemma EntryStep(posts: seq<Post>, i: nat, id: string)
    requires i < |posts|
    ensures var after, visited := Entries(posts[..i + 1]), Visit(Entries(posts[..i]), posts[i]);
      (id in after <==> id in visited) && (id in after ==> after[id] == visited[id])
  {
    PrefixStep(posts, i);
    if id !in Ids(posts[..i]) {
      CountUnseen(posts[..i], id);
    }
  }

  lemma {:induction false} CountUnseen(ps: seq<Post>, id: string)
    requires id !in Ids(ps)
    ensures Count(ps, id) == 0
    decreases |ps|
  {
    if ps != [] {
      CountUnseen(ps[..|ps| - 1], id);
    }
  }

  lemma InDedup(xs: seq<string>, x: string)
    ensures x in Dedup(xs) <==> x in xs
  {
    if x in xs {
      var k :| 0 <= k < |xs| && xs[k] == x;
    }
    if x in Dedup(xs) {
      var k :| 0 <= k < |Dedup(xs)| && Dedup(xs)[k] == x;
    }
  }

  /** The order of first appearance and the map after one more post, as one
      iteration of the loop leaves them. */
  function Step(state: (seq<string>, map<string, GroupStat>), post: Post): (seq<string>, map<string, GroupStat>) {
    var key := GroupKey(post);
    if key.None? || key.value in state.1 then (state.0, Visit(state.1, post))
    else (state.0 + [key.value], Visit(state.1, post))
  }

  /** The loop's state after the posts `ps`. */
  function Scan(ps: seq<Post>): (seq<string>, map<string, GroupStat>)
    decreases |ps|
  {
    if ps == [] then ([], map[]) else Step(Scan(ps[..|ps| - 1]), ps[|ps| - 1])
  }

  /** After any prefix the loop holds the ids in order of first appearance and one
      entry per id with its first name and its count. */
  lemma {:induction false} ScanIsEntries(posts: seq<Post>, i: nat)
    requires i <= |posts|
    ensures Scan(posts[..i]) == (Dedup(Ids(posts[..i])), Entries(posts[..i]))
  {
    if i > 0 {
      var prefix := posts[..i - 1];
      assert posts[..i][..i - 1] == prefix;
      assert Scan(posts[..i]) == Step(Scan(prefix), posts[i - 1]);
      ScanIsEntries(posts, i - 1);
      StepIsEntries(posts, i - 1);
    }
  }

  lemma StepIsEntries(posts: seq<Post>, i: nat)
    requires i < |posts|
    ensures Step((Dedup(Ids(posts[..i])), Entries(posts[..i])), posts[i])
         == (Dedup(Ids(posts[..i + 1])), Entries(posts[..i + 1]))
  {
    OrderStep(posts, i);
    EntriesStep(posts, i);
  }

  /** `generateGroupStats`: one pass over the posts, adding an entry the first time a
      group id is seen and counting every post with that id. */
  method GenerateGroupStats(posts: seq<Post>) returns (stats: seq<GroupStat>)
    ensures stats == Stats(posts)
  {
    var order: seq<string> := [];
    var entries: map<string, GroupStat> := map[];
    var i := 0;
    while i < |posts|
      invariant 0 <= i <= |posts|
      invariant (order, entries) == Scan(posts[..i])
    {
      assert posts[..i + 1][..i] == posts[..i];
      var post := posts[i];
      var key := GroupKey(post);
      ghost var before := (order, entries);
      if key.Some? {
        var id := key.value;
        if id !in entries {
          entries := entries[id := GroupStat(id, NameOf(post), 0)];
          order := order + [id];
        }
        var g := entries[id];
        entries := entries[id := g.(totalPosts := g.totalPosts + 1)];
      }
      assert (order, entries) == Step(before, post);
      i := i + 1;
    }
    assert posts[..i] == posts;
    ScanIsEntries(posts, i);
    StatsFromEntries(posts);
    stats := InOrder(order, entries);
  }

  /** The entries of `order`, in that order. */
  function InOrder(order: seq<string>, entries: map<string, GroupStat>): seq<GroupStat>
    requires forall k :: 0 <= k < |order| ==> order[k] in entries
  {
    seq(|order|, k requires 0 <= k < |order| => entries[order[k]])
  }

  /** What one more post does to the order of first appearance: a group id not yet
      in the map is appended. */
  lemma OrderStep(posts: seq<Post>, i: nat)
    requires i < |posts|
    ensures var key := GroupKey(posts[i]);
      Dedup(Ids(posts[..i + 1]))
      == if key.Some? && key.value !in Entries(posts[..i]) then Dedup(Ids(posts[..i])) + [key.value]
         else Dedup(Ids(posts[..i]))
  {
    IdsStep(posts, i);
    var key := GroupKey(posts[i]);
    var before := Ids(posts[..i]);
    if key.Some? {
      var id := key.value;
      InDedup(before, id);
      DedupSnoc(before, id);
      assert id in Entries(posts[..i]) <==> id in before;
      assert Ids(posts[..i + 1]) == before + [id];
    } else {
      assert Ids(posts[..i + 1]) == before;
    }
  }


  /** `Array.from(groupMap.values())`: the map's entries in insertion order are the statistics. */
  lemma StatsFromEntries(posts: seq<Post>)
    ensures forall k :: 0 <= k < |Dedup(Ids(posts))| ==> Dedup(Ids(posts))[k] in Entries(posts)
    ensures Stats(posts) == InOrder(Dedup(Ids(posts)), Entries(posts))
  {
    var order := Dedup(Ids(posts));
    forall k | 0 <= k < |order|
      ensures order[k] in Entries(posts)
    {
      InDedup(Ids(posts), order[k]);
    }
  }

  /** One entry per distinct group id, in order of first appearance, none repeated. */
  lemma StatsDistinct(posts: seq<Post>)
    ensures |Stats(posts)| == |Dedup(Ids(posts))|
    ensures forall i :: 0 <= i < |Stats(posts)| ==> Stats(posts)[i].groupId == Dedup(Ids(posts))[i]
    ensures forall i, j :: 0 <= i < j < |Stats(posts)| ==> Stats(posts)[i].groupId != Stats(posts)[j].groupId
  {
  }

  /** Every group id among the posts has an entry, and every entry's id is among them. */
  lemma StatsCover(posts: seq<Post>, id: string)
    ensures id in Ids(posts) <==> exists i :: 0 <= i < |Stats(posts)| && Stats(posts)[i].groupId == id
  {
    var order := Dedup(Ids(posts));
    InDedup(Ids(posts), id);
    if id in order {
      var i :| 0 <= i < |order| && order[i] == id;
      assert Stats(posts)[i].groupId == id;
    }
  }

  /** More posts only append entries: the order of existing groups never changes. */
  lemma StatsOrderStable(posts: seq<Post>, more: seq<Post>)
    ensures Dedup(Ids(posts)) <= Dedup(Ids(posts + more))
  {
    IdsAppend(posts, more);
    DedupPrefix(Ids(posts), Ids(more));
  }

  lemma {:induction false} IdsAppend(a: seq<Post>, b: seq<Post>)
    ensures Ids(a + b) == Ids(a) + Ids(b)
    decreases |b|
  {
    if b == [] {
      assert a + b == a;
    } else {
      var b' := b[..|b| - 1];
      IdsAppend(a, b');
      assert (a + b)[..|a + b| - 1] == a + b';
    }
  }

  /** The count is the number of posts a filter by that group id keeps. */
  lemma {:induction false} CountIsFilterLength(posts: seq<Post>, id: string)
    ensures Count(posts, id) == |Filter(posts, p => GroupKey(p) == Some(id))|
    decreases |posts|
  {
    if posts != [] {
      var init := posts[..|posts| - 1];
      var last := posts[|posts| - 1];
      CountIsFilterLength(init, id);
      assert init + [last] == posts;
      FilterAppend(init, [last], p => GroupKey(p) == Some(id));
    }
  }

  /** The name is that of the first post with the id, or "Unknown Group" when that
      post has none. */
  lemma {:induction false} FirstNameIsFirstPosts(posts: seq<Post>, id: string, j: nat)
    requires j < |posts| && GroupKey(posts[j]) == Some(id)
    requires forall k :: 0 <= k < j ==> GroupKey(posts[k]) != Some(id)
    ensures FirstName(posts, id) == NameOf(posts[j])
    decreases |posts|
  {
    var init := posts[..|posts| - 1];
    if j < |posts| - 1 {
      FirstNameIsFirstPosts(init, id, j);
      IdsAppend(init, [posts[|posts| - 1]]);
      assert init + [posts[|posts| - 1]] == posts;
      IdsHasKey(init, j);
    } else {
      IdsWithoutKey(init, id);
    }
  }

  lemma {:induction false} IdsHasKey(posts: seq<Post>, j: nat)
    requires j < |posts| && GroupKey(posts[j]).Some?
    ensures GroupKey(posts[j]).value in Ids(posts)
    decreases |posts|
  {
    if j < |posts| - 1 {
      IdsHasKey(posts[..|posts| - 1], j);
    }
  }

  lemma {:induction false} IdsWithoutKey(posts: seq<Post>, id: string)
    requires forall k :: 0 <= k < |posts| ==> GroupKey(posts[k]) != Some(id)
    ensures id !in Ids(posts)
    decreases |posts|
  {
    if posts != [] {
      IdsWithoutKey(posts[..|posts| - 1], id);
    }
  }

  /** Posts without a group id leave the statistics as they were. */
  lemma UngroupedIgnored(posts: seq<Post>, p: Post)
    requires GroupKey(p).None?
    ensures Stats(posts + [p]) == Stats(posts)
  {
    var ps := posts + [p];
    assert ps[..|ps| - 1] == posts;
    assert Ids(ps) == Ids(posts);
    forall id
      ensures FirstName(ps, id) == FirstName(posts, id) && Count(ps, id) == Count(posts, id)
    {
    }
    assert forall i :: 0 <= i < |Stats(posts)| ==> Stats(ps)[i] == Stats(posts)[i];
  }
}
