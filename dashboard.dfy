/** The group picker of the dashboard: for every Airtable view, the list of group
    ids the user has ticked, changed by clicking, select-all, clear and dragging
    across the grid, and the URLs handed on from it. */
module Dashboard {
  import opened Wrappers
  import opened Seqs

  /** The fields of an Airtable group record that the picker uses. */
  datatype Group = Group(id: string, groupUrl: string)

  /** `selectedGroups[view] || []`. */
  function Current(selected: map<string, seq<string>>, view: string): seq<string> {
    if view in selected then selected[view] else []
  }

  /** No view other than `view` gains, loses or changes its list. */
  ghost predicate OthersKept(before: map<string, seq<string>>, after: map<string, seq<string>>, view: string) {
    forall v :: v != view ==> (v in after <==> v in before) && (v in after ==> after[v] == before[v])
  }

  /** One click: drop the id if it is in the list, append it otherwise. */
  function ToggledList(list: seq<string>, id: string): (r: seq<string>)
    ensures id in r <==> id !in list
    ensures forall x :: x != id ==> (x in r <==> x in list)
  {
    FilterMembers(list, (x: string) => x != id);
    if id in list then Filter(list, (x: string) => x != id) else list + [id]
  }

  /** A click never introduces a repeated id. */
  lemma ToggleKeepsDistinct(list: seq<string>, id: string)
    requires NoDup(list)
    ensures NoDup(ToggledList(list, id))
  {
    if id in list {
      FilterNoDup(list, (x: string) => x != id);
    }
  }

  /** Two clicks on the same group restore its membership, and give the list back
      exactly when the group was not ticked. */
  lemma ToggleTwice(list: seq<string>, id: string)
    ensures id in ToggledList(ToggledList(list, id), id) <==> id in list
    ensures id !in list ==> ToggledList(ToggledList(list, id), id) == list
  {
    if id !in list {
      var p := (x: string) => x != id;
      assert ToggledList(list + [id], id) == Filter(list + [id], p);
      FilterAppend(list, [id], p);
      FilterKeepsAll(list, p);
      assert [id][1..] == [];
    }
  }

  /** `groups.map(group => group.id)`. */
  function GroupIds(groups: seq<Group>): (ids: seq<string>)
    ensures |ids| == |groups|
    ensures forall i :: 0 <= i < |groups| ==> ids[i] == groups[i].id
  {
    seq(|groups|, i requires 0 <= i < |groups| => groups[i].id)
  }

  /** `isGroupSelected`. */
  predicate IsGroupSelected(selected: map<string, seq<string>>, view: string, id: string)
    ensures IsGroupSelected(selected, view, id) ==> view in selected && id in selected[view]
  {
    id in Current(selected, view)
  }

  /** `getSelectedCount`. */
  function SelectedCount(selected: map<string, seq<string>>, view: string): (n: nat)
    ensures view !in selected ==> n == 0
    ensures n == 0 ==> forall id :: !IsGroupSelected(selected, view, id)
  {
    |Current(selected, view)|
  }

  /** `group_url` of each group, in order. */
  function Urls(groups: seq<Group>): (urls: seq<string>)
    ensures |urls| == |groups|
    decreases |groups|
  {
    if groups == [] then [] else [groups[0].groupUrl] + Urls(groups[1..])
  }

  /** `getSelectedGroupUrls`: the URLs of the shown groups whose id is ticked, in the
      order of the grid (not the order of ticking). */
  function SelectedGroupUrls(selected: map<string, seq<string>>, view: string, groups: seq<Group>): (urls: seq<string>)
    ensures IsSubsequence(urls, Urls(groups))
    ensures forall g :: g in groups && IsGroupSelected(selected, view, g.id) ==> g.groupUrl in urls
    ensures forall u :: u in urls ==> exists g :: g in groups && IsGroupSelected(selected, view, g.id) && u == g.groupUrl
  {
    var ids := Current(selected, view);
    var ticked := (g: Group) => g.id in ids;
    UrlsOfFilter(groups, ticked);
    Urls(Filter(groups, ticked))
  }

  lemma {:induction false} UrlsOfFilter(groups: seq<Group>, p: Group -> bool)
    ensures IsSubsequence(Urls(Filter(groups, p)), Urls(groups))
    ensures forall g :: g in groups && p(g) ==> g.groupUrl in Urls(Filter(groups, p))
    ensures forall u :: u in Urls(Filter(groups, p)) ==> exists g :: g in groups && p(g) && u == g.groupUrl
    decreases |groups|
  {
    if groups != [] {
      var rest := groups[1..];
      UrlsOfFilter(rest, p);
      var a, b := Urls(Filter(rest, p)), Urls(rest);
      assert Urls(groups) == [groups[0].groupUrl] + b;
      assert ([groups[0].groupUrl] + b)[1..] == b;
      if p(groups[0]) {
        assert Filter(groups, p) == [groups[0]] + Filter(rest, p);
        assert Urls(Filter(groups, p)) == [groups[0].groupUrl] + a;
        assert ([groups[0].groupUrl] + a)[1..] == a;
      } else {
        assert Filter(groups, p) == Filter(rest, p);
        if a != [] {
          assert IsSubsequence(a, ([groups[0].groupUrl] + b)[1..]);
        }
      }
      forall g | g in groups && p(g)
        ensures g.groupUrl in Urls(Filter(groups, p))
      {
        if g != groups[0] {
          assert g in rest;
        }
      }
    }
  }

  /** The ids of `groups.slice(min(start, index), max(start, index) + 1)`: the groups
      between the one the drag began on and the one under the pointer, both included. */
  function DragRange(groups: seq<Group>, start: nat, index: nat): (ids: seq<string>)
    ensures forall k :: (start <= k <= index || index <= k <= start) && k < |groups| ==> groups[k].id in ids
    ensures forall x :: x in ids ==>
      exists k :: (start <= k <= index || index <= k <= start) && k < |groups| && x == groups[k].id
  {
    if start <= index then IdsBetween(groups, start, index) else IdsBetween(groups, index, start)
  }

  /** The ids of `groups.slice(lo, hi + 1)`, clipped to the list. */
  function IdsBetween(groups: seq<Group>, lo: nat, hi: nat): (ids: seq<string>)
    requires lo <= hi
    ensures forall k :: lo <= k <= hi && k < |groups| ==> groups[k].id in ids
    ensures forall x :: x in ids ==> exists k :: lo <= k <= hi && k < |groups| && x == groups[k].id
  {
    var from := if lo < |groups| then lo else |groups|;
    var to := if hi + 1 < |groups| then hi + 1 else |groups|;
    var ids := GroupIds(groups[from..to]);
    forall k | lo <= k <= hi && k < |groups|
      ensures groups[k].id in ids
    {
      assert ids[k - from] == groups[k].id;
    }
    forall x | x in ids
      ensures exists k :: lo <= k <= hi && k < |groups| && x == groups[k].id
    {
      var j :| 0 <= j < |ids| && ids[j] == x;
      assert ids[j] == groups[from + j].id;
    }
    ids
  }

  /** `[...new Set([...prev, ...added])]`. */
  function Union(prev: seq<string>, added: seq<string>): (r: seq<string>)
    ensures NoDup(r)
    ensures forall x :: x in r <==> x in prev || x in added
  {
    var r := Dedup(prev + added);
    assert forall x :: x in prev + added ==> x in r;
    r
  }

  /** A drag keeps every earlier tick, in its place, when the list had no repeats. */
  lemma UnionKeepsEarlier(prev: seq<string>, added: seq<string>)
    requires NoDup(prev)
    ensures prev <= Union(prev, added)
  {
    DedupPrefix(prev, added);
    DedupOfDistinct(prev);
  }

  class GroupSelection {
    var selected: map<string, seq<string>>
    var selectedView: string
    var groups: seq<Group>
    var isDragging: bool
    var dragStart: Option<nat>

    constructor()
      ensures selected == map[] && selectedView == "" && groups == []
      ensures !isDragging && dragStart.None?
    {
      selected := map[];
      selectedView := "";
      groups := [];
      isDragging := false;
      dragStart := None;
    }

    /** `toggleGroupSelection`. */
    method Toggle(groupId: string)
      modifies this
      ensures selectedView in selected
      ensures selected[selectedView] == ToggledList(Current(old(selected), selectedView), groupId)
      ensures OthersKept(old(selected), selected, selectedView)
      ensures selectedView == old(selectedView) && groups == old(groups)
      ensures isDragging == old(isDragging) && dragStart == old(dragStart)
    {
      var list := if selectedView in selected then selected[selectedView] else [];
      var next: seq<string>;
      if selectedView in selected {
        if groupId in list {
          next := Filter(list, (x: string) => x != groupId);
        } else {
          next := list + [groupId];
        }
      } else {
        next := [groupId];
      }
      selected := selected[selectedView := next];
    }

    /** `selectAllGroups`: every shown group, in grid order. */
    method SelectAll()
      modifies this
      ensures selectedView in selected && selected[selectedView] == GroupIds(groups)
      ensures OthersKept(old(selected), selected, selectedView)
      ensures selectedView == old(selectedView) && groups == old(groups)
      ensures isDragging == old(isDragging) && dragStart == old(dragStart)
    {
      selected := selected[selectedView := GroupIds(groups)];
    }

    /** `unselectAllGroups`. */
    method UnselectAll()
      modifies this
      ensures selectedView in selected && selected[selectedView] == []
      ensures OthersKept(old(selected), selected, selectedView)
      ensures selectedView == old(selectedView) && groups == old(groups)
      ensures isDragging == old(isDragging) && dragStart == old(dragStart)
    {
      selected := selected[selectedView := []];
    }

    /** Mouse down on the card at `index`. */
    method BeginDrag(index: nat)
      modifies this
      ensures isDragging && dragStart == Some(index)
      ensures selected == old(selected) && selectedView == old(selectedView) && groups == old(groups)
    {
      isDragging := true;
      dragStart := Some(index);
    }

    /** The pointer enters the card at `index`: while dragging, add the range. */
    method DragEnter(index: nat)
      modifies this
      ensures old(isDragging) && old(dragStart).Some? ==> (selectedView in selected
        && selected[selectedView]
           == Union(Current(old(selected), selectedView), DragRange(groups, old(dragStart).value, index)))
      ensures !(old(isDragging) && old(dragStart).Some?) ==> selected == old(selected)
      ensures OthersKept(old(selected), selected, selectedView)
      ensures selectedView == old(selectedView) && groups == old(groups)
      ensures isDragging == old(isDragging) && dragStart == old(dragStart)
    {
      if isDragging && dragStart.Some? {
        var added := DragRange(groups, dragStart.value, index);
        var prev := if selectedView in selected then selected[selectedView] else [];
        selected := selected[selectedView := Union(prev, added)];
      }
    }

    /** Mouse up on a card, or anywhere in the document while dragging. */
    method EndDrag()
      modifies this
      ensures !isDragging && dragStart.None?
      ensures selected == old(selected) && selectedView == old(selectedView) && groups == old(groups)
    {
      isDragging := false;
      dragStart := None;
    }
  }

  /** After a click the group's tick is flipped and every other group keeps its own. */
  lemma ToggleFlips(selected: map<string, seq<string>>, view: string, id: string, other: string)
    requires other != id
    ensures var after := selected[view := ToggledList(Current(selected, view), id)];
      (IsGroupSelected(after, view, id) <==> !IsGroupSelected(selected, view, id))
      && (IsGroupSelected(after, view, other) <==> IsGroupSelected(selected, view, other))
  {
  }

  /** After select-all every shown group is ticked and the count is the number shown. */
  lemma SelectAllTicksEvery(selected: map<string, seq<string>>, view: string, groups: seq<Group>)
    ensures var after := selected[view := GroupIds(groups)];
      SelectedCount(after, view) == |groups|
      && forall g :: g in groups ==> IsGroupSelected(after, view, g.id)
  {
    var after := selected[view := GroupIds(groups)];
    forall g | g in groups
      ensures IsGroupSelected(after, view, g.id)
    {
      var i :| 0 <= i < |groups| && groups[i] == g;
      assert GroupIds(groups)[i] == g.id;
    }
  }

  /** After a drag across the grid the dragged groups are ticked, and so is every
      group that was ticked before. */
  lemma DragTicksRange(selected: map<string, seq<string>>, view: string, groups: seq<Group>,
                       start: nat, index: nat, k: nat, id: string)
    requires (start <= k <= index || index <= k <= start) && k < |groups|
    ensures var after := selected[view := Union(Current(selected, view), DragRange(groups, start, index))];
      IsGroupSelected(after, view, groups[k].id)
      && (IsGroupSelected(selected, view, id) ==> IsGroupSelected(after, view, id))
  {
  }
}
