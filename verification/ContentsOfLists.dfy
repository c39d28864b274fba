/** Lists made of ids in terms of contents of files. */
module ContentsOfLists {
  import opened ContentIds
  import opened Panes
  import opened IdLists
  import Duplicates

  /** Entries of files that have or don't have a match in the other list. */
  ghost function SelectMatched(env: Env, items: seq<Item>, others: seq<Item>, matched: bool): seq<Item> {
    if items == [] then []
    else
      var last := items[|items| - 1];
      SelectMatched(env, items[..|items| - 1], others, matched)
      + if IsMatched(env, others, last.entry) == matched then [last] else []
  }

  /** Sorting changes nothing about ids. */
  lemma SortedIdsAreRight(env: Env, a: seq<Item>, b: seq<Item>, sortedA: seq<Item>, sortedB: seq<Item>)
    requires IdsAreRight(env, a, b)
    requires multiset(a) == multiset(sortedA) && multiset(b) == multiset(sortedB)
    ensures IdsAreRight(env, sortedA, sortedB)
  {
    hide Same;
    forall i, j | 0 <= i < |sortedA| && 0 <= j < |sortedB|
      ensures sortedA[i].id == sortedB[j].id <==> Same(env, sortedA[i].entry, sortedB[j].entry)
    {
      assert sortedA[i] in multiset(a) && sortedB[j] in multiset(b);
    }
  }

  lemma IdIsMatch(env: Env, a: seq<Item>, b: seq<Item>, i: nat)
    requires IdsAreRight(env, a, b) && i < |a|
    ensures a[i].id in Ids(b) <==> IsMatched(env, b, a[i].entry)
  {
    if a[i].id in Ids(b) {
      var j :| 0 <= j < |b| && b[j].id == a[i].id;
      assert Same(env, b[j].entry, a[i].entry);
    }
    if IsMatched(env, b, a[i].entry) {
      var j :| 0 <= j < |b| && Same(env, b[j].entry, a[i].entry);
      assert Same(env, a[i].entry, b[j].entry);
      assert b[j].id in Ids(b);
    }
  }

  /** What make_unique_lists() keeps and frees: files without a match in the other pane and files with it. */
  lemma {:induction false} SelectedByContents(env: Env, a: seq<Item>, b: seq<Item>, having: bool)
    requires IdsAreRight(env, a, b)
    ensures Select(a, Ids(b), having) == SelectMatched(env, a, b, having)
  {
    if a != [] {
      hide Same, IsMatched, Ids;
      var n := |a| - 1;
      assert forall i :: 0 <= i < n ==> a[..n][i] == a[i];
      SelectedByContents(env, a[..n], b, having);
      IdIsMatch(env, a, b, n);
    }
  }

  /** What leave_only_dups() keeps: files of each pane that have a match in the other one. */
  lemma DupsByContents(env: Env, curr: seq<Item>, other: seq<Item>)
    requires IdsAreRight(env, curr, other) && IdsAreRight(env, other, curr)
    requires forall j :: 0 <= j < |other| ==> other[j].id != -1
    requires forall j :: 0 <= j < |other| ==> HasId(curr, other[j].id)
    ensures Duplicates.Present(Duplicates.RenumberedAll(curr, other))
            == Duplicates.RenumberedAll(SelectMatched(env, curr, other, true), other)
    ensures Duplicates.Present(Duplicates.RenumberedAll(other, other))
            == Duplicates.RenumberedAll(SelectMatched(env, other, curr, true), other)
  {
    hide Select, SelectMatched;
    assert Duplicates.KnownIds(other) == Ids(other);
    Duplicates.DupsAreLeft(curr, other);
    SelectedByContents(env, curr, other, true);
    Duplicates.DupsAreLeft(other, other);
    SelectedByContents(env, other, curr, true);
    assert forall j :: 0 <= j < |other| ==> other[j].id in Ids(curr) && other[j].id in Ids(other) by {
      forall j | 0 <= j < |other| ensures other[j].id in Ids(curr) {
        assert HasId(curr, other[j].id);
      }
    }
    SelectAll(other, Ids(curr));
    SelectAll(other, Ids(other));
  }

  lemma {:induction false} SelectAll(items: seq<Item>, ids: set<int>)
    requires forall i :: 0 <= i < |items| ==> items[i].id in ids
    ensures Select(items, ids, true) == items
  {
    if items != [] {
      SelectAll(items[..|items| - 1], ids);
    }
  }

  /** What comparison of a single pane takes for duplicates: files that are the same as another file of the pane. */
  lemma RepeatedByContents(env: Env, items: seq<Item>, i: nat)
    requires IdsAreRight(env, items, items) && i < |items|
    ensures items[i].id in Repeated(items)
            <==> exists j :: 0 <= j < |items| && j != i && Same(env, items[i].entry, items[j].entry)
  {
    if items[i].id in Repeated(items) {
      var j, k :| 0 <= j < k < |items| && items[j].id == items[k].id == items[i].id;
      var other := if j == i then k else j;
      assert Same(env, items[i].entry, items[other].entry);
    }
    if j :| 0 <= j < |items| && j != i && Same(env, items[i].entry, items[j].entry) {
      assert items[i].id == items[j].id;
      assert if i < j then items[i].id == items[j].id else items[j].id == items[i].id;
    }
  }
}
