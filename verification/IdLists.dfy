/** Processing of lists that are sorted by ids (src/compare.c). */
module IdLists {
  import opened Panes

  predicate Sorted(items: seq<Item>) {
    forall i, j :: 0 <= i < j < |items| ==> items[i].id <= items[j].id
  }

  function Ids(items: seq<Item>): set<int> {
    set i | 0 <= i < |items| :: items[i].id
  }

  /** Entries that have or don't have one of the ids. */
  function Select(items: seq<Item>, ids: set<int>, having: bool): seq<Item> {
    if items == [] then []
    else
      var last := items[|items| - 1];
      Select(items[..|items| - 1], ids, having) + (if (last.id in ids) == having then [last] else [])
  }

  lemma SelectNext(items: seq<Item>, n: nat, ids: set<int>, having: bool)
    requires n < |items|
    ensures Select(items[..n + 1], ids, having)
            == Select(items[..n], ids, having) + (if (items[n].id in ids) == having then [items[n]] else [])
  {
    assert items[..n + 1][..n] == items[..n];
  }

  lemma {:induction false} SelectSplits(items: seq<Item>, ids: set<int>)
    ensures multiset(Select(items, ids, true)) + multiset(Select(items, ids, false)) == multiset(items)
  {
    if items != [] {
      SelectSplits(items[..|items| - 1], ids);
      assert items == items[..|items| - 1] + [items[|items| - 1]];
    }
  }

  /** The order stays. */
  lemma {:induction false} SelectSorted(items: seq<Item>, ids: set<int>, having: bool)
    requires Sorted(items)
    ensures Sorted(Select(items, ids, having))
    ensures forall i :: 0 <= i < |Select(items, ids, having)| ==> Select(items, ids, having)[i] in items
  {
    if items != [] {
      var n := |items| - 1;
      SelectSorted(items[..n], ids, having);
      var r := Select(items[..n], ids, having);
      forall i | 0 <= i < |r| ensures r[i] in items && r[i].id <= items[n].id {
        assert r[i] in items[..n];
        var k :| 0 <= k < n && items[..n][k] == r[i];
      }
    }
  }

  /** Number of an id among the given ones. */
  function Rank(ids: set<int>, id: int): nat {
    |set x | x in ids && x <= id|
  }

  /** Entries with numbers of their ids instead of the ids. */
  function Ranked(items: seq<Item>, ids: set<int>): (r: seq<Item>)
    ensures |r| == |items|
    ensures forall k :: 0 <= k < |items| ==> r[k] == items[k].(id := Rank(ids, items[k].id))
  {
    seq(|items|, k requires 0 <= k < |items| => items[k].(id := Rank(ids, items[k].id)))
  }

  /** Files that had the same id still have it after numbering and others don't, all numbers from 1 on are in use. */
  lemma {:induction false} RanksAreRight(ids: set<int>, a: int, b: int)
    requires a in ids && b in ids
    ensures 1 <= Rank(ids, a) <= |ids|
    ensures a < b <==> Rank(ids, a) < Rank(ids, b)
    ensures (forall x :: x in ids ==> x <= a) ==> Rank(ids, a) == |ids|
  {
    RankIsMonotone(ids, a, b);
    RankIsMonotone(ids, b, a);
    var upTo := set x | x in ids && x <= a;
    assert a in upTo && ids == upTo + (ids - upTo);
    if forall x :: x in ids ==> x <= a {
      assert upTo == ids;
    }
  }

  lemma RankIsMonotone(ids: set<int>, a: int, b: int)
    requires a in ids && b in ids
    ensures a < b ==> Rank(ids, a) < Rank(ids, b)
  {
    if a < b {
      var upToA, upToB := set x | x in ids && x <= a, set x | x in ids && x <= b;
      assert b in upToB - upToA;
      assert upToB == upToA + (upToB - upToA);
    }
  }

  /** Everything before the positions has smaller ids than anything after them. */
  predicate AreSplit(a: seq<Item>, i: nat, b: seq<Item>, j: nat) {
    && i <= |a| && j <= |b|
    && (forall k, l :: 0 <= k < i && j <= l < |b| ==> a[k].id < b[l].id)
    && (forall k, l :: i <= k < |a| && 0 <= l < j ==> b[l].id < a[k].id)
  }

  /** Puts leading entries that have smaller ids. */
  method PutSmaller(items: seq<Item>, from: nat, id: int, view: seq<Item>, ghost ids: set<int>, ghost freed: seq<Item>)
    returns (to: nat, now: seq<Item>)
    requires from <= |items|
    requires forall l :: from <= l < |items| && items[l].id < id ==> items[l].id !in ids
    requires view == Select(items[..from], ids, false) && freed == Select(items[..from], ids, true)
    ensures from <= to <= |items| && (to < |items| ==> items[to].id >= id)
    ensures forall l :: from <= l < to ==> items[l].id < id
    ensures now == Select(items[..to], ids, false) && freed == Select(items[..to], ids, true)
  {
    hide Select;
    to, now := from, view;
    while to < |items| && items[to].id < id
      invariant from <= to <= |items|
      invariant forall l :: from <= l < to ==> items[l].id < id
      invariant now == Select(items[..to], ids, false) && freed == Select(items[..to], ids, true)
    {
      SelectNext(items, to, ids, false);
      SelectNext(items, to, ids, true);
      now := now + [items[to]];
      to := to + 1;
    }
  }

  /** Frees leading entries that have the id. */
  method FreeEqual(items: seq<Item>, from: nat, id: int, freed: seq<Item>, ghost ids: set<int>, ghost view: seq<Item>)
    returns (to: nat, now: seq<Item>)
    requires from < |items| && items[from].id == id && id in ids
    requires view == Select(items[..from], ids, false) && freed == Select(items[..from], ids, true)
    ensures from < to <= |items| && (to < |items| ==> items[to].id != id)
    ensures forall l :: from <= l < to ==> items[l].id == id
    ensures view == Select(items[..to], ids, false) && now == Select(items[..to], ids, true)
  {
    hide Select;
    to, now := from, freed;
    while to < |items| && items[to].id == id
      invariant from <= to <= |items|
      invariant forall l :: from <= l < to ==> items[l].id == id
      invariant view == Select(items[..to], ids, false) && now == Select(items[..to], ids, true)
    {
      SelectNext(items, to, ids, false);
      SelectNext(items, to, ids, true);
      now := now + [items[to]];
      to := to + 1;
    }
  }

  /** Puts into views entries that are unique to each of the lists, frees the rest of entries. */
  method MakeUniqueLists(curr: seq<Item>, other: seq<Item>)
    returns (currView: seq<Item>, otherView: seq<Item>, currFreed: seq<Item>, otherFreed: seq<Item>)
    requires Sorted(curr) && Sorted(other)
    ensures currView == Select(curr, Ids(other), false) && otherView == Select(other, Ids(curr), false)
    ensures currFreed == Select(curr, Ids(other), true) && otherFreed == Select(other, Ids(curr), true)
  {
    hide Select;
    currView, otherView, currFreed, otherFreed := [], [], [], [];
    ghost var currIds, otherIds := Ids(curr), Ids(other);
    SelectNone(currIds);
    SelectNone(otherIds);
    var i, j := 0, 0;
    while i < |other|
      invariant AreSplit(other, i, curr, j)
      invariant currView == Select(curr[..j], otherIds, false) && currFreed == Select(curr[..j], otherIds, true)
      invariant otherView == Select(other[..i], currIds, false) && otherFreed == Select(other[..i], currIds, true)
    {
      var id := other[i].id;
      SmallerAreMissing(other, i, curr, j);
      j, currView := PutSmaller(curr, j, id, currView, otherIds, currFreed);

      if j >= |curr| || curr[j].id != id {
        SelectNext(other, i, currIds, false);
        SelectNext(other, i, currIds, true);
        otherView := otherView + [other[i]];
        i := i + 1;
        continue;
      }

      j, currFreed := FreeEqual(curr, j, id, currFreed, otherIds, currView);
      i, otherFreed := FreeEqual(other, i, id, otherFreed, currIds, otherView);
    }

    while j < |curr|
      invariant j <= |curr|
      invariant forall l :: j <= l < |curr| ==> curr[l].id !in otherIds
      invariant currView == Select(curr[..j], otherIds, false) && currFreed == Select(curr[..j], otherIds, true)
    {
      SelectNext(curr, j, otherIds, false);
      SelectNext(curr, j, otherIds, true);
      currView := currView + [curr[j]];
      j := j + 1;
    }
    assert curr[..|curr|] == curr && other[..|other|] == other;
  }

  lemma SelectNone(ids: set<int>)
    ensures forall having :: Select([], ids, having) == []
  {
  }

  lemma SmallerAreMissing(other: seq<Item>, i: nat, curr: seq<Item>, j: nat)
    requires Sorted(other) && AreSplit(other, i, curr, j) && i < |other|
    ensures forall l :: j <= l < |curr| && curr[l].id < other[i].id ==> curr[l].id !in Ids(other)
  {
  }

  datatype ListType = All | Dups | Unique

  /** Ids of more than one file. */
  function Repeated(items: seq<Item>): set<int> {
    set i, j | 0 <= i < j < |items| && items[i].id == items[j].id :: items[i].id
  }

  lemma RepeatedAreAdjacent(items: seq<Item>, i: nat)
    requires Sorted(items) && i < |items|
    ensures items[i].id in Repeated(items) <==> (i + 1 < |items| && items[i].id == items[i + 1].id)
                                                || (i > 0 && items[i - 1].id == items[i].id)
  {
  }

  lemma RepeatedAreIds(items: seq<Item>)
    ensures Repeated(items) <= Ids(items)
  {
  }

  lemma NoneIsBetween(items: seq<Item>, i: nat, id: int)
    requires Sorted(items) && i < |items| && id in Ids(items)
    ensures id < items[i].id ==> i > 0 && id <= items[i - 1].id
  {
    var k :| 0 <= k < |items| && items[k].id == id;
  }

  lemma RankNext(items: seq<Item>, ids: set<int>, i: nat)
    requires Sorted(items) && i < |items| && ids <= Ids(items)
    ensures Rank(ids, items[i].id)
            == (if i == 0 then 0 else Rank(ids, items[i - 1].id))
               + (if items[i].id in ids && (i > 0 ==> items[i - 1].id < items[i].id) then 1 else 0)
    ensures i > 0 ==> items[i - 1].id <= items[i].id
  {
    hide Ids;
    var id := items[i].id;
    assert i > 0 ==> items[i - 1].id <= id;
    hide Sorted;
    var was := if i == 0 then {} else set x | x in ids && x <= items[i - 1].id;
    var isNew := id in ids && (i > 0 ==> items[i - 1].id < id);
    forall x | x in ids ensures x <= id <==> x in was || (isNew && x == id) {
      NoneIsBetween(items, i, x);
    }
    assert (set x | x in ids && x <= id) == was + (if isNew then {id} else {});
  }

  /** Puts files into the view or frees them on comparing files of a single pane. */
  method GroupOnePane(items: seq<Item>, lt: ListType) returns (view: seq<Item>, freed: seq<Item>)
    requires Sorted(items)
    requires forall i :: 0 <= i < |items| ==> items[i].id > 0
    ensures lt.All? ==> view == items && freed == []
    ensures !lt.All? ==>
              && view == Ranked(Select(items, Repeated(items), lt.Dups?), Repeated(items))
              && freed == Select(items, Repeated(items), lt.Unique?)
  {
    hide Select, Rank, Ranked, Repeated, Sorted;
    view, freed := [], [];
    ghost var ids := Repeated(items);
    SelectNone(ids);
    RepeatedAreIds(items);
    if items != [] {
      RankedNext([], items[0], ids);
    }
    var dupId, nextId, i := -1, 0, 0;
    while i < |items|
      invariant i <= |items|
      invariant lt.All? ==> view == items[..i] && freed == []
      invariant !lt.All? ==>
                  && view == Ranked(Select(items[..i], ids, lt.Dups?), ids)
                  && freed == Select(items[..i], ids, lt.Unique?)
                  && dupId == (if i > 0 && items[i - 1].id in ids then items[i - 1].id else -1)
                  && nextId == if i == 0 then 0 else Rank(ids, items[i - 1].id)
    {
      var entry := items[i];
      if lt.All? {
        view, i := view + [entry], i + 1;
        continue;
      }
      SelectNext(items, i, ids, lt.Dups?);
      SelectNext(items, i, ids, lt.Unique?);
      RankedNext(Select(items[..i], ids, lt.Dups?), entry, ids);
      RankNext(items, ids, i);
      RepeatedAreAdjacent(items, i);
      if entry.id == dupId {
        view, freed := PutOrFree(view, freed, entry, nextId, lt.Dups?);
        i := i + 1;
        continue;
      }
      dupId := if i < |items| - 1 && items[i].id == items[i + 1].id then entry.id else -1;
      if entry.id == dupId {
        nextId := nextId + 1;
        view, freed := PutOrFree(view, freed, entry, nextId, lt.Dups?);
      } else {
        view, freed := PutOrFree(view, freed, entry, nextId, lt.Unique?);
      }
      i := i + 1;
    }
    assert items[..|items|] == items;
  }

  lemma RankedNext(items: seq<Item>, item: Item, ids: set<int>)
    ensures Ranked(items + [item], ids) == Ranked(items, ids) + [item.(id := Rank(ids, item.id))]
    ensures Ranked([], ids) == []
  {
  }

  method PutOrFree(view: seq<Item>, freed: seq<Item>, entry: Item, id: int, take: bool)
    returns (newView: seq<Item>, newFreed: seq<Item>)
    ensures newView == if take then view + [entry.(id := id)] else view
    ensures newFreed == if take then freed else freed + [entry]
  {
    if take {
      newView, newFreed := view + [entry.(id := id)], freed;
    } else {
      newView, newFreed := view, freed + [entry];
    }
  }
}
