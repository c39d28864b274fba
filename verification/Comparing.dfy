/** Whole comparisons: from files of panes to what is displayed (compare_two_panes() and compare_one_pane()). */
module Comparing {
  import opened ContentIds
  import opened Panes
  import opened IdLists
  import opened ContentsOfLists
  import Alignment
  import Duplicates
  import SideBySide

  /** Sorting by ids, in whatever order files of the same id are put. */
  type Sorter = seq<Item> -> seq<Item>

  ghost predicate IsSorter(sort: Sorter) {
    forall items :: multiset(sort(items)) == multiset(items) && Sorted(sort(items))
  }

  /** Files that take part in a comparison. */
  predicate IsCompared(env: Env, e: Entry, skipEmpty: bool) {
    !(skipEmpty && e.size == 0) && env.isAccessible(e.path)
  }

  /** There is such a file with the same contents. */
  predicate HasTwin(env: Env, files: seq<Entry>, e: Entry, skipEmpty: bool) {
    exists k :: 0 <= k < |files| && IsCompared(env, files[k], skipEmpty) && Same(env, files[k], e)
  }

  /** There is such a file besides the k-th one. */
  predicate HasOtherTwin(env: Env, files: seq<Entry>, k: nat, skipEmpty: bool)
    requires k < |files|
  {
    exists j :: 0 <= j < |files| && j != k && IsCompared(env, files[j], skipEmpty) && Same(env, files[k], files[j])
  }

  // Which files are in a list.

  predicate HasTag(items: seq<Item>, tag: nat) {
    exists i :: 0 <= i < |items| && items[i].tag == tag
  }

  predicate AreFilesOf(items: seq<Item>, files: seq<Entry>) {
    && (forall i :: 0 <= i < |items| ==> items[i].tag < |files| && items[i].entry == files[items[i].tag])
    && (forall i, j :: 0 <= i < j < |items| ==> items[i].tag != items[j].tag)
  }

  /** The list consists of wanted files, each of them is there once. */
  ghost predicate Shows(items: seq<Item>, files: seq<Entry>, wanted: nat -> bool) {
    && AreFilesOf(items, files)
    && forall k :: 0 <= k < |files| ==> (HasTag(items, k) <==> wanted(k))
  }

  ghost function Compared(env: Env, files: seq<Entry>, skipEmpty: bool): nat -> bool {
    (k: nat) => k < |files| && IsCompared(env, files[k], skipEmpty)
  }

  ghost function Twins(env: Env, files: seq<Entry>, others: seq<Entry>, skipEmpty: bool, matched: bool): nat -> bool {
    (k: nat) =>
      k < |files| && IsCompared(env, files[k], skipEmpty) && HasTwin(env, others, files[k], skipEmpty) == matched
  }

  ghost function OwnTwins(env: Env, files: seq<Entry>, skipEmpty: bool, matched: bool): nat -> bool {
    (k: nat) => k < |files| && IsCompared(env, files[k], skipEmpty) && HasOtherTwin(env, files, k, skipEmpty) == matched
  }

  lemma {:induction false} ListedAre(env: Env, others: seq<Item>, files: seq<Entry>, from: nat, dupsOnly: bool,
                                     skipEmpty: bool)
    ensures var tags := Listed(env, others, files, from, dupsOnly, skipEmpty);
            && (forall i :: 0 <= i < |tags| ==> from <= tags[i] < |files|)
            && (forall i, j :: 0 <= i < j < |tags| ==> tags[i] < tags[j])
            && (forall k :: from <= k < |files| ==>
                  (k in tags <==> IsListed(env, others, files[k], dupsOnly, skipEmpty)))
    decreases |files| - from
  {
    hide IsListed;
    if from < |files| {
      ListedAre(env, others, files, from + 1, dupsOnly, skipEmpty);
    }
  }

  lemma ListShows(env: Env, others: seq<Item>, items: seq<Item>, files: seq<Entry>, dupsOnly: bool, skipEmpty: bool)
    requires AreListed(items, files, Listed(env, others, files, 0, dupsOnly, skipEmpty))
    ensures Shows(items, files, (k: nat) => k < |files| && IsListed(env, others, files[k], dupsOnly, skipEmpty))
  {
    hide IsListed, Listed;
    var tags := Listed(env, others, files, 0, dupsOnly, skipEmpty);
    ListedAre(env, others, files, 0, dupsOnly, skipEmpty);
    forall k | 0 <= k < |files| ensures HasTag(items, k) <==> k in tags {
      if k in tags {
        var i :| 0 <= i < |tags| && tags[i] == k;
        assert items[i].tag == k;
      }
    }
  }

  lemma {:induction false} CountIsOne(items: seq<Item>, x: Item)
    requires forall i, j :: 0 <= i < j < |items| ==> items[i] != items[j]
    ensures multiset(items)[x] <= 1
  {
    if items != [] {
      var n := |items| - 1;
      CountIsOne(items[..n], x);
      assert items == items[..n] + [items[n]];
      assert x == items[n] ==> x !in items[..n];
    }
  }

  lemma PlaceIsOne(items: seq<Item>, i: nat, j: nat)
    requires i < j < |items| && items[i] == items[j]
    ensures multiset(items)[items[i]] >= 2
  {
    assert items == items[..j] + items[j..];
    assert items[..j][i] in multiset(items[..j]) && items[j..][0] in multiset(items[j..]);
  }

  lemma PermutedShows(items: seq<Item>, sorted: seq<Item>, files: seq<Entry>, wanted: nat -> bool)
    requires Shows(items, files, wanted) && multiset(items) == multiset(sorted)
    ensures Shows(sorted, files, wanted)
  {
    forall i | 0 <= i < |sorted| ensures sorted[i] in items {
      assert sorted[i] in multiset(items);
    }
    forall i, j | 0 <= i < j < |sorted| ensures sorted[i].tag != sorted[j].tag {
      if sorted[i].tag == sorted[j].tag {
        assert sorted[i] in items && sorted[j] in items;
        PlaceIsOne(sorted, i, j);
        CountIsOne(items, sorted[i]);
      }
    }
    forall k | 0 <= k < |files| ensures HasTag(sorted, k) <==> HasTag(items, k) {
      if HasTag(items, k) {
        var i :| 0 <= i < |items| && items[i].tag == k;
        assert items[i] in multiset(sorted);
        var j :| 0 <= j < |sorted| && sorted[j] == items[i];
        assert sorted[j].tag == k;
      }
      if HasTag(sorted, k) {
        var j :| 0 <= j < |sorted| && sorted[j].tag == k;
        var i :| 0 <= i < |items| && items[i] == sorted[j];
        assert items[i].tag == k;
      }
    }
  }

  lemma {:induction false} SelectedAre(items: seq<Item>, ids: set<int>, having: bool)
    ensures var r := Select(items, ids, having);
            && (forall x :: x in r <==> x in items && (x.id in ids) == having)
            && ((forall i, j :: 0 <= i < j < |items| ==> items[i].tag != items[j].tag) ==>
                  forall i, j :: 0 <= i < j < |r| ==> r[i].tag != r[j].tag)
  {
    if items != [] {
      var n := |items| - 1;
      SelectedAre(items[..n], ids, having);
      assert items == items[..n] + [items[n]];
    }
  }

  lemma SelectShows(items: seq<Item>, ids: set<int>, having: bool, files: seq<Entry>, wanted: nat -> bool,
                    kept: nat -> bool)
    requires Shows(items, files, wanted)
    requires forall i :: 0 <= i < |items| ==> (kept(items[i].tag) <==> (items[i].id in ids) == having)
    requires forall k :: kept(k) ==> wanted(k)
    ensures Shows(Select(items, ids, having), files, kept)
  {
    hide Select;
    var r := Select(items, ids, having);
    SelectedAre(items, ids, having);
    forall i | 0 <= i < |r| ensures r[i] in items {
      assert r[i] in r;
    }
    forall k | 0 <= k < |files| ensures HasTag(r, k) <==> kept(k) {
      if kept(k) {
        assert HasTag(items, k);
        var i :| 0 <= i < |items| && items[i].tag == k;
        assert items[i] in r;
      }
      if HasTag(r, k) {
        var i :| 0 <= i < |r| && r[i].tag == k;
        assert r[i] in r;
      }
    }
  }

  /** Files match those of a list when they have twins in the other pane. */
  lemma MatchIsTwin(env: Env, items: seq<Item>, files: seq<Entry>, e: Entry, skipEmpty: bool)
    requires Shows(items, files, Compared(env, files, skipEmpty))
    ensures IsMatched(env, items, e) <==> HasTwin(env, files, e, skipEmpty)
  {
    hide IsCompared, Same;
    if IsMatched(env, items, e) {
      var i :| 0 <= i < |items| && Same(env, items[i].entry, e);
      assert HasTag(items, items[i].tag);
    }
    if HasTwin(env, files, e, skipEmpty) {
      var k :| 0 <= k < |files| && IsCompared(env, files[k], skipEmpty) && Same(env, files[k], e);
      assert HasTag(items, k);
      var i :| 0 <= i < |items| && items[i].tag == k;
      assert items[i].entry == files[k];
    }
  }

  /** Files that are listed only if they match are those with twins. */
  lemma MatchedAreTwins(env: Env, curr: seq<Item>, currFiles: seq<Entry>, other: seq<Item>, files: seq<Entry>,
                        skipEmpty: bool)
    requires Shows(curr, currFiles, Compared(env, currFiles, skipEmpty))
    requires Shows(other, files, (k: nat) => k < |files| && IsListed(env, curr, files[k], true, skipEmpty))
    ensures Shows(other, files, Twins(env, files, currFiles, skipEmpty, true))
  {
    hide IsMatched, HasTwin, AreFilesOf;
    forall k | 0 <= k < |files|
      ensures HasTag(other, k) <==> Twins(env, files, currFiles, skipEmpty, true)(k)
    {
      MatchIsTwin(env, curr, currFiles, files[k], skipEmpty);
    }
  }

  /** Matches of files of the first list in the second one tell which of them have twins. */
  ghost predicate MatchesAreTwins(env: Env, a: seq<Item>, b: seq<Item>, bFiles: seq<Entry>, skipEmpty: bool) {
    forall i :: 0 <= i < |a| ==> (IsMatched(env, b, a[i].entry) <==> HasTwin(env, bFiles, a[i].entry, skipEmpty))
  }

  lemma ComparedMatch(env: Env, a: seq<Item>, b: seq<Item>, bFiles: seq<Entry>, skipEmpty: bool)
    requires Shows(b, bFiles, Compared(env, bFiles, skipEmpty))
    ensures MatchesAreTwins(env, a, b, bFiles, skipEmpty)
  {
    hide IsMatched, HasTwin, Shows;
    forall i | 0 <= i < |a|
      ensures IsMatched(env, b, a[i].entry) <==> HasTwin(env, bFiles, a[i].entry, skipEmpty)
    {
      MatchIsTwin(env, b, bFiles, a[i].entry, skipEmpty);
    }
  }

  /** It's enough for the second list to have files that match the first one. */
  lemma TwinsMatch(env: Env, a: seq<Item>, aFiles: seq<Entry>, b: seq<Item>, bFiles: seq<Entry>, skipEmpty: bool)
    requires Shows(a, aFiles, Compared(env, aFiles, skipEmpty))
    requires Shows(b, bFiles, Twins(env, bFiles, aFiles, skipEmpty, true))
    ensures MatchesAreTwins(env, a, b, bFiles, skipEmpty)
  {
    hide IsCompared;
    forall i | 0 <= i < |a|
      ensures IsMatched(env, b, a[i].entry) <==> HasTwin(env, bFiles, a[i].entry, skipEmpty)
    {
      var e := a[i].entry;
      assert HasTag(a, a[i].tag);
      if IsMatched(env, b, e) {
        var j :| 0 <= j < |b| && Same(env, b[j].entry, e);
        assert HasTag(b, b[j].tag);
      }
      if HasTwin(env, bFiles, e, skipEmpty) {
        var k :| 0 <= k < |bFiles| && IsCompared(env, bFiles[k], skipEmpty) && Same(env, bFiles[k], e);
        assert Same(env, aFiles[a[i].tag], bFiles[k]);
        assert HasTag(b, k);
        var j :| 0 <= j < |b| && b[j].tag == k;
        assert b[j].entry == bFiles[k];
      }
    }
  }

  lemma SelectTwins(env: Env, a: seq<Item>, aFiles: seq<Entry>, b: seq<Item>, bFiles: seq<Entry>, skipEmpty: bool,
                    matched: bool)
    requires Shows(a, aFiles, Compared(env, aFiles, skipEmpty)) && IdsAreRight(env, a, b)
    requires MatchesAreTwins(env, a, b, bFiles, skipEmpty)
    ensures Shows(Select(a, Ids(b), matched), aFiles, Twins(env, aFiles, bFiles, skipEmpty, matched))
  {
    hide Select, Ids, IsMatched, HasTwin, IsCompared, IdsAreRight;
    var kept := Twins(env, aFiles, bFiles, skipEmpty, matched);
    forall i | 0 <= i < |a| ensures kept(a[i].tag) <==> (a[i].id in Ids(b)) == matched {
      IdIsMatch(env, a, b, i);
      assert HasTag(a, a[i].tag);
    }
    SelectShows(a, Ids(b), matched, aFiles, Compared(env, aFiles, skipEmpty), kept);
  }

  /** Files of a single pane. */
  lemma SelectOwnTwins(env: Env, items: seq<Item>, files: seq<Entry>, skipEmpty: bool, matched: bool)
    requires Shows(items, files, Compared(env, files, skipEmpty)) && IdsAreRight(env, items, items)
    ensures Shows(Select(items, Repeated(items), matched), files, OwnTwins(env, files, skipEmpty, matched))
  {
    hide Select, Repeated, IsCompared, IdsAreRight;
    var kept := OwnTwins(env, files, skipEmpty, matched);
    forall i | 0 <= i < |items| ensures kept(items[i].tag) <==> (items[i].id in Repeated(items)) == matched {
      RepeatedByContents(env, items, i);
      assert HasTag(items, items[i].tag);
      OwnTwinIsItem(env, items, files, skipEmpty, i);
    }
    SelectShows(items, Repeated(items), matched, files, Compared(env, files, skipEmpty), kept);
  }

  lemma OwnTwinIsItem(env: Env, items: seq<Item>, files: seq<Entry>, skipEmpty: bool, i: nat)
    requires Shows(items, files, Compared(env, files, skipEmpty)) && i < |items|
    ensures HasOtherTwin(env, files, items[i].tag, skipEmpty)
            <==> exists j :: 0 <= j < |items| && j != i && Same(env, items[i].entry, items[j].entry)
  {
    hide Same, IsCompared;
    var k := items[i].tag;
    if HasOtherTwin(env, files, k, skipEmpty) {
      var l :| 0 <= l < |files| && l != k && IsCompared(env, files[l], skipEmpty) && Same(env, files[k], files[l]);
      assert HasTag(items, l);
      var j :| 0 <= j < |items| && items[j].tag == l;
      assert j != i && items[j].entry == files[l];
    }
    if j :| 0 <= j < |items| && j != i && Same(env, items[i].entry, items[j].entry) {
      assert HasTag(items, items[j].tag);
      assert if i < j then items[i].tag != items[j].tag else items[j].tag != items[i].tag;
      assert files[items[j].tag] == items[j].entry;
    }
  }

  // Changes of ids.

  /** Parts of lists have right ids as well. */
  lemma PartIdsAreRight(env: Env, a: seq<Item>, b: seq<Item>, partOfA: seq<Item>, partOfB: seq<Item>)
    requires IdsAreRight(env, a, b)
    requires (forall x :: x in partOfA ==> x in a) && (forall x :: x in partOfB ==> x in b)
    ensures IdsAreRight(env, partOfA, partOfB)
  {
    hide Same;
    forall i, j | 0 <= i < |partOfA| && 0 <= j < |partOfB|
      ensures partOfA[i].id == partOfB[j].id <==> Same(env, partOfA[i].entry, partOfB[j].entry)
    {
      assert partOfA[i] in a && partOfB[j] in b;
    }
  }

  lemma RenumberedIdsAreRight(env: Env, a: seq<Item>, b: seq<Item>, other: seq<Item>)
    requires IdsAreRight(env, a, b)
    requires forall x :: x in a || x in b ==> x.id in Duplicates.KnownIds(other)
    ensures IdsAreRight(env, Duplicates.RenumberedAll(a, other), Duplicates.RenumberedAll(b, other))
  {
    hide Same, Rank, Duplicates.KnownIds;
    var ids := Duplicates.KnownIds(other);
    forall i, j | 0 <= i < |a| && 0 <= j < |b|
      ensures Rank(ids, a[i].id) == Rank(ids, b[j].id) <==> Same(env, a[i].entry, b[j].entry)
    {
      assert a[i] in a && b[j] in b;
      RanksAreRight(ids, a[i].id, b[j].id);
      RanksAreRight(ids, b[j].id, a[i].id);
    }
  }

  /** New ids are in the order of the old ones. */
  lemma RenumberedIsSorted(items: seq<Item>, other: seq<Item>)
    requires Sorted(items) && forall i :: 0 <= i < |items| ==> items[i].id in Duplicates.KnownIds(other)
    ensures Sorted(Duplicates.RenumberedAll(items, other))
  {
    hide Rank, Duplicates.KnownIds;
    var ids := Duplicates.KnownIds(other);
    forall i, j | 0 <= i < j < |items| ensures Rank(ids, items[i].id) <= Rank(ids, items[j].id) {
      RanksAreRight(ids, items[j].id, items[i].id);
    }
  }

  /** What is left in the first list. */
  lemma DupsAreSorted(items: seq<Item>, other: seq<Item>)
    requires Sorted(items)
    ensures Sorted(Duplicates.Present(Duplicates.RenumberedAll(items, other)))
  {
    hide Sorted, Duplicates.KnownIds, Duplicates.Present, Duplicates.RenumberedAll, Select;
    var ids := Duplicates.KnownIds(other);
    var left := Select(items, ids, true);
    Duplicates.DupsAreLeft(items, other);
    SelectSorted(items, ids, true);
    SelectedAre(items, ids, true);
    forall i | 0 <= i < |left| ensures left[i].id in ids {
      assert left[i] in left;
    }
    RenumberedIsSorted(left, other);
  }

  lemma RenumberedShows(items: seq<Item>, other: seq<Item>, files: seq<Entry>, wanted: nat -> bool)
    requires Shows(items, files, wanted)
    ensures Shows(Duplicates.RenumberedAll(items, other), files, wanted)
  {
    var now := Duplicates.RenumberedAll(items, other);
    forall k | 0 <= k < |files| ensures HasTag(now, k) <==> HasTag(items, k) {
      if HasTag(items, k) {
        var i :| 0 <= i < |items| && items[i].tag == k;
        assert now[i].tag == k;
      }
      if HasTag(now, k) {
        var i :| 0 <= i < |now| && now[i].tag == k;
        assert items[i].tag == k;
      }
    }
  }

  // Rows.

  function EntryOf(item: Item, nameOf: string -> string): Alignment.Entry {
    Alignment.Entry(item.entry.path, nameOf(item.entry.path), item.id, false)
  }

  function EntriesOf(items: seq<Item>, nameOf: string -> string): (entries: seq<Alignment.Entry>)
    ensures |entries| == |items|
    ensures forall i :: 0 <= i < |items| ==> entries[i] == EntryOf(items[i], nameOf)
  {
    seq(|items|, i requires 0 <= i < |items| => EntryOf(items[i], nameOf))
  }

  predicate IsPairOf(env: Env, r: Alignment.Row, a: Item, b: Item, nameOf: string -> string)
    requires r.Pair?
  {
    r.curr == EntryOf(a, nameOf) && r.other == EntryOf(b, nameOf) && Same(env, a.entry, b.entry)
  }

  /** Files that are put in one row are the same. */
  ghost predicate PairsAreSame(env: Env, rows: seq<Alignment.Row>, a: seq<Item>, b: seq<Item>,
                               nameOf: string -> string) {
    forall r :: r in rows && r.Pair? ==>
      exists i, j :: 0 <= i < |a| && 0 <= j < |b| && IsPairOf(env, r, a[i], b[j], nameOf)
  }

  lemma {:induction false} RowsAreOfLists(rows: seq<Alignment.Row>, r: Alignment.Row)
    requires r in rows
    ensures !r.Other? ==> r.curr in Alignment.CurrOf(rows)
    ensures !r.Curr? ==> r.other in Alignment.OtherOf(rows)
  {
    if r != rows[0] {
      RowsAreOfLists(rows[1..], r);
    }
  }

  lemma AlignedAreSame(env: Env, rows: seq<Alignment.Row>, a: seq<Item>, b: seq<Item>, nameOf: string -> string)
    requires Alignment.IsAlignment(rows, EntriesOf(a, nameOf), EntriesOf(b, nameOf)) && IdsAreRight(env, a, b)
    ensures PairsAreSame(env, rows, a, b, nameOf)
  {
    hide Same;
    forall r | r in rows && r.Pair?
      ensures exists i, j :: 0 <= i < |a| && 0 <= j < |b| && IsPairOf(env, r, a[i], b[j], nameOf)
    {
      RowsAreOfLists(rows, r);
      var i :| 0 <= i < |a| && EntriesOf(a, nameOf)[i] == r.curr;
      var j :| 0 <= j < |b| && EntriesOf(b, nameOf)[j] == r.other;
      assert a[i].id == b[j].id;
      assert IsPairOf(env, r, a[i], b[j], nameOf);
    }
  }

  /** Whether a row has only this file of the current list. */
  predicate IsAlone(rows: seq<Alignment.Row>, item: Item, nameOf: string -> string) {
    Alignment.Curr(EntryOf(item, nameOf)) in rows
  }

  /** The same for the other list. */
  predicate IsAloneInOther(rows: seq<Alignment.Row>, item: Item, nameOf: string -> string) {
    Alignment.Other(EntryOf(item, nameOf)) in rows
  }

  /** A file is on its own only when all files with the same contents on the other side are in pairs. */
  ghost predicate TwinsAreTogether(env: Env, rows: seq<Alignment.Row>, a: seq<Item>, b: seq<Item>,
                                   nameOf: string -> string) {
    forall i, j :: 0 <= i < |a| && 0 <= j < |b| && IsAlone(rows, a[i], nameOf) && IsAloneInOther(rows, b[j], nameOf) ==>
      !Same(env, a[i].entry, b[j].entry)
  }

  lemma SortedEntries(items: seq<Item>, nameOf: string -> string)
    requires Sorted(items)
    ensures Alignment.AreSorted(EntriesOf(items, nameOf))
  {
  }

  /** The best alignment of sorted lists puts as many same files together as possible. */
  lemma AlignedAreTogether(env: Env, rows: seq<Alignment.Row>, a: seq<Item>, b: seq<Item>, nameOf: string -> string)
    requires Sorted(a) && Sorted(b) && IdsAreRight(env, a, b)
    requires Alignment.IsAlignment(rows, EntriesOf(a, nameOf), EntriesOf(b, nameOf))
    requires forall rows' | Alignment.IsAlignment(rows', EntriesOf(a, nameOf), EntriesOf(b, nameOf)) ::
               Alignment.OneSided(rows) <= Alignment.OneSided(rows')
    ensures TwinsAreTogether(env, rows, a, b, nameOf)
  {
    hide Same, Sorted, Alignment.IsAlignment, Alignment.OneSided, Alignment.AreSorted;
    SortedEntries(a, nameOf);
    SortedEntries(b, nameOf);
    Alignment.NoneIsApart(rows, EntriesOf(a, nameOf), EntriesOf(b, nameOf));
  }

  // Comparisons.

  /** What is in the lists of the panes depending on what is asked for. */
  ghost predicate AreDisplayed(env: Env, curr: seq<Item>, currFiles: seq<Entry>, other: seq<Item>,
                               otherFiles: seq<Entry>, lt: ListType, skipEmpty: bool) {
    if lt.All? then
      && Shows(curr, currFiles, Compared(env, currFiles, skipEmpty))
      && Shows(other, otherFiles, Compared(env, otherFiles, skipEmpty))
    else
      && Shows(curr, currFiles, Twins(env, currFiles, otherFiles, skipEmpty, lt.Dups?))
      && Shows(other, otherFiles, Twins(env, otherFiles, currFiles, skipEmpty, lt.Dups?))
  }

  lemma SameShows(items: seq<Item>, files: seq<Entry>, wanted: nat -> bool, same: nat -> bool)
    requires Shows(items, files, wanted)
    requires forall k :: 0 <= k < |files| ==> wanted(k) == same(k)
    ensures Shows(items, files, same)
  {
  }

  lemma AssignedShow(env: Env, curr: seq<Item>, currFiles: seq<Entry>, other: seq<Item>, otherFiles: seq<Entry>,
                     dupsOnly: bool, skipEmpty: bool)
    requires AreListed(curr, currFiles, Listed(env, [], currFiles, 0, false, skipEmpty))
    requires AreListed(other, otherFiles, Listed(env, curr, otherFiles, 0, dupsOnly, skipEmpty))
    ensures Shows(curr, currFiles, Compared(env, currFiles, skipEmpty))
    ensures Shows(other, otherFiles, if dupsOnly then Twins(env, otherFiles, currFiles, skipEmpty, true)
                                     else Compared(env, otherFiles, skipEmpty))
  {
    hide Shows, Listed, AreListed, IsMatched, HasTwin;
    ListShows(env, [], curr, currFiles, false, skipEmpty);
    SameShows(curr, currFiles, (k: nat) => k < |currFiles| && IsListed(env, [], currFiles[k], false, skipEmpty),
              Compared(env, currFiles, skipEmpty));
    ListShows(env, curr, other, otherFiles, dupsOnly, skipEmpty);
    if dupsOnly {
      MatchedAreTwins(env, curr, currFiles, other, otherFiles, skipEmpty);
    } else {
      SameShows(other, otherFiles,
                (k: nat) => k < |otherFiles| && IsListed(env, curr, otherFiles[k], false, skipEmpty),
                Compared(env, otherFiles, skipEmpty));
    }
  }

  /** make_unique_lists(). */
  method ListUnique(ghost env: Env, curr: seq<Item>, ghost currFiles: seq<Entry>, other: seq<Item>,
                    ghost otherFiles: seq<Entry>, ghost skipEmpty: bool)
    returns (currView: seq<Item>, otherView: seq<Item>)
    requires Sorted(curr) && Sorted(other) && IdsAreRight(env, curr, other)
    requires Shows(curr, currFiles, Compared(env, currFiles, skipEmpty))
    requires Shows(other, otherFiles, Compared(env, otherFiles, skipEmpty))
    ensures Shows(currView, currFiles, Twins(env, currFiles, otherFiles, skipEmpty, false))
    ensures Shows(otherView, otherFiles, Twins(env, otherFiles, currFiles, skipEmpty, false))
    ensures Sorted(currView) && Sorted(otherView)
  {
    hide Shows, Sorted, Ids, Select;
    SelectSorted(curr, Ids(other), false);
    SelectSorted(other, Ids(curr), false);
    var currFreed, otherFreed;
    currView, otherView, currFreed, otherFreed := MakeUniqueLists(curr, other);
    ComparedMatch(env, curr, other, otherFiles, skipEmpty);
    ComparedMatch(env, other, curr, currFiles, skipEmpty);
    IdsAreSymmetric(env, curr, other);
    SelectTwins(env, curr, currFiles, other, otherFiles, skipEmpty, false);
    SelectTwins(env, other, otherFiles, curr, currFiles, skipEmpty, false);
  }

  lemma IdsAreSymmetric(env: Env, a: seq<Item>, b: seq<Item>)
    requires IdsAreRight(env, a, b)
    ensures IdsAreRight(env, b, a)
  {
  }

  /** leave_only_dups(). */
  method ListDups(ghost env: Env, curr: seq<Item>, ghost currFiles: seq<Entry>, other: seq<Item>,
                  ghost otherFiles: seq<Entry>, ghost skipEmpty: bool)
    returns (currDups: seq<Item>, otherDups: seq<Item>)
    requires Sorted(curr) && Sorted(other) && IdsAreRight(env, curr, other)
    requires ArePositive(other) && forall j :: 0 <= j < |other| ==> HasId(curr, other[j].id)
    requires Shows(curr, currFiles, Compared(env, currFiles, skipEmpty))
    requires Shows(other, otherFiles, Twins(env, otherFiles, currFiles, skipEmpty, true))
    ensures Shows(currDups, currFiles, Twins(env, currFiles, otherFiles, skipEmpty, true))
    ensures Shows(otherDups, otherFiles, Twins(env, otherFiles, currFiles, skipEmpty, true))
    ensures IdsAreRight(env, currDups, otherDups) && Sorted(currDups) && Sorted(otherDups)
  {
    hide Shows, Sorted, Ids, Select, IdsAreRight, Duplicates.Present, Duplicates.RenumberedAll, Duplicates.KnownIds;
    DupsAreSorted(curr, other);
    DupsAreSorted(other, other);
    var a := new Item[|curr|](i requires 0 <= i < |curr| => curr[i]);
    var b := new Item[|other|](i requires 0 <= i < |other| => other[i]);
    assert a[..] == curr && b[..] == other;
    KnownAreAll(curr, other);
    Duplicates.LeaveOnlyDups(a, b);
    currDups, otherDups := Duplicates.Present(a[..]), Duplicates.Present(b[..]);
    DupsAreDisplayed(env, curr, currFiles, other, otherFiles, skipEmpty);
  }

  lemma KnownAreAll(curr: seq<Item>, other: seq<Item>)
    requires ArePositive(other) && forall j :: 0 <= j < |other| ==> HasId(curr, other[j].id)
    ensures Duplicates.KnownIds(other) == Ids(other) <= Ids(curr)
  {
    forall id | id in Ids(other) ensures id in Ids(curr) {
      assert HasId(curr, id);
    }
  }

  lemma DupsAreDisplayed(env: Env, curr: seq<Item>, currFiles: seq<Entry>, other: seq<Item>, otherFiles: seq<Entry>,
                         skipEmpty: bool)
    requires IdsAreRight(env, curr, other)
    requires ArePositive(other) && forall j :: 0 <= j < |other| ==> HasId(curr, other[j].id)
    requires Shows(curr, currFiles, Compared(env, currFiles, skipEmpty))
    requires Shows(other, otherFiles, Twins(env, otherFiles, currFiles, skipEmpty, true))
    ensures var currDups := Duplicates.Present(Duplicates.RenumberedAll(curr, other));
            var otherDups := Duplicates.Present(Duplicates.RenumberedAll(other, other));
            && Shows(currDups, currFiles, Twins(env, currFiles, otherFiles, skipEmpty, true))
            && Shows(otherDups, otherFiles, Twins(env, otherFiles, currFiles, skipEmpty, true))
            && IdsAreRight(env, currDups, otherDups)
  {
    hide Shows, Ids, Select, IdsAreRight, Duplicates.Present, Duplicates.RenumberedAll, Duplicates.KnownIds;
    KnownAreAll(curr, other);
    var matched := Select(curr, Ids(other), true);
    Duplicates.DupsAreLeft(curr, other);
    Duplicates.DupsAreLeft(other, other);
    AllAreKnown(other);
    SelectAll(other, Ids(other));
    TwinsMatch(env, curr, currFiles, other, otherFiles, skipEmpty);
    SelectTwins(env, curr, currFiles, other, otherFiles, skipEmpty, true);
    RenumberedShows(matched, other, currFiles, Twins(env, currFiles, otherFiles, skipEmpty, true));
    RenumberedShows(other, other, otherFiles, Twins(env, otherFiles, currFiles, skipEmpty, true));
    SelectedAre(curr, Ids(other), true);
    PartIdsAreRight(env, curr, other, matched, other);
    forall x | x in other ensures x.id in Ids(other) {
      var j :| 0 <= j < |other| && other[j] == x;
      assert other[j].id in Ids(other);
    }
    RenumberedIdsAreRight(env, matched, other, other);
  }

  lemma AllAreKnown(items: seq<Item>)
    ensures forall i :: 0 <= i < |items| ==> items[i].id in Ids(items)
  {
  }

  lemma SortedAreFound(curr: seq<Item>, other: seq<Item>, sortedCurr: seq<Item>, sortedOther: seq<Item>)
    requires multiset(curr) == multiset(sortedCurr) && multiset(other) == multiset(sortedOther)
    requires ArePositive(other) && forall i :: 0 <= i < |other| ==> HasId(curr, other[i].id)
    ensures ArePositive(sortedOther) && forall i :: 0 <= i < |sortedOther| ==> HasId(sortedCurr, sortedOther[i].id)
  {
    forall i | 0 <= i < |sortedOther| ensures sortedOther[i].id >= 1 && HasId(sortedCurr, sortedOther[i].id) {
      assert sortedOther[i] in multiset(other);
      var j :| 0 <= j < |other| && other[j] == sortedOther[i];
      assert HasId(curr, other[j].id);
      var k :| 0 <= k < |curr| && curr[k].id == other[j].id;
      assert curr[k] in multiset(sortedCurr);
      var l :| 0 <= l < |sortedCurr| && sortedCurr[l] == curr[k];
    }
  }

  /** The part of compare_two_panes() up to filling of views. */
  method ListFiles(env: Env, currFiles: seq<Entry>, otherFiles: seq<Entry>, lt: ListType, skipEmpty: bool, sort: Sorter)
    returns (curr: seq<Item>, other: seq<Item>)
    requires IsSorter(sort)
    ensures AreDisplayed(env, curr, currFiles, other, otherFiles, lt, skipEmpty)
    ensures Sorted(curr) && Sorted(other)
    ensures !lt.Unique? ==> IdsAreRight(env, curr, other)
  {
    hide Shows, IdsAreRight, Sorted, Ids, Listed, AreListed, HasId, ArePositive;
    var a, b := AssignIds(env, currFiles, otherFiles, lt.Dups?, skipEmpty);
    AssignedShow(env, a, currFiles, b, otherFiles, lt.Dups?, skipEmpty);
    curr, other := sort(a), sort(b);
    PermutedShows(a, curr, currFiles, Compared(env, currFiles, skipEmpty));
    PermutedShows(b, other, otherFiles, if lt.Dups? then Twins(env, otherFiles, currFiles, skipEmpty, true)
                                        else Compared(env, otherFiles, skipEmpty));
    SortedIdsAreRight(env, a, b, curr, other);
    if lt.Unique? {
      curr, other := ListUnique(env, curr, currFiles, other, otherFiles, skipEmpty);
    } else if lt.Dups? {
      SortedAreFound(a, b, curr, other);
      curr, other := ListDups(env, curr, currFiles, other, otherFiles, skipEmpty);
    }
  }

  /** compare_two_panes() with files grouped by their ids. */
  method CompareTwoPanes(env: Env, currFiles: seq<Entry>, otherFiles: seq<Entry>, lt: ListType, skipEmpty: bool,
                         sort: Sorter, nameOf: string -> string, views: SideBySide.DiffViews,
                         shown: set<Alignment.Kind>)
    returns (curr: seq<Item>, other: seq<Item>, ghost rows: seq<Alignment.Row>)
    requires IsSorter(sort) && (forall path :: nameOf(path) != "") && views.curr == views.other == []
    modifies views
    ensures AreDisplayed(env, curr, currFiles, other, otherFiles, lt, skipEmpty)
    ensures !lt.Unique? ==>
              && Alignment.IsAlignment(rows, EntriesOf(curr, nameOf), EntriesOf(other, nameOf))
              && PairsAreSame(env, rows, curr, other, nameOf)
              && TwinsAreTogether(env, rows, curr, other, nameOf)
              && views.Contents() == SideBySide.Fill(old(views.Contents()), rows, shown, views.currIsLeft)
              && Alignment.InSync(views.curr, views.other)
              && forall rows' | Alignment.IsAlignment(rows', EntriesOf(curr, nameOf), EntriesOf(other, nameOf)) ::
                   Alignment.OneSided(rows) <= Alignment.OneSided(rows')
    ensures !lt.Unique? ==>
              && SideBySide.AreFilled(views.curr, views.other, rows, shown, views.currIsLeft)
              && views.stats.different == old(views.stats.different)
              && views.stats.identical == old(views.stats.identical) + |rows| - Alignment.OneSided(rows)
    ensures lt.Unique? ==> views.Contents() == old(views.Contents())
  {
    hide AreDisplayed, IdsAreRight, Alignment.IsAlignment, Alignment.InSync, SideBySide.Fill, SideBySide.AreFilled,
      PairsAreSame, TwinsAreTogether, Sorted, Alignment.OneSided;
    rows := [];
    curr, other := ListFiles(env, currFiles, otherFiles, lt, skipEmpty, sort);
    if lt.Unique? {
      return;
    }
    var a, b := EntriesOf(curr, nameOf), EntriesOf(other, nameOf);
    rows := views.FillSideBySideByIds(a, b, shown);
    AlignedAreSame(env, rows, curr, other, nameOf);
    AlignedAreTogether(env, rows, curr, other, nameOf);
  }

  /** compare_one_pane(): `freed` are files that aren't shown. */
  method CompareOnePane(env: Env, files: seq<Entry>, lt: ListType, skipEmpty: bool, sort: Sorter)
    returns (view: seq<Item>, freed: seq<Item>)
    requires IsSorter(sort)
    ensures lt.All? ==> Shows(view, files, Compared(env, files, skipEmpty)) && freed == []
    ensures !lt.All? ==>
              && Shows(view, files, OwnTwins(env, files, skipEmpty, lt.Dups?))
              && Shows(freed, files, OwnTwins(env, files, skipEmpty, lt.Unique?))
    ensures Sorted(view) && (!lt.Unique? ==> IdsAreRight(env, view, view))
  {
    hide Shows, IdsAreRight, Sorted, Listed, AreListed, HasId, ArePositive, Select, Repeated;
    var items, nothing := AssignIds(env, files, [], false, skipEmpty);
    AssignedShow(env, items, files, nothing, [], false, skipEmpty);
    var sorted := sort(items);
    PermutedShows(items, sorted, files, Compared(env, files, skipEmpty));
    SortedIdsAreRight(env, items, items, sorted, sorted);
    SortedArePositive(items, sorted);
    view, freed := GroupOnePane(sorted, lt);
    if !lt.All? {
      SelectOwnTwins(env, sorted, files, skipEmpty, true);
      SelectOwnTwins(env, sorted, files, skipEmpty, false);
      RankedShows(Select(sorted, Repeated(sorted), lt.Dups?), Repeated(sorted), files,
                  OwnTwins(env, files, skipEmpty, lt.Dups?));
      SelectSorted(sorted, Repeated(sorted), lt.Dups?);
      RankedIsSorted(Select(sorted, Repeated(sorted), lt.Dups?), Repeated(sorted));
      RepeatedIdsAreRight(env, sorted);
    }
  }

  lemma SortedArePositive(items: seq<Item>, sorted: seq<Item>)
    requires ArePositive(items) && multiset(items) == multiset(sorted)
    ensures forall i :: 0 <= i < |sorted| ==> sorted[i].id > 0
  {
    forall i | 0 <= i < |sorted| ensures sorted[i].id > 0 {
      assert sorted[i] in multiset(items);
    }
  }

  lemma RankedIsSorted(items: seq<Item>, ids: set<int>)
    requires Sorted(items)
    ensures Sorted(Ranked(items, ids))
  {
    hide Rank;
    forall i, j | 0 <= i < j < |items| ensures Rank(ids, items[i].id) <= Rank(ids, items[j].id) {
      RankGrows(ids, items[i].id, items[j].id);
    }
  }

  lemma RankGrows(ids: set<int>, a: int, b: int)
    requires a <= b
    ensures Rank(ids, a) <= Rank(ids, b)
  {
    var upToA, upToB := set x | x in ids && x <= a, set x | x in ids && x <= b;
    assert upToB == upToA + (upToB - upToA);
  }

  /** Groups of duplicates keep different ids. */
  lemma RepeatedIdsAreRight(env: Env, items: seq<Item>)
    requires IdsAreRight(env, items, items)
    ensures var dups := Ranked(Select(items, Repeated(items), true), Repeated(items)); IdsAreRight(env, dups, dups)
  {
    hide Same, Rank, Repeated, Select;
    var ids := Repeated(items);
    var dups := Select(items, ids, true);
    SelectedAre(items, ids, true);
    forall i, j | 0 <= i < |dups| && 0 <= j < |dups|
      ensures Rank(ids, dups[i].id) == Rank(ids, dups[j].id) <==> Same(env, dups[i].entry, dups[j].entry)
    {
      assert dups[i] in dups && dups[j] in dups;
      RanksAreRight(ids, dups[i].id, dups[j].id);
      RanksAreRight(ids, dups[j].id, dups[i].id);
    }
  }

  lemma RankedShows(items: seq<Item>, ids: set<int>, files: seq<Entry>, wanted: nat -> bool)
    requires Shows(items, files, wanted)
    ensures Shows(Ranked(items, ids), files, wanted)
  {
    var now := Ranked(items, ids);
    forall k | 0 <= k < |files| ensures HasTag(now, k) <==> HasTag(items, k) {
      if HasTag(items, k) {
        var i :| 0 <= i < |items| && items[i].tag == k;
        assert now[i].tag == k;
      }
      if HasTag(now, k) {
        var i :| 0 <= i < |now| && now[i].tag == k;
        assert items[i].tag == k;
      }
    }
  }
}
