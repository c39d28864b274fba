/** Lists of files of panes with their ids (make_diff_list() in src/compare.c). */
module Panes {
  import opened ContentIds
  import opened Differ

  /** An entry of a list, its tag is position of the file in the pane. */
  datatype Item = Item(entry: Entry, tag: nat, id: int)

  predicate IsSkipped(e: Entry, skipEmpty: bool) {
    skipEmpty && e.size == 0
  }

  /** Entries for files starting with the given one provided that files with ids from 1 to |reps| were met. */
  function DiffList(env: Env, reps: seq<Entry>, files: seq<Entry>, from: nat, dupsOnly: bool, skipEmpty: bool)
    : seq<Item>
    decreases |files| - from
  {
    if from >= |files| then []
    else if IsSkipped(files[from], skipEmpty) then DiffList(env, reps, files, from + 1, dupsOnly, skipEmpty)
    else
      var e := files[from];
      var id := IdOf(env, reps, e, dupsOnly);
      (if id == -1 then [] else [Item(e, from, id)])
      + DiffList(env, RepsAfter(env, reps, e, dupsOnly), files, from + 1, dupsOnly, skipEmpty)
  }

  function RepsOfList(env: Env, reps: seq<Entry>, files: seq<Entry>, from: nat, dupsOnly: bool, skipEmpty: bool)
    : seq<Entry>
    decreases |files| - from
  {
    if from >= |files| then reps
    else
      var now := if IsSkipped(files[from], skipEmpty) then reps else RepsAfter(env, reps, files[from], dupsOnly);
      RepsOfList(env, now, files, from + 1, dupsOnly, skipEmpty)
  }

  method MakeDiffList(comparison: Comparison, files: seq<Entry>, dupsOnly: bool, skipEmpty: bool)
    returns (items: seq<Item>)
    requires comparison.Valid()
    modifies comparison`trie, comparison`nextId, comparison`records, comparison`index, comparison`reps,
             comparison.records
    ensures comparison.Valid() && fresh(comparison.records - old(comparison.records))
    ensures items == DiffList(comparison.env, old(comparison.reps), files, 0, dupsOnly, skipEmpty)
    ensures comparison.reps == RepsOfList(comparison.env, old(comparison.reps), files, 0, dupsOnly, skipEmpty)
  {
    hide IdOf, RepsAfter, Agrees, AreDifferent, DiffList, RepsOfList, Comparison.IsLinked;
    items := [];
    ghost var env, was := comparison.env, comparison.reps;
    var i := 0;
    assert items + DiffList(env, was, files, 0, dupsOnly, skipEmpty)
           == DiffList(env, was, files, 0, dupsOnly, skipEmpty);
    while i < |files|
      invariant 0 <= i <= |files|
      invariant comparison.Valid() && fresh(comparison.records - old(comparison.records))
      invariant items + DiffList(env, comparison.reps, files, i, dupsOnly, skipEmpty)
                == DiffList(env, was, files, 0, dupsOnly, skipEmpty)
      invariant RepsOfList(env, comparison.reps, files, i, dupsOnly, skipEmpty)
                == RepsOfList(env, was, files, 0, dupsOnly, skipEmpty)
    {
      var e := files[i];
      ListStep(env, comparison.reps, files, i, dupsOnly, skipEmpty, items);
      if !(skipEmpty && e.size == 0) {
        var id := comparison.AddFileToDiff(e, dupsOnly);
        if id != -1 {
          items := items + [Item(e, i, id)];
        }
      }
      i := i + 1;
    }
    ListEnd(env, comparison.reps, files, dupsOnly, skipEmpty, items);
  }

  /** What is done with a single file. */
  lemma ListStep(env: Env, reps: seq<Entry>, files: seq<Entry>, i: nat, dupsOnly: bool, skipEmpty: bool,
                 items: seq<Item>)
    requires i < |files|
    ensures var e := files[i];
            var id, now := IdOf(env, reps, e, dupsOnly), RepsAfter(env, reps, e, dupsOnly);
            if skipEmpty && e.size == 0 then
              && DiffList(env, reps, files, i, dupsOnly, skipEmpty)
                 == DiffList(env, reps, files, i + 1, dupsOnly, skipEmpty)
              && RepsOfList(env, reps, files, i, dupsOnly, skipEmpty)
                 == RepsOfList(env, reps, files, i + 1, dupsOnly, skipEmpty)
            else
              && items + DiffList(env, reps, files, i, dupsOnly, skipEmpty)
                 == (if id == -1 then items else items + [Item(e, i, id)])
                    + DiffList(env, now, files, i + 1, dupsOnly, skipEmpty)
              && RepsOfList(env, reps, files, i, dupsOnly, skipEmpty)
                 == RepsOfList(env, now, files, i + 1, dupsOnly, skipEmpty)
  {
    hide IdOf, RepsAfter;
    var id := IdOf(env, reps, files[i], dupsOnly);
    var rest := DiffList(env, RepsAfter(env, reps, files[i], dupsOnly), files, i + 1, dupsOnly, skipEmpty);
    assert items + ([Item(files[i], i, id)] + rest) == items + [Item(files[i], i, id)] + rest;
    assert [] + rest == rest;
  }

  lemma ListEnd(env: Env, reps: seq<Entry>, files: seq<Entry>, dupsOnly: bool, skipEmpty: bool, items: seq<Item>)
    ensures items + DiffList(env, reps, files, |files|, dupsOnly, skipEmpty) == items
    ensures RepsOfList(env, reps, files, |files|, dupsOnly, skipEmpty) == reps
  {
  }

  /** Every id identifies contents of a file. */
  predicate AreOfReps(env: Env, items: seq<Item>, reps: seq<Entry>) {
    forall i :: 0 <= i < |items| ==> 1 <= items[i].id <= |reps| && Same(env, reps[items[i].id - 1], items[i].entry)
  }

  lemma AddedRep(env: Env, reps: seq<Entry>, e: Entry, dupsOnly: bool)
    requires AreDifferent(env, reps)
    ensures var now := RepsAfter(env, reps, e, dupsOnly);
            && reps <= now && AreDifferent(env, now) && (dupsOnly ==> now == reps)
            && var id := IdOf(env, reps, e, dupsOnly);
               id == -1 || (1 <= id <= |now| && Same(env, now[id - 1], e))
  {
    if IdOf(env, reps, e, dupsOnly) == |reps| + 1 {
      NewIsDifferent(env, reps, e);
    }
  }

  lemma {:induction false} ItemsAreOfReps(env: Env, reps: seq<Entry>, files: seq<Entry>, from: nat, dupsOnly: bool,
                                          skipEmpty: bool)
    requires AreDifferent(env, reps)
    ensures var now := RepsOfList(env, reps, files, from, dupsOnly, skipEmpty);
            && reps <= now && AreDifferent(env, now) && (dupsOnly ==> now == reps)
            && AreOfReps(env, DiffList(env, reps, files, from, dupsOnly, skipEmpty), now)
    decreases |files| - from
  {
    hide IdOf, RepsAfter, AreDifferent, Same;
    if from < |files| {
      if IsSkipped(files[from], skipEmpty) {
        ItemsAreOfReps(env, reps, files, from + 1, dupsOnly, skipEmpty);
      } else {
        AddedRep(env, reps, files[from], dupsOnly);
        ItemsAreOfReps(env, RepsAfter(env, reps, files[from], dupsOnly), files, from + 1, dupsOnly, skipEmpty);
      }
    }
  }

  predicate HasId(items: seq<Item>, id: int) {
    exists i :: 0 <= i < |items| && items[i].id == id
  }

  /** Each of new ids belongs to an entry. */
  lemma {:induction false} NewIdsAreListed(env: Env, reps: seq<Entry>, files: seq<Entry>, from: nat, skipEmpty: bool,
                                           id: int)
    requires |reps| < id <= |RepsOfList(env, reps, files, from, false, skipEmpty)|
    ensures HasId(DiffList(env, reps, files, from, false, skipEmpty), id)
    decreases |files| - from
  {
    if from < |files| {
      if IsSkipped(files[from], skipEmpty) {
        NewIdsAreListed(env, reps, files, from + 1, skipEmpty, id);
      } else {
        var now := RepsAfter(env, reps, files[from], false);
        var rest := DiffList(env, now, files, from + 1, false, skipEmpty);
        var items := DiffList(env, reps, files, from, false, skipEmpty);
        if id <= |now| {
          assert items[0].id == id;
        } else {
          NewIdsAreListed(env, now, files, from + 1, skipEmpty, id);
          var i :| 0 <= i < |rest| && rest[i].id == id;
          assert items[i + |items| - |rest|] == rest[i];
        }
      }
    }
  }

  /** Whether some entry is of a file with the same contents. */
  predicate IsMatched(env: Env, items: seq<Item>, e: Entry) {
    exists i :: 0 <= i < |items| && Same(env, items[i].entry, e)
  }

  /** A file which isn't in the list is either unreadable, or empty, or has no match among others when it's needed. */
  predicate IsListed(env: Env, others: seq<Item>, e: Entry, dupsOnly: bool, skipEmpty: bool) {
    !(skipEmpty && e.size == 0) && env.isAccessible(e.path) && (dupsOnly ==> IsMatched(env, others, e))
  }

  /** Tags of files which have to be listed. */
  function Listed(env: Env, others: seq<Item>, files: seq<Entry>, from: nat, dupsOnly: bool, skipEmpty: bool): seq<nat>
    decreases |files| - from
  {
    if from >= |files| then []
    else
      (if IsListed(env, others, files[from], dupsOnly, skipEmpty) then [from] else [])
      + Listed(env, others, files, from + 1, dupsOnly, skipEmpty)
  }

  predicate AreListed(items: seq<Item>, files: seq<Entry>, tags: seq<nat>) {
    |items| == |tags|
    && forall i :: 0 <= i < |items| ==>
         items[i].tag == tags[i] && tags[i] < |files| && items[i].entry == files[tags[i]]
  }

  predicate Matches(env: Env, reps: seq<Entry>, others: seq<Item>, e: Entry) {
    Find(env, reps, e) < |reps| <==> IsMatched(env, others, e)
  }

  lemma IdIsGiven(env: Env, others: seq<Item>, reps: seq<Entry>, e: Entry, dupsOnly: bool)
    requires dupsOnly ==> Matches(env, reps, others, e)
    ensures IdOf(env, reps, e, dupsOnly) != -1 <==> env.isAccessible(e.path) && (dupsOnly ==> IsMatched(env, others, e))
    ensures dupsOnly ==> RepsAfter(env, reps, e, dupsOnly) == reps
  {
  }

  /** Whether a file is listed doesn't depend on how ids are assigned. */
  lemma {:induction false} ListIsExact(env: Env, others: seq<Item>, reps: seq<Entry>, files: seq<Entry>, from: nat,
                                       dupsOnly: bool, skipEmpty: bool)
    requires dupsOnly ==> forall e :: Matches(env, reps, others, e)
    ensures AreListed(DiffList(env, reps, files, from, dupsOnly, skipEmpty), files,
                      Listed(env, others, files, from, dupsOnly, skipEmpty))
    decreases |files| - from
  {
    hide IsMatched, IdOf, RepsAfter, Matches, DiffList, Listed, AreListed;
    if from < |files| {
      var e, now := files[from], RepsAfter(env, reps, files[from], dupsOnly);
      ListStep(env, reps, files, from, dupsOnly, skipEmpty, []);
      ListedStep(env, others, files, from, dupsOnly, skipEmpty);
      assert [] + DiffList(env, reps, files, from, dupsOnly, skipEmpty)
             == DiffList(env, reps, files, from, dupsOnly, skipEmpty);
      if IsSkipped(e, skipEmpty) {
        ListIsExact(env, others, reps, files, from + 1, dupsOnly, skipEmpty);
      } else {
        IdIsGiven(env, others, reps, e, dupsOnly);
        ListIsExact(env, others, now, files, from + 1, dupsOnly, skipEmpty);
        OneMoreIsListed(Item(e, from, IdOf(env, reps, e, dupsOnly)),
                        DiffList(env, now, files, from + 1, dupsOnly, skipEmpty), files,
                        Listed(env, others, files, from + 1, dupsOnly, skipEmpty));
      }
    } else {
      NothingIsListed(env, others, reps, files, from, dupsOnly, skipEmpty);
    }
  }

  lemma ListedStep(env: Env, others: seq<Item>, files: seq<Entry>, from: nat, dupsOnly: bool, skipEmpty: bool)
    requires from < |files|
    ensures Listed(env, others, files, from, dupsOnly, skipEmpty)
            == if IsListed(env, others, files[from], dupsOnly, skipEmpty)
               then [from] + Listed(env, others, files, from + 1, dupsOnly, skipEmpty)
               else Listed(env, others, files, from + 1, dupsOnly, skipEmpty)
  {
  }

  lemma OneMoreIsListed(item: Item, items: seq<Item>, files: seq<Entry>, tags: seq<nat>)
    requires AreListed(items, files, tags) && item.tag < |files| && item.entry == files[item.tag]
    ensures AreListed([item] + items, files, [item.tag] + tags)
    ensures [] + items == items && [] + [item] + items == [item] + items
  {
  }

  lemma NothingIsListed(env: Env, others: seq<Item>, reps: seq<Entry>, files: seq<Entry>, from: nat, dupsOnly: bool,
                        skipEmpty: bool)
    requires from >= |files|
    ensures AreListed(DiffList(env, reps, files, from, dupsOnly, skipEmpty), files,
                      Listed(env, others, files, from, dupsOnly, skipEmpty))
  {
  }

  lemma MatchesAreFound(env: Env, reps: seq<Entry>, items: seq<Item>, e: Entry)
    requires AreOfReps(env, items, reps)
    requires forall id :: 1 <= id <= |reps| ==> HasId(items, id)
    ensures Matches(env, reps, items, e)
  {
    var at := Find(env, reps, e);
    if at < |reps| {
      assert HasId(items, at + 1);
      var i :| 0 <= i < |items| && items[i].id == at + 1;
      assert Same(env, items[i].entry, e);
    }
  }

  /** Equal ids mean the same contents and vice versa. */
  ghost predicate IdsAreRight(env: Env, a: seq<Item>, b: seq<Item>) {
    forall i, j :: 0 <= i < |a| && 0 <= j < |b| ==> (a[i].id == b[j].id <==> Same(env, a[i].entry, b[j].entry))
  }

  /** Equal ids mean the same contents and nothing else matters. */
  ghost predicate IdsMeanContents(env: Env, a: seq<Item>, b: seq<Item>) {
    forall i, j :: 0 <= i < |a| && 0 <= j < |b| ==>
      (a[i].id == b[j].id <==> HaveEqualContents(env, a[i].entry, b[j].entry))
  }

  ghost predicate ContentsMeansSize(env: Env, a: seq<Item>, b: seq<Item>) {
    forall i, j :: 0 <= i < |a| && 0 <= j < |b| ==>
      HaveEqualContents(env, a[i].entry, b[j].entry) ==> a[i].entry.size == b[j].entry.size
  }

  /** It's contents that ids tell apart if and only if files of equal contents have equal sizes. */
  lemma IdsMeanContentsIff(env: Env, a: seq<Item>, b: seq<Item>)
    requires IdsAreRight(env, a, b)
    ensures IdsMeanContents(env, a, b) <==> ContentsMeansSize(env, a, b)
  {
    if IdsMeanContents(env, a, b) {
      forall i, j | 0 <= i < |a| && 0 <= j < |b| && HaveEqualContents(env, a[i].entry, b[j].entry)
        ensures a[i].entry.size == b[j].entry.size
      {
        assert a[i].id == b[j].id <==> Same(env, a[i].entry, b[j].entry);
      }
    }
  }

  /** Size of an entry is what gets read from its file. */
  predicate SizeIsExact(env: Env, e: Entry) {
    e.size == |Contents(env, e.path, e.isReadable)|
  }

  /** Regular files are fine. */
  lemma ExactSizesAgree(env: Env, a: seq<Item>, b: seq<Item>)
    requires forall i :: 0 <= i < |a| ==> SizeIsExact(env, a[i].entry)
    requires forall j :: 0 <= j < |b| ==> SizeIsExact(env, b[j].entry)
    requires IdsAreRight(env, a, b)
    ensures IdsMeanContents(env, a, b)
  {
    IdsMeanContentsIff(env, a, b);
  }

  /** Symbolic links aren't: size is that of a link itself while contents is that of its target. */
  lemma LinkHasOtherId(env: Env, file: Entry, link: Entry)
    requires env.isAccessible(file.path) && env.isAccessible(link.path)
    requires HaveEqualContents(env, file, link) && file.size != link.size
    ensures DiffList(env, [], [file, link], 0, false, false) == [Item(file, 0, 1), Item(link, 1, 2)]
  {
    var files := [file, link];
    assert RepsAfter(env, [], file, false) == [file];
    assert DiffList(env, [file, link], files, 2, false, false) == [];
    assert DiffList(env, [file], files, 1, false, false) == [Item(link, 1, 2)];
  }

  lemma RightIds(env: Env, a: seq<Item>, b: seq<Item>, reps: seq<Entry>)
    requires AreDifferent(env, reps) && AreOfReps(env, a, reps) && AreOfReps(env, b, reps)
    ensures IdsAreRight(env, a, b)
  {
  }

  /** Equal ids mean equal sizes and equal data, there is no data in what isn't readable. */
  ghost predicate IdsTellData(env: Env, a: seq<Item>, b: seq<Item>) {
    forall i, j :: 0 <= i < |a| && 0 <= j < |b| ==>
      var x, y := a[i].entry, b[j].entry;
      a[i].id == b[j].id <==>
        && x.size == y.size
        && if x.isReadable && y.isReadable then env.contents(x.path) == env.contents(y.path)
           else (x.isReadable ==> env.contents(x.path) == []) && (y.isReadable ==> env.contents(y.path) == [])
  }

  lemma RightIdsTellData(env: Env, a: seq<Item>, b: seq<Item>)
    requires IdsAreRight(env, a, b)
    ensures IdsTellData(env, a, b)
  {
    forall i, j | 0 <= i < |a| && 0 <= j < |b| ensures a[i].id == b[j].id <==> Same(env, a[i].entry, b[j].entry) {
    }
  }

  predicate ArePositive(items: seq<Item>) {
    forall i :: 0 <= i < |items| ==> items[i].id >= 1
  }

  /** The part of compare_two_panes() that computes ids of files. */
  method AssignIds(env: Env, currFiles: seq<Entry>, otherFiles: seq<Entry>, dupsOnly: bool, skipEmpty: bool)
    returns (curr: seq<Item>, other: seq<Item>)
    ensures IdsAreRight(env, curr, curr) && IdsAreRight(env, curr, other) && IdsAreRight(env, other, other)
    ensures IdsTellData(env, curr, curr) && IdsTellData(env, curr, other) && IdsTellData(env, other, other)
    ensures AreListed(curr, currFiles, Listed(env, [], currFiles, 0, false, skipEmpty))
    ensures AreListed(other, otherFiles, Listed(env, curr, otherFiles, 0, dupsOnly, skipEmpty))
    ensures dupsOnly ==> forall i :: 0 <= i < |other| ==> HasId(curr, other[i].id)
    ensures ArePositive(curr) && ArePositive(other)
  {
    hide Agrees, AreDifferent, Listed, Matches, IsMatched, IdsTellData;
    var comparison := new Comparison(env);
    curr := MakeDiffList(comparison, currFiles, false, skipEmpty);
    ghost var reps := comparison.reps;
    other := MakeDiffList(comparison, otherFiles, dupsOnly, skipEmpty);
    ghost var now := comparison.reps;

    NothingIsDifferent(env);
    ItemsAreOfReps(env, [], currFiles, 0, false, skipEmpty);
    ItemsAreOfReps(env, reps, otherFiles, 0, dupsOnly, skipEmpty);
    RightIds(env, curr, curr, now);
    RightIds(env, curr, other, now);
    RightIds(env, other, other, now);
    RightIdsTellData(env, curr, curr);
    RightIdsTellData(env, curr, other);
    RightIdsTellData(env, other, other);
    forall id | 1 <= id <= |reps| ensures HasId(curr, id) {
      NewIdsAreListed(env, [], currFiles, 0, skipEmpty, id);
    }
    forall e ensures Matches(env, reps, curr, e) {
      MatchesAreFound(env, reps, curr, e);
    }
    ListIsExact(env, [], [], currFiles, 0, false, skipEmpty);
    ListIsExact(env, curr, reps, otherFiles, 0, dupsOnly, skipEmpty);
  }

  lemma NothingIsDifferent(env: Env)
    ensures AreDifferent(env, [])
  {
  }
}
