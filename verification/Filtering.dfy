/** Trees of directories from loading to display, and the two ways to apply a local filter to them: while a tree is
    being loaded and afterwards. */
module Filtering {
  import opened Forests
  import opened Edits
  import opened Lineages
  import opened Pruning
  import opened Loading
  import opened Orders
  import opened Places
  import opened Sorting
  import opened Uncompressing
  import Rebuilding
  import Zapping

  /** ".." is `top` if and only if it's at the top level, where there is nothing inside of it. */
  predicate HasDots(f: Forest, below: bool, top: File -> bool) {
    f.Cons? ==>
      && IsDot(f.root, f.kids, below, top)
      && HasDots(f.kids, true, top)
      && HasDots(f.rest, below, top)
  }

  predicate IsDot(root: File, kids: Forest, below: bool, top: File -> bool) {
    IsParentDir(root) ==> if below then !top(root) else top(root) && kids.Empty?
  }

  lemma {:induction false} LoadedDots(l: Listing, c: Config, below: bool, top: File -> bool)
    requires NoDots(l) && LeafsAreParentDirs(c) && c.localIsEmpty
    requires forall dir :: !top(c.leafOf(dir))
    ensures HasDots(Loaded(l, c), below, top)
  {
    if l.Item? {
      LoadedDots(l.contents, c, true, top);
      LoadedDots(l.next, c, below, top);
    }
  }

  lemma {:induction false} AppendDots(f: Forest, g: Forest, below: bool, top: File -> bool)
    requires HasDots(f, below, top) && HasDots(g, below, top)
    ensures HasDots(Append(f, g), below, top)
  {
    if f.Cons? {
      AppendDots(f.rest, g, below, top);
    }
  }

  lemma {:induction false} DotsOf(f: Forest, below: bool, top: File -> bool, k: nat)
    requires HasDots(f, below, top) && k < Length(f)
    ensures IsDot(RootAt(f, k), KidsOf(f, k), below, top) && HasDots(KidsOf(f, k), true, top)
  {
    if k > 0 {
      DotsOf(f.rest, below, top, k - 1);
    }
  }

  lemma {:induction false} SortedDots(f: Forest, order: Order, below: bool, top: File -> bool)
    requires IsOrder(order) && HasDots(f, below, top)
    ensures HasDots(Sorted(f, order), below, top)
    decreases Size(f), 1, 0
  {
    PermutationIsInRange(order(Roots(f)), Length(f));
    ArrangedDots(f, order, order(Roots(f)), below, top);
  }

  lemma {:induction false} ArrangedDots(f: Forest, order: Order, p: seq<nat>, below: bool, top: File -> bool)
    requires IsOrder(order) && AreIndices(p, f) && HasDots(f, below, top)
    ensures HasDots(Arranged(f, order, p), below, top)
    decreases Size(f), 0, |p|
  {
    hide Sorted;
    if p != [] {
      var kids := KidsOf(f, p[0]);
      DotsOf(f, below, top, p[0]);
      SortedSize(kids, order);
      SizeCons(kids);
      SizeCons(Sorted(kids, order));
      SortedDots(kids, order, true, top);
      ArrangedDots(f, order, p[1..], below, top);
    }
  }

  lemma {:induction false} DotsAt(f: Forest, up: nat, top: File -> bool, q: nat)
    requires HasDots(f, up > 0, top) && q < Size(f)
    ensures var e := Flatten(f, up)[q];
            IsParentDir(e.file) ==>
              (top(e.file) <==> e.childPos == 0) && (e.childPos == 0 ==> e.childCount == 0)
  {
    FlattenAt(f, up, q);
    hide Flatten;
    var n := 1 + Size(f.kids);
    if 0 < q < n {
      DotsAt(f.kids, 1, top, q - 1);
    } else if q >= n {
      DotsAt(f.rest, Further(up, n), top, q - n);
    }
  }

  lemma ArrayHasDots(f: Forest, top: File -> bool)
    requires HasDots(f, false, top)
    ensures Valid(Flatten(f, 0), 0) && Unflatten(Flatten(f, 0), 0) == f
    ensures Rebuilding.HasParentDirs(Flatten(f, 0), top)
  {
    FlattenIsValid(f, 0);
    forall q | 0 <= q < Size(f) && Flatten(f, 0)[q].file.name == ".."
      ensures top(Flatten(f, 0)[q].file) <==> Flatten(f, 0)[q].childPos == 0
      ensures Flatten(f, 0)[q].childPos == 0 ==> Flatten(f, 0)[q].childCount == 0
    {
      DotsAt(f, 0, top, q);
    }
  }

  /** ".." entries of empty directories are all dropped by a local filter. */
  lemma {:induction false} SameSplice(f: Forest, keep: File -> bool, other: File -> bool, top: File -> bool)
    requires HasDots(f, true, top)
    requires forall file :: !IsParentDir(file) || !top(file) ==> keep(file) == other(file)
    ensures Splice(f, keep) == Splice(f, other)
  {
    if f.Cons? {
      SameSplice(f.kids, keep, other, top);
      SameSplice(f.rest, keep, other, top);
    }
  }

  ghost function LocalKeep(c: Config, parentVisible: bool, top: File -> bool): File -> bool {
    Rebuilding.LocalFilter(false, c.local, parentVisible).Keep(top)
  }

  lemma SpliceLoaded(l: Listing, c: Config, parentVisible: bool, top: File -> bool)
    requires NoDots(l) && LeafsAreParentDirs(c) && c.localIsEmpty
    requires forall dir :: !top(c.leafOf(dir))
    ensures Splice(Loaded(l, c), LocalKeep(c, parentVisible, top)) == Loaded(l, c.(localIsEmpty := false))
  {
    hide Splice, Loaded, HasDots;
    LoadedDots(l, c, true, top);
    FilterWhileLoading(l, c);
    assert c == c.(localIsEmpty := true);
    SameSplice(Loaded(l, c), LocalKeep(c, parentVisible, top), KeepLocal(c), top);
  }

  /** Filtering of a loaded tree results in the tree that is built by loading with the same filter. */
  lemma FilterAfterLoading(l: Listing, c: Config, parentVisible: bool)
    requires NoDots(l) && LeafsAreParentDirs(c)
    ensures var loaded := Flatten(Loaded(l, c.(localIsEmpty := true)), 0);
            var filter, top := Rebuilding.LocalFilter(false, c.local, parentVisible), (file: File) => false;
            && Valid(loaded, 0) && Rebuilding.HasParentDirs(loaded, top)
            && Splice(Unflatten(loaded, 0), filter.Keep(top)) == Loaded(l, c.(localIsEmpty := false))
  {
    hide Splice, Loaded, HasDots, Unflatten, Valid;
    var before, top := c.(localIsEmpty := true), (file: File) => false;
    LoadedDots(l, before, false, top);
    ArrayHasDots(Loaded(l, before), top);
    SpliceLoaded(l, before, parentVisible, top);
    assert LocalKeep(before, parentVisible, top) == LocalKeep(c, parentVisible, top);
  }

  /** What is displayed for a loaded tree: a list is never empty and may end with "..". */
  function Displayed(f: Forest, parentDir: File, parentVisible: bool): Forest {
    Append(f, if f.Empty? || parentVisible then Tree(parentDir, Empty) else Empty)
  }

  lemma DisplayedDots(l: Listing, c: Config, parentDir: File, parentVisible: bool, top: File -> bool)
    requires NoDots(l) && LeafsAreParentDirs(c) && c.localIsEmpty && IsParentDir(parentDir)
    requires top(parentDir) && forall dir :: !top(c.leafOf(dir))
    ensures HasDots(Displayed(Loaded(l, c), parentDir, parentVisible), false, top)
  {
    hide Loaded;
    LoadedDots(l, c, false, top);
    AppendDots(Loaded(l, c), Tree(parentDir, Empty), false, top);
    AppendDots(Loaded(l, c), Empty, false, top);
  }

  /** Entries for a listing and "..". */
  method LoadEntries(l: Listing, dir: File, c: Config, parentDir: File, parentVisible: bool)
    returns (entries: seq<Entry>, filtered: int)
    requires NoDots(l) && LeafsAreParentDirs(c) && IsParentDir(parentDir)
    ensures filtered == Filtered(l, c)
    ensures entries == Raw(Displayed(Loaded(l, c), parentDir, parentVisible), 0)
  {
    hide Raw, Flatten, Size, Loaded, Filtered;
    var list := new CustomList();
    filtered := list.AddFilesRecursively(l, dir, -1, false, c);
    ghost var loaded := Loaded(l, c);
    ghost var dots := if list.entries == [] || parentVisible then Tree(parentDir, Empty) else Empty;
    RawCons(loaded, 0);
    RawCons(Tree(parentDir, Empty), 0);
    RawCons(Empty, 0);
    RawCons(Empty, 1);
    if list.entries == [] || parentVisible {
      list.entries := list.entries + [Entry(parentDir, 0, 0)];
    }
    RawAppend(loaded, dots, 0);
    entries := list.entries;
  }

  /** flist_load_tree_internal() and flist_custom_finish_internal(): builds an array for a listing and sorts it. */
  method LoadTree(l: Listing, dir: File, c: Config, parentDir: File, parentVisible: bool, order: Order)
    returns (entries: array<Entry>, filtered: int)
    requires NoDots(l) && LeafsAreParentDirs(c) && c.localIsEmpty
    requires IsParentDir(parentDir) && IsOrder(order)
    ensures fresh(entries) && filtered == Filtered(l, c)
    ensures entries[..] == Flatten(Sorted(Displayed(Loaded(l, c), parentDir, parentVisible), order), 0)
  {
    hide Raw, Flatten, Size, Sorted, Loaded, Filtered, HasSizes, IsOrder;
    var unsorted;
    unsorted, filtered := LoadEntries(l, dir, c, parentDir, parentVisible);
    ghost var tree := Displayed(Loaded(l, c), parentDir, parentVisible);
    RawIsSortable(tree);
    entries := new Entry[|unsorted|](k requires 0 <= k < |unsorted| => unsorted[k]);
    SortTreeSlice(entries, 0, unsorted, true, order, tree);
    FirstLink();
    assert entries[0..0 + |unsorted|] == entries[..];
  }

  lemma RawIsSortable(f: Forest)
    ensures HasSizes(Raw(f, 0), f)
  {
    forall k | 0 <= k < Size(f)
      ensures Raw(f, 0)[k].file == Flatten(f, 0)[k].file && Raw(f, 0)[k].childCount == Flatten(f, 0)[k].childCount
    {
      RawHasSizes(f, 0, k);
    }
  }

  /** What filtering leaves of what is displayed. */
  lemma SpliceDisplayed(l: Listing, c: Config, parentDir: File, parentVisible: bool, top: File -> bool)
    requires NoDots(l) && LeafsAreParentDirs(c) && c.localIsEmpty && IsParentDir(parentDir)
    requires top(parentDir) && forall dir :: !top(c.leafOf(dir))
    ensures Splice(Displayed(Loaded(l, c), parentDir, parentVisible), LocalKeep(c, parentVisible, top))
            == Append(Loaded(l, c.(localIsEmpty := false)), if parentVisible then Tree(parentDir, Empty) else Empty)
  {
    hide Loaded;
    var keep, loaded := LocalKeep(c, parentVisible, top), Loaded(l, c);
    SpliceLoaded(l, c, parentVisible, top);
    SpliceAppend(loaded, Tree(parentDir, Empty), keep);
    SpliceAppend(loaded, Empty, keep);
    AppendEmpties(Loaded(l, c.(localIsEmpty := false)));
  }

  function Only(parentDir: File): File -> bool {
    (file: File) => file == parentDir
  }

  /** Loads a tree, displays it and then applies a local filter: the view shows the same files in the same
      directories as it would after loading with that filter. */
  method LoadAndFilter(list: Zapping.FileList, l: Listing, dir: File, c: Config, parentDir: File, parentVisible: bool,
                       order: Order, dotsMatch: bool)
    returns (filtered: int, allHidden: bool)
    requires NoDots(l) && LeafsAreParentDirs(c) && c.localIsEmpty
    requires IsParentDir(parentDir) && (forall file :: c.leafOf(file) != parentDir) && IsOrder(order)
    modifies list
    ensures list.Valid()
    ensures var shown := Displayed(Loaded(l, c.(localIsEmpty := false)), parentDir, parentVisible);
            && multiset(Lines(list.Contents(), [])) == multiset(Lines(shown, []))
            && (KeepsOrder(order) ==> list.Contents() == shown)
    ensures var left := Splice(Sorted(Displayed(Loaded(l, c), parentDir, parentVisible), order),
                               LocalKeep(c, parentVisible, Only(parentDir)));
            list.Contents() == if left.Cons? then left else Tree(parentDir, Empty)
    ensures filtered - Filtered(l, c.(localIsEmpty := false))
            == Size(Loaded(l, c)) - Size(Loaded(l, c.(leafs := false)))
               + if Loaded(l, c).Empty? && !parentVisible then 1 else 0
  {
    hide Splice, Loaded, HasDots, Unflatten, Valid, Sorted, Lines, Size, Filtered, IsOrder, KeepsOrder,
      Rebuilding.HasParentDirs, Rebuilding.HasTop, Displayed;
    var entries, others := LoadTree(l, dir, c, parentDir, parentVisible, order);
    ghost var top := Only(parentDir);
    ghost var tree := Displayed(Loaded(l, c), parentDir, parentVisible);
    DisplayedDots(l, c, parentDir, parentVisible, top);
    SortedDots(tree, order, false, top);
    ArrayHasDots(Sorted(tree, order), top);
    var filter := Rebuilding.LocalFilter(false, c.local, parentVisible);
    var now;
    filtered, allHidden, now :=
      Rebuilding.UpdateFilteringLists(list, entries[..], filter, parentDir, others, dotsMatch, top);
    FilteredIsDisplayed(l, c, parentDir, parentVisible, order, top, list.Contents());
    SortedSize(tree, order);
    FilteredIsCounted(l, c, parentDir, parentVisible, order, top);
  }

  lemma {:induction false} FilteredIsSame(l: Listing, c: Config)
    ensures Filtered(l, c) == Filtered(l, c.(leafs := false))
  {
    if l.Item? {
      FilteredIsSame(l.contents, c);
      FilteredIsSame(l.next, c);
    }
  }

  /** How many files are hidden and displayed. */
  lemma FilteredIsCounted(l: Listing, c: Config, parentDir: File, parentVisible: bool, order: Order, top: File -> bool)
    requires NoDots(l) && LeafsAreParentDirs(c) && c.localIsEmpty && IsParentDir(parentDir) && IsOrder(order)
    requires top(parentDir) && forall dir :: !top(c.leafOf(dir))
    ensures var tree, after := Displayed(Loaded(l, c), parentDir, parentVisible), c.(localIsEmpty := false);
            Filtered(l, c) + Size(tree) - Size(Splice(Sorted(tree, order), LocalKeep(c, parentVisible, top)))
            == Filtered(l, after) + Size(Loaded(l, c)) - Size(Loaded(l, c.(leafs := false)))
               + if Loaded(l, c).Empty? && !parentVisible then 1 else 0
  {
    hide Splice, Loaded, Sorted, Lines, IsOrder, LocalKeep, Filtered;
    var tree, keep := Displayed(Loaded(l, c), parentDir, parentVisible), LocalKeep(c, parentVisible, top);
    var left, unsorted := Splice(Sorted(tree, order), keep), Splice(tree, keep);
    SpliceDisplayed(l, c, parentDir, parentVisible, top);
    SpliceSorted(tree, order, keep);
    SizeOfLines(left, []);
    SizeOfLines(unsorted, []);
    assert |multiset(Lines(left, []))| == |multiset(Lines(unsorted, []))|;
    HiddenAreCounted(l, c);
    FilteredIsSame(l, c);
    assert c.(localIsEmpty := true, leafs := false) == c.(leafs := false);
    SizeAppend(Loaded(l, c), if Loaded(l, c).Empty? || parentVisible then Tree(parentDir, Empty) else Empty);
    SizeAppend(Loaded(l, c.(localIsEmpty := false)), if parentVisible then Tree(parentDir, Empty) else Empty);
  }

  lemma FilteredIsDisplayed(l: Listing, c: Config, parentDir: File, parentVisible: bool, order: Order,
                            top: File -> bool, contents: Forest)
    requires NoDots(l) && LeafsAreParentDirs(c) && c.localIsEmpty && IsParentDir(parentDir) && IsOrder(order)
    requires top(parentDir) && forall dir :: !top(c.leafOf(dir))
    requires var sorted := Sorted(Displayed(Loaded(l, c), parentDir, parentVisible), order);
             var left := Splice(sorted, LocalKeep(c, parentVisible, top));
             contents == if left.Cons? then left else Tree(parentDir, Empty)
    ensures var shown := Displayed(Loaded(l, c.(localIsEmpty := false)), parentDir, parentVisible);
            && multiset(Lines(contents, [])) == multiset(Lines(shown, []))
            && (KeepsOrder(order) ==> contents == shown)
  {
    hide Splice, Loaded, HasDots, Sorted, Lines, Size, Filtered, IsOrder, LocalKeep, Displayed;
    var tree, keep := Displayed(Loaded(l, c), parentDir, parentVisible), LocalKeep(c, parentVisible, top);
    var left, other := Splice(Sorted(tree, order), keep), Loaded(l, c.(localIsEmpty := false));
    var unsorted := Append(other, if parentVisible then Tree(parentDir, Empty) else Empty);
    SpliceDisplayed(l, c, parentDir, parentVisible, top);
    assert unsorted == Splice(tree, keep);
    SpliceSorted(tree, order, keep);
    SizeOfLines(left, []);
    SizeOfLines(unsorted, []);
    assert |multiset(Lines(left, []))| == |multiset(Lines(unsorted, []))|;
    SizeCons(left);
    SizeCons(unsorted);
    DisplayedIs(other, parentDir, parentVisible);
    if KeepsOrder(order) {
      OrderIsKept(tree, order);
      SortedInOrder(tree, order);
    }
  }

  lemma DisplayedIs(f: Forest, parentDir: File, parentVisible: bool)
    ensures var g := Append(f, if parentVisible then Tree(parentDir, Empty) else Empty);
            Displayed(f, parentDir, parentVisible) == if g.Cons? then g else Tree(parentDir, Empty)
  {
    AppendEmpties(f);
    AppendEmpties(Tree(parentDir, Empty));
  }

  // Loading under a local filter.

  predicate HasItem(l: Listing, place: Place, placeOf: Placing) {
    l.Item? && (placeOf(l.file) == place || HasItem(l.next, place, placeOf))
  }

  /** The listing is that of a directory of a file system. */
  predicate IsListingOf(l: Listing, at: Place, placeOf: Placing) {
    l.Item? ==>
      && at <= placeOf(l.file) && |placeOf(l.file)| == |at| + 1 && !l.file.temporary
      && IsListingOf(l.contents, placeOf(l.file), placeOf)
      && IsListingOf(l.next, at, placeOf) && !HasItem(l.next, placeOf(l.file), placeOf)
  }

  predicate AreReal(f: Forest) {
    f.Cons? ==> !f.root.temporary && AreReal(f.kids) && AreReal(f.rest)
  }

  lemma {:induction false} LoadedIsPlaced(l: Listing, c: Config, at: Place, placeOf: Placing)
    requires IsListingOf(l, at, placeOf) && NoDots(l) && c.localIsEmpty && !c.leafs
    ensures var f := Loaded(l, c);
            && IsPlaced(f, at, placeOf) && HasNoDots(f) && AreReal(f)
            && forall place :: HasRoot(f, place, placeOf) ==> HasItem(l, place, placeOf)
  {
    if l.Item? {
      LoadedIsPlaced(l.contents, c, placeOf(l.file), placeOf);
      LoadedIsPlaced(l.next, c, at, placeOf);
    }
  }

  lemma {:induction false} LeafsAreOfNoMatter(l: Listing, c: Config)
    requires !c.localIsEmpty
    ensures Loaded(l, c) == Loaded(l, c.(leafs := false))
  {
    if l.Item? {
      LeafsAreOfNoMatter(l.contents, c);
      LeafsAreOfNoMatter(l.next, c);
    }
  }

  lemma {:induction false} RealHaveNoDots(f: Forest, y: File)
    requires HasNoDots(f) && AreReal(f) && y in AllFiles(f)
    ensures !IsParentDir(y) && !y.temporary
  {
    if y in AllFiles(f.kids) {
      RealHaveNoDots(f.kids, y);
    } else if y in AllFiles(f.rest) {
      RealHaveNoDots(f.rest, y);
    }
  }

  lemma {:induction false} NoDotsStay(f: Forest, keep: File -> bool)
    requires HasNoDots(f)
    ensures HasNoDots(Splice(f, keep))
  {
    if f.Cons? {
      NoDotsStay(f.kids, keep);
      NoDotsStay(f.rest, keep);
      NoDotsAppend(Splice(f.kids, keep), Splice(f.rest, keep));
    }
  }

  lemma {:induction false} NoDotsAppend(f: Forest, g: Forest)
    requires HasNoDots(f) && HasNoDots(g)
    ensures HasNoDots(Append(f, g))
  {
    if f.Cons? {
      NoDotsAppend(f.rest, g);
    }
  }

  lemma {:induction false} NothingToSplice(f: Forest)
    requires HasNoDots(f)
    ensures Splice(f, NOT_DOT) == f
  {
    if f.Cons? {
      NothingToSplice(f.kids);
      NothingToSplice(f.rest);
    }
  }

  lemma {:induction false} NoDotsInArray(f: Forest, up: nat, q: nat)
    requires HasNoDots(f) && q < Size(f)
    ensures !IsParentDir(Flatten(f, up)[q].file)
  {
    FlattenAt(f, up, q);
    hide Flatten;
    var n := 1 + Size(f.kids);
    if 0 < q < n {
      NoDotsInArray(f.kids, 1, q - 1);
    } else if q >= n {
      NoDotsInArray(f.rest, Further(up, n), q - n);
    }
  }

  /** All of what can be shown without the local filter. */
  function Unfiltered(l: Listing, c: Config): Forest {
    Loaded(l, c.(localIsEmpty := true, leafs := false))
  }

  lemma LoadedIsSpliced(l: Listing, c: Config, at: Place, placeOf: Placing)
    requires NoDots(l) && LeafsAreParentDirs(c) && !c.localIsEmpty && IsListingOf(l, at, placeOf)
    ensures var keep := KeepLocal(c.(leafs := false));
            && Loaded(l, c) == Splice(Unfiltered(l, c), keep)
            && IsPlaced(Unfiltered(l, c), at, placeOf) && HasNoDots(Loaded(l, c))
            && forall y :: y in KeptOf(Unfiltered(l, c), keep) ==> !IsParentDir(y) && !y.temporary
  {
    hide Loaded, IsPlaced, HasNoDots, IsListingOf, Splice, NoDots;
    var base, keep := Unfiltered(l, c), KeepLocal(c.(leafs := false));
    var before := c.(leafs := false);
    LeafsAreOfNoMatter(l, c);
    FilterWhileLoading(l, before);
    assert before.(localIsEmpty := false) == before;
    LoadedIsPlaced(l, c.(localIsEmpty := true, leafs := false), at, placeOf);
    NoDotsStay(base, keep);
    forall y | y in KeptOf(base, keep) ensures !IsParentDir(y) && !y.temporary {
      RealHaveNoDots(base, y);
    }
  }

  lemma DotIsAside(f: Forest, parentDir: File, has: bool)
    requires HasNoDots(f) && IsParentDir(parentDir)
    ensures Splice(Append(f, Dot(parentDir, has)), NOT_DOT) == f
  {
    assert Splice(Dot(parentDir, has), NOT_DOT) == Empty;
    hide Splice, HasNoDots, Dot;
    SpliceAppend(f, Dot(parentDir, has), NOT_DOT);
    NothingToSplice(f);
    AppendEmpties(f);
  }

  lemma DotIsThere(f: Forest, parentDir: File, has: bool)
    requires HasNoDots(f) && IsParentDir(parentDir)
    ensures HasDot(Flatten(Append(f, Dot(parentDir, has)), 0)) == has
  {
    DotIsLast(f, parentDir, has);
    hide Flatten, HasNoDots, Append;
    var s := Flatten(f, 0) + if has then [Entry(parentDir, 0, 0)] else [];
    forall q | 0 <= q < Size(f) ensures !IsParentDir(s[q].file) {
      NoDotsInArray(f, 0, q);
    }
    assert has ==> IsParentDir(s[Size(f)].file);
  }

  lemma LinesWithDot(f: Forest, parentDir: File, has: bool)
    requires !parentDir.temporary
    ensures multiset(Lines(Append(f, Dot(parentDir, has)), [])) == multiset(Lines(f, [])) + LinesOfDot(parentDir, has)
  {
    hide Lines, Dot, LinesOfDot;
    LinesAppend(f, Dot(parentDir, has), []);
    LinesOfOneDot(parentDir, has);
  }

  lemma DisplayedIsPart(l: Listing, c: Config, at: Place, names: Names, parentDir: File, parentVisible: bool)
    requires NoDots(l) && LeafsAreParentDirs(c) && !c.localIsEmpty && IsListingOf(l, at, names.placeOf)
    requires IsParentDir(parentDir) && !parentDir.temporary
    ensures var f, has := Loaded(l, c), Loaded(l, c).Empty? || parentVisible;
            var shown, keep := Displayed(f, parentDir, parentVisible), KeepLocal(c.(leafs := false));
            && IsPart(shown, Unfiltered(l, c), at, keep, names) && Splice(Unfiltered(l, c), keep) == f
            && HasDot(Flatten(shown, 0)) == has
            && multiset(Lines(shown, [])) == multiset(Lines(f, [])) + LinesOfDot(parentDir, has)
  {
    hide Loaded, Lines, IsPlaced, HasNoDots, IsListingOf, Splice, NoDots, Flatten, HasDot, LinesOfDot, KeptOf, Append;
    var f, has := Loaded(l, c), Loaded(l, c).Empty? || parentVisible;
    LoadedIsSpliced(l, c, at, names.placeOf);
    DotIsAside(f, parentDir, has);
    DotIsThere(f, parentDir, has);
    LinesWithDot(f, parentDir, has);
  }

  lemma {:induction false} NoDotsAreFine(f: Forest, below: bool, top: File -> bool)
    requires HasNoDots(f)
    ensures HasDots(f, below, top)
  {
    if f.Cons? {
      NoDotsAreFine(f.kids, true, top);
      NoDotsAreFine(f.rest, below, top);
    }
  }

  /** ".." can be only at the top level. */
  lemma DisplayedDotIsTop(f: Forest, parentDir: File, parentVisible: bool)
    requires HasNoDots(f) && IsParentDir(parentDir)
    ensures var s := Flatten(Displayed(f, parentDir, parentVisible), 0);
            forall q :: 0 <= q < |s| && IsParentDir(s[q].file) ==> s[q].childPos == 0
  {
    var top, shown := (file: File) => IsParentDir(file), Displayed(f, parentDir, parentVisible);
    NoDotsAreFine(f, false, top);
    AppendDots(f, Tree(parentDir, Empty), false, top);
    AppendDots(f, Empty, false, top);
    hide Flatten;
    forall q | 0 <= q < Size(shown) && IsParentDir(Flatten(shown, 0)[q].file)
      ensures Flatten(shown, 0)[q].childPos == 0
    {
      DotsAt(shown, 0, top, q);
    }
  }

  /** Links are exact when a tree is loaded under a local filter. */
  lemma DisplayedIsExact(l: Listing, c: Config, parentDir: File, parentVisible: bool)
    requires NoDots(l) && LeafsAreParentDirs(c) && !c.localIsEmpty
    ensures var shown := Displayed(Loaded(l, c), parentDir, parentVisible); Raw(shown, 0) == Flatten(shown, 0)
  {
    var f := Loaded(l, c);
    var d := if f.Empty? || parentVisible then Tree(parentDir, Empty) else Empty;
    assert !HasLeaf(d, false);
    hide Loaded, Raw, Flatten, HasLeaf, ShowsEmptyDir;
    LoadedHasLeaf(l, c, false);
    HasLeafAppend(f, d, false);
    RawIsExact(Displayed(f, parentDir, parentVisible), 0);
  }

  /** flist_load_tree_internal() and flist_custom_finish_internal() under a local filter: what is displayed is what has
      been loaded. */
  method LoadFilteredTree(list: Zapping.FileList, l: Listing, dir: File, c: Config, parentDir: File,
                          parentVisible: bool, order: Order, names: Names, ghost at: Place)
    returns (filtered: int)
    requires NoDots(l) && LeafsAreParentDirs(c) && !c.localIsEmpty && IsListingOf(l, at, names.placeOf)
    requires AreNames(names) && IsParentDir(parentDir) && !parentDir.temporary && IsOrder(order)
    modifies list
    ensures list.Valid() && filtered == Filtered(l, c)
    ensures multiset(Lines(list.Contents(), []))
            == multiset(Lines(Displayed(Loaded(l, c), parentDir, parentVisible), []))
    ensures forall precedes: Relation :: OrdersBy(order, precedes) ==>
              AreInOrder(FilesIn(list.entries[..list.count]), precedes, names.placeOf)
  {
    hide Raw, Flatten, Size, Sorted, Loaded, Filtered, Lines, Unflatten, Valid, NoDots, IsListingOf, IsPart, Displayed,
      HasDot, LinesOfDot, AreInPlaces, PutAll, Splice, IsOrder;
    ghost var shown := Displayed(Loaded(l, c), parentDir, parentVisible);
    var entries;
    entries, filtered := LoadEntries(l, dir, c, parentDir, parentVisible);
    DisplayedIsExact(l, c, parentDir, parentVisible);
    FlattenIsValid(shown, 0);
    list.entries := new Entry[|entries|](k requires 0 <= k < |entries| => entries[k]);
    list.count := |entries|;
    assert list.entries[..list.count] == entries == Flatten(shown, 0);
    DisplayedIsPart(l, c, at, names, parentDir, parentVisible);
    LoadedIsSpliced(l, c, at, names.placeOf);
    DisplayedDotIsTop(Loaded(l, c), parentDir, parentVisible);
    SortUnderFilter(list, order, names, parentDir, Unfiltered(l, c), at, KeepLocal(c.(leafs := false)));
    PartIsInOrder(shown, Unfiltered(l, c), at, KeepLocal(c.(leafs := false)), names, order, parentDir,
                  HasDot(entries), list.Contents());
    assert list.entries[..list.count] == Flatten(list.Contents(), 0) by { ContentsAre(list); }
  }

  lemma ContentsAre(list: Zapping.FileList)
    requires list.Valid()
    ensures list.entries[..list.count] == Flatten(list.Contents(), 0)
  {
  }

  lemma PartIsInOrder(shown: Forest, base: Forest, at: Place, keep: File -> bool, names: Names, order: Order,
                      parentDir: File, has: bool, contents: Forest)
    requires AreNames(names) && IsPart(shown, base, at, keep, names) && IsOrder(order) && IsParentDir(parentDir)
    requires AreInPlaces(Listed(shown), names)
    requires contents == Splice(Sorted(Append(PutAll(Listed(shown), names), Dot(parentDir, has)), order),
                                Rebuilding.NOT_TEMPORARY)
    ensures forall precedes: Relation :: OrdersBy(order, precedes) ==>
              AreInOrder(FilesIn(Flatten(contents, 0)), precedes, names.placeOf)
  {
    hide IsPart, IsPlaced, HasNoDots, PutAll, Listed, Sorted, Splice, AreInPlaces, AreInOrder, Dot, Flatten, FilesIn,
      OrdersBy;
    PutAllIsUncompressed(shown, base, at, keep, names);
    forall precedes: Relation | OrdersBy(order, precedes)
      ensures AreInOrder(FilesIn(Flatten(contents, 0)), precedes, names.placeOf)
    {
      DisplayedInOrder(PutAll(Listed(shown), names), names.placeOf, parentDir, has, order, precedes);
    }
  }
}
