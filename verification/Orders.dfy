/** In what order files of a directory are displayed when a local filter leaves only a part of the tree. */
module Orders {
  import opened Forests
  import opened Edits
  import opened Lineages
  import opened Loading
  import opened Places
  import opened Pruning
  import Rebuilding
  import opened Sorting
  import opened Uncompressing

  /** Files in the order of the array. */
  function PreOrder(f: Forest): seq<File> {
    if f.Empty? then [] else [f.root] + PreOrder(f.kids) + PreOrder(f.rest)
  }

  lemma {:induction false} ArrayIsInPreOrder(f: Forest, up: nat)
    ensures FilesIn(Flatten(f, up)) == PreOrder(f)
  {
    hide Flatten;
    FlattenCons(f, up);
    if f.Cons? {
      ArrayIsInPreOrder(f.kids, 1);
      ArrayIsInPreOrder(f.rest, Further(up, 1 + Size(f.kids)));
    }
  }

  /** Path to the directory a file is in. */
  function DirOf(file: File, placeOf: Placing): Place {
    var place := placeOf(file);
    if place == [] then [] else place[..|place| - 1]
  }

  predicate AreSiblings(x: File, y: File, placeOf: Placing) {
    !IsParentDir(x) && !IsParentDir(y) && DirOf(x, placeOf) == DirOf(y, placeOf)
  }

  /** Files of the same directory come in order, whatever is between them. */
  predicate AreInOrder(files: seq<File>, precedes: Relation, placeOf: Placing) {
    forall i, j :: 0 <= i < j < |files| && AreSiblings(files[i], files[j], placeOf) ==> precedes(files[i], files[j])
  }

  // Removal of files.

  lemma {:induction false} KeptAppend(a: seq<File>, b: seq<File>, keep: File -> bool)
    ensures Kept(a + b, keep) == Kept(a, keep) + Kept(b, keep)
  {
    if b == [] {
      assert a + b == a;
    } else {
      assert (a + b)[..|a + b| - 1] == a + b[..|b| - 1];
      KeptAppend(a, b[..|b| - 1], keep);
    }
  }

  lemma {:induction false} PreOrderAppend(f: Forest, g: Forest)
    ensures PreOrder(Append(f, g)) == PreOrder(f) + PreOrder(g)
  {
    if f.Cons? {
      PreOrderAppend(f.rest, g);
    }
  }

  lemma KeptRoot(root: File, keep: File -> bool)
    ensures Kept([root], keep) == if keep(root) then [root] else []
  {
    assert [root][..0] == [];
  }

  lemma {:induction false} SpliceKeepsPreOrder(f: Forest, keep: File -> bool)
    ensures PreOrder(Splice(f, keep)) == Kept(PreOrder(f), keep)
  {
    hide Kept;
    if f.Cons? {
      SpliceKeepsPreOrder(f.kids, keep);
      SpliceKeepsPreOrder(f.rest, keep);
      KeptRoot(f.root, keep);
      KeptAppend([f.root], PreOrder(f.kids), keep);
      KeptAppend([f.root] + PreOrder(f.kids), PreOrder(f.rest), keep);
      PreOrderAppend(Splice(f.kids, keep), Splice(f.rest, keep));
    } else {
      NoneIsKept(keep);
    }
  }

  lemma NoneIsKept(keep: File -> bool)
    ensures Kept([], keep) == []
  {
  }

  lemma {:induction false} KeptAreInOrder(files: seq<File>, keep: File -> bool, precedes: Relation, placeOf: Placing)
    requires AreInOrder(files, precedes, placeOf)
    ensures AreInOrder(Kept(files, keep), precedes, placeOf)
    ensures forall i :: 0 <= i < |Kept(files, keep)| ==> Kept(files, keep)[i] in files
  {
    hide AreSiblings;
    if files != [] {
      var n := |files| - 1;
      KeptAreInOrder(files[..n], keep, precedes, placeOf);
      var kept := Kept(files[..n], keep);
      forall i | 0 <= i < |kept| ensures kept[i] in files
        ensures AreSiblings(kept[i], files[n], placeOf) ==> precedes(kept[i], files[n])
      {
        assert kept[i] in files[..n];
        var k :| 0 <= k < n && files[..n][k] == kept[i];
        assert files[k] == kept[i];
      }
    }
  }

  // Places of files of a sorted tree.

  /** Roots are right inside of the place and their places are all different, except for "..". */
  predicate IsLevel(f: Forest, at: Place, placeOf: Placing) {
    && (forall k :: 0 <= k < Length(f) && !IsParentDir(RootAt(f, k)) ==>
          at <= placeOf(RootAt(f, k)) && |placeOf(RootAt(f, k))| == |at| + 1)
    && (forall j, k :: 0 <= j < k < Length(f) && !IsParentDir(RootAt(f, j)) && !IsParentDir(RootAt(f, k)) ==>
          placeOf(RootAt(f, j)) != placeOf(RootAt(f, k)))
  }

  /** The same on all levels, there is nothing inside of "..". */
  predicate AreApart(f: Forest, at: Place, placeOf: Placing)
    decreases Size(f)
  {
    && IsLevel(f, at, placeOf)
    && forall k :: 0 <= k < Length(f) ==>
         if IsParentDir(RootAt(f, k)) then KidsOf(f, k).Empty?
         else AreApart(KidsOf(f, k), placeOf(RootAt(f, k)), placeOf)
  }

  lemma {:induction false} NoOtherRoot(f: Forest, place: Place, placeOf: Placing, k: nat)
    requires !HasRoot(f, place, placeOf) && k < Length(f)
    ensures placeOf(RootAt(f, k)) != place
  {
    if k > 0 {
      NoOtherRoot(f.rest, place, placeOf, k - 1);
    }
  }

  lemma {:induction false} PlacedAreApart(f: Forest, at: Place, placeOf: Placing)
    requires IsPlaced(f, at, placeOf) && HasNoDots(f)
    ensures AreApart(f, at, placeOf)
    decreases Size(f)
  {
    if f.Cons? {
      PlacedAreApart(f.kids, placeOf(f.root), placeOf);
      PlacedAreApart(f.rest, at, placeOf);
      forall k | 0 <= k < Length(f.rest) ensures placeOf(RootAt(f.rest, k)) != placeOf(f.root) {
        NoOtherRoot(f.rest, placeOf(f.root), placeOf, k);
      }
      AddRoot(f, at, placeOf);
    }
  }

  lemma AddRoot(f: Forest, at: Place, placeOf: Placing)
    requires f.Cons? && AreApart(f.rest, at, placeOf)
    requires if IsParentDir(f.root) then f.kids.Empty? else AreApart(f.kids, placeOf(f.root), placeOf)
    requires !IsParentDir(f.root) ==> at <= placeOf(f.root) && |placeOf(f.root)| == |at| + 1
    requires !IsParentDir(f.root) ==>
               forall k :: 0 <= k < Length(f.rest) ==> placeOf(RootAt(f.rest, k)) != placeOf(f.root)
    ensures AreApart(f, at, placeOf)
  {
    forall k | 0 < k < Length(f)
      ensures RootAt(f, k) == RootAt(f.rest, k - 1) && KidsOf(f, k) == KidsOf(f.rest, k - 1)
    {
    }
  }

  lemma RestIsApart(f: Forest, at: Place, placeOf: Placing)
    requires f.Cons? && AreApart(f, at, placeOf)
    ensures AreApart(f.rest, at, placeOf)
    ensures if IsParentDir(f.root) then f.kids.Empty? else AreApart(f.kids, placeOf(f.root), placeOf)
  {
    forall k | 0 <= k < Length(f.rest)
      ensures RootAt(f.rest, k) == RootAt(f, k + 1) && KidsOf(f.rest, k) == KidsOf(f, k + 1)
    {
    }
    assert RootAt(f, 0) == f.root && KidsOf(f, 0) == f.kids;
  }

  lemma {:induction false} LevelsOfAppend(f: Forest, g: Forest, k: nat)
    ensures Length(Append(f, g)) == Length(f) + Length(g)
    ensures k < Length(f) ==> RootAt(Append(f, g), k) == RootAt(f, k) && KidsOf(Append(f, g), k) == KidsOf(f, k)
    ensures Length(f) <= k < Length(f) + Length(g) ==>
              && RootAt(Append(f, g), k) == RootAt(g, k - Length(f))
              && KidsOf(Append(f, g), k) == KidsOf(g, k - Length(f))
  {
    if f.Cons? {
      LevelsOfAppend(f.rest, g, if k > 0 then k - 1 else 0);
    }
  }

  lemma DotIsApart(f: Forest, at: Place, placeOf: Placing, parentDir: File, has: bool)
    requires AreApart(f, at, placeOf) && IsParentDir(parentDir)
    ensures AreApart(Append(f, Dot(parentDir, has)), at, placeOf)
  {
    hide Size;
    var d := Dot(parentDir, has);
    LevelsOfAppend(f, d, 0);
    forall k: nat | k < Length(f) + Length(d)
      ensures k < Length(f) ==>
                RootAt(Append(f, d), k) == RootAt(f, k) && KidsOf(Append(f, d), k) == KidsOf(f, k)
      ensures k >= Length(f) ==> RootAt(Append(f, d), k) == parentDir && KidsOf(Append(f, d), k) == Empty
    {
      LevelsOfAppend(f, d, k);
    }
  }

  lemma {:induction false} ArrangedKids(f: Forest, order: Order, p: seq<nat>, k: nat)
    requires IsOrder(order) && AreIndices(p, f) && k < |p|
    ensures Length(Arranged(f, order, p)) == |p|
    ensures KidsOf(Arranged(f, order, p), k) == Sorted(KidsOf(f, p[k]), order)
    decreases |p|
  {
    hide Sorted, IsOrder;
    ArrangedRoots(f, order, p, k);
    if k > 0 {
      ArrangedKids(f, order, p[1..], k - 1);
    }
  }

  lemma PlaceIsOnce(p: seq<nat>, i: nat, j: nat)
    requires i < j < |p| && p[i] == p[j]
    ensures multiset(p)[p[i]] >= 2
  {
    assert p == p[..j] + p[j..];
    assert p[..j][i] in multiset(p[..j]) && p[j..][0] in multiset(p[j..]);
  }

  lemma {:induction false} RangeHasOnce(n: nat, x: nat)
    ensures multiset(Range(n))[x] <= 1
  {
    if n > 0 {
      RangeHasOnce(n - 1, x);
      assert Range(n) == Range(n - 1) + [n - 1];
    }
  }

  lemma PermutationIsDistinct(p: seq<nat>, n: nat)
    requires IsPermutation(p, n)
    ensures forall i, j :: 0 <= i < j < |p| ==> p[i] != p[j]
  {
    forall i, j | 0 <= i < j < |p| ensures p[i] != p[j] {
      if p[i] == p[j] {
        PlaceIsOnce(p, i, j);
        RangeHasOnce(n, p[i]);
      }
    }
  }

  lemma ArrangedIsLevel(f: Forest, at: Place, placeOf: Placing, order: Order, p: seq<nat>)
    requires IsOrder(order) && AreIndices(p, f) && IsLevel(f, at, placeOf)
    requires forall i, j :: 0 <= i < j < |p| ==> p[i] != p[j]
    ensures IsLevel(Arranged(f, order, p), at, placeOf)
  {
    hide Arranged, IsOrder, RootAt;
    var g := Arranged(f, order, p);
    ArrangedRoots(f, order, p, 0);
    forall k: nat | k < |p| ensures RootAt(g, k) == RootAt(f, p[k]) {
      ArrangedRoots(f, order, p, k);
    }
    forall j: nat, k: nat | j < k < |p| && !IsParentDir(RootAt(f, p[j])) && !IsParentDir(RootAt(f, p[k]))
      ensures placeOf(RootAt(f, p[j])) != placeOf(RootAt(f, p[k]))
    {
      assert p[j] < p[k] || p[k] < p[j];
    }
  }

  /** Sorting leaves files in their directories. */
  lemma {:induction false} SortedAreApart(f: Forest, at: Place, placeOf: Placing, order: Order)
    requires IsOrder(order) && AreApart(f, at, placeOf)
    ensures AreApart(Sorted(f, order), at, placeOf)
    decreases Size(f)
  {
    hide IsLevel, RootAt, Arranged, IsOrder;
    var p := order(Roots(f));
    assert IsPermutation(p, Length(f)) by { OrderIsPermutation(f, order); }
    PermutationIsInRange(p, Length(f));
    PermutationIsDistinct(p, Length(f));
    var g := Arranged(f, order, p);
    ArrangedIsLevel(f, at, placeOf, order, p);
    ArrangedRoots(f, order, p, 0);
    forall k: nat | k < |p|
      ensures if IsParentDir(RootAt(g, k)) then KidsOf(g, k).Empty?
              else AreApart(KidsOf(g, k), placeOf(RootAt(g, k)), placeOf)
    {
      ArrangedRoots(f, order, p, k);
      ArrangedKids(f, order, p, k);
      if IsParentDir(RootAt(f, p[k])) {
        NothingToSort(order);
      } else {
        SortedAreApart(KidsOf(f, p[k]), placeOf(RootAt(f, p[k])), placeOf, order);
      }
    }
  }

  lemma OrderIsPermutation(f: Forest, order: Order)
    requires IsOrder(order)
    ensures IsPermutation(order(Roots(f)), Length(f))
  {
  }

  lemma NothingToSort(order: Order)
    requires IsOrder(order)
    ensures Sorted(Empty, order) == Empty
  {
    OrderIsPermutation(Empty, order);
    PermutationIsInRange(order(Roots(Empty)), 0);
    assert order(Roots(Empty)) == [];
  }

  // Order of files of a sorted tree.

  /** The file is a root or is inside of one. */
  predicate IsUnder(file: File, root: File, at: Place, placeOf: Placing) {
    !IsParentDir(root) &&
    if file == root then DirOf(file, placeOf) == at
    else placeOf(root) <= DirOf(file, placeOf)
  }

  lemma {:induction false} FileIsUnder(f: Forest, at: Place, placeOf: Placing, i: nat) returns (k: nat)
    requires AreApart(f, at, placeOf) && i < |PreOrder(f)| && !IsParentDir(PreOrder(f)[i])
    ensures k < Length(f) && IsUnder(PreOrder(f)[i], RootAt(f, k), at, placeOf)
    ensures at <= DirOf(PreOrder(f)[i], placeOf)
  {
    RestIsApart(f, at, placeOf);
    var n := 1 + |PreOrder(f.kids)|;
    assert RootAt(f, 0) == f.root;
    if i == 0 {
      k := 0;
    } else if i < n {
      assert PreOrder(f)[i] == PreOrder(f.kids)[i - 1];
      k := FileIsUnder(f.kids, placeOf(f.root), placeOf, i - 1);
      k := 0;
    } else {
      assert PreOrder(f)[i] == PreOrder(f.rest)[i - n];
      k := FileIsUnder(f.rest, at, placeOf, i - n);
      k := k + 1;
    }
  }

  lemma {:induction false} RootPrecedes(f: Forest, precedes: Relation, k: nat)
    requires f.Cons? && LevelsAreOrdered(f, precedes) && k < Length(f.rest)
    ensures precedes(f.root, RootAt(f.rest, k))
  {
  }

  /** Files of the first tree and files of those that follow. */
  lemma FirstIsInOrder(f: Forest, at: Place, placeOf: Placing, precedes: Relation, i: nat, j: nat)
    requires f.Cons? && AreApart(f, at, placeOf) && LevelsAreOrdered(f, precedes)
    requires i <= |PreOrder(f.kids)| && j < |PreOrder(f.rest)|
    requires AreSiblings(PreOrder(f)[i], PreOrder(f.rest)[j], placeOf)
    ensures precedes(PreOrder(f)[i], PreOrder(f.rest)[j])
  {
    var x, y := PreOrder(f)[i], PreOrder(f.rest)[j];
    RestIsApart(f, at, placeOf);
    var k := FileIsUnder(f.rest, at, placeOf, j);
    var root := RootAt(f.rest, k);
    assert root == RootAt(f, k + 1) && f.root == RootAt(f, 0);
    assert IsLevel(f, at, placeOf);
    hide AreApart, LevelsAreOrdered, PreOrder;
    if i == 0 {
      assert x == f.root by { FirstInPreOrder(f); }
      RootPrecedes(f, precedes, k);
    } else {
      assert x == PreOrder(f.kids)[i - 1] by { FirstInPreOrder(f); }
      var l := FileIsUnder(f.kids, placeOf(f.root), placeOf, i - 1);
      NoneIsInBoth(f, at, placeOf, root, x, y);
    }
  }

  lemma FirstInPreOrder(f: Forest)
    requires f.Cons?
    ensures PreOrder(f) == [f.root] + PreOrder(f.kids) + PreOrder(f.rest)
  {
  }

  lemma NoneIsInBoth(f: Forest, at: Place, placeOf: Placing, root: File, x: File, y: File)
    requires f.Cons? && !IsParentDir(root) && !IsParentDir(f.root) && placeOf(f.root) != placeOf(root)
    requires |placeOf(f.root)| == |placeOf(root)| == |at| + 1
    requires placeOf(f.root) <= DirOf(x, placeOf) && IsUnder(y, root, at, placeOf)
    ensures DirOf(x, placeOf) != DirOf(y, placeOf)
  {
    var a, b := DirOf(x, placeOf), DirOf(y, placeOf);
    assert placeOf(f.root) == a[..|at| + 1];
    if y != root {
      assert placeOf(root) == b[..|at| + 1];
    }
  }

  /** Files of each directory come in order. */
  lemma {:induction false} OrderedAreInOrder(f: Forest, at: Place, placeOf: Placing, precedes: Relation)
    requires AreApart(f, at, placeOf) && LevelsAreOrdered(f, precedes)
    ensures AreInOrder(PreOrder(f), precedes, placeOf)
  {
    hide AreSiblings, IsLevel;
    if f.Cons? {
      RestIsApart(f, at, placeOf);
      var kids, rest, all := PreOrder(f.kids), PreOrder(f.rest), PreOrder(f);
      OrderedAreInOrder(f.rest, at, placeOf, precedes);
      if f.kids.Cons? {
        OrderedAreInOrder(f.kids, placeOf(f.root), placeOf, precedes);
      }
      forall i, j | 0 <= i < j < |all| && AreSiblings(all[i], all[j], placeOf) ensures precedes(all[i], all[j]) {
        if j > |kids| {
          if i > |kids| {
            assert all[i] == rest[i - 1 - |kids|] && all[j] == rest[j - 1 - |kids|];
          } else {
            FirstIsInOrder(f, at, placeOf, precedes, i, j - 1 - |kids|);
          }
        } else if i > 0 {
          assert all[i] == kids[i - 1] && all[j] == kids[j - 1];
        } else {
          assert all[j] == kids[j - 1];
          NotSiblings(f, at, placeOf, j - 1);
        }
      }
    }
  }

  lemma NotSiblings(f: Forest, at: Place, placeOf: Placing, j: nat)
    requires f.Cons? && AreApart(f, at, placeOf) && j < |PreOrder(f.kids)|
    ensures !AreSiblings(f.root, PreOrder(f.kids)[j], placeOf)
  {
    RestIsApart(f, at, placeOf);
    assert f.root == RootAt(f, 0);
    if !IsParentDir(PreOrder(f.kids)[j]) {
      var k := FileIsUnder(f.kids, placeOf(f.root), placeOf, j);
    }
  }

  /** What is displayed after sorting of a tree and removal of directories that were put back for the time of it. */
  lemma DisplayedInOrder(u: Forest, placeOf: Placing, parentDir: File, has: bool, order: Order, precedes: Relation)
    requires IsPlaced(u, [], placeOf) && HasNoDots(u) && IsParentDir(parentDir) && OrdersBy(order, precedes)
    ensures var shown := Splice(Sorted(Append(u, Dot(parentDir, has)), order), Rebuilding.NOT_TEMPORARY);
            AreInOrder(FilesIn(Flatten(shown, 0)), precedes, placeOf)
  {
    hide AreApart, AreInOrder, Sorted, Splice, Dot, IsPlaced, HasNoDots, FilesIn, Flatten, PreOrder, Kept,
      LevelsAreOrdered;
    var all := Append(u, Dot(parentDir, has));
    var sorted := Sorted(all, order);
    PlacedAreApart(u, [], placeOf);
    DotIsApart(u, [], placeOf, parentDir, has);
    SortedAreApart(all, [], placeOf, order);
    SortedIsOrdered(all, order, precedes);
    OrderedAreInOrder(sorted, [], placeOf, precedes);
    KeptAreInOrder(PreOrder(sorted), Rebuilding.NOT_TEMPORARY, precedes, placeOf);
    SpliceKeepsPreOrder(sorted, Rebuilding.NOT_TEMPORARY);
    ArrayIsInPreOrder(Splice(sorted, Rebuilding.NOT_TEMPORARY), 0);
  }
}
