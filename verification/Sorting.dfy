/** Sorting of a tree level by level: sort_tree_slice() in src/sort.c. */
module Sorting {
  import opened Forests
  import opened Lineages
  import opened Loading
  import opened Pruning

  // Levels of a tree.

  function Length(f: Forest): nat {
    if f.Empty? then 0 else 1 + Length(f.rest)
  }

  function RootAt(f: Forest, k: nat): File
    requires k < Length(f)
  {
    if k == 0 then f.root else RootAt(f.rest, k - 1)
  }

  function KidsOf(f: Forest, k: nat): (kids: Forest)
    requires k < Length(f)
    ensures Size(kids) < Size(f)
  {
    if k == 0 then f.kids else KidsOf(f.rest, k - 1)
  }

  /** Position of a tree in the array. */
  function StartOf(f: Forest, k: nat): (start: nat)
    requires k <= Length(f)
    ensures k <= start <= Size(f)
  {
    if k == 0 then 0 else 1 + Size(f.kids) + StartOf(f.rest, k - 1)
  }

  function Roots(f: Forest): (files: seq<File>)
    ensures |files| == Length(f)
    ensures forall k :: 0 <= k < |files| ==> files[k] == RootAt(f, k)
  {
    if f.Empty? then [] else [f.root] + Roots(f.rest)
  }

  lemma {:induction false} StartOfNext(f: Forest, k: nat)
    requires k < Length(f)
    ensures StartOf(f, k + 1) == StartOf(f, k) + 1 + Size(KidsOf(f, k))
    ensures StartOf(f, Length(f)) == Size(f)
  {
    StartOfLast(f);
    if k > 0 {
      StartOfNext(f.rest, k - 1);
    }
  }

  lemma {:induction false} StartOfLast(f: Forest)
    ensures StartOf(f, Length(f)) == Size(f)
  {
    if f.Cons? {
      StartOfLast(f.rest);
    }
  }

  // Orders.

  /** Which of files of a level are first, second and so on. */
  type Order = seq<File> -> seq<nat>

  function Range(n: nat): (r: seq<nat>)
    ensures |r| == n && forall k :: 0 <= k < n ==> r[k] == k
  {
    seq(n, k requires 0 <= k < n => k)
  }

  predicate IsPermutation(p: seq<nat>, n: nat) {
    multiset(p) == multiset(Range(n))
  }

  ghost predicate IsOrder(order: Order) {
    forall files :: IsPermutation(order(files), |files|)
  }

  lemma PermutationIsInRange(p: seq<nat>, n: nat)
    requires IsPermutation(p, n)
    ensures |p| == n && forall k :: 0 <= k < |p| ==> p[k] < n
  {
    assert |multiset(p)| == |multiset(Range(n))|;
    forall k | 0 <= k < |p| ensures p[k] < n {
      assert p[k] in multiset(Range(n));
    }
  }

  // Sorted trees.

  predicate AreIndices(p: seq<nat>, f: Forest) {
    forall k :: 0 <= k < |p| ==> p[k] < Length(f)
  }

  ghost function Sorted(f: Forest, order: Order): Forest
    requires IsOrder(order)
    decreases Size(f), 1, 0
  {
    var p := order(Roots(f));
    PermutationIsInRange(p, Length(f));
    Arranged(f, order, p)
  }

  /** Trees in the specified order with contents of each of them sorted. */
  ghost function Arranged(f: Forest, order: Order, p: seq<nat>): Forest
    requires IsOrder(order) && AreIndices(p, f)
    decreases Size(f), 0, |p|
  {
    if p == [] then Empty
    else Cons(RootAt(f, p[0]), Sorted(KidsOf(f, p[0]), order), Arranged(f, order, p[1..]))
  }

  /** Files of specified trees along with their directories. */
  function LinesOf(f: Forest, p: seq<nat>, above: seq<File>): multiset<Line>
    requires AreIndices(p, f)
  {
    if p == [] then multiset{}
    else multiset(Lines(Tree(RootAt(f, p[0]), KidsOf(f, p[0])), above)) + LinesOf(f, p[1..], above)
  }

  lemma {:induction false} LinesOfAppend(f: Forest, p: seq<nat>, q: seq<nat>, above: seq<File>)
    requires AreIndices(p, f) && AreIndices(q, f)
    ensures AreIndices(p + q, f) && LinesOf(f, p + q, above) == LinesOf(f, p, above) + LinesOf(f, q, above)
  {
    hide Lines;
    if p == [] {
      assert p + q == q;
    } else {
      assert (p + q)[1..] == p[1..] + q;
      LinesOfAppend(f, p[1..], q, above);
    }
  }

  lemma {:induction false} LinesOfPermuted(f: Forest, p: seq<nat>, q: seq<nat>, above: seq<File>)
    requires AreIndices(p, f) && AreIndices(q, f) && multiset(p) == multiset(q)
    ensures LinesOf(f, p, above) == LinesOf(f, q, above)
    decreases |p|
  {
    hide Lines, RootAt, KidsOf, Length;
    if p == [] {
      assert |multiset(q)| == 0;
    } else {
      var j := WithoutFirst(p, q);
      var a, b := q[..j], q[j + 1..];
      LinesOfAppend(f, a, [q[j]], above);
      LinesOfAppend(f, a + [q[j]], b, above);
      LinesOfAppend(f, a, b, above);
      assert q == a + [q[j]] + b && [q[j]][1..] == [];
      LinesOfPermuted(f, p[1..], a + b, above);
    }
  }

  lemma WithoutFirst<T>(p: seq<T>, q: seq<T>) returns (j: nat)
    requires p != [] && multiset(p) == multiset(q)
    ensures j < |q| && q[j] == p[0] && multiset(p[1..]) == multiset(q[..j] + q[j + 1..])
  {
    assert p[0] in multiset(q);
    j :| j < |q| && q[j] == p[0];
    assert p == [p[0]] + p[1..];
    assert q == q[..j] + [q[j]] + q[j + 1..];
    assert multiset(p) == multiset{p[0]} + multiset(p[1..]);
    assert multiset(q) == multiset(q[..j]) + multiset{p[0]} + multiset(q[j + 1..]);
    assert multiset(p[1..]) == multiset(p) - multiset{p[0]};
    assert multiset(q[..j] + q[j + 1..]) == multiset(q) - multiset{p[0]};
  }

  /** Trees of a level from some of them on. */
  function Following(f: Forest, k: nat): Forest
    requires k <= Length(f)
  {
    if k == 0 then f else Following(f.rest, k - 1)
  }

  lemma {:induction false} FollowingStarts(f: Forest, k: nat)
    requires k < Length(f)
    ensures Following(f, k) == Cons(RootAt(f, k), KidsOf(f, k), Following(f, k + 1))
    ensures Following(f, Length(f)) == Empty
  {
    FollowingEnds(f);
    if k > 0 {
      FollowingStarts(f.rest, k - 1);
    }
  }

  lemma {:induction false} FollowingEnds(f: Forest)
    ensures Following(f, Length(f)) == Empty
  {
    if f.Cons? {
      FollowingEnds(f.rest);
    }
  }

  lemma LinesOfFirst(f: Forest, above: seq<File>)
    requires f.Cons?
    ensures Lines(f, above) == Lines(Tree(f.root, f.kids), above) + Lines(f.rest, above)
    ensures multiset(Lines(f, above)) == multiset(Lines(Tree(f.root, f.kids), above)) + multiset(Lines(f.rest, above))
  {
    var first: seq<Line> := [above + [f.root]] + Lines(f.kids, above + [f.root]);
    assert Lines(f, above) == first + Lines(f.rest, above);
    assert Lines(Tree(f.root, f.kids), above) == first by {
      assert Lines(Empty, above) == [] && first + [] == first;
    }
    hide Lines;
  }

  lemma LinesOfNext(f: Forest, p: seq<nat>, k: nat, above: seq<File>)
    requires AreIndices(p, f) && k < |p|
    ensures LinesOf(f, p[k..], above)
            == multiset(Lines(Tree(RootAt(f, p[k]), KidsOf(f, p[k])), above)) + LinesOf(f, p[k + 1..], above)
  {
    hide Lines, RootAt, KidsOf, Length;
    assert p[k..][1..] == p[k + 1..];
  }

  lemma NoLines(f: Forest, above: seq<File>)
    ensures Lines(Empty, above) == [] && LinesOf(f, [], above) == multiset{}
  {
  }

  lemma {:induction false} LinesOfRange(f: Forest, p: seq<nat>, k: nat, above: seq<File>)
    requires |p| == Length(f) && k <= |p| && forall i :: 0 <= i < |p| ==> p[i] == i
    ensures LinesOf(f, p[k..], above) == multiset(Lines(Following(f, k), above))
    decreases |p| - k
  {
    hide Lines, Following, Length, LinesOf, RootAt, KidsOf;
    if k < |p| {
      FollowingStarts(f, k);
      LinesOfNext(f, p, k, above);
      LinesOfRange(f, p, k + 1, above);
      LinesOfFirst(Following(f, k), above);
    } else {
      FollowingEnds(f);
      NoLines(f, above);
      assert p[k..] == [];
    }
  }

  /** Sorting neither loses files nor moves them to other directories. */
  lemma {:induction false} SortedKeepsLines(f: Forest, order: Order, above: seq<File>)
    requires IsOrder(order)
    ensures multiset(Lines(Sorted(f, order), above)) == multiset(Lines(f, above))
    decreases Size(f), 1, 0
  {
    var p := order(Roots(f));
    PermutationIsInRange(p, Length(f));
    ArrangedKeepsLines(f, order, p, above);
    hide Lines, Length, Arranged;
    LinesOfPermuted(f, p, Range(Length(f)), above);
    assert Range(Length(f))[0..] == Range(Length(f));
    LinesOfRange(f, Range(Length(f)), 0, above);
  }

  lemma {:induction false} ArrangedKeepsLines(f: Forest, order: Order, p: seq<nat>, above: seq<File>)
    requires IsOrder(order) && AreIndices(p, f)
    ensures multiset(Lines(Arranged(f, order, p), above)) == LinesOf(f, p, above)
    decreases Size(f), 0, |p|
  {
    hide Sorted;
    if p != [] {
      var root, kids := RootAt(f, p[0]), KidsOf(f, p[0]);
      SortedKeepsLines(kids, order, above + [root]);
      ArrangedKeepsLines(f, order, p[1..], above);
      LinesOfTree(root, kids, above);
      LinesOfTree(root, Sorted(kids, order), above);
      hide Lines;
      LinesOfFirst(Arranged(f, order, p), above);
    }
  }

  lemma LinesOfTree(root: File, kids: Forest, above: seq<File>)
    ensures Lines(Tree(root, kids), above) == [above + [root]] + Lines(kids, above + [root])
  {
  }


  lemma SortedSize(f: Forest, order: Order)
    requires IsOrder(order)
    ensures Size(Sorted(f, order)) == Size(f)
  {
    SortedKeepsLines(f, order, []);
    SizeOfLines(f, []);
    SizeOfLines(Sorted(f, order), []);
    hide Lines, Sorted, Size;
    assert |multiset(Lines(Sorted(f, order), []))| == |multiset(Lines(f, []))|;
  }

  lemma SplicedOneLess(lines: seq<Line>, j: nat, keep: File -> bool)
    requires j < |lines|
    ensures multiset(SplicedLines(lines, keep))
            == multiset(SplicedLines([lines[j]], keep)) + multiset(SplicedLines(lines[..j] + lines[j + 1..], keep))
  {
    hide Kept, SplicedLines;
    var a, b := lines[..j], lines[j + 1..];
    SplicedAppend(a, [lines[j]], keep);
    SplicedAppend(a + [lines[j]], b, keep);
    SplicedAppend(a, b, keep);
    assert lines == a + [lines[j]] + b;
  }

  /** Splicing treats each line on its own. */
  lemma {:induction false} SplicedPermuted(a: seq<Line>, b: seq<Line>, keep: File -> bool)
    requires multiset(a) == multiset(b)
    ensures multiset(SplicedLines(a, keep)) == multiset(SplicedLines(b, keep))
    decreases |a|
  {
    hide Kept, SplicedLines;
    if a == [] {
      assert |multiset(b)| == 0;
    } else {
      var j := WithoutFirst(a, b);
      SplicedPermuted(a[1..], b[..j] + b[j + 1..], keep);
      SplicedOneLess(a, 0, keep);
      SplicedOneLess(b, j, keep);
      assert a[..0] + a[1..] == a[1..];
    }
  }

  /** Removal of files from a sorted tree leaves the same files in the same directories as their removal from the
      original tree. */
  lemma SpliceSorted(f: Forest, order: Order, keep: File -> bool)
    requires IsOrder(order)
    ensures multiset(Lines(Splice(Sorted(f, order), keep), [])) == multiset(Lines(Splice(f, keep), []))
  {
    var sorted := Sorted(f, order);
    assert Kept([], keep) == [];
    hide Kept, Lines, SplicedLines, Splice, Sorted;
    SortedKeepsLines(f, order, []);
    SpliceKeepsLines(f, [], keep);
    SpliceKeepsLines(sorted, [], keep);
    SplicedPermuted(Lines(sorted, []), Lines(f, []), keep);
  }

  ghost predicate KeepsOrder(order: Order) {
    forall files :: order(files) == Range(|files|)
  }

  predicate LevelsAreInOrder(f: Forest, order: Order)
    decreases Size(f)
  {
    && order(Roots(f)) == Range(Length(f))
    && forall k :: 0 <= k < Length(f) ==> LevelsAreInOrder(KidsOf(f, k), order)
  }

  lemma {:induction false} OrderIsKept(f: Forest, order: Order)
    requires KeepsOrder(order)
    ensures IsOrder(order) && LevelsAreInOrder(f, order)
    decreases Size(f)
  {
    forall k | 0 <= k < Length(f) ensures LevelsAreInOrder(KidsOf(f, k), order) {
      OrderIsKept(KidsOf(f, k), order);
    }
  }

  /** Nothing changes in a tree whose levels are all in order. */
  lemma {:induction false} SortedInOrder(f: Forest, order: Order)
    requires IsOrder(order) && LevelsAreInOrder(f, order)
    ensures Sorted(f, order) == f
    decreases Size(f), 1, 0
  {
    assert Range(Length(f))[0..] == Range(Length(f));
    ArrangedInOrder(f, order, 0);
  }

  lemma {:induction false} ArrangedInOrder(f: Forest, order: Order, k: nat)
    requires IsOrder(order) && LevelsAreInOrder(f, order) && k <= Length(f)
    ensures Arranged(f, order, Range(Length(f))[k..]) == Following(f, k)
    decreases Size(f), 0, Length(f) - k
  {
    hide Following, Length, Sorted, IsOrder, Size;
    FollowingEnds(f);
    if k < Length(f) {
      SortedInOrder(KidsOf(f, k), order);
      ArrangedInOrder(f, order, k + 1);
      FollowingStarts(f, k);
      assert Range(Length(f))[k..][1..] == Range(Length(f))[k + 1..];
    }
  }

  /** A relation between files of a level. */
  type Relation = (File, File) -> bool

  predicate AreIndicesOf(p: seq<nat>, files: seq<File>) {
    |p| == |files| && forall k :: 0 <= k < |p| ==> p[k] < |files|
  }

  ghost predicate OrdersBy(order: Order, precedes: Relation) {
    && IsOrder(order)
    && forall files, i, j :: 0 <= i < j < |files| && AreIndicesOf(order(files), files) ==>
         precedes(files[order(files)[i]], files[order(files)[j]])
  }

  /** On each level of the tree files come in order. */
  predicate LevelsAreOrdered(f: Forest, precedes: Relation) {
    f.Cons? ==>
      && (forall k :: 0 <= k < Length(f.rest) ==> precedes(f.root, RootAt(f.rest, k)))
      && LevelsAreOrdered(f.kids, precedes) && LevelsAreOrdered(f.rest, precedes)
  }

  lemma {:induction false} ArrangedRoots(f: Forest, order: Order, p: seq<nat>, k: nat)
    requires IsOrder(order) && AreIndices(p, f)
    ensures Length(Arranged(f, order, p)) == |p|
    ensures k < |p| ==> RootAt(Arranged(f, order, p), k) == RootAt(f, p[k])
    decreases |p|
  {
    hide Sorted, IsOrder;
    if p != [] {
      ArrangedRoots(f, order, p[1..], if k > 0 then k - 1 else 0);
    }
  }

  /** All levels of the result are in order. */
  lemma {:induction false} SortedIsOrdered(f: Forest, order: Order, precedes: Relation)
    requires OrdersBy(order, precedes)
    ensures LevelsAreOrdered(Sorted(f, order), precedes)
    decreases Size(f), 1, 0
  {
    var p := order(Roots(f));
    PermutationIsInRange(p, Length(f));
    forall i, j | 0 <= i < j < |p| ensures precedes(RootAt(f, p[i]), RootAt(f, p[j])) {
      assert Roots(f)[p[i]] == RootAt(f, p[i]) && Roots(f)[p[j]] == RootAt(f, p[j]);
    }
    ArrangedIsOrdered(f, order, p, precedes);
  }

  lemma {:induction false} ArrangedIsOrdered(f: Forest, order: Order, p: seq<nat>, precedes: Relation)
    requires OrdersBy(order, precedes) && AreIndices(p, f)
    requires forall i, j :: 0 <= i < j < |p| ==> precedes(RootAt(f, p[i]), RootAt(f, p[j]))
    ensures LevelsAreOrdered(Arranged(f, order, p), precedes)
    decreases Size(f), 0, |p|
  {
    hide Sorted, IsOrder, Size;
    if p != [] {
      var rest := Arranged(f, order, p[1..]);
      SortedIsOrdered(KidsOf(f, p[0]), order, precedes);
      ArrangedIsOrdered(f, order, p[1..], precedes);
      ArrangedRoots(f, order, p[1..], 0);
      forall k | 0 <= k < Length(rest) ensures precedes(RootAt(f, p[0]), RootAt(rest, k)) {
        ArrangedRoots(f, order, p[1..], k);
      }
    }
  }

  // Arrays.

  /** Sizes of trees are right while links don't matter. */
  predicate HasSizes(s: seq<Entry>, f: Forest) {
    && |s| == Size(f)
    && forall k :: 0 <= k < |s| ==> s[k].file == Flatten(f, 0)[k].file && s[k].childCount == Flatten(f, 0)[k].childCount
  }

  /** Links don't affect the rest of an array. */
  lemma {:induction false} LinksAreApart(f: Forest, up: nat, other: nat, k: nat)
    requires k < Size(f)
    ensures Flatten(f, up)[k].file == Flatten(f, other)[k].file
    ensures Flatten(f, up)[k].childCount == Flatten(f, other)[k].childCount
  {
    FlattenAt(f, up, k);
    FlattenAt(f, other, k);
    hide Flatten;
    if k > Size(f.kids) {
      var n := 1 + Size(f.kids);
      LinksAreApart(f.rest, Further(up, n), Further(other, n), k - n);
    }
  }

  /** Sizes of a loaded tree are right. */
  lemma {:induction false} RawHasSizes(f: Forest, up: nat, k: nat)
    requires k < Size(f)
    ensures Raw(f, up)[k].file == Flatten(f, up)[k].file && Raw(f, up)[k].childCount == Flatten(f, up)[k].childCount
  {
    RawCons(f, up);
    FlattenAt(f, up, k);
    hide Flatten, Raw;
    var n := 1 + Size(f.kids);
    if 0 < k < n {
      RawHasSizes(f.kids, 1, k - 1);
    } else if k >= n {
      RawHasSizes(f.rest, Further(up, n), k - n);
    }
  }

  lemma FirstHasSizes(s: seq<Entry>, f: Forest)
    requires HasSizes(s, f) && f.Cons?
    ensures 1 + Size(f.kids) <= |s| && s[0].file == f.root && s[0].childCount == Size(f.kids)
    ensures HasSizes(s[1..1 + Size(f.kids)], f.kids)
  {
    FlattenCons(f, 0);
    hide Flatten;
    forall q | 0 <= q < Size(f.kids)
      ensures s[1 + q].file == Flatten(f.kids, 0)[q].file && s[1 + q].childCount == Flatten(f.kids, 0)[q].childCount
    {
      FlattenAt(f, 0, q + 1);
      LinksAreApart(f.kids, 1, 0, q);
    }
  }

  lemma RestHasSizes(s: seq<Entry>, f: Forest)
    requires HasSizes(s, f) && f.Cons?
    ensures 1 + Size(f.kids) <= |s| && HasSizes(s[1 + Size(f.kids)..], f.rest)
  {
    FlattenCons(f, 0);
    hide Flatten;
    var n := 1 + Size(f.kids);
    forall q | 0 <= q < Size(f.rest)
      ensures s[n + q].file == Flatten(f.rest, 0)[q].file && s[n + q].childCount == Flatten(f.rest, 0)[q].childCount
    {
      FlattenAt(f, 0, q + n);
    }
  }

  lemma {:induction false} FollowingHasSizes(s: seq<Entry>, f: Forest, k: nat)
    requires HasSizes(s, f) && k <= Length(f)
    ensures StartOf(f, k) <= |s| && HasSizes(s[StartOf(f, k)..], Following(f, k))
  {
    hide HasSizes, Size;
    if k == 0 {
      assert s[0..] == s;
    } else {
      RestHasSizes(s, f);
      var n, start := 1 + Size(f.kids), StartOf(f.rest, k - 1);
      FollowingHasSizes(s[n..], f.rest, k - 1);
      assert s[n..][start..] == s[n + start..];
    }
  }

  /** A root of a level while the level is being sorted: its link is the position of its tree. */
  function HeadOf(f: Forest, k: nat): Entry
    requires k < Length(f)
  {
    Entry(RootAt(f, k), StartOf(f, k), Size(KidsOf(f, k)))
  }

  lemma HeadIs(f: Forest, k: nat)
    requires k < Length(f)
    ensures HeadOf(f, k) == Entry(RootAt(f, k), StartOf(f, k), Size(KidsOf(f, k)))
  {
  }

  /** What is stored at the start of a tree and right after it. */
  lemma {:induction false} TreeAt(s: seq<Entry>, f: Forest, k: nat)
    requires HasSizes(s, f) && k < Length(f)
    ensures StartOf(f, k + 1) == StartOf(f, k) + 1 + Size(KidsOf(f, k)) <= |s|
    ensures s[StartOf(f, k)].(childPos := StartOf(f, k)) == HeadOf(f, k)
    ensures s[StartOf(f, k)].childCount == Size(KidsOf(f, k))
    ensures HasSizes(s[StartOf(f, k) + 1..StartOf(f, k + 1)], KidsOf(f, k))
  {
    hide HasSizes, StartOf, Following, Size;
    var start, n := StartOf(f, k), Size(KidsOf(f, k));
    StartOfNext(f, k);
    FollowingStarts(f, k);
    FollowingHasSizes(s, f, k);
    FirstHasSizes(s[start..], Following(f, k));
    assert s[start..][1..1 + n] == s[start + 1..start + 1 + n];
  }

  /** Copies roots of the level, their links are positions of their trees for the time being. */
  method CopyHeads(entries: array<Entry>, off: nat, children: seq<Entry>, ghost f: Forest) returns (i: nat)
    requires HasSizes(children, f) && off + |children| <= entries.Length
    modifies entries
    ensures i == Length(f) <= |children|
    ensures forall k :: 0 <= k < i ==> entries[off + k] == HeadOf(f, k)
    ensures forall k :: 0 <= k < off || off + |children| <= k < entries.Length ==> entries[k] == old(entries[k])
  {
    hide HasSizes, StartOf, HeadOf, Size, KidsOf, RootAt;
    SizeOfArray(children, f);
    i := 0;
    var pos := 0;
    StartOfLast(f);
    StartOfFirst(f);
    while pos < |children|
      invariant i <= Length(f) && i <= pos == StartOf(f, i) <= |children| == Size(f)
      invariant forall k :: 0 <= k < i ==> entries[off + k] == HeadOf(f, k)
      invariant forall k :: 0 <= k < off || off + |children| <= k < entries.Length ==> entries[k] == old(entries[k])
    {
      TreeAt(children, f, i);
      entries[off + i] := children[pos].(childPos := pos);
      pos := pos + (children[pos].childCount + 1);
      i := i + 1;
    }
    if i < Length(f) {
      TreeAt(children, f, i);
    }
  }

  lemma SizeOfArray(s: seq<Entry>, f: Forest)
    requires HasSizes(s, f)
    ensures |s| == Size(f)
  {
  }

  lemma StartOfFirst(f: Forest)
    ensures StartOf(f, 0) == 0
  {
  }

  method FilesOf(heads: seq<Entry>, ghost f: Forest) returns (files: seq<File>)
    requires |heads| == Length(f) && forall k :: 0 <= k < |heads| ==> heads[k] == HeadOf(f, k)
    ensures files == Roots(f)
  {
    hide StartOf, Size, KidsOf, RootAt, Length;
    files := [];
    while |files| < |heads|
      invariant |files| <= |heads| && files == Roots(f)[..|files|]
    {
      files := files + [heads[|files|].file];
    }
  }

  /** sort_sequence(): puts roots in order. */
  method SortSequence(entries: array<Entry>, off: nat, n: nat, order: Order, ghost f: Forest)
    requires IsOrder(order) && off + n <= entries.Length && n == Length(f)
    requires forall k :: 0 <= k < n ==> entries[off + k] == HeadOf(f, k)
    modifies entries
    ensures |order(Roots(f))| == n && AreIndices(order(Roots(f)), f)
    ensures forall k :: 0 <= k < n ==> entries[off + k] == HeadOf(f, order(Roots(f))[k])
    ensures forall k :: 0 <= k < off || off + n <= k < entries.Length ==> entries[k] == old(entries[k])
  {
    hide StartOf, Size, KidsOf, RootAt, Length, IsPermutation, HeadOf, Roots;
    var heads := entries[off..off + n];
    var files := FilesOf(heads, f);
    var p := order(files);
    PermutationIsInRange(p, n);
    var k := 0;
    while k < n
      invariant k <= n
      invariant forall q :: 0 <= q < k ==> entries[off + q] == heads[p[q]]
      invariant forall q :: 0 <= q < off || off + n <= q < entries.Length ==> entries[q] == old(entries[q])
    {
      entries[off + k] := heads[p[k]];
      k := k + 1;
    }
  }

  /** Link of the tree which is placed at the position within its level. */
  function LinkAt(root: bool, pos: nat): nat {
    if root then 0 else pos + 1
  }

  /** A tree is placed before those that follow it. */
  lemma ArrangedStep(f: Forest, order: Order, p: seq<nat>, i: nat, root: bool, pos: nat, s: seq<Entry>)
    requires IsOrder(order) && AreIndices(p, f) && i < |p|
    requires var k := p[i];
             var n := Size(KidsOf(f, k));
             && 1 + n <= |s| && s[0] == Entry(RootAt(f, k), LinkAt(root, pos), n)
             && s[1..1 + n] == Flatten(Sorted(KidsOf(f, k), order), 1)
             && s[1 + n..] == Flatten(Arranged(f, order, p[i + 1..]), LinkAt(root, pos + 1 + n))
    ensures s == Flatten(Arranged(f, order, p[i..]), LinkAt(root, pos))
  {
    hide Flatten, Size, Sorted, Arranged, RootAt, KidsOf, Length, LinkAt, IsOrder, Roots;
    LinkPast(root, pos, Size(KidsOf(f, p[i])));
    var g, kids, rest := Arranged(f, order, p[i..]), KidsOf(f, p[i]), Arranged(f, order, p[i + 1..]);
    SortedSize(kids, order);
    ArrangedFirst(f, order, p, i);
    FlattenCons(g, LinkAt(root, pos));
    assert g == Cons(RootAt(f, p[i]), Sorted(kids, order), rest);
    assert s == [s[0]] + s[1..1 + Size(kids)] + s[1 + Size(kids)..];
  }

  lemma LinkPast(root: bool, pos: nat, n: nat)
    ensures Further(LinkAt(root, pos), 1 + n) == LinkAt(root, pos + 1 + n)
  {
  }

  lemma ArrangedFirst(f: Forest, order: Order, p: seq<nat>, i: nat)
    requires IsOrder(order) && AreIndices(p, f) && i < |p|
    ensures Arranged(f, order, p[i..])
            == Cons(RootAt(f, p[i]), Sorted(KidsOf(f, p[i]), order), Arranged(f, order, p[i + 1..]))
  {
    hide Sorted, KidsOf, RootAt;
    assert p[i..][1..] == p[i + 1..];
  }

  lemma ArrangedStepSize(f: Forest, order: Order, p: seq<nat>, i: nat)
    requires IsOrder(order) && AreIndices(p, f) && i < |p|
    ensures var n := Size(KidsOf(f, p[i]));
            && Size(Sorted(KidsOf(f, p[i]), order)) == n
            && Size(Arranged(f, order, p[i..])) == 1 + n + Size(Arranged(f, order, p[i + 1..]))
  {
    hide Sorted, Arranged, KidsOf;
    SortedSize(KidsOf(f, p[i]), order);
    ArrangedFirst(f, order, p, i);
  }

  /** How much space is left for trees that have not been placed yet. */
  lemma SpaceIsEnough(f: Forest, order: Order, p: seq<nat>, i: nat)
    requires IsOrder(order) && p == order(Roots(f)) && AreIndices(p, f) && i <= |p|
    ensures Size(Arranged(f, order, p)) == Size(f) == Size(Sorted(f, order))
    ensures i + Size(Arranged(f, order, p[i..])) <= Size(f)
  {
    SortedSize(f, order);
    SortedIsArranged(f, order);
    hide Sorted, Arranged, Size;
    ArrangedShrinks(f, order, p, i);
  }

  lemma {:induction false} ArrangedShrinks(f: Forest, order: Order, p: seq<nat>, i: nat)
    requires IsOrder(order) && AreIndices(p, f) && i <= |p|
    ensures i + Size(Arranged(f, order, p[i..])) <= Size(Arranged(f, order, p))
  {
    hide Sorted;
    if i == 0 {
      assert p[0..] == p;
    } else {
      ArrangedShrinks(f, order, p, i - 1);
      assert p[i - 1..][1..] == p[i..];
    }
  }

  lemma NothingArranged(f: Forest, order: Order, p: seq<nat>, up: nat)
    requires IsOrder(order) && p == []
    ensures Arranged(f, order, p) == Empty && Size(Empty) == 0 && Flatten(Empty, up) == []
  {
  }

  lemma SortedIsArranged(f: Forest, order: Order)
    requires IsOrder(order)
    ensures AreIndices(order(Roots(f)), f) && Sorted(f, order) == Arranged(f, order, order(Roots(f)))
  {
    PermutationIsInRange(order(Roots(f)), Length(f));
  }

  lemma FirstLink()
    ensures LinkAt(true, 0) == 0 && LinkAt(false, 0) == 1
  {
  }

  /** Sorts a level of a tree and then contents of its trees. */
  method SortTreeSlice(entries: array<Entry>, off: nat, children: seq<Entry>, root: bool, order: Order,
                       ghost f: Forest)
    requires IsOrder(order) && HasSizes(children, f) && off + |children| <= entries.Length
    modifies entries
    ensures Size(Sorted(f, order)) == |children|
    ensures entries[off..off + |children|] == Flatten(Sorted(f, order), LinkAt(root, 0))
    ensures forall k :: 0 <= k < off || off + |children| <= k < entries.Length ==> entries[k] == old(entries[k])
    decreases |children|, 2
  {
    hide HasSizes, StartOf, Sorted, Arranged, Flatten, Size, Length, IsPermutation, HeadOf, KidsOf, RootAt, Roots,
      LinkAt;
    SizeOfArray(children, f);
    var i := CopyHeads(entries, off, children, f);
    SortSequence(entries, off, i, order, f);
    ghost var p := order(Roots(f));

    SpaceIsEnough(f, order, p, i);
    NothingArranged(f, order, p[i..], LinkAt(root, |children|));
    var pos := |children|;
    while i > 0
      invariant i <= |p| && i <= pos <= |children|
      invariant pos + Size(Arranged(f, order, p[i..])) == |children|
      invariant forall k :: 0 <= k < i ==> entries[off + k] == HeadOf(f, p[k])
      invariant entries[off + pos..off + |children|] == Flatten(Arranged(f, order, p[i..]), LinkAt(root, pos))
      invariant forall k :: 0 <= k < off || off + |children| <= k < entries.Length ==> entries[k] == old(entries[k])
    {
      i := i - 1;
      SpaceIsEnough(f, order, p, i);
      pos := PlaceTree(entries, off, children, root, order, f, p, i, pos);
    }
    SpaceIsEnough(f, order, p, 0);
    assert p[0..] == p;
    SortedIsArranged(f, order);
  }

  /** Moves a root to its place right before the trees that follow and sorts what is inside of it. */
  method PlaceTree(entries: array<Entry>, off: nat, children: seq<Entry>, root: bool, order: Order, ghost f: Forest,
                   ghost p: seq<nat>, i: nat, end: nat)
    returns (pos: nat)
    requires IsOrder(order) && HasSizes(children, f) && off + |children| <= entries.Length
    requires AreIndices(p, f) && i < |p|
    requires i + Size(Arranged(f, order, p[i..])) <= |children|
    requires end + Size(Arranged(f, order, p[i + 1..])) == |children|
    requires forall k :: 0 <= k <= i ==> entries[off + k] == HeadOf(f, p[k])
    requires entries[off + end..off + |children|] == Flatten(Arranged(f, order, p[i + 1..]), LinkAt(root, end))
    modifies entries
    ensures i <= pos && pos + Size(Arranged(f, order, p[i..])) == |children|
    ensures forall k :: 0 <= k < i ==> entries[off + k] == HeadOf(f, p[k])
    ensures entries[off + pos..off + |children|] == Flatten(Arranged(f, order, p[i..]), LinkAt(root, pos))
    ensures forall k :: 0 <= k < off || off + |children| <= k < entries.Length ==> entries[k] == old(entries[k])
    decreases |children|, 1
  {
    hide HasSizes, StartOf, Sorted, Arranged, Flatten, Size, Length, HeadOf, KidsOf, RootAt, LinkAt, IsOrder, Roots;
    SizeOfArray(children, f);
    HeadIs(f, p[i]);
    ArrangedStepSize(f, order, p, i);
    TreeAt(children, f, p[i]);
    pos := end - (entries[off + i].childCount + 1);
    ghost var before := entries[..];
    entries[off + pos] := entries[off + i];
    SortKids(entries, off + pos, children, order, f, p[i]);
    ghost var after := entries[..];
    entries[off + pos] := entries[off + pos].(childPos := LinkAt(root, pos));
    assert pos + 1 + Size(KidsOf(f, p[i])) == end;
    TreeIsPlaced(f, order, p, i, root, pos, before, after, off + pos, off + |children|, entries[off + pos]);
    assert entries[..] == after[off + pos := entries[off + pos]];
  }

  lemma SliceOfSlice(s: seq<Entry>, a: nat, b: nat, i: nat, j: nat)
    requires i <= j && a + j <= b <= |s|
    ensures s[a..b][i..j] == s[a + i..a + j]
  {
    forall q | 0 <= q < j - i ensures s[a..b][i..j][q] == s[a + i..a + j][q] {
      assert s[a..b][i + q] == s[a + (i + q)];
    }
  }

  /** What is left in the array after placing of a tree at the position `at`. */
  lemma TreeIsPlaced(f: Forest, order: Order, p: seq<nat>, i: nat, root: bool, pos: nat,
                     before: seq<Entry>, after: seq<Entry>, at: nat, end: nat, x: Entry)
    requires IsOrder(order) && AreIndices(p, f) && i < |p|
    requires var k := p[i];
             var n := Size(KidsOf(f, k));
             && at + 1 + n <= end <= |before| == |after|
             && x == Entry(RootAt(f, k), LinkAt(root, pos), n)
             && after[at + 1..at + 1 + n] == Flatten(Sorted(KidsOf(f, k), order), 1)
             && (forall q :: at + 1 + n <= q < end ==> after[q] == before[q])
             && before[at + 1 + n..end] == Flatten(Arranged(f, order, p[i + 1..]), LinkAt(root, pos + 1 + n))
    ensures after[at := x][at..end] == Flatten(Arranged(f, order, p[i..]), LinkAt(root, pos))
  {
    hide Flatten, Size, Sorted, Arranged, RootAt, KidsOf, LinkAt, IsOrder, Length;
    var n, s := Size(KidsOf(f, p[i])), after[at := x][at..end];
    var placed := after[at := x];
    SliceOfSlice(placed, at, end, 1, 1 + n);
    SliceOfSlice(placed, at, end, 1 + n, |s|);
    assert placed[at + 1..at + 1 + n] == after[at + 1..at + 1 + n];
    assert placed[at + 1 + n..end] == before[at + 1 + n..end];
    ArrangedStep(f, order, p, i, root, pos, s);
  }

  /** Sorts contents of a root that is in its place. */
  method SortKids(entries: array<Entry>, at: nat, children: seq<Entry>, order: Order, ghost f: Forest, ghost k: nat)
    requires IsOrder(order) && HasSizes(children, f) && k < Length(f)
    requires at + 1 + Size(KidsOf(f, k)) <= entries.Length && entries[at] == HeadOf(f, k)
    modifies entries
    ensures var n := Size(KidsOf(f, k));
            && entries[at + 1..at + 1 + n] == Flatten(Sorted(KidsOf(f, k), order), 1)
            && forall q :: 0 <= q <= at || at + 1 + n <= q < entries.Length ==> entries[q] == old(entries[q])
    decreases |children|, 0
  {
    hide HasSizes, StartOf, Sorted, Flatten, Size, Length, HeadOf, KidsOf, RootAt, LinkAt, IsPermutation;
    SizeOfArray(children, f);
    TreeAt(children, f, k);
    HeadIs(f, k);
    SortedSize(KidsOf(f, k), order);
    FirstLink();
    if entries[at].childCount != 0 {
      var from, n := entries[at].childPos + 1, entries[at].childCount;
      SortTreeSlice(entries, at + 1, children[from..from + n], false, order, KidsOf(f, k));
    }
  }
}
