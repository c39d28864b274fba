/** Removal of entries by growing a new list node by node: filters_drop_temporaries() and
    update_filtering_lists(). */
module Rebuilding {
  import opened Forests
  import opened Edits
  import opened Links
  import opened Pruning
  import opened Wrappers
  import opened Zapping

  /** Links do not lead out of the list. */
  ghost predicate LinksAreInside(list: seq<Entry>) {
    forall q | 0 <= q < |list| :: 0 <= list[q].childPos <= q
  }

  /** The closest ancestor of position `q` that isn't removed, as an index in the list of what
      remains (-1 if there is none).  Entries up to `i` are processed and have tags, the rest of
      entries is considered to remain and is `d` positions closer to the start. */
  ghost function Ancestor(list: seq<Entry>, tags: seq<int>, i: nat, d: int, q: nat): int
    requires LinksAreInside(list) && q < |list| && i <= |tags|
    decreases q
  {
    var p := Parent(list, q);
    if p == q then -1
    else if p >= i then p - d
    else if tags[p] >= 0 then tags[p]
    else Ancestor(list, tags, i, d, p)
  }

  /** Value of a link from position `q` to position `p`, which is -1 for top-level entries. */
  function LinkTo(p: int, q: int): int {
    if p == -1 then 0 else q - p
  }

  /** Later tags do not affect processed entries. */
  lemma AncestorBelow(list: seq<Entry>, tags: seq<int>, tags': seq<int>, i: nat, i': nat, d: int, d': int, q: nat)
    requires LinksAreInside(list) && q <= i <= i' && q < |list| && i <= |tags| && i' <= |tags'|
    requires forall k | 0 <= k < i :: tags[k] == tags'[k]
    ensures Ancestor(list, tags, i, d, q) == Ancestor(list, tags', i', d', q)
    decreases q
  {
    var p := Parent(list, q);
    if p != q && tags[p] < 0 {
      AncestorBelow(list, tags, tags', i, i', d, d', p);
    }
  }

  /** The entry at `i` remains and becomes the entry at `i - d` of the new list. */
  lemma AncestorAfterKeep(list: seq<Entry>, tags: seq<int>, i: nat, d: int, q: nat)
    requires LinksAreInside(list) && i < q < |list| && i < |tags| && 0 <= i - d
    ensures Ancestor(list, tags[i := i - d], i + 1, d, q) == Ancestor(list, tags, i, d, q)
  {
    var p := Parent(list, q);
    if p < i && tags[p] < 0 {
      AncestorBelow(list, tags, tags[i := i - d], i, i + 1, d, d, p);
    }
  }

  /** The entry at `i` is removed: its children go to its ancestor. */
  lemma AncestorAfterDrop(list: seq<Entry>, tags: seq<int>, i: nat, d: int, q: nat)
    requires LinksAreInside(list) && i < q < |list| && i < |tags|
    ensures var p, a := Parent(list, q), Ancestor(list, tags, i, d, q);
            Ancestor(list, tags[i := -1], i + 1, d + 1, q) ==
            if p == i then Ancestor(list, tags, i, d, i)
            else if i < p < q then a - 1
            else a
  {
    var p := Parent(list, q);
    if p <= i && (p == i || tags[p] < 0) {
      AncestorBelow(list, tags, tags[i := -1], i, i + 1, d, d + 1, p);
    }
  }

  /** An entry of the list that is being grown has only `n` entries after it. */
  function Cut(e: Entry, n: int): Entry {
    e.(childCount := Min(e.childCount, n))
  }

  /** The unprocessed entry at `q` as it is after the removals so far. */
  ghost predicate PendingAt(list: seq<Entry>, tags: seq<int>, i: nat, d: nat, s: seq<Entry>, q: nat)
    requires LinksAreInside(list) && i <= |tags| && d <= i <= q < |list| && |s| == |list| - d
  {
    && s[q - d].file == list[q].file
    && s[q - d].childPos == LinkTo(Ancestor(list, tags, i, d, q), q - d)
  }

  /** The new list `out` is the start of `s`, which is the old list without `d` entries that have
      been removed from its first `i` entries. */
  ghost predicate Grown(list: seq<Entry>, tags: seq<int>, i: nat, d: nat, out: seq<Entry>, s: seq<Entry>) {
    && LinksAreInside(list) && |tags| == |list|
    && d <= i <= |list| && |out| == i - d && |s| == |list| - d
    && (forall t | 0 <= t < |out| :: out[t] == Cut(s[t], |out| - 1 - t))
    && (forall q: nat | i <= q < |list| :: PendingAt(list, tags, i, d, s, q))
    && (forall k | 0 <= k < i :: -1 <= tags[k] < |out|)
  }

  lemma AncestorRange(list: seq<Entry>, tags: seq<int>, i: nat, d: nat, q: nat)
    requires LinksAreInside(list) && d <= i <= q < |list| && i <= |tags|
    requires forall k | 0 <= k < i :: -1 <= tags[k] < i - d
    ensures var p, a := Parent(list, q), Ancestor(list, tags, i, d, q);
            if p == q then a == -1 else if p >= i then a == p - d else -1 <= a < i - d
  {
    var p := Parent(list, q);
    if p < i && tags[p] < 0 {
      AncestorOfTagged(list, tags, i, d, p);
    }
  }

  lemma AncestorOfTagged(list: seq<Entry>, tags: seq<int>, i: nat, d: nat, q: nat)
    requires LinksAreInside(list) && d <= i && q < i <= |list| && i <= |tags|
    requires forall k | 0 <= k < i :: -1 <= tags[k] < i - d
    ensures -1 <= Ancestor(list, tags, i, d, q) < i - d
  {
    if Parent(list, q) != q {
      AncestorOfTagged(list, tags, i, d, Parent(list, q));
    }
  }

  lemma PendingAfterDrop(list: seq<Entry>, tags: seq<int>, i: nat, d: nat, f: Forest, q: nat)
    requires LinksAreInside(list) && |tags| == |list| && d <= i < q < |list| && Size(f) == |list| - d
    requires PendingAt(list, tags, i, d, Flatten(f, 0), q) && PendingAt(list, tags, i, d, Flatten(f, 0), i)
    requires forall k | 0 <= k < i :: -1 <= tags[k] < i - d
    ensures Size(Replace(f, i - d, KidsAt(f, i - d))) == Size(f) - 1
    ensures PendingAt(list, tags[i := -1], i + 1, d + 1, Flatten(Replace(f, i - d, KidsAt(f, i - d)), 0), q)
  {
    hide Flatten, Size, Replace, KidsAt, Ancestor, Nested;
    var j := i - d;
    var s, m := Flatten(f, 0), End(Flatten(f, 0), j);
    AncestorRange(list, tags, i, d, q);
    AncestorRange(list, tags, i, d, i);
    AncestorAfterDrop(list, tags, i, d, q);
    EndAt(f, j);
    FlattenIsNested(f);
    Linked(s, q - d);
    ReplacedEntry(f, j, KidsAt(f, j), q - d - 1);
    if q - d < m {
      Inside(s, j, q - d);
      KidsReattached(f, j, q - d - j - 1);
    }
  }

  /** Removal of the entry at `i` changes nothing in the new list. */
  lemma GrownAfterDrop(list: seq<Entry>, tags: seq<int>, i: nat, d: nat, out: seq<Entry>, f: Forest)
    requires i < |list| && Grown(list, tags, i, d, out, Flatten(f, 0))
    ensures i - d < Size(f)
    ensures Grown(list, tags[i := -1], i + 1, d + 1, out, Flatten(Replace(f, i - d, KidsAt(f, i - d)), 0))
  {
    hide Flatten, Size, Replace, KidsAt, Ancestor, PendingAt;
    var j, tags', i', d' := i - d, tags[i := -1], i + 1, d + 1;
    var s, g := Flatten(f, 0), KidsAt(f, j);
    var s', m := Flatten(Replace(f, j, g), 0), End(s, j);
    EndAt(f, j);
    ReplacedList(f, j, g);
    forall t: nat | t < j ensures out[t] == Cut(s'[t], j - 1 - t) {
      assert s'[t] == Relinked(s, j, m, -1, t);
    }
    forall q: nat | i' <= q < |list| ensures PendingAt(list, tags', i', d', s', q) {
      PendingAfterDrop(list, tags, i, d, f, q);
    }
  }

  /** The entry at `i` becomes the last one of the new list, its remaining ancestors get one more
      descendant. */
  lemma GrownAfterKeep(list: seq<Entry>, tags: seq<int>, i: nat, d: nat, out: seq<Entry>, out': seq<Entry>,
                       s: seq<Entry>)
    requires i < |list| && Grown(list, tags, i, d, out, s)
    requires var j := i - d;
             && |out'| == j + 1 && out'[j] == s[j].(childCount := 0) && 0 <= s[j].childCount
             && forall t | 0 <= t < j ::
                  out'[t] == out[t].(childCount := out[t].childCount + if IsAncestor(s, t, j) then 1 else 0)
    ensures Grown(list, tags[i := i - d], i + 1, d, out', s)
  {
    hide Ancestor;
    var tags', i' := tags[i := i - d], i + 1;
    forall q: nat | i' <= q < |list| ensures PendingAt(list, tags', i', d, s, q) {
      assert PendingAt(list, tags, i, d, s, q);
      AncestorAfterKeep(list, tags, i, d, q);
    }
  }

  /** Entries of `out` after ancestors of its last entry from position `v` on are told about that
      entry. */
  ghost predicate Counted(out: seq<Entry>, r: seq<Entry>, s: seq<Entry>, v: nat) {
    && 0 < |out| == |r| <= |s|
    && r[|r| - 1] == s[|r| - 1].(childCount := 0)
    && forall t | 0 <= t < |r| - 1 ::
         r[t] == out[t].(childCount := out[t].childCount + if v <= t && IsAncestor(s, t, |r| - 1) then 1 else 0)
  }

  /** The inner loop of reparent_tree_node(): the last entry of the new list, which is attached to
      its parent, is counted by all of its ancestors. */
  method CountDescendant(out: seq<Entry>, ghost s: seq<Entry>) returns (r: seq<Entry>)
    requires Nested(s) && 0 < |out| <= |s|
    requires forall t | 0 <= t < |out| :: out[t].childPos == s[t].childPos
    requires out[|out| - 1] == s[|out| - 1].(childCount := 0) && s[|out| - 1].childPos != 0
    ensures Counted(out, r, s, 0)
  {
    hide Nested;
    r := out;
    ghost var j: nat := |out| - 1;
    ghost var v: nat := j;
    Linked(s, j);
    var child, parent := -1, |out| - 1 - out[|out| - 1].childPos;
    while parent != child
      invariant 0 <= parent <= v <= j && IsAround(s, v, j) && parent == Parent(s, v)
      invariant parent == child <==> s[v].childPos == 0
      invariant Counted(out, r, s, v)
      decreases v, parent
    {
      StepUp(s, j, v);
      Linked(s, parent);
      r := r[parent := r[parent].(childCount := r[parent].childCount + 1)];
      v := parent;
      child := parent;
      parent := parent - r[parent].childPos;
    }
    forall t: nat | t < v ensures !IsAncestor(s, t, j) { AtTop(s, j, v, t); }
  }

  /** reparent_tree_node(): attaches the last entry of the new list, which is a copy of the entry at
      `i`, to the closest ancestor of the latter that remains. */
  method ReparentTreeNode(list: seq<Entry>, tags: seq<int>, i: nat, out: seq<Entry>,
                          ghost s: seq<Entry>, ghost d: nat)
    returns (r: seq<Entry>)
    requires LinksAreInside(list) && i < |list| == |tags| && d <= i && tags[i] == i - d
    requires Nested(s) && |out| == i - d + 1 <= |s| == |list| - d
    requires PendingAt(list, tags, i, d, s, i)
    requires forall k | 0 <= k < i :: -1 <= tags[k] < i - d
    requires forall t | 0 <= t < i - d :: out[t].childPos == s[t].childPos
    requires out[i - d].file == list[i].file
    ensures Counted(out, r, s, 0)
  {
    hide Nested, Ancestor;
    ghost var j: nat := i - d;
    Linked(s, j);
    r := out[|out| - 1 := out[|out| - 1].(childPos := 0, childCount := 0)];
    var child := i;
    var parent := child - list[child].childPos;
    while parent != child
      invariant 0 <= parent <= child <= i && parent == Parent(list, child)
      invariant Ancestor(list, tags, i, d, i) == Ancestor(list, tags, i, d, child)
      decreases child, parent
    {
      AncestorStep(list, tags, i, d, child);
      if tags[parent] >= 0 {
        r := r[|r| - 1 := r[|r| - 1].(childPos := tags[i] - tags[parent])];
        r := CountDescendant(r, s);
        return;
      }
      child := parent;
      parent := parent - list[parent].childPos;
    }
    AncestorStep(list, tags, i, d, child);
    forall t: nat | t < j ensures !IsAncestor(s, t, j) { AtTop(s, j, j, t); }
  }

  lemma AncestorStep(list: seq<Entry>, tags: seq<int>, i: nat, d: nat, q: nat)
    requires LinksAreInside(list) && q <= i < |list| == |tags|
    ensures var p, a := Parent(list, q), Ancestor(list, tags, i, d, q);
            a == if p == q then -1 else if tags[p] >= 0 then tags[p] else Ancestor(list, tags, i, d, p)
  {
  }

  lemma StartGrowing(list: seq<Entry>, tags: seq<int>, f: Forest)
    requires list == Flatten(f, 0) && |tags| == |list|
    ensures Grown(list, tags, 0, 0, [], list)
  {
    hide Flatten;
    forall q: nat | q < |list| ensures 0 <= list[q].childPos <= q { LinkKind(f, 0, q); }
    forall q: nat | q < |list| ensures PendingAt(list, tags, 0, 0, list, q) {
      assert Ancestor(list, tags, 0, 0, q) == if list[q].childPos == 0 then -1 else Parent(list, q);
    }
  }

  lemma FinishGrowing(list: seq<Entry>, tags: seq<int>, d: nat, out: seq<Entry>, f: Forest)
    requires Grown(list, tags, |list|, d, out, Flatten(f, 0))
    ensures out == Flatten(f, 0)
  {
    hide Flatten;
    forall t: nat | t < |out| ensures out[t] == Flatten(f, 0)[t] { LinkKind(f, 0, t); }
  }

  /** A copy of the entry at `i` is put at the end of the new list. */
  method AddCopy(list: seq<Entry>, tags: seq<int>, i: nat, out: seq<Entry>, ghost d: nat, ghost f: Forest)
    returns (tags': seq<int>, out': seq<Entry>)
    requires i < |list| && Grown(list, tags, i, d, out, Flatten(f, 0))
    ensures |tags'| == |list| && tags' == tags[i := i - d]
    ensures Grown(list, tags', i + 1, d, out', Flatten(f, 0))
  {
    hide Flatten, Nested;
    ghost var s := Flatten(f, 0);
    FlattenIsNested(f);
    LinkKind(f, 0, i - d);
    out' := out + [list[i]];
    tags' := tags[i := |out'| - 1];
    AncestorBelow(list, tags, tags', i, i, d, d, i);
    assert PendingAt(list, tags, i, d, s, i);
    ghost var r := out';
    out' := ReparentTreeNode(list, tags', i, out', s, d);
    GrownAfterKeep(list, tags, i, d, out, out', s);
  }

  /** The tag of an unprocessed entry is of no interest. */
  lemma GrownAfterUntag(list: seq<Entry>, tags: seq<int>, i: nat, d: nat, out: seq<Entry>, s: seq<Entry>)
    requires i < |list| && Grown(list, tags, i, d, out, s)
    ensures Grown(list, tags[i := -1], i, d, out, s)
  {
    hide Ancestor;
    var tags' := tags[i := -1];
    forall q: nat | i <= q < |list| ensures PendingAt(list, tags', i, d, s, q) {
      assert PendingAt(list, tags, i, d, s, q);
      AncestorUntag(list, tags, i, d, q);
    }
  }

  lemma AncestorUntag(list: seq<Entry>, tags: seq<int>, i: nat, d: nat, q: nat)
    requires LinksAreInside(list) && i <= q < |list| == |tags|
    ensures Ancestor(list, tags[i := -1], i, d, q) == Ancestor(list, tags, i, d, q)
  {
    var p := Parent(list, q);
    if p != q && p < i {
      AncestorBelow(list, tags, tags[i := -1], i, i, d, d, p);
    }
  }

  lemma GrownBounds(list: seq<Entry>, tags: seq<int>, i: nat, d: nat, out: seq<Entry>, f: Forest)
    requires Grown(list, tags, i, d, out, Flatten(f, 0))
    ensures |tags| == |list| && d <= i <= |list| && |out| == i - d && Size(f) == |list| - d
    ensures i < |list| ==> i - d < Size(f) && FileAt(f, i - d) == list[i].file
  {
    hide Flatten, FileAt;
    if i < |list| {
      assert PendingAt(list, tags, i, d, Flatten(f, 0), i);
      FlattenFileAt(f, 0, i - d);
    }
  }

  const NOT_TEMPORARY: File -> bool := (file: File) => !file.temporary

  /** The loop of filters_drop_temporaries(). */
  method CopyPermanent(list: seq<Entry>, ghost forest: Forest) returns (entries: seq<Entry>)
    requires list == Flatten(forest, 0)
    ensures entries == Flatten(Splice(forest, NOT_TEMPORARY), 0)
  {
    hide Flatten, Nested, Grown, Replace, KidsAt, SpliceFrom, Splice, Size, FileAt;
    ghost var f, keep, d: nat := forest, NOT_TEMPORARY, 0;
    var tags := seq(|list|, _ => -1);
    entries := [];
    StartGrowing(list, tags, f);
    SpliceFromStart(f, 0, keep);
    for i := 0 to |list|
      invariant d <= i && Grown(list, tags, i, d, entries, Flatten(f, 0))
      invariant SpliceFrom(f, i - d, keep) == Splice(forest, keep)
    {
      GrownBounds(list, tags, i, d, entries, f);
      GrownAfterUntag(list, tags, i, d, entries, Flatten(f, 0));
      tags := tags[i := -1];
      if list[i].file.temporary {
        SpliceReject(f, i - d, keep);
        GrownAfterDrop(list, tags, i, d, entries, f);
        assert tags[i := -1] == tags;
        f, d := Replace(f, i - d, KidsAt(f, i - d)), d + 1;
      } else {
        SpliceKeep(f, i - d, keep);
        tags, entries := AddCopy(list, tags, i, entries, d, f);
      }
    }
    GrownBounds(list, tags, |list|, d, entries, f);
    SpliceFromEnd(f, |list| - d, keep);
    FinishGrowing(list, tags, d, entries, f);
  }

  /** filters_drop_temporaries(): takes temporary entries out of a tree. */
  method DropTemporaries(list: FileList)
    requires list.Valid()
    modifies list
    ensures list.Valid() && fresh(list.entries)
    ensures list.Contents() == Splice(old(list.Contents()), NOT_TEMPORARY)
  {
    hide Flatten, Splice, Size;
    ghost var left := Splice(list.Contents(), NOT_TEMPORARY);
    var entries := CopyPermanent(list.entries[..list.count], list.Contents());
    list.entries := new Entry[|entries|](k requires 0 <= k < |entries| => entries[k]);
    list.count := |entries|;
    assert list.entries[..list.count] == entries;
    FlattenIsValid(left, 0);
  }

  // ---- local filter ----

  /** The part of a local filter that matters for a list: whether it is empty and what it matches,
      and whether ".." is shown at the top level. */
  datatype LocalFilter = LocalFilter(isEmpty: bool, matches: File -> bool, parentVisible: bool)
  {
    /** What stays, `top` tells ".." of the whole list from those of empty directories. */
    ghost function Keep(top: File -> bool): File -> bool {
      (file: File) => if file.name != ".." then matches(file)
                      else if top(file) then parentVisible
                      else isEmpty && matches(file)
    }
  }

  /** A filter that was cleared matches everything. */
  ghost predicate IsCleared(c: LocalFilter) {
    c.isEmpty && forall file :: c.matches(file)
  }

  function WithoutTop(top: File -> bool): File -> bool {
    (file: File) => !(file.name == ".." && top(file))
  }

  /** Without a local filter everything is back, including ".." entries of empty directories. */
  lemma {:induction false} ClearedKeepsAll(f: Forest, c: LocalFilter, top: File -> bool)
    requires IsCleared(c)
    ensures c.parentVisible ==> Splice(f, c.Keep(top)) == f
    ensures !c.parentVisible ==> Splice(f, c.Keep(top)) == Splice(f, WithoutTop(top))
  {
    if f.Cons? {
      ClearedKeepsAll(f.kids, c, top);
      ClearedKeepsAll(f.rest, c, top);
    }
  }

  /** The only ".." entries are those of the whole list. */
  predicate HasOnlyTop(f: Forest, top: File -> bool) {
    f.Cons? ==> (f.root.name == ".." ==> top(f.root)) && HasOnlyTop(f.kids, top) && HasOnlyTop(f.rest, top)
  }

  lemma {:induction false} OnlyTopAppend(f: Forest, g: Forest, top: File -> bool)
    requires HasOnlyTop(f, top) && HasOnlyTop(g, top)
    ensures HasOnlyTop(Append(f, g), top)
  {
    if f.Cons? {
      OnlyTopAppend(f.rest, g, top);
    }
  }

  /** Under a local filter ".." entries of directories aren't displayed. */
  lemma {:induction false} FilteredHasOnlyTop(f: Forest, c: LocalFilter, top: File -> bool)
    requires !c.isEmpty
    ensures HasOnlyTop(Splice(f, c.Keep(top)), top)
  {
    if f.Cons? {
      FilteredHasOnlyTop(f.kids, c, top);
      FilteredHasOnlyTop(f.rest, c, top);
      OnlyTopAppend(Splice(f.kids, c.Keep(top)), Splice(f.rest, c.Keep(top)), top);
    }
  }

  /** ".." entries have nothing inside of them, those of them that have no parent are `top`. */
  ghost predicate HasParentDirs(list: seq<Entry>, top: File -> bool) {
    forall q | 0 <= q < |list| && list[q].file.name == ".." ::
      && (top(list[q].file) <==> list[q].childPos == 0)
      && (list[q].childPos == 0 ==> list[q].childCount == 0)
  }

  /** An entry at the top level without descendants is copied as is. */
  lemma GrownAfterParentDir(list: seq<Entry>, tags: seq<int>, i: nat, d: nat, out: seq<Entry>, f: Forest)
    requires i < |list| && Nested(list) && Grown(list, tags, i, d, out, Flatten(f, 0))
    requires list[i].childPos == 0 && list[i].childCount == 0 && tags[i] == -1
    ensures Grown(list, tags, i + 1, d, out + [list[i]], Flatten(f, 0))
  {
    hide Flatten, Ancestor, Nested;
    var s, j, out', i' := Flatten(f, 0), i - d, out + [list[i]], i + 1;
    FlattenIsNested(f);
    LinkKind(f, 0, j);
    assert PendingAt(list, tags, i, d, s, i);
    AncestorRange(list, tags, i, d, i);
    forall t: nat | t < |out'| ensures out'[t] == Cut(s[t], |out'| - 1 - t) {
      AtTop(s, j, j, t);
    }
    forall q: nat | i' <= q < |list| ensures PendingAt(list, tags, i', d, s, q) {
      assert PendingAt(list, tags, i, d, s, q);
      Linked(list, q);
      AncestorSkips(list, tags, i, d, q);
    }
  }

  lemma AncestorSkips(list: seq<Entry>, tags: seq<int>, i: nat, d: nat, q: nat)
    requires LinksAreInside(list) && i < q < |list| == |tags| && Parent(list, q) != i
    ensures Ancestor(list, tags, i + 1, d, q) == Ancestor(list, tags, i, d, q)
  {
    var p := Parent(list, q);
    if p != q && p < i {
      AncestorBelow(list, tags, tags, i, i + 1, d, d, p);
    }
  }

  /** The loop of update_filtering_lists() when it adds entries. */
  method CopyMatching(list: seq<Entry>, c: LocalFilter, ghost top: File -> bool, ghost forest: Forest)
    returns (entries: seq<Entry>, parent: int)
    requires list == Flatten(forest, 0) && HasParentDirs(list, top)
    ensures entries == Flatten(Splice(forest, c.Keep(top)), 0)
    ensures -1 <= parent < |list| && (parent >= 0 ==> list[parent].file.name == ".." && list[parent].childPos == 0)
    ensures forall q | parent < q < |list| :: list[q].file.name == ".." ==> list[q].childPos != 0
  {
    hide Flatten, Nested, Grown, Replace, KidsAt, SpliceFrom, Splice, Size, FileAt;
    ghost var f, keep, d: nat := forest, c.Keep(top), 0;
    var tags := seq(|list|, _ => -1);
    entries, parent := [], -1;
    StartGrowing(list, tags, f);
    FlattenIsNested(f);
    SpliceFromStart(f, 0, keep);
    for i := 0 to |list|
      invariant d <= i && Grown(list, tags, i, d, entries, Flatten(f, 0))
      invariant |tags| == |list| && forall k | i <= k < |list| :: tags[k] == -1
      invariant SpliceFrom(f, i - d, keep) == Splice(forest, keep)
      invariant -1 <= parent < i && (parent >= 0 ==> list[parent].file.name == ".." && list[parent].childPos == 0)
      invariant forall q | parent < q < i :: list[q].file.name == ".." ==> list[q].childPos != 0
    {
      GrownBounds(list, tags, i, d, entries, f);
      if list[i].file.name == ".." && list[i].childPos == 0 {
        parent := i;
        if c.parentVisible {
          SpliceKeep(f, i - d, keep);
          GrownAfterParentDir(list, tags, i, d, entries, f);
          entries := entries + [list[i]];
          continue;
        }
      } else if !(list[i].file.name == ".." && !c.isEmpty) && c.matches(list[i].file) {
        SpliceKeep(f, i - d, keep);
        tags, entries := AddCopy(list, tags, i, entries, d, f);
        continue;
      }
      SpliceReject(f, i - d, keep);
      GrownAfterDrop(list, tags, i, d, entries, f);
      assert tags[i := -1] == tags;
      f, d := Replace(f, i - d, KidsAt(f, i - d)), d + 1;
    }
    GrownBounds(list, tags, |list|, d, entries, f);
    SpliceFromEnd(f, |list| - d, keep);
    FinishGrowing(list, tags, d, entries, f);
  }

  /** There is ".." of the whole list. */
  ghost predicate HasTop(list: seq<Entry>, top: File -> bool) {
    exists q :: 0 <= q < |list| && list[q].file.name == ".." && top(list[q].file)
  }

  /** update_filtering_lists() with addition of entries: fills the list of a view with entries of
      the unfiltered list that match the local filter.  `others` is how many files other filters hide
      and `dotsMatch` tells whether "../" matches the filter.  Returns number of files that are hidden,
      whether no files are shown and what the unfiltered list becomes. */
  method UpdateFilteringLists(list: FileList, unfiltered: seq<Entry>, c: LocalFilter, parentDir: File,
                              others: int, dotsMatch: bool, ghost top: File -> bool)
    returns (filtered: int, allHidden: bool, now: seq<Entry>)
    requires Forests.Valid(unfiltered, 0) && HasParentDirs(unfiltered, top)
    modifies list
    ensures list.Valid() && fresh(list.entries)
    ensures var left := Splice(Unflatten(unfiltered, 0), c.Keep(top));
            && (left.Cons? ==> list.Contents() == left)
            && (left.Empty? && HasTop(unfiltered, top) ==>
                  exists q :: 0 <= q < |unfiltered| && list.Contents() == Tree(unfiltered[q].file, Empty)
                              && unfiltered[q].file.name == ".." && top(unfiltered[q].file))
            && (left.Empty? && !HasTop(unfiltered, top) ==> list.Contents() == Tree(parentDir, Empty))
            && now == (if left.Empty? && !HasTop(unfiltered, top) then unfiltered + [Entry(parentDir, 0, 0)]
                       else unfiltered)
            && filtered == others + |unfiltered| - Size(left)
            && (allHidden <==>
                left.Empty? || (Size(left) == 1 && c.parentVisible && HasTop(unfiltered, top) && !dotsMatch))
    ensures IsCleared(c) && c.parentVisible && unfiltered != [] ==>
              list.Contents() == Unflatten(unfiltered, 0) && filtered == others && now == unfiltered
    ensures !c.isEmpty && Splice(Unflatten(unfiltered, 0), c.Keep(top)).Cons? ==> HasOnlyTop(list.Contents(), top)
  {
    hide Flatten, Splice, Size, Forests.Valid, Unflatten, IsCleared, HasOnlyTop;
    ghost var forest := Unflatten(unfiltered, 0);
    ghost var left := Splice(forest, c.Keep(top));
    var entries, parent := CopyMatching(unfiltered, c, top, forest);
    assert parent >= 0 <==> HasTop(unfiltered, top);
    if IsCleared(c) {
      ClearedKeepsAll(forest, c, top);
    }
    if !c.isEmpty {
      FilteredHasOnlyTop(forest, c, top);
    }
    filtered := others + |unfiltered| - |entries|;
    allHidden := |entries| == 0 || (|entries| == 1 && c.parentVisible && parent >= 0 && !dotsMatch);
    SizeCons(left);
    now := unfiltered;
    if |entries| == 0 {
      // ensure_filtered_list_not_empty()
      entries := [if parent >= 0 then unfiltered[parent] else Entry(parentDir, 0, 0)];
      if parent < 0 {
        now := now + entries;
      }
      left := Tree(entries[0].file, Empty);
      FlattenCons(left, 0);
      FlattenCons(Empty, 1);
      FlattenCons(Empty, 0);
    }
    list.entries := new Entry[|entries|](k requires 0 <= k < |entries| => entries[k]);
    list.count := |entries|;
    assert list.entries[..list.count] == entries == Flatten(left, 0);
    FlattenIsValid(left, 0);
  }
}
