/** Folding of directories: remove_child_entries() and re_apply_folds(). */
module Folding {
  import opened Forests
  import opened Edits
  import opened Lineages
  import opened Links
  import opened Pruning
  import opened Zapping

  /** An entry of this kind shows nothing of its contents; `closed` is the stored state of folds. */
  predicate IsFolded(file: File, closed: File -> bool) {
    file.isDir && (file.folded || closed(file))
  }

  function Folded(file: File): File {
    file.(folded := true)
  }

  /** The forest without contents of folded directories. */
  function FoldAll(f: Forest, closed: File -> bool): Forest {
    match f
    case Empty => Empty
    case Cons(root, kids, rest) =>
      if IsFolded(root, closed) then
        Cons(Folded(root), Empty, FoldAll(rest, closed))
      else
        Cons(root, FoldAll(kids, closed), FoldAll(rest, closed))
  }

  /** The same for positions from `n` on. */
  function FoldFrom(f: Forest, n: int, closed: File -> bool): Forest {
    match f
    case Empty => Empty
    case Cons(root, kids, rest) =>
      var rest' := FoldFrom(rest, n - 1 - Size(kids), closed);
      if n <= 0 && IsFolded(root, closed) then
        Cons(Folded(root), Empty, rest')
      else
        Cons(root, FoldFrom(kids, n - 1, closed), rest')
  }

  lemma FoldFromStart(f: Forest, n: int, closed: File -> bool)
    requires n <= 0
    ensures FoldFrom(f, n, closed) == FoldAll(f, closed)
  {
  }

  lemma FoldFromEnd(f: Forest, n: int, closed: File -> bool)
    requires Size(f) <= n
    ensures FoldFrom(f, n, closed) == f
  {
  }

  lemma FoldFromSame(f: Forest, n: int, n': int, closed: File -> bool)
    requires (n <= 0 && n' <= 0) || (Size(f) <= n && Size(f) <= n')
    ensures FoldFrom(f, n, closed) == FoldFrom(f, n', closed)
  {
    if n <= 0 && n' <= 0 {
      FoldFromStart(f, n, closed);
      FoldFromStart(f, n', closed);
    } else {
      FoldFromEnd(f, n, closed);
      FoldFromEnd(f, n', closed);
    }
  }

  lemma {:induction false} FoldSkip(f: Forest, n: nat, closed: File -> bool)
    requires n < Size(f) && !IsFolded(FileAt(f, n), closed)
    ensures FoldFrom(f, n, closed) == FoldFrom(f, n + 1, closed)
  {
    var k := Size(f.kids);
    if n == 0 {
      FoldFromSame(f.kids, n - 1, n, closed);
    } else if n <= k {
      FoldSkip(f.kids, n - 1, closed);
    } else {
      FoldFromSame(f.kids, n - 1, n, closed);
      FoldSkip(f.rest, n - 1 - k, closed);
    }
    if n <= k {
      FoldFromSame(f.rest, n - 1 - k, n - k, closed);
    }
  }

  lemma {:induction false} FoldStep(f: Forest, n: nat, closed: File -> bool)
    requires n < Size(f) && IsFolded(FileAt(f, n), closed)
    ensures FoldFrom(f, n, closed) ==
            FoldFrom(Replace(f, n, Tree(Folded(FileAt(f, n)), Empty)), n + 1, closed)
  {
    hide Size, Replace, KidsAt;
    SizeCons(f);
    var k, g := Size(f.kids), Tree(Folded(FileAt(f, n)), Empty);
    SizeCons(g);
    SizeCons(Empty);
    if n == 0 {
      FoldFirst(f, closed);
    } else {
      ReplaceStep(f, n, g);
      if n <= k {
        FoldStep(f.kids, n - 1, closed);
        FoldFromSame(f.rest, n - 1 - k, n - Size(Replace(f.kids, n - 1, g)), closed);
      } else {
        FoldFromSame(f.kids, n - 1, n, closed);
        FoldStep(f.rest, n - 1 - k, closed);
      }
    }
  }

  lemma ReplaceRoot(f: Forest, g: Forest)
    requires f.Cons?
    ensures Replace(f, 0, g) == Append(g, f.rest)
  {
  }

  lemma FoldFromLeaf(root: File, rest: Forest, closed: File -> bool)
    ensures FoldFrom(Cons(root, Empty, rest), 1, closed) == Cons(root, Empty, FoldFrom(rest, 0, closed))
  {
  }

  lemma FoldFromFolded(f: Forest, closed: File -> bool)
    requires f.Cons? && IsFolded(f.root, closed)
    ensures FoldFrom(f, 0, closed) ==
            Cons(Folded(f.root), Empty, FoldFrom(f.rest, 0 - 1 - Size(f.kids), closed))
  {
  }

  lemma FoldFirst(f: Forest, closed: File -> bool)
    requires f.Cons? && IsFolded(f.root, closed)
    ensures FoldFrom(f, 0, closed) == FoldFrom(Replace(f, 0, Tree(Folded(f.root), Empty)), 1, closed)
  {
    hide Replace, Append, Size, KidsAt, FoldFrom, FileAt, FoldAll;
    SizeCons(f);
    FoldFromFolded(f, closed);
    FoldFromSame(f.rest, 0 - 1 - Size(f.kids), 0, closed);
    FoldFromLeaf(Folded(f.root), f.rest, closed);
    ReplaceRoot(f, Tree(Folded(f.root), Empty));
    AppendTree(Folded(f.root), f.rest);
  }

  lemma AppendTree(root: File, rest: Forest)
    ensures Append(Tree(root, Empty), rest) == Cons(root, Empty, rest)
  {
    assert Append(Empty, rest) == rest;
  }

  /** Folds are applied once and for all. */
  lemma {:induction false} FoldAllTwice(f: Forest, closed: File -> bool)
    ensures FoldAll(FoldAll(f, closed), closed) == FoldAll(f, closed)
  {
    if f.Cons? {
      FoldAllTwice(f.kids, closed);
      FoldAllTwice(f.rest, closed);
    }
  }

  // What folding means for each of the files.

  predicate AreOpen(dirs: seq<File>, closed: File -> bool) {
    forall i :: 0 <= i < |dirs| ==> !(dirs[i].isDir && (dirs[i].folded || closed(dirs[i])))
  }

  /** Files remain if and only if they aren't in something folded, directories that have to be folded get marked. */
  function UnfoldedLines(lines: seq<Line>, closed: File -> bool): seq<Line> {
    if lines == [] then []
    else
      var dirs, file := lines[0][..|lines[0]| - 1], lines[0][|lines[0]| - 1];
      (if AreOpen(dirs, closed) then [dirs + [file.(folded := file.folded || (file.isDir && closed(file)))]] else [])
      + UnfoldedLines(lines[1..], closed)
  }

  lemma {:induction false} UnfoldedAppend(a: seq<Line>, b: seq<Line>, closed: File -> bool)
    ensures UnfoldedLines(a + b, closed) == UnfoldedLines(a, closed) + UnfoldedLines(b, closed)
  {
    hide AreOpen;
    if a == [] {
      assert a + b == b;
    } else {
      assert (a + b)[1..] == a[1..] + b;
      UnfoldedAppend(a[1..], b, closed);
    }
  }

  lemma OneLineUnfolded(above: seq<File>, file: File, closed: File -> bool)
    ensures UnfoldedLines([above + [file]], closed)
            == if AreOpen(above, closed)
               then [above + [file.(folded := file.folded || (file.isDir && closed(file)))]] else []
  {
    hide AreOpen;
    var lines, none: seq<Line> := [above + [file]], [];
    assert lines[0][..|lines[0]| - 1] == above && lines[1..] == none;
    assert UnfoldedLines(none, closed) == none;
  }

  lemma UnfoldedCons(f: Forest, above: seq<File>, closed: File -> bool)
    requires f.Cons?
    ensures UnfoldedLines(Lines(f, above), closed)
            == UnfoldedLines([above + [f.root]], closed) + UnfoldedLines(Lines(f.kids, above + [f.root]), closed)
               + UnfoldedLines(Lines(f.rest, above), closed)
  {
    hide UnfoldedLines;
    var line: seq<Line>, kids := [above + [f.root]], Lines(f.kids, above + [f.root]);
    UnfoldedAppend(line, kids, closed);
    UnfoldedAppend(line + kids, Lines(f.rest, above), closed);
  }

  lemma {:induction false} NothingInside(f: Forest, above: seq<File>, closed: File -> bool)
    requires !AreOpen(above, closed)
    ensures UnfoldedLines(Lines(f, above), closed) == []
  {
    if f.Cons? {
      hide UnfoldedLines;
      var line := above + [f.root];
      assert !AreOpen(line, closed) by {
        var i :| 0 <= i < |above| && above[i].isDir && (above[i].folded || closed(above[i]));
        assert line[i] == above[i];
      }
      hide AreOpen;
      NothingInside(f.kids, line, closed);
      NothingInside(f.rest, above, closed);
      OneLineUnfolded(above, f.root, closed);
      UnfoldedCons(f, above, closed);
    }
  }

  lemma OpenNext(above: seq<File>, root: File, closed: File -> bool)
    requires AreOpen(above, closed)
    ensures AreOpen(above + [root], closed) <==> !IsFolded(root, closed)
  {
    var all := above + [root];
    assert all[|above|] == root;
  }

  /** Exactly files that aren't inside of folded directories remain, in their order and in the same directories. */
  lemma {:induction false} FoldAllLines(f: Forest, above: seq<File>, closed: File -> bool)
    requires AreOpen(above, closed)
    ensures Lines(FoldAll(f, closed), above) == UnfoldedLines(Lines(f, above), closed)
  {
    if f.Cons? {
      hide UnfoldedLines, AreOpen;
      FoldAllLines(f.rest, above, closed);
      OneLineUnfolded(above, f.root, closed);
      UnfoldedCons(f, above, closed);
      OpenNext(above, f.root, closed);
      if IsFolded(f.root, closed) {
        NothingInside(f.kids, above + [f.root], closed);
      } else {
        FoldAllLines(f.kids, above + [f.root], closed);
      }
    }
  }

  /** The array after the walk over links, then after the move of the rest of the list, then in
      the end. */
  predicate IsEmptied(walked: seq<Entry>, moved: seq<Entry>, entries: seq<Entry>, size: nat, n: nat, c: nat) {
    && n + c < size <= |walked|
    && moved == walked[..n + 1] + walked[n + 1 + c..size] + walked[size - c..]
    && entries == moved[n := moved[n].(childCount := 0)]
  }

  lemma EmptiedAt(walked: seq<Entry>, moved: seq<Entry>, entries: seq<Entry>, size: nat, n: nat, c: nat, k: nat)
    requires IsEmptied(walked, moved, entries, size, n, c) && k < size - c
    ensures |entries| == |walked|
    ensures entries[k] == if k < n then walked[k] else if k == n then walked[n].(childCount := 0) else walked[k + c]
  {
  }

  lemma EmptiedEntry(walked: seq<Entry>, moved: seq<Entry>, entries: seq<Entry>, f: Forest, n: nat, k: nat)
    requires n < Size(f) && n < End(Flatten(f, 0), n) <= Size(f)
    requires Holds(walked, Flatten(f, 0), n, 0, 0, Size(f), 0, 0 - Size(KidsAt(f, n))) && walked[n] == Flatten(f, 0)[n]
    requires IsEmptied(walked, moved, entries, Size(f), n, Size(KidsAt(f, n)))
    requires k < Size(f) - Size(KidsAt(f, n))
    ensures var f' := Replace(f, n, Tree(FileAt(f, n), Empty));
            && Size(f') == Size(f) - Size(KidsAt(f, n)) <= |entries|
            && entries[k] == Flatten(f', 0)[k]
  {
    hide Flatten, Size, Relinked, Replace, KidsAt, FileAt, Holds, IsEmptied;
    var s, g, c: int := Flatten(f, 0), Tree(FileAt(f, n), Empty), Size(KidsAt(f, n));
    EndAt(f, n);
    FlattenFileAt(f, 0, n);
    FlattenCons(g, s[n].childPos);
    FlattenCons(Empty, 1);
    FlattenCons(Empty, Further(s[n].childPos, 1));
    HoldsAround(walked, s, n, 0, -c);
    EmptiedAt(walked, moved, entries, |s|, n, c, k);
    ReplacedEntry(f, n, g, k);
  }

  lemma EmptiedList(walked: seq<Entry>, moved: seq<Entry>, entries: seq<Entry>, f: Forest, n: nat)
    requires n < Size(f) && n < End(Flatten(f, 0), n) <= Size(f)
    requires Holds(walked, Flatten(f, 0), n, 0, 0, Size(f), 0, 0 - Size(KidsAt(f, n))) && walked[n] == Flatten(f, 0)[n]
    requires IsEmptied(walked, moved, entries, Size(f), n, Size(KidsAt(f, n)))
    ensures var f' := Replace(f, n, Tree(FileAt(f, n), Empty));
            && Size(f') == Size(f) - Size(KidsAt(f, n)) <= |entries|
            && entries[..Size(f')] == Flatten(f', 0)
            && Forests.Valid(entries[..Size(f')], 0) && Unflatten(entries[..Size(f')], 0) == f'
  {
    hide Flatten, Size, Relinked, Replace, KidsAt, FileAt, Unflatten, Forests.Valid, Holds, IsEmptied;
    var f', size := Replace(f, n, Tree(FileAt(f, n), Empty)), Size(f) - Size(KidsAt(f, n));
    EndAt(f, n);
    EmptiedEntry(walked, moved, entries, f, n, 0);
    forall k: nat | k < size ensures Size(f') == size <= |entries| && entries[k] == Flatten(f', 0)[k] {
      EmptiedEntry(walked, moved, entries, f, n, k);
    }
    FlattenIsValid(f', 0);
  }

  /** memmove() of entries which end up at [lo, hi). */
  method MoveDown(entries: array<Entry>, lo: nat, hi: nat, count: nat)
    requires lo <= hi && hi + count <= entries.Length
    modifies entries
    ensures entries[..] == old(entries[..lo] + entries[lo + count..hi + count] + entries[hi..])
  {
    forall k | lo <= k < hi {
      entries[k] := entries[k + count];
    }
  }

  /** Moves the rest of the list down and notes that there is nothing inside of the entry at `pos`. */
  method MoveAndMark(entries: array<Entry>, count: nat, pos: nat, childCount: nat) returns (ghost moved: seq<Entry>)
    requires pos + childCount < count <= entries.Length
    modifies entries
    ensures IsEmptied(old(entries[..]), moved, entries[..], count, pos, childCount)
  {
    MoveDown(entries, pos + 1, count - childCount, childCount);
    moved := entries[..];
    entries[pos] := entries[pos].(childCount := 0);
  }

  /** The part of remove_child_entries() after repair of links. */
  method CutContents(list: FileList, pos: nat, childCount: int, ghost f: Forest)
    requires pos < Size(f) == list.count <= list.entries.Length
    requires pos < End(Flatten(f, 0), pos) <= Size(f) && childCount == Size(KidsAt(f, pos))
    requires Holds(list.entries[..], Flatten(f, 0), pos, 0, 0, Size(f), 0, -childCount)
    requires list.entries[pos] == Flatten(f, 0)[pos]
    modifies list, list.entries
    ensures list.Valid() && list.entries == old(list.entries) && pos < list.count <= old(list.count)
    ensures list.Contents() == Replace(f, pos, Tree(FileAt(f, pos), Empty))
  {
    hide Flatten, Size, Relinked, Replace, KidsAt, FileAt, Nested, Unflatten, Forests.Valid, Tiled, Holds, End,
      IsEmptied;
    EndAt(f, pos);
    ghost var walked := list.entries[..];
    ghost var moved := MoveAndMark(list.entries, list.count, pos, childCount);
    list.count := list.count - childCount;
    EmptiedList(walked, moved, list.entries[..], f, pos);
  }

  /** remove_child_entries(): removes contents of the entry at `pos`. */
  method RemoveChildEntries(list: FileList, pos: nat)
    requires list.Valid() && pos < list.count
    modifies list, list.entries
    ensures list.Valid() && list.entries == old(list.entries) && pos < list.count <= old(list.count)
    ensures list.Contents() ==
            Replace(old(list.Contents()), pos, Tree(FileAt(old(list.Contents()), pos), Empty))
  {
    hide Flatten, Size, Relinked, Replace, KidsAt, FileAt, Nested, Unflatten, Forests.Valid, Tiled, Holds;
    ghost var f, s := list.Contents(), Flatten(list.Contents(), 0);
    FlattenIsNested(f);
    EndAt(f, pos);
    var childCount := list.entries[pos].childCount;
    assert list.entries[pos] == s[pos];
    HoldsFromStart(list.entries[..], s, pos);
    FixTreeLinks(list.entries, pos, pos, 0, -childCount, s, 0);
    CutContents(list, pos, childCount, f);
  }

  lemma HoldsFromStart(entries: seq<Entry>, s: seq<Entry>, n: nat)
    requires n < |s| <= |entries| && entries[..|s|] == s && n < End(s, n) <= |s|
    ensures Holds(entries, s, n, 0, n, End(s, n), 0, 0)
    ensures Tiled(entries, End(s, n), End(s, n))
  {
    assert forall k | 0 <= k < |s| :: entries[k] == s[k];
  }

  /** The entry that has lost its contents is marked. */
  lemma MarkFolded(f: Forest, n: nat, x: File, y: File)
    requires n < Size(f)
    ensures var s, s' := Flatten(Replace(f, n, Tree(x, Empty)), 0), Flatten(Replace(f, n, Tree(y, Empty)), 0);
            n < |s| && s[n].file == x && s' == s[n := s[n].(file := y)]
  {
    hide Flatten, Size, Relinked, Replace, KidsAt;
    EndAt(f, n);
    var up := Flatten(f, 0)[n].childPos;
    FlattenCons(Tree(x, Empty), up);
    FlattenCons(Tree(y, Empty), up);
    FlattenCons(Empty, 1);
    FlattenCons(Empty, Further(up, 1));
    ReplacedList(f, n, Tree(x, Empty));
    ReplacedList(f, n, Tree(y, Empty));
  }

  /** re_apply_folds(): removes contents of directories which are or have to be folded. */
  method ReApplyFolds(list: FileList, closed: File -> bool)
    requires list.Valid()
    modifies list, list.entries
    ensures list.Valid() && list.entries == old(list.entries)
    ensures list.Contents() == FoldAll(old(list.Contents()), closed)
    ensures Lines(list.Contents(), []) == UnfoldedLines(Lines(old(list.Contents()), []), closed)
  {
    hide Flatten, Size, Relinked, Replace, KidsAt, FileAt, FoldFrom, Unflatten, Forests.Valid, Lines,
      UnfoldedLines, FoldAll;
    ghost var goal := FoldAll(list.Contents(), closed);
    FoldAllLines(list.Contents(), [], closed);
    FoldFromStart(list.Contents(), 0, closed);
    var i := 0;
    while i < list.count
      invariant i <= list.count && list.Valid() && list.entries == old(list.entries)
      invariant FoldFrom(list.Contents(), i, closed) == goal
      decreases list.count - i
    {
      ghost var f := list.Contents();
      var entry := list.entries[i];
      FlattenFileAt(f, 0, i);
      if entry.file.isDir && entry.file.folded {
        FoldStep(f, i, closed);
        RemoveChildEntries(list, i);
      } else if entry.file.isDir && closed(entry.file) {
        FoldStep(f, i, closed);
        RemoveChildEntries(list, i);
        MarkFolded(f, i, FileAt(f, i), Folded(FileAt(f, i)));
        FlattenIsValid(Replace(f, i, Tree(Folded(FileAt(f, i)), Empty)), 0);
        list.entries[i] := list.entries[i].(file := Folded(list.entries[i].file));
        assert list.entries[..list.count] == Flatten(Replace(f, i, Tree(Folded(FileAt(f, i)), Empty)), 0);
      } else {
        FoldSkip(f, i, closed);
      }
      i := i + 1;
    }
    FoldFromEnd(list.Contents(), i, closed);
  }
}
