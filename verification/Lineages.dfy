/** What removals of files mean for each of the files: a characterization in terms of paths through the tree. */
module Lineages {
  import opened Forests
  import opened Edits
  import opened Pruning

  type Line = l: seq<File> | l != [] witness [File("", "", false, false, false)]

  /** For each file in the order of the array: all directories it's in and the file itself. */
  function Lines(f: Forest, above: seq<File>): seq<Line> {
    match f
    case Empty => []
    case Cons(root, kids, rest) => [above + [root]] + Lines(kids, above + [root]) + Lines(rest, above)
  }

  function Kept(files: seq<File>, keep: File -> bool): seq<File> {
    if files == [] then []
    else
      var last := files[|files| - 1];
      Kept(files[..|files| - 1], keep) + if keep(last) then [last] else []
  }

  predicate KeepsAll(files: seq<File>, keep: File -> bool) {
    forall i :: 0 <= i < |files| ==> keep(files[i])
  }

  /** Files that aren't rejected lose their rejected directories. */
  function SplicedLines(lines: seq<Line>, keep: File -> bool): seq<Line> {
    if lines == [] then []
    else
      var line := lines[0];
      (if keep(line[|line| - 1]) then [Kept(line, keep)] else []) + SplicedLines(lines[1..], keep)
  }

  /** Only files that aren't rejected along with all their directories remain. */
  function PrunedLines(lines: seq<Line>, keep: File -> bool): seq<Line> {
    if lines == [] then []
    else (if KeepsAll(lines[0], keep) then [lines[0]] else []) + PrunedLines(lines[1..], keep)
  }

  lemma {:induction false} SplicedAppend(a: seq<Line>, b: seq<Line>, keep: File -> bool)
    ensures SplicedLines(a + b, keep) == SplicedLines(a, keep) + SplicedLines(b, keep)
  {
    hide Kept;
    if a == [] {
      assert a + b == b;
    } else {
      assert (a + b)[1..] == a[1..] + b;
      SplicedAppend(a[1..], b, keep);
    }
  }

  lemma {:induction false} PrunedAppend(a: seq<Line>, b: seq<Line>, keep: File -> bool)
    ensures PrunedLines(a + b, keep) == PrunedLines(a, keep) + PrunedLines(b, keep)
  {
    hide KeepsAll;
    if a == [] {
      assert a + b == b;
    } else {
      assert (a + b)[1..] == a[1..] + b;
      PrunedAppend(a[1..], b, keep);
    }
  }

  lemma OneLineSpliced(line: Line, keep: File -> bool)
    ensures SplicedLines([line], keep) == if keep(line[|line| - 1]) then [Kept(line, keep)] else []
  {
    hide Kept;
    var lines, none: seq<Line> := [line], [];
    var first := if keep(line[|line| - 1]) then [Kept(line, keep)] else none;
    assert lines[0] == line && lines[1..] == none;
    assert SplicedLines(none, keep) == none;
    assert SplicedLines(lines, keep) == first + none == first;
  }

  lemma OneLinePruned(line: Line, keep: File -> bool)
    ensures PrunedLines([line], keep) == if KeepsAll(line, keep) then [line] else []
  {
    hide KeepsAll;
    var lines, none: seq<Line> := [line], [];
    var first := if KeepsAll(line, keep) then lines else none;
    assert lines[0] == line && lines[1..] == none;
    assert PrunedLines(none, keep) == none;
    assert PrunedLines(lines, keep) == first + none == first;
  }

  lemma OneLine(line: Line, keep: File -> bool)
    ensures SplicedLines([line], keep) == if keep(line[|line| - 1]) then [Kept(line, keep)] else []
    ensures PrunedLines([line], keep) == if KeepsAll(line, keep) then [line] else []
  {
    hide SplicedLines, PrunedLines, Kept, KeepsAll;
    OneLineSpliced(line, keep);
    OneLinePruned(line, keep);
  }

  lemma {:induction false} LinesAppend(a: Forest, b: Forest, above: seq<File>)
    ensures Lines(Append(a, b), above) == Lines(a, above) + Lines(b, above)
  {
    if a.Cons? {
      LinesAppend(a.rest, b, above);
    }
  }

  lemma {:induction false} LinesContain(f: Forest, above: seq<File>, keep: File -> bool)
    requires !KeepsAll(above, keep)
    ensures PrunedLines(Lines(f, above), keep) == []
  {
    if f.Cons? {
      var line := above + [f.root];
      assert !KeepsAll(line, keep) by {
        var i :| 0 <= i < |above| && !keep(above[i]);
        assert line[i] == above[i];
      }
      LinesContain(f.kids, line, keep);
      LinesContain(f.rest, above, keep);
      PrunedAppend([line], Lines(f.kids, line), keep);
      PrunedAppend([line] + Lines(f.kids, line), Lines(f.rest, above), keep);
      OneLine(line, keep);
    }
  }

  /** In the result of Splice() files are in the same order and each of them is in its directories that stay. */
  lemma {:induction false} SpliceKeepsLines(f: Forest, above: seq<File>, keep: File -> bool)
    ensures Lines(Splice(f, keep), Kept(above, keep)) == SplicedLines(Lines(f, above), keep)
  {
    if f.Cons? {
      var line := above + [f.root];
      var kids, rest := Lines(f.kids, line), Lines(f.rest, above);
      SpliceKeepsLines(f.kids, line, keep);
      SpliceKeepsLines(f.rest, above, keep);
      SplicedAppend([line], kids, keep);
      SplicedAppend([line] + kids, rest, keep);
      OneLine(line, keep);
      assert line[..|line| - 1] == above;
      LinesAppend(Splice(f.kids, keep), Splice(f.rest, keep), Kept(above, keep));
      assert Kept(above, keep) + [] == Kept(above, keep);
    }
  }

  /** Lines that don't end in a ".." entry. */
  function WithoutLeafs(lines: seq<Line>, isLeaf: File -> bool): seq<Line> {
    if lines == [] then []
    else
      var line := lines[0];
      (if isLeaf(line[|line| - 1]) then [] else [line]) + WithoutLeafs(lines[1..], isLeaf)
  }

  lemma {:induction false} WithoutLeafsAppend(a: seq<Line>, b: seq<Line>, isLeaf: File -> bool)
    ensures WithoutLeafs(a + b, isLeaf) == WithoutLeafs(a, isLeaf) + WithoutLeafs(b, isLeaf)
  {
    if a == [] {
      assert a + b == b;
    } else {
      assert (a + b)[1..] == a[1..] + b;
      WithoutLeafsAppend(a[1..], b, isLeaf);
    }
  }

  lemma {:induction false} NoLeafs(lines: seq<Line>, isLeaf: File -> bool)
    requires forall file :: !isLeaf(file)
    ensures WithoutLeafs(lines, isLeaf) == lines
  {
    if lines != [] {
      NoLeafs(lines[1..], isLeaf);
    }
  }

  /** A ".." entry of an emptied directory is the only difference. */
  lemma LeafIsAside(c: Filter, root: File, kids: Forest, kids': Forest, above: seq<File>, isLeaf: File -> bool)
    requires c.leafs ==> forall file :: isLeaf(c.leafOf(file))
    ensures WithoutLeafs(Lines(WithLeaf(c, root, kids, kids'), above), isLeaf)
            == WithoutLeafs(Lines(kids', above), isLeaf)
  {
    if c.leafs && kids.Cons? && kids'.Empty? {
      var line: Line := above + [c.leafOf(root)];
      assert line[|line| - 1] == c.leafOf(root);
      assert Lines(Tree(c.leafOf(root), Empty), above) == [line];
    }
  }

  /** In the result of Prune() there are exactly those files that aren't in a rejected directory, and ".." entries. */
  lemma {:induction false} PruneKeepsLines(f: Forest, above: seq<File>, c: Filter, isLeaf: File -> bool)
    requires KeepsAll(above, c.keep)
    requires c.leafs ==> forall file :: isLeaf(c.leafOf(file))
    ensures WithoutLeafs(Lines(Prune(f, c), above), isLeaf)
            == WithoutLeafs(PrunedLines(Lines(f, above), c.keep), isLeaf)
  {
    hide WithoutLeafs, WithLeaf, PrunedLines;
    if f.Cons? {
      var line: seq<Line> := [above + [f.root]];
      var kids, rest := Lines(f.kids, line[0]), Lines(f.rest, above);
      PruneKeepsLines(f.rest, above, c, isLeaf);
      PrunedAppend(line, kids, c.keep);
      PrunedAppend(line + kids, rest, c.keep);
      OneLine(line[0], c.keep);
      if c.keep(f.root) {
        PruneKeepsLines(f.kids, line[0], c, isLeaf);
        RootIsKept(f.root, WithLeaf(c, f.root, f.kids, Prune(f.kids, c)), Prune(f.rest, c), above, isLeaf);
        LeafIsAside(c, f.root, f.kids, Prune(f.kids, c), line[0], isLeaf);
        WithoutLeafsAppend(line, PrunedLines(kids, c.keep), isLeaf);
        WithoutLeafsAppend(line + PrunedLines(kids, c.keep), PrunedLines(rest, c.keep), isLeaf);
      } else {
        assert !c.keep(line[0][|above|]);
        LinesContain(f.kids, line[0], c.keep);
        assert PrunedLines(Lines(f, above), c.keep) == PrunedLines(rest, c.keep) by {
          assert Lines(f, above) == line + kids + rest;
          assert [] + [] + PrunedLines(rest, c.keep) == PrunedLines(rest, c.keep);
        }
      }
    } else {
      assert PrunedLines([], c.keep) == [] by { NothingPruned(c.keep); }
    }
  }

  lemma NothingPruned(keep: File -> bool)
    ensures PrunedLines([], keep) == []
  {
  }

  lemma RootIsKept(root: File, kids: Forest, rest: Forest, above: seq<File>, isLeaf: File -> bool)
    ensures WithoutLeafs(Lines(Cons(root, kids, rest), above), isLeaf)
            == WithoutLeafs([above + [root]], isLeaf) + WithoutLeafs(Lines(kids, above + [root]), isLeaf)
               + WithoutLeafs(Lines(rest, above), isLeaf)
  {
    hide WithoutLeafs;
    var line: seq<Line> := [above + [root]];
    WithoutLeafsAppend(line, Lines(kids, line[0]), isLeaf);
    WithoutLeafsAppend(line + Lines(kids, line[0]), Lines(rest, above), isLeaf);
  }

  /** Files of one level. */
  function TopFiles(f: Forest): set<File> {
    if f.Empty? then {} else {f.root} + TopFiles(f.rest)
  }

  lemma {:induction false} PrunedIsEmpty(f: Forest, c: Filter)
    ensures Prune(f, c).Empty? <==> forall file :: file in TopFiles(f) ==> !c.keep(file)
  {
    if f.Cons? {
      PrunedIsEmpty(f.rest, c);
      assert f.root in TopFiles(f);
    }
  }

  /** A ".." entry appears in exactly those remaining directories which had something and have lost everything. */
  lemma LeafsAppear(f: Forest, c: Filter)
    requires f.Cons? && c.keep(f.root)
    ensures var emptied := TopFiles(f.kids) != {} && forall file :: file in TopFiles(f.kids) ==> !c.keep(file);
            Prune(f, c).root == f.root
            && Prune(f, c).kids == if emptied && c.leafs then Tree(c.leafOf(f.root), Empty) else Prune(f.kids, c)
  {
    PrunedIsEmpty(f.kids, c);
    assert f.kids.Cons? ==> f.kids.root in TopFiles(f.kids);
  }

  /** There is nothing else when ".." entries are disabled. */
  lemma PruneKeepsExactLines(f: Forest, above: seq<File>, c: Filter)
    requires !c.leafs && KeepsAll(above, c.keep)
    ensures Lines(Prune(f, c), above) == PrunedLines(Lines(f, above), c.keep)
  {
    hide WithoutLeafs, PrunedLines, Lines, Prune;
    var none := (file: File) => false;
    PruneKeepsLines(f, above, c, none);
    NoLeafs(Lines(Prune(f, c), above), none);
    NoLeafs(PrunedLines(Lines(f, above), c.keep), none);
  }

  lemma {:induction false} SizeOfLines(f: Forest, above: seq<File>)
    ensures |Lines(f, above)| == Size(f)
  {
    if f.Cons? {
      SizeOfLines(f.kids, above + [f.root]);
      SizeOfLines(f.rest, above);
    }
  }
}
