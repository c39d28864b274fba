/** Which of all existing files a loaded tree shows. */
module Showing {
  import opened Forests
  import opened Lineages
  import opened Loading
  import opened Pruning

  /** All files there are. */
  function Everything(l: Listing): Forest {
    match l
    case End => Empty
    case Item(file, realDir, contents, next) =>
      Cons(file, if realDir then Everything(contents) else Empty, Everything(next))
  }

  function Visible(excluded: File -> bool, visible: File -> bool): File -> bool {
    (file: File) => !excluded(file) && visible(file)
  }

  const IS_DOT := (file: File) => file.name == ".."

  /** Skipping files while loading is the same as removing them along with their contents from the whole tree. */
  lemma {:induction false} LoadedIsPruned(l: Listing, c: Config)
    requires c.localIsEmpty && !c.leafs
    ensures Loaded(l, c) == Prune(Everything(l), Filter(Visible(c.excluded, c.visible), false, c.leafOf))
  {
    if l.Item? {
      LoadedIsPruned(l.contents, c);
      LoadedIsPruned(l.next, c);
    }
  }

  lemma NoLines()
    ensures WithoutLeafs([], IS_DOT) == []
  {
  }

  lemma OneLineStays(above: seq<File>, file: File)
    requires file.name != ".."
    ensures WithoutLeafs([above + [file]], IS_DOT) == [above + [file]]
  {
    hide WithoutLeafs;
    var lines: seq<Line> := [above + [file]];
    assert lines[0][|lines[0]| - 1] == file && lines[1..] == [];
    NoLines();
    assert WithoutLeafs(lines, IS_DOT) == lines + WithoutLeafs([], IS_DOT) by { LinesNext(lines); }
  }

  lemma LinesNext(lines: seq<Line>)
    requires lines != [] && lines[0][|lines[0]| - 1].name != ".."
    ensures WithoutLeafs(lines, IS_DOT) == lines[..1] + WithoutLeafs(lines[1..], IS_DOT)
  {
  }

  lemma LeafIsDropped(c: Config, dir: File, kids: Forest, above: seq<File>)
    requires LeafsAreParentDirs(c)
    ensures WithoutLeafs(Lines(OrLeaf(c, dir, kids), above), IS_DOT) == WithoutLeafs(Lines(kids, above), IS_DOT)
  {
    if kids.Empty? && c.leafs && c.localIsEmpty {
      var line: Line := above + [c.leafOf(dir)];
      assert line[|line| - 1] == c.leafOf(dir) && IsParentDir(c.leafOf(dir));
      assert Lines(Tree(c.leafOf(dir), Empty), above) == [line];
    }
  }

  /** ".." entries of empty directories are the only difference they make. */
  lemma {:induction false} LeafsAreAside(l: Listing, c: Config, above: seq<File>)
    requires NoDots(l) && LeafsAreParentDirs(c)
    ensures WithoutLeafs(Lines(Loaded(l, c), above), IS_DOT) == Lines(Loaded(l, c.(leafs := false)), above)
  {
    hide WithoutLeafs, LeafsAreParentDirs;
    if l.Item? {
      var file, line, d := l.file, above + [l.file], c.(leafs := false);
      LeafsAreAside(l.next, c, above);
      if !c.excluded(file) && c.visible(file) {
        if c.PassesLocal(file) {
          LeafsAreAside(l.contents, c, line);
          OneLineStays(above, file);
          LeafIsDropped(c, file, Loaded(l.contents, c), line);
          NoLines();
          RootIsKept(file, if l.realDir then OrLeaf(c, file, Loaded(l.contents, c)) else Empty, Loaded(l.next, c),
                     above, IS_DOT);
        } else if l.realDir {
          LeafsAreAside(l.contents, c, above);
          LinesAppend(Loaded(l.contents, c), Loaded(l.next, c), above);
          LinesAppend(Loaded(l.contents, d), Loaded(l.next, d), above);
          WithoutLeafsAppend(Lines(Loaded(l.contents, c), above), Lines(Loaded(l.next, c), above), IS_DOT);
        }
      }
    } else {
      NoLines();
    }
  }

  predicate HaveNoDots(lines: seq<Line>) {
    forall line: Line, i :: line in lines && 0 <= i < |line| ==> line[i].name != ".."
  }

  lemma {:induction false} EverythingHasNoDots(l: Listing, above: seq<File>)
    requires NoDots(l) && forall i :: 0 <= i < |above| ==> above[i].name != ".."
    ensures HaveNoDots(Lines(Everything(l), above))
  {
    if l.Item? {
      EverythingHasNoDots(l.contents, above + [l.file]);
      EverythingHasNoDots(l.next, above);
    }
  }

  lemma {:induction false} PrunedArePart(lines: seq<Line>, keep: File -> bool)
    ensures forall line :: line in PrunedLines(lines, keep) ==> line in lines
  {
    if lines != [] {
      PrunedArePart(lines[1..], keep);
    }
  }

  lemma {:induction false} SameKept(files: seq<File>, a: File -> bool, b: File -> bool)
    requires forall i :: 0 <= i < |files| ==> a(files[i]) == b(files[i])
    ensures Kept(files, a) == Kept(files, b)
  {
    if files != [] {
      SameKept(files[..|files| - 1], a, b);
    }
  }

  lemma {:induction false} SameSpliced(lines: seq<Line>, a: File -> bool, b: File -> bool)
    requires forall line: Line, i :: line in lines && 0 <= i < |line| ==> a(line[i]) == b(line[i])
    ensures SplicedLines(lines, a) == SplicedLines(lines, b)
  {
    hide Kept;
    if lines != [] {
      assert lines[0] in lines;
      SameKept(lines[0], a, b);
      SameSpliced(lines[1..], a, b);
    }
  }

  /** With ".." entries aside, a tree shows exactly those files that are visible along with all directories they're in,
      in the order of the listing and each of them in its directories.  Under a local filter only those of files and
      directories that match it are left. */
  lemma LoadedLines(l: Listing, c: Config)
    requires NoDots(l) && LeafsAreParentDirs(c)
    ensures var visible := PrunedLines(Lines(Everything(l), []), Visible(c.excluded, c.visible));
            WithoutLeafs(Lines(Loaded(l, c), []), IS_DOT)
            == if c.localIsEmpty then visible else SplicedLines(visible, c.local)
  {
    hide Loaded, Lines, PrunedLines, SplicedLines, WithoutLeafs, Everything, Prune, Splice, NoDots;
    var base := c.(localIsEmpty := true, leafs := false);
    LeafsAreAside(l, c, []);
    LoadedIsPruned(l, base);
    PruneKeepsExactLines(Everything(l), [], Filter(Visible(c.excluded, c.visible), false, c.leafOf));
    if !c.localIsEmpty {
      var shown := c.(leafs := false);
      FilterWhileLoading(l, shown);
      assert shown.(localIsEmpty := false) == shown;
      assert Kept([], KeepLocal(shown)) == [];
      SpliceKeepsLines(Loaded(l, base), [], KeepLocal(shown));
      EverythingHasNoDots(l, []);
      PrunedArePart(Lines(Everything(l), []), Visible(c.excluded, c.visible));
      SameSpliced(PrunedLines(Lines(Everything(l), []), Visible(c.excluded, c.visible)), KeepLocal(shown), c.local);
    }
  }

  // Files that aren't shown.

  /** Number of files that are hidden by something other than the local filter, files inside of them don't count. */
  function Hidden(lines: seq<Line>, c: Config): nat {
    if lines == [] then 0
    else
      var above, file := lines[0][..|lines[0]| - 1], lines[0][|lines[0]| - 1];
      (if KeepsAll(above, Visible(c.excluded, c.visible)) && !c.excluded(file) && !c.visible(file) then 1 else 0)
      + Hidden(lines[1..], c)
  }

  lemma {:induction false} HiddenAppend(a: seq<Line>, b: seq<Line>, c: Config)
    ensures Hidden(a + b, c) == Hidden(a, c) + Hidden(b, c)
  {
    hide KeepsAll;
    if a == [] {
      assert a + b == b;
    } else {
      assert (a + b)[1..] == a[1..] + b;
      HiddenAppend(a[1..], b, c);
    }
  }

  lemma HiddenOne(above: seq<File>, file: File, c: Config)
    ensures Hidden([above + [file]], c)
            == if KeepsAll(above, Visible(c.excluded, c.visible)) && !c.excluded(file) && !c.visible(file) then 1 else 0
  {
    hide KeepsAll;
    var lines: seq<Line> := [above + [file]];
    assert lines[0][..|lines[0]| - 1] == above && lines[1..] == [];
    assert Hidden(lines[1..], c) == 0;
  }

  lemma HiddenCons(f: Forest, above: seq<File>, c: Config)
    requires f.Cons?
    ensures Hidden(Lines(f, above), c) == Hidden([above + [f.root]], c)
              + Hidden(Lines(f.kids, above + [f.root]), c) + Hidden(Lines(f.rest, above), c)
  {
    hide Hidden;
    var line: seq<Line> := [above + [f.root]];
    HiddenAppend(line, Lines(f.kids, line[0]), c);
    HiddenAppend(line + Lines(f.kids, line[0]), Lines(f.rest, above), c);
  }

  lemma KeepsNext(above: seq<File>, file: File, keep: File -> bool)
    ensures KeepsAll(above + [file], keep) <==> KeepsAll(above, keep) && keep(file)
  {
    assert (above + [file])[|above|] == file;
    assert forall i :: 0 <= i < |above| ==> (above + [file])[i] == above[i];
  }

  lemma {:induction false} NothingIsHidden(f: Forest, above: seq<File>, c: Config)
    requires !KeepsAll(above, Visible(c.excluded, c.visible))
    ensures Hidden(Lines(f, above), c) == 0
  {
    hide Hidden, KeepsAll;
    if f.Cons? {
      KeepsNext(above, f.root, Visible(c.excluded, c.visible));
      NothingIsHidden(f.kids, above + [f.root], c);
      NothingIsHidden(f.rest, above, c);
      HiddenOne(above, f.root, c);
      HiddenCons(f, above, c);
    } else {
      NoneHidden(c);
    }
  }

  lemma NoneHidden(c: Config)
    ensures Hidden([], c) == 0
  {
  }

  /** The number that loading reports without a local filter is that of hidden files which are in visible directories
      only, excluded files aren't counted. */
  lemma {:induction false} FilteredAreHidden(l: Listing, c: Config, above: seq<File>)
    requires c.localIsEmpty && KeepsAll(above, Visible(c.excluded, c.visible))
    ensures Filtered(l, c) == Hidden(Lines(Everything(l), above), c)
  {
    hide Hidden, KeepsAll;
    NoneHidden(c);
    if l.Item? {
      var f := Everything(l);
      FilteredAreHidden(l.next, c, above);
      HiddenOne(above, l.file, c);
      HiddenCons(f, above, c);
      KeepsNext(above, l.file, Visible(c.excluded, c.visible));
      if c.excluded(l.file) || !c.visible(l.file) {
        NothingIsHidden(f.kids, above + [l.file], c);
      } else if l.realDir {
        FilteredAreHidden(l.contents, c, above + [l.file]);
      }
    }
  }
}
