/** Building of a tree by traversal of directories: add_files_recursively(). */
module Loading {
  import opened Forests
  import opened Edits
  import opened Pruning

  /** A listing of a directory: files with contents of those of them that are directories (links to
      directories are not followed). */
  datatype Listing = End | Item(file: File, realDir: bool, contents: Listing, next: Listing)

  /** What is shown: `visible` stands for all filters but the local one and for the list of
      excluded paths, `local` is the local filter and `leafs` enables ".." entries in empty
      directories. */
  datatype Config = Config(excluded: File -> bool, visible: File -> bool,
                           localIsEmpty: bool, local: File -> bool,
                           leafs: bool, leafOf: File -> File)
  {
    predicate PassesLocal(file: File) {
      localIsEmpty || local(file)
    }
  }

  predicate IsParentDir(file: File) {
    file.name == ".."
  }

  /** Contents of a shown directory. */
  function OrLeaf(c: Config, dir: File, kids: Forest): Forest {
    if kids.Empty? && c.leafs && c.localIsEmpty then Tree(c.leafOf(dir), Empty) else kids
  }

  /** The tree of files to show.  Contents of directories that are rejected only by the local filter
      are attached to the closest shown ancestor. */
  function Loaded(l: Listing, c: Config): Forest {
    match l
    case End => Empty
    case Item(file, realDir, contents, next) =>
      if c.excluded(file) || !c.visible(file) then
        Loaded(next, c)
      else if c.PassesLocal(file) then
        Cons(file, if realDir then OrLeaf(c, file, Loaded(contents, c)) else Empty, Loaded(next, c))
      else
        Append(if realDir then Loaded(contents, c) else Empty, Loaded(next, c))
  }

  /** Number of files that are reported as filtered out. */
  function Filtered(l: Listing, c: Config): nat {
    match l
    case End => 0
    case Item(file, realDir, contents, next) =>
      Filtered(next, c) +
      if c.excluded(file) then 0
      else if !c.visible(file) then 1
      else (if c.PassesLocal(file) then 0 else 1) + (if realDir then Filtered(contents, c) else 0)
  }

  /** The array that loading makes of a forest: ".." entries have no link to their parent. */
  function Raw(f: Forest, up: nat): (s: seq<Entry>)
    ensures |s| == Size(f)
  {
    match f
    case Empty => []
    case Cons(root, kids, rest) =>
      [Entry(root, if IsParentDir(root) then 0 else up, Size(kids))]
      + Raw(kids, 1) + Raw(rest, Further(up, 1 + Size(kids)))
  }

  lemma RawCons(f: Forest, up: nat)
    ensures f.Empty? ==> Size(f) == 0 && Raw(f, up) == []
    ensures f.Cons? ==>
              && Size(f) == 1 + Size(f.kids) + Size(f.rest)
              && Raw(f, up) == [Entry(f.root, if IsParentDir(f.root) then 0 else up, Size(f.kids))]
                               + Raw(f.kids, 1) + Raw(f.rest, Further(up, 1 + Size(f.kids)))
  {
  }

  lemma {:induction false} RawAppend(f: Forest, g: Forest, up: nat)
    ensures Size(Append(f, g)) == Size(f) + Size(g)
    ensures Raw(Append(f, g), up) == Raw(f, up) + Raw(g, Further(up, Size(f)))
  {
    hide Raw;
    RawCons(f, up);
    if f.Cons? {
      var n := 1 + Size(f.kids);
      var u := Further(up, n);
      RawAppend(f.rest, g, u);
      RawCons(Append(f, g), up);
      assert Further(u, Size(f.rest)) == Further(up, Size(f));
    }
  }

  /** ".." entries below the top level. */
  predicate HasLeaf(f: Forest, below: bool) {
    f.Cons? && ((below && IsParentDir(f.root)) || HasLeaf(f.kids, true) || HasLeaf(f.rest, below))
  }

  /** Links are exact if and only if there are no ".." entries in the tree. */
  lemma {:induction false} RawIsExact(f: Forest, up: nat)
    ensures Raw(f, up) == Flatten(f, up) <==> !HasLeaf(f, up > 0)
  {
    hide Raw, Flatten;
    RawCons(f, up);
    FlattenCons(f, up);
    if f.Cons? {
      var u := Further(up, 1 + Size(f.kids));
      RawIsExact(f.kids, 1);
      RawIsExact(f.rest, u);
      var r, s, n := Raw(f, up), Flatten(f, up), 1 + Size(f.kids);
      assert r[1..n] == Raw(f.kids, 1) && s[1..n] == Flatten(f.kids, 1);
      assert r[n..] == Raw(f.rest, u) && s[n..] == Flatten(f.rest, u);
      assert r[0].childPos == s[0].childPos <==> !(up > 0 && IsParentDir(f.root));
      if !HasLeaf(f, up > 0) {
        assert r == [r[0]] + r[1..n] + r[n..];
        assert s == [s[0]] + s[1..n] + s[n..];
      }
    }
  }

  /** Listings of directories do not include "..", and the entries for empty directories are so
      named. */
  predicate NoDots(l: Listing) {
    l.Item? ==> !IsParentDir(l.file) && NoDots(l.contents) && NoDots(l.next)
  }

  ghost predicate LeafsAreParentDirs(c: Config) {
    forall file :: IsParentDir(c.leafOf(file))
  }

  /** Some directory is shown, but nothing inside of it is. */
  predicate ShowsEmptyDir(l: Listing, c: Config) {
    l.Item? &&
    (|| ShowsEmptyDir(l.next, c)
     || (&& !c.excluded(l.file) && c.visible(l.file) && l.realDir
         && ((c.PassesLocal(l.file) && Loaded(l.contents, c).Empty?) || ShowsEmptyDir(l.contents, c))))
  }

  lemma {:induction false} HasLeafAppend(f: Forest, g: Forest, below: bool)
    ensures HasLeaf(Append(f, g), below) <==> HasLeaf(f, below) || HasLeaf(g, below)
  {
    if f.Cons? {
      HasLeafAppend(f.rest, g, below);
    }
  }

  /** What is shown because of the first item of a listing. */
  function Part(l: Listing, c: Config): Forest
    requires l.Item?
  {
    if c.excluded(l.file) || !c.visible(l.file) then Empty
    else if c.PassesLocal(l.file) then
      Tree(l.file, if l.realDir then OrLeaf(c, l.file, Loaded(l.contents, c)) else Empty)
    else if l.realDir then Loaded(l.contents, c)
    else Empty
  }

  lemma LoadedStep(l: Listing, c: Config)
    requires l.Item?
    ensures Loaded(l, c) == Append(Part(l, c), Loaded(l.next, c))
  {
    AppendEmpties(Loaded(l.next, c));
  }

  lemma AppendEmpties(f: Forest)
    ensures Append(f, Empty) == f && Append(Empty, f) == f
  {
    AppendEmpty(f);
  }

  lemma PartHasLeaf(l: Listing, c: Config, below: bool)
    requires NoDots(l) && LeafsAreParentDirs(c) && l.Item?
    requires forall b :: HasLeaf(Loaded(l.contents, c), b) <==>
                         c.leafs && c.localIsEmpty && ShowsEmptyDir(l.contents, c)
    ensures HasLeaf(Part(l, c), below) <==>
            && c.leafs && c.localIsEmpty
            && !c.excluded(l.file) && c.visible(l.file) && l.realDir
            && ((c.PassesLocal(l.file) && Loaded(l.contents, c).Empty?) || ShowsEmptyDir(l.contents, c))
  {
    hide Loaded, ShowsEmptyDir;
    var kids := Loaded(l.contents, c);
    assert HasLeaf(kids, true) <==> HasLeaf(kids, below);
    assert IsParentDir(c.leafOf(l.file));
    assert !HasLeaf(Empty, true) && !HasLeaf(Empty, below);
    assert HasLeaf(Tree(c.leafOf(l.file), Empty), true);
  }

  /** When links of a loaded tree are exact: without a local filter and with ".." entries enabled,
      this takes every shown directory to have something to show. */
  lemma {:induction false} LoadedHasLeaf(l: Listing, c: Config, below: bool)
    requires NoDots(l) && LeafsAreParentDirs(c)
    ensures HasLeaf(Loaded(l, c), below) <==> c.leafs && c.localIsEmpty && ShowsEmptyDir(l, c)
  {
    if l.Item? {
      hide Loaded, HasLeaf, Part;
      LoadedHasLeaf(l.next, c, below);
      forall b ensures HasLeaf(Loaded(l.contents, c), b) <==>
                       c.leafs && c.localIsEmpty && ShowsEmptyDir(l.contents, c)
      {
        LoadedHasLeaf(l.contents, c, b);
      }
      PartHasLeaf(l, c, below);
      LoadedStep(l, c);
      HasLeafAppend(Part(l, c), Loaded(l.next, c), below);
    }
  }

  /** Loading leaves wrong links if and only if it adds ".." entries. */
  lemma LoadedIsExact(l: Listing, c: Config)
    requires NoDots(l) && LeafsAreParentDirs(c)
    ensures Raw(Loaded(l, c), 0) == Flatten(Loaded(l, c), 0)
            <==> !(c.leafs && c.localIsEmpty && ShowsEmptyDir(l, c))
  {
    hide Raw, Flatten, Loaded, HasLeaf, ShowsEmptyDir;
    RawIsExact(Loaded(l, c), 0);
    LoadedHasLeaf(l, c, false);
  }

  /** The smallest listing which is loaded with a wrong link: a directory with nothing inside of it. */
  lemma EmptyDirIsNotExact(dir: File, c: Config)
    requires LeafsAreParentDirs(c) && c.leafs && c.localIsEmpty
    requires !IsParentDir(dir) && !c.excluded(dir) && c.visible(dir)
    ensures var loaded := Loaded(Item(dir, true, End, End), c);
            && loaded == Tree(dir, Tree(c.leafOf(dir), Empty))
            && Raw(loaded, 0)[1].childPos == 0 && Flatten(loaded, 0)[1].childPos == 1
  {
    assert IsParentDir(c.leafOf(dir));
  }

  /** What the local filter leaves of a tree that is already loaded. */
  function KeepLocal(c: Config): File -> bool {
    (file: File) => !IsParentDir(file) && c.local(file)
  }

  /** Filtering while loading is the same as filtering what has been loaded. */
  lemma {:induction false} FilterWhileLoading(l: Listing, c: Config)
    requires NoDots(l) && LeafsAreParentDirs(c)
    ensures Loaded(l, c.(localIsEmpty := false)) == Splice(Loaded(l, c.(localIsEmpty := true)), KeepLocal(c))
  {
    if l.Item? {
      var before, after := c.(localIsEmpty := true), c.(localIsEmpty := false);
      FilterWhileLoading(l.next, c);
      FilterWhileLoading(l.contents, c);
      var kids := Loaded(l.contents, before);
      assert Splice(OrLeaf(before, l.file, kids), KeepLocal(c)) == Splice(kids, KeepLocal(c)) by {
        SpliceLeaf(c, l.file);
      }
    }
  }

  lemma SpliceLeaf(c: Config, file: File)
    requires LeafsAreParentDirs(c)
    ensures Splice(Tree(c.leafOf(file), Empty), KeepLocal(c)) == Empty
  {
    assert IsParentDir(c.leafOf(file));
  }

  /** The local filter hides exactly as many files as it adds to the number of filtered ones. */
  lemma {:induction false} HiddenAreCounted(l: Listing, c: Config)
    ensures var before, after := c.(localIsEmpty := true, leafs := false), c.(localIsEmpty := false);
            Size(Loaded(l, after)) + Filtered(l, after) == Size(Loaded(l, before)) + Filtered(l, before)
  {
    if l.Item? {
      HiddenAreCounted(l.next, c);
      HiddenAreCounted(l.contents, c);
      SizeAppend(Loaded(l.contents, c.(localIsEmpty := false)), Loaded(l.next, c.(localIsEmpty := false)));
    }
  }

  /** A part of the listing is shown: what it has added to the list and what is left to show. */
  lemma ShowPart(was: seq<Entry>, added: seq<Entry>, done: Forest, part: Forest, rest: Forest, up: nat)
    requires added == Raw(part, Further(up, Size(done)))
    ensures was + Raw(done, up) + added == was + Raw(Append(done, part), up)
    ensures Size(Append(done, part)) == Size(done) + |added|
    ensures Append(Append(done, part), rest) == Append(done, Append(part, rest))
  {
    hide Raw, Size, Append;
    RawAppend(done, part, up);
    AppendAssociative(done, part, rest);
  }

  lemma ShowDirectory(list: seq<Entry>, file: File, kids: Forest, up: nat, entry: Entry)
    requires !IsParentDir(file)
    requires entry == Entry(file, up, 0)
    ensures var idx := |list|;
            var after := list + [entry] + Raw(kids, 1);
            after[idx := after[idx].(childCount := |after| - 1 - idx)] == list + Raw(Tree(file, kids), up)
    ensures Raw(Tree(file, Empty), up) == [entry]
  {
    hide Raw, Size;
    RawCons(Tree(file, kids), up);
    RawCons(Tree(file, Empty), up);
    RawCons(Empty, 1);
    RawCons(Empty, Further(up, 1 + Size(kids)));
    RawCons(Empty, Further(up, 1));
  }

  /** The list of a view that is being built. */
  class CustomList {
    var entries: seq<Entry>

    /** flist_custom_start(): drops what was in the list. */
    constructor ()
      ensures entries == []
    {
      entries := [];
    }

    /** add_directory_leaf(): index of the new entry isn't counted yet when its link is computed. */
    method AddDirectoryLeaf(dir: File, parentPos: int, c: Config)
      modifies this
      ensures |entries| == old(|entries|) + if c.localIsEmpty then 1 else 0
      ensures entries[..old(|entries|)] == old(entries)
      ensures c.localIsEmpty ==>
                var leaf := entries[old(|entries|)];
                && leaf.file == c.leafOf(dir) && leaf.childCount == 0
                && (parentPos >= 0 ==> old(|entries|) - leaf.childPos == parentPos + 1)
                && (parentPos < 0 || parentPos == old(|entries|) - 1 ==> leaf.childPos == 0)
    {
      if !c.localIsEmpty {
        return;
      }
      var entry := Entry(c.leafOf(dir), 0, 0);
      if parentPos >= 0 {
        entry := entry.(childPos := |entries| - 1 - parentPos);
      }
      entries := entries + [entry];
    }

    /** add_files_recursively(): `parentPos` is index of the closest shown ancestor or -1. */
    method AddFilesRecursively(l: Listing, dir: File, parentPos: int, noDirectParent: bool, c: Config)
      returns (nfiltered: int)
      requires NoDots(l) && LeafsAreParentDirs(c)
      requires -1 <= parentPos < |entries|
      requires !noDirectParent ==> parentPos == |entries| - 1
      modifies this
      ensures nfiltered == Filtered(l, c)
      ensures var shown := if noDirectParent || old(|entries|) == 0 then Loaded(l, c)
                           else OrLeaf(c, dir, Loaded(l, c));
              entries == old(entries) + Raw(shown, if parentPos < 0 then 0 else old(|entries|) - parentPos)
      decreases l, 2
    {
      hide Raw, Size, Append, Loaded, Filtered;
      var prevCount := |entries|;
      ghost var was, up: nat := entries, if parentPos < 0 then 0 else |entries| - parentPos;
      nfiltered := AddItems(l, parentPos, c);
      RawCons(Loaded(l, c), up);
      if c.leafs && !noDirectParent && prevCount != 0 && |entries| == prevCount {
        AddDirectoryLeaf(dir, parentPos, c);
        RawCons(Tree(c.leafOf(dir), Empty), up);
        RawCons(Empty, 1);
        RawCons(Empty, Further(up, 1));
      }
    }

    /** The loop over a listing in add_files_recursively(). */
    method AddItems(l: Listing, parentPos: int, c: Config) returns (nfiltered: int)
      requires NoDots(l) && LeafsAreParentDirs(c)
      requires -1 <= parentPos < |entries|
      modifies this
      ensures nfiltered == Filtered(l, c)
      ensures entries == old(entries)
                         + Raw(Loaded(l, c), if parentPos < 0 then 0 else old(|entries|) - parentPos)
      decreases l, 1
    {
      hide Raw, Size, Append, OrLeaf, HasLeaf, Part;
      nfiltered := 0;
      ghost var was, up: nat := entries, if parentPos < 0 then 0 else |entries| - parentPos;
      ghost var done := Empty;
      var rest := l;
      RawCons(Empty, up);
      AppendEmpties(Loaded(l, c));
      while rest.Item?
        invariant rest == l || rest < l
        invariant NoDots(rest)
        invariant |entries| == |was| + Size(done)
        invariant entries == was + Raw(done, up)
        invariant Append(done, Loaded(rest, c)) == Loaded(l, c)
        invariant nfiltered + Filtered(rest, c) == Filtered(l, c)
        decreases rest
      {
        ghost var part := Part(rest, c);
        var n := AddItem(rest, parentPos, c);
        nfiltered := nfiltered + n;
        ShowPart(was, Raw(part, Further(up, Size(done))), done, part, Loaded(rest.next, c), up);
        LoadedStep(rest, c);
        done := Append(done, part);
        rest := rest.next;
      }
      AppendEmpties(done);
    }

    /** An iteration of the loop. */
    method AddItem(item: Listing, parentPos: int, c: Config) returns (nfiltered: int)
      requires item.Item? && NoDots(item) && LeafsAreParentDirs(c)
      requires -1 <= parentPos < |entries|
      modifies this
      ensures nfiltered + Filtered(item.next, c) == Filtered(item, c)
      ensures entries == old(entries)
                         + Raw(Part(item, c), if parentPos < 0 then 0 else old(|entries|) - parentPos)
      decreases item, 0
    {
      hide Raw, Size, Append, OrLeaf, HasLeaf;
      var file := item.file;
      ghost var before, up: nat := entries, if parentPos < 0 then 0 else |entries| - parentPos;
      RawCons(Empty, up);
      nfiltered := 0;
      if c.excluded(file) {
        return;
      }
      if !(c.visible(file) && c.PassesLocal(file)) {
        if item.realDir && c.visible(file) {
          nfiltered := AddFilesRecursively(item.contents, file, parentPos, true, c);
        }
        nfiltered := nfiltered + 1;
        return;
      }

      var entry := Entry(file, 0, 0);
      if parentPos >= 0 {
        entry := entry.(childPos := |entries| - parentPos);
      }
      entries := entries + [entry];
      ghost var kids := if item.realDir then OrLeaf(c, file, Loaded(item.contents, c)) else Empty;
      ShowDirectory(before, file, kids, up, entry);
      if item.realDir {
        var idx := |entries| - 1;
        nfiltered := AddFilesRecursively(item.contents, file, idx, false, c);
        entries := entries[idx := entries[idx].(childCount := |entries| - 1 - idx)];
      }
    }
  }
}
