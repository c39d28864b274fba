/** Sorting of a tree of which a local filter has left only a part: directories that aren't shown are put back for the
    time of sorting (sort_view() and flist_custom_uncompress_tree()). */
module Uncompressing {
  import opened Forests
  import opened Edits
  import opened Lineages
  import opened Links
  import opened Loading
  import opened Places
  import opened Pruning
  import opened Rebuilding
  import opened Sorting
  import opened Zapping

  /** What stands for a directory that isn't in the list. */
  datatype Names = Names(placeOf: Placing, dirAt: Place -> File)

  ghost predicate AreNames(names: Names) {
    forall place :: place != [] ==>
      var dir := names.dirAt(place);
      names.placeOf(dir) == place && dir.temporary && !IsParentDir(dir)
  }

  // The tree of components of paths (src/utils/fsdata.c).

  /** Comparison of no more characters than there are in the name. */
  predicate Precedes(name: string, other: string) {
    exists i :: 0 <= i < |name| && i < |other| && name[..i] == other[..i] && name[i] < other[i]
  }

  function NameOf(place: Place): string {
    if place == [] then "" else place[|place| - 1]
  }

  /** Puts a file into its place creating directories that aren't there. */
  function Put(f: Forest, at: Place, file: File, place: Place, names: Names): Forest
    requires at <= place && |at| < |place|
    decreases |place| - |at|, f
  {
    var here := place[..|at| + 1];
    if f.Empty? || (names.placeOf(f.root) != here && Precedes(NameOf(here), NameOf(names.placeOf(f.root)))) then
      if here == place then Cons(file, Empty, f)
      else Cons(names.dirAt(here), Put(Empty, here, file, place, names), f)
    else if names.placeOf(f.root) != here then
      Cons(f.root, f.kids, Put(f.rest, at, file, place, names))
    else if here == place then
      Cons(file, f.kids, f.rest)
    else
      Cons(f.root, Put(f.kids, here, file, place, names), f.rest)
  }

  /** None of the roots precedes the one which is before them. */
  predicate NonePrecedes(f: Forest, name: string, names: Names) {
    f.Cons? ==> !Precedes(NameOf(names.placeOf(f.root)), name) && NonePrecedes(f.rest, name, names)
  }

  predicate IsOrdered(f: Forest, names: Names) {
    f.Cons? ==>
      && NonePrecedes(f.rest, NameOf(names.placeOf(f.root)), names)
      && IsOrdered(f.kids, names) && IsOrdered(f.rest, names)
  }

  predicate HasNoDots(f: Forest) {
    f.Cons? ==> !IsParentDir(f.root) && HasNoDots(f.kids) && HasNoDots(f.rest)
  }

  function RealOf(f: Forest): set<File> {
    if f.Empty? then {}
    else (if f.root.temporary then {} else {f.root}) + RealOf(f.kids) + RealOf(f.rest)
  }

  lemma PrecedesIsTransitive(a: string, b: string, c: string)
    requires Precedes(a, b) && Precedes(b, c)
    ensures Precedes(a, c)
  {
    var i :| 0 <= i < |a| && i < |b| && a[..i] == b[..i] && a[i] < b[i];
    var j :| 0 <= j < |b| && j < |c| && b[..j] == c[..j] && b[j] < c[j];
    var k := if i < j then i else j;
    assert forall l :: 0 <= l < i ==> a[l] == a[..i][l] == b[l];
    assert forall l :: 0 <= l < j ==> b[l] == b[..j][l] == c[l];
    assert a[..k] == c[..k];
  }

  lemma PrecedesIsOneWay(a: string, b: string)
    requires Precedes(a, b)
    ensures !Precedes(b, a)
  {
    var i :| 0 <= i < |a| && i < |b| && a[..i] == b[..i] && a[i] < b[i];
    assert forall l :: 0 <= l < i ==> a[l] == a[..i][l] == b[l];
    forall j | 0 <= j < |b| && j < |a| && b[..j] == a[..j] ensures !(b[j] < a[j]) {
      assert forall l :: 0 <= l < j ==> b[l] == b[..j][l] == a[l];
    }
  }

  /** If the name precedes a root, it's not among those that follow. */
  lemma {:induction false} NotFurther(f: Forest, at: Place, place: Place, root: Place, names: Names)
    requires NonePrecedes(f, NameOf(root), names) && Precedes(NameOf(place), NameOf(root))
    ensures !HasRoot(f, place, names.placeOf)
    ensures NonePrecedes(f, NameOf(place), names)
  {
    hide Precedes;
    if f.Cons? {
      var name := NameOf(names.placeOf(f.root));
      NotFurther(f.rest, at, place, root, names);
      if Precedes(name, NameOf(place)) {
        PrecedesIsTransitive(name, NameOf(place), NameOf(root));
      }
    }
  }

  /** The tree still follows the file system. */
  lemma {:induction false} PutKeepsPlaces(f: Forest, at: Place, file: File, place: Place, names: Names)
    requires AreNames(names) && names.placeOf(file) == place && at <= place && |at| < |place|
    requires IsPlaced(f, at, names.placeOf) && IsOrdered(f, names)
    ensures var r, here := Put(f, at, file, place, names), place[..|at| + 1];
            && IsPlaced(r, at, names.placeOf) && IsOrdered(r, names)
            && (forall other :: HasRoot(r, other, names.placeOf) ==> other == here || HasRoot(f, other, names.placeOf))
            && (forall name :: NonePrecedes(f, name, names) && !Precedes(NameOf(here), name) ==>
                                 NonePrecedes(r, name, names))
    decreases |place| - |at|, f
  {
    hide Precedes;
    var here := place[..|at| + 1];
    if f.Empty? || (names.placeOf(f.root) != here && Precedes(NameOf(here), NameOf(names.placeOf(f.root)))) {
      if f.Cons? {
        PrecedesIsOneWay(NameOf(here), NameOf(names.placeOf(f.root)));
        NotFurther(f.rest, at, here, names.placeOf(f.root), names);
      }
      if here != place {
        PutKeepsPlaces(Empty, here, file, place, names);
      }
    } else if names.placeOf(f.root) != here {
      PutKeepsPlaces(f.rest, at, file, place, names);
    } else if here != place {
      PutKeepsPlaces(f.kids, here, file, place, names);
    }
  }

  /** Directories that have been put back aside, there is one more file. */
  lemma {:induction false} PutAddsFile(f: Forest, at: Place, file: File, place: Place, names: Names)
    requires AreNames(names) && !file.temporary && at <= place && |at| < |place|
    requires forall y :: y in RealOf(f) ==> names.placeOf(y) != place
    ensures RealOf(Put(f, at, file, place, names)) == RealOf(f) + {file}
    decreases |place| - |at|, f
  {
    hide Precedes;
    var here := place[..|at| + 1];
    if f.Empty? || (names.placeOf(f.root) != here && Precedes(NameOf(here), NameOf(names.placeOf(f.root)))) {
      if here != place {
        PutAddsFile(Empty, here, file, place, names);
      }
    } else if names.placeOf(f.root) != here {
      PutAddsFile(f.rest, at, file, place, names);
    } else if here != place {
      PutAddsFile(f.kids, here, file, place, names);
    }
  }

  lemma {:induction false} PutAddsNoDots(f: Forest, at: Place, file: File, place: Place, names: Names)
    requires AreNames(names) && !IsParentDir(file) && at <= place && |at| < |place|
    requires HasNoDots(f)
    ensures HasNoDots(Put(f, at, file, place, names))
    decreases |place| - |at|, f
  {
    hide Precedes;
    var here := place[..|at| + 1];
    if f.Empty? || (names.placeOf(f.root) != here && Precedes(NameOf(here), NameOf(names.placeOf(f.root)))) {
      if here != place {
        PutAddsNoDots(Empty, here, file, place, names);
      }
    } else if names.placeOf(f.root) != here {
      PutAddsNoDots(f.rest, at, file, place, names);
    } else if here != place {
      PutAddsNoDots(f.kids, here, file, place, names);
    }
  }

  lemma {:induction false} RealAreKept(f: Forest)
    ensures RealOf(f) == KeptOf(f, NOT_TEMPORARY)
  {
    if f.Cons? {
      RealAreKept(f.kids);
      RealAreKept(f.rest);
    }
  }

  // Traversal of the tree (complete_tree()).

  /** The list is a start of another one whose entries so far know only of what is already there. */
  ghost predicate IsStart(out: seq<Entry>, s: seq<Entry>) {
    |out| <= |s| && forall t :: 0 <= t < |out| ==> out[t] == Cut(s[t], |out| - 1 - t)
  }

  lemma CountedIsStart(out: seq<Entry>, was: seq<Entry>, r: seq<Entry>, s: seq<Entry>)
    requires IsStart(out, s) && |out| < |s| && 0 <= s[|out|].childCount
    requires |was| == |out| + 1 && was[..|out|] == out && Counted(was, r, s, 0)
    ensures IsStart(r, s)
  {
    forall t: nat | t < |out| ensures r[t] == Cut(s[t], |out| - t) {
      assert was[t] == was[..|out|][t] == out[t];
    }
  }

  /** Adds an entry which gets counted by all of its ancestors. */
  method AddNode(file: File, parent: int, out: seq<Entry>, ghost s: seq<Entry>) returns (r: seq<Entry>)
    requires Nested(s) && IsStart(out, s) && |out| < |s| && -1 <= parent < |out|
    requires s[|out|].file == file && s[|out|].childPos == (if parent < 0 then 0 else |out| - parent)
    requires 0 <= s[|out|].childCount
    ensures |r| == |out| + 1 && IsStart(r, s)
  {
    hide Nested;
    r := out + [Entry(file, if parent < 0 then 0 else |out| - parent, 0)];
    if parent >= 0 {
      ghost var was := r;
      r := CountDescendant(r, s);
      CountedIsStart(out, was, r, s);
    } else {
      forall t: nat | t < |out| ensures r[t] == Cut(s[t], |out| - t) {
        AtTop(s, |out|, |out|, t);
        assert !IsAncestor(s, t, |out|);
      }
    }
  }

  /** Adds entries for trees that are inside of the entry at `parent`, or at the top level if it's negative. */
  method CompleteTree(f: Forest, parent: int, out: seq<Entry>, ghost s: seq<Entry>) returns (r: seq<Entry>)
    requires Nested(s) && IsStart(out, s) && |out| + Size(f) <= |s| && -1 <= parent < |out|
    requires s[|out|..|out| + Size(f)] == Flatten(f, if parent < 0 then 0 else |out| - parent)
    ensures |r| == |out| + Size(f) && IsStart(r, s)
    decreases f
  {
    hide Nested, Flatten, IsStart, Size;
    ghost var up: nat := if parent < 0 then 0 else |out| - parent;
    FlattenCons(f, up);
    r := out;
    if f.Cons? {
      ghost var n := 1 + Size(f.kids);
      CompleteParts(s, |out|, f, up);
      r := AddNode(f.root, parent, out, s);
      r := CompleteTree(f.kids, |out|, r, s);
      r := CompleteTree(f.rest, parent, r, s);
    }
  }

  lemma CompleteParts(s: seq<Entry>, at: nat, f: Forest, up: nat)
    requires f.Cons? && at + Size(f) <= |s| && s[at..at + Size(f)] == Flatten(f, up)
    ensures var n := 1 + Size(f.kids);
            && Size(f) == n + Size(f.rest)
            && s[at] == Entry(f.root, up, Size(f.kids))
            && s[at + 1..at + n] == Flatten(f.kids, 1)
            && s[at + n..at + n + Size(f.rest)] == Flatten(f.rest, Further(up, n))
  {
    FlattenCons(f, up);
    hide Flatten, Size;
    var n, part := 1 + Size(f.kids), s[at..at + Size(f)];
    assert part[0] == s[at];
    SliceOfSlice(s, at, at + Size(f), 1, n);
    SliceOfSlice(s, at, at + Size(f), n, Size(f));
    assert part[1..n] == Flatten(f.kids, 1);
    assert part[n..Size(f)] == Flatten(f.rest, Further(up, n));
  }

  method Traverse(f: Forest) returns (r: seq<Entry>)
    ensures r == Flatten(f, 0)
  {
    hide Nested, Flatten, Size;
    ghost var s := Flatten(f, 0);
    FlattenIsNested(f);
    assert s[0..0 + Size(f)] == s;
    r := CompleteTree(f, -1, [], s);
    forall t: nat | t < |r| ensures r[t] == s[t] {
      LinkKind(f, 0, t);
    }
  }

  // Uncompressing of a list.

  const NOT_DOT: File -> bool := (file: File) => !IsParentDir(file)

  predicate AreInPlaces(files: seq<File>, names: Names) {
    && (forall i :: 0 <= i < |files| ==>
          names.placeOf(files[i]) != [] && !IsParentDir(files[i]) && !files[i].temporary)
    && (forall i, j :: 0 <= i < j < |files| ==> names.placeOf(files[i]) != names.placeOf(files[j]))
  }

  function PutAll(files: seq<File>, names: Names): Forest
    requires AreInPlaces(files, names)
  {
    if files == [] then Empty
    else
      var file := files[|files| - 1];
      Put(PutAll(files[..|files| - 1], names), [], file, names.placeOf(file), names)
  }

  lemma {:induction false} PutAllIs(files: seq<File>, names: Names)
    requires AreNames(names) && AreInPlaces(files, names)
    ensures var u := PutAll(files, names);
            && IsPlaced(u, [], names.placeOf) && IsOrdered(u, names) && HasNoDots(u)
            && forall y :: y in RealOf(u) <==> y in files
  {
    hide IsPlaced, IsOrdered, HasNoDots, Put, RealOf;
    if files == [] {
      NothingIsPut(names);
    } else {
      var n := |files| - 1;
      var was, file := PutAll(files[..n], names), files[n];
      PutAllIs(files[..n], names);
      PutKeepsPlaces(was, [], file, names.placeOf(file), names);
      PutAddsFile(was, [], file, names.placeOf(file), names);
      PutAddsNoDots(was, [], file, names.placeOf(file), names);
      assert files == files[..n] + [file];
    }
  }

  lemma NothingIsPut(names: Names)
    ensures IsPlaced(Empty, [], names.placeOf) && IsOrdered(Empty, names) && HasNoDots(Empty) && RealOf(Empty) == {}
  {
  }

  function FilesIn(s: seq<Entry>): (files: seq<File>)
    ensures |files| == |s| && forall q :: 0 <= q < |s| ==> files[q] == s[q].file
  {
    seq(|s|, q requires 0 <= q < |s| => s[q].file)
  }

  /** Files that the list is about. */
  function Listed(f: Forest): seq<File> {
    Kept(FilesIn(Flatten(f, 0)), NOT_DOT)
  }

  lemma {:induction false} LineOfEntry(f: Forest, up: nat, above: seq<File>, q: nat)
    requires q < Size(f)
    ensures |Lines(f, above)| == Size(f) && Last(Lines(f, above)[q]) == Flatten(f, up)[q].file
  {
    SizeOfLines(f, above);
    FlattenAt(f, up, q);
    var first: seq<Line> := [above + [f.root]];
    var kids, rest, n := Lines(f.kids, first[0]), Lines(f.rest, above), Size(f.kids);
    var all := Lines(f, above);
    assert all == first + kids + rest;
    SizeOfLines(f.kids, first[0]);
    hide Lines, Flatten;
    if 0 < q <= n {
      LineOfEntry(f.kids, 1, first[0], q - 1);
      assert all[q] == kids[q - 1];
    } else if q > n {
      LineOfEntry(f.rest, Further(up, 1 + n), above, q - 1 - n);
      assert all[q] == rest[q - 1 - n];
    }
  }

  /** The list shows what is left of a tree that follows the file system, in whatever order. */
  ghost predicate IsPart(f: Forest, base: Forest, at: Place, keep: File -> bool, names: Names) {
    && IsPlaced(base, at, names.placeOf)
    && (forall y :: y in KeptOf(base, keep) ==> !IsParentDir(y) && !y.temporary)
    && multiset(Lines(Splice(f, NOT_DOT), [])) == multiset(Lines(Splice(base, keep), []))
  }

  lemma {:induction false} KeptLineIsThere(lines: seq<Line>, keep: File -> bool, p: nat, q: nat)
    requires p < q < |lines| && keep(Last(lines[p])) && keep(Last(lines[q])) && AreDistinct(SplicedLines(lines, keep))
    ensures Last(lines[p]) != Last(lines[q])
  {
    hide Kept;
    var rest := lines[1..];
    var r := SplicedLines(rest, keep);
    assert AreDistinct(r) by {
      var all := SplicedLines(lines, keep);
      var skip := |all| - |r|;
      assert forall i :: 0 <= i < |r| ==> r[i] == all[skip + i];
    }
    if p == 0 {
      assert rest[q - 1] == lines[q];
      LastIsKept(lines[0], keep);
      LastIsKept(lines[q], keep);
      SplicedAre(rest, keep, Kept(lines[q], keep));
      var i :| 0 <= i < |r| && r[i] == Kept(lines[q], keep);
      assert SplicedLines(lines, keep)[0] == Kept(lines[0], keep);
      assert SplicedLines(lines, keep)[1 + i] == r[i];
    } else {
      KeptLineIsThere(rest, keep, p - 1, q - 1);
    }
  }

  lemma DistinctPermuted(lines: seq<Line>, permuted: seq<Line>)
    requires AreDistinct(lines) && multiset(lines) == multiset(permuted)
    ensures AreDistinct(permuted)
  {
    forall i, j | 0 <= i < j < |permuted| ensures Last(permuted[i]) != Last(permuted[j]) {
      assert permuted[i] in multiset(lines) && permuted[j] in multiset(lines);
      EachOnce(lines, permuted[i]);
      assert permuted == permuted[..j] + permuted[j..];
      assert permuted[..j][i] in multiset(permuted[..j]) && permuted[j..][0] in multiset(permuted[j..]);
      assert permuted[i] == permuted[j] ==> multiset(permuted)[permuted[i]] >= 2;
    }
  }

  /** Files that are left and files that have lines are the same. */
  lemma LeftHaveLines(f: Forest, keep: File -> bool, y: File)
    ensures y in KeptOf(f, keep) <==> exists r :: r in SplicedLines(Lines(f, []), keep) && Last(r) == y
  {
    hide Lines, SplicedLines, Kept;
    var lines := Lines(f, []);
    LinesOfFiles(f, [], y);
    if y in KeptOf(f, keep) {
      var k :| 0 <= k < |lines| && Last(lines[k]) == y;
      LastIsKept(lines[k], keep);
      SplicedAre(lines, keep, Kept(lines[k], keep));
    }
    if r :| r in SplicedLines(lines, keep) && Last(r) == y {
      SplicedAre(lines, keep, r);
      var k :| 0 <= k < |lines| && keep(Last(lines[k])) && r == Kept(lines[k], keep);
      LastIsKept(lines[k], keep);
      assert Last(lines[k]) == y;
    }
  }

  lemma PartHasSameFiles(f: Forest, base: Forest, at: Place, keep: File -> bool, names: Names)
    requires IsPart(f, base, at, keep, names)
    ensures KeptOf(f, NOT_DOT) == KeptOf(base, keep)
    ensures AreDistinct(SplicedLines(Lines(f, []), NOT_DOT))
  {
    assert Kept([], NOT_DOT) == [] && Kept([], keep) == [];
    hide Lines, SplicedLines, Kept, Splice, IsPlaced, KeptOf;
    SpliceKeepsLines(f, [], NOT_DOT);
    SpliceKeepsLines(base, [], keep);
    var a: seq<Line>, b: seq<Line> := SplicedLines(Lines(f, []), NOT_DOT), SplicedLines(Lines(base, []), keep);
    LinesAreDistinct(base, at, [], names.placeOf);
    SplicedAreDistinct(Lines(base, []), keep);
    DistinctPermuted(b, a);
    SameElements(a, b);
    hide AreDistinct;
    forall y ensures y in KeptOf(f, NOT_DOT) <==> y in KeptOf(base, keep) {
      LeftHaveLines(f, NOT_DOT, y);
      LeftHaveLines(base, keep, y);
    }
  }

  lemma SameElements(a: seq<Line>, b: seq<Line>)
    requires multiset(a) == multiset(b)
    ensures forall r: Line :: r in a <==> r in b
  {
    forall r: Line ensures r in a <==> r in b {
      assert r in a <==> r in multiset(a);
      assert r in b <==> r in multiset(b);
    }
  }

  predicate AreDifferent(files: seq<File>) {
    forall i, j :: 0 <= i < j < |files| ==> files[i] != files[j]
  }

  lemma OneMoreIsDifferent(files: seq<File>, file: File)
    requires AreDifferent(files) && file !in files
    ensures AreDifferent(files + [file])
  {
  }

  lemma {:induction false} KeptAreDifferent(files: seq<File>, keep: File -> bool)
    requires forall i, j :: 0 <= i < j < |files| && keep(files[i]) && keep(files[j]) ==> files[i] != files[j]
    ensures AreDifferent(Kept(files, keep))
  {
    if files != [] {
      var n := |files| - 1;
      var r, file := Kept(files[..n], keep), files[n];
      KeptAreDifferent(files[..n], keep);
      KeptAre(files[..n], keep);
      assert keep(file) ==> Kept(files, keep) == r + [file];
      assert !keep(file) ==> Kept(files, keep) == r;
      hide Kept, AreDifferent;
      if keep(file) {
        assert file !in files[..n];
        OneMoreIsDifferent(r, file);
      }
    }
  }

  lemma ListedAreLeft(f: Forest)
    ensures forall y :: y in Listed(f) <==> y in KeptOf(f, NOT_DOT)
  {
    var files := FilesIn(Flatten(f, 0));
    hide Flatten, Kept, Lines;
    KeptAre(files, NOT_DOT);
    SizeOfLines(f, []);
    forall y ensures y in files <==> y in AllFiles(f) {
      LinesOfFiles(f, [], y);
      if y in files {
        var q :| 0 <= q < |files| && files[q] == y;
        LineOfEntry(f, 0, [], q);
      }
      if k :| 0 <= k < |Lines(f, [])| && Last(Lines(f, [])[k]) == y {
        LineOfEntry(f, 0, [], k);
        assert files[k] == y;
      }
    }
  }

  lemma PlaceIsUnique(f: Forest, at: Place, placeOf: Placing, y: File, z: File)
    requires IsPlaced(f, at, placeOf) && y in AllFiles(f) && z in AllFiles(f) && placeOf(y) == placeOf(z)
    ensures y == z
  {
    hide IsPlaced, Lines, AllFiles;
    LinesOfFiles(f, [], y);
    var k :| 0 <= k < |Lines(f, [])| && Last(Lines(f, [])[k]) == y;
    LineIsWay(f, at, [], placeOf, k);
    var way := Lines(f, [])[k];
    assert way[0..] == way;
    assert z in way;
    var i :| 0 <= i < |way| && way[i] == z;
    assert way[|way| - 1] == y;
  }

  /** Files of the list can be put into a tree. */
  lemma ListedAreInPlaces(f: Forest, base: Forest, at: Place, keep: File -> bool, names: Names)
    requires IsPart(f, base, at, keep, names)
    ensures AreInPlaces(Listed(f), names) && forall y :: y in Listed(f) <==> y in KeptOf(base, keep)
  {
    hide Lines, SplicedLines, Kept, Splice, Flatten, IsPlaced;
    var files := FilesIn(Flatten(f, 0));
    PartHasSameFiles(f, base, at, keep, names);
    ListedAreLeft(f);
    SizeOfLines(f, []);
    forall i, j | 0 <= i < j < |files| && NOT_DOT(files[i]) && NOT_DOT(files[j]) ensures files[i] != files[j] {
      LineOfEntry(f, 0, [], i);
      LineOfEntry(f, 0, [], j);
      KeptLineIsThere(Lines(f, []), NOT_DOT, i, j);
    }
    KeptAreDifferent(files, NOT_DOT);
    var listed := Listed(f);
    assert listed == Kept(files, NOT_DOT);
    forall i | 0 <= i < |listed| ensures names.placeOf(listed[i]) != [] && listed[i] in KeptOf(base, keep) {
      assert listed[i] in listed;
      FileIsInside(base, at, names.placeOf, listed[i]);
    }
    forall i, j | 0 <= i < j < |listed| ensures names.placeOf(listed[i]) != names.placeOf(listed[j]) {
      assert listed[i] in listed && listed[j] in listed;
      if names.placeOf(listed[i]) == names.placeOf(listed[j]) {
        PlaceIsUnique(base, at, names.placeOf, listed[i], listed[j]);
      }
    }
  }

  /** The tree with missing directories. */
  ghost predicate IsUncompressed(u: Forest, base: Forest, keep: File -> bool, names: Names) {
    && IsPlaced(u, [], names.placeOf) && HasNoDots(u) && RealOf(u) == KeptOf(base, keep)
  }

  lemma PutAllIsUncompressed(f: Forest, base: Forest, at: Place, keep: File -> bool, names: Names)
    requires AreNames(names) && IsPart(f, base, at, keep, names)
    ensures AreInPlaces(Listed(f), names) && IsUncompressed(PutAll(Listed(f), names), base, keep, names)
  {
    hide IsPlaced, HasNoDots, RealOf, KeptOf, PutAll, Listed, AreInPlaces, IsPart, IsOrdered;
    ListedAreInPlaces(f, base, at, keep, names);
    PutAllIs(Listed(f), names);
  }

  /** Without added directories it's what the list has shown. */
  lemma UncompressedHasSameLines(u: Forest, base: Forest, at: Place, keep: File -> bool, names: Names)
    requires IsPlaced(base, at, names.placeOf) && IsUncompressed(u, base, keep, names)
    ensures multiset(Lines(Splice(u, NOT_TEMPORARY), [])) == multiset(Lines(Splice(base, keep), []))
  {
    hide Lines, Splice, IsPlaced, RealOf, KeptOf;
    RealAreKept(u);
    SameFilesSameLines(u, [], NOT_TEMPORARY, base, at, keep, names.placeOf);
  }

  predicate HasDot(s: seq<Entry>) {
    exists q :: 0 <= q < |s| && IsParentDir(s[q].file)
  }

  function Dot(parentDir: File, has: bool): Forest {
    if has then Tree(parentDir, Empty) else Empty
  }

  /** flist_custom_uncompress_tree(): puts directories that aren't shown back. */
  method UncompressTree(list: FileList, names: Names, parentDir: File, ghost base: Forest, ghost at: Place,
                        ghost keep: File -> bool)
    requires list.Valid() && AreNames(names) && IsPart(list.Contents(), base, at, keep, names)
    requires forall q :: 0 <= q < list.count && IsParentDir(list.entries[q].file) ==> list.entries[q].childPos == 0
    requires IsParentDir(parentDir)
    modifies list
    ensures list.Valid() && fresh(list.entries)
    ensures AreInPlaces(Listed(old(list.Contents())), names)
    ensures var u := PutAll(Listed(old(list.Contents())), names);
            && IsUncompressed(u, base, keep, names)
            && list.Contents() == Append(u, Dot(parentDir, old(HasDot(list.entries[..list.count]))))
  {
    hide IsPart, IsUncompressed, AreInPlaces, Put, PutAll, Kept, Flatten, Forests.Valid, Unflatten, Size, HasDot;
    ghost var f := list.Contents();
    ghost var files, listed := FilesIn(Flatten(f, 0)), Listed(f);
    PutAllIsUncompressed(f, base, at, keep, names);
    var entries := list.entries[..list.count];
    var tree, restoreParent := Empty, false;
    var i := 0;
    PutNone(names);
    NoDot();
    assert files[..0] == [] && entries[..0] == [];
    while i < |entries|
      invariant i <= |entries|
      invariant restoreParent == HasDot(entries[..i])
      invariant AreInPlaces(Kept(files[..i], NOT_DOT), names) && tree == PutAll(Kept(files[..i], NOT_DOT), names)
    {
      ListedStep(entries, files, listed, i, names);
      var file := entries[i].file;
      if entries[i].childPos == 0 && IsParentDir(file) {
        restoreParent := true;
      } else {
        tree := Put(tree, [], file, names.placeOf(file), names);
      }
      i := i + 1;
    }
    assert files[..i] == files && entries[..i] == entries;
    entries := Traverse(tree);
    if restoreParent {
      entries := entries + [Entry(parentDir, 0, 0)];
    }
    ghost var u := Append(tree, Dot(parentDir, restoreParent));
    DotIsLast(tree, parentDir, restoreParent);
    list.entries := new Entry[|entries|](k requires 0 <= k < |entries| => entries[k]);
    list.count := |entries|;
    assert list.entries[..list.count] == entries == Flatten(u, 0);
    FlattenIsValid(u, 0);
  }

  lemma PutNone(names: Names)
    ensures Kept([], NOT_DOT) == [] && AreInPlaces([], names) && PutAll([], names) == Empty
  {
  }

  lemma NoDot()
    ensures !HasDot([])
  {
  }

  lemma DotIsLast(f: Forest, parentDir: File, has: bool)
    ensures Flatten(Append(f, Dot(parentDir, has)), 0)
            == Flatten(f, 0) + if has then [Entry(parentDir, 0, 0)] else []
  {
    FlattenAppend(f, Dot(parentDir, has), 0);
    FlattenCons(Tree(parentDir, Empty), 0);
    FlattenCons(Empty, 0);
    FlattenCons(Empty, 1);
    hide Flatten;
  }

  lemma {:induction false} KeptStart(files: seq<File>, i: nat, keep: File -> bool)
    requires i <= |files|
    ensures Kept(files[..i], keep) <= Kept(files, keep)
  {
    var n := |files| - 1;
    if i <= n {
      KeptStart(files[..n], i, keep);
      assert files[..n][..i] == files[..i];
    } else {
      assert files[..i] == files;
    }
  }

  lemma KeptNext(files: seq<File>, i: nat, keep: File -> bool)
    requires i < |files|
    ensures Kept(files[..i + 1], keep) == Kept(files[..i], keep) + if keep(files[i]) then [files[i]] else []
  {
    assert files[..i + 1][..i] == files[..i];
  }

  lemma PutNext(was: seq<File>, file: File, names: Names)
    requires AreInPlaces(was + [file], names)
    ensures names.placeOf(file) != [] && AreInPlaces(was, names)
    ensures PutAll(was + [file], names) == Put(PutAll(was, names), [], file, names.placeOf(file), names)
  {
    hide Put;
    var now := was + [file];
    assert now[..|was|] == was && now[|was|] == file;
    assert forall i :: 0 <= i < |was| ==> was[i] == now[i];
  }

  lemma HasDotNext(entries: seq<Entry>, i: nat)
    requires i < |entries|
    ensures HasDot(entries[..i + 1]) <==> HasDot(entries[..i]) || IsParentDir(entries[i].file)
  {
    assert forall q :: 0 <= q < i ==> entries[..i][q] == entries[..i + 1][q];
    assert entries[..i + 1][i] == entries[i];
  }

  /** One more entry is processed. */
  lemma ListedStep(entries: seq<Entry>, files: seq<File>, listed: seq<File>, i: nat, names: Names)
    requires files == FilesIn(entries) && i < |entries| && listed == Kept(files, NOT_DOT) && AreInPlaces(listed, names)
    requires AreInPlaces(Kept(files[..i], NOT_DOT), names)
    ensures HasDot(entries[..i + 1]) <==> HasDot(entries[..i]) || IsParentDir(entries[i].file)
    ensures AreInPlaces(Kept(files[..i + 1], NOT_DOT), names)
    ensures var was, now, file := Kept(files[..i], NOT_DOT), Kept(files[..i + 1], NOT_DOT), entries[i].file;
            if IsParentDir(file) then now == was
            else names.placeOf(file) != []
                 && PutAll(now, names) == Put(PutAll(was, names), [], file, names.placeOf(file), names)
  {
    hide Kept, HasDot, Put, PutAll;
    HasDotNext(entries, i);
    KeptStart(files, i + 1, NOT_DOT);
    KeptNext(files, i, NOT_DOT);
    var was, now, file := Kept(files[..i], NOT_DOT), Kept(files[..i + 1], NOT_DOT), entries[i].file;
    assert forall k :: 0 <= k < |now| ==> now[k] == listed[k];
    if !IsParentDir(file) {
      hide AreInPlaces;
      PutNext(was, file, names);
    }
  }

  // Sorting of a list.

  function LinesOfDot(parentDir: File, has: bool): multiset<Line> {
    var line: Line := [parentDir];
    if has then multiset{line} else multiset{}
  }

  /** Sorting of a tree with missing directories neither loses files nor moves them. */
  lemma SortedUncompressed(u: Forest, base: Forest, at: Place, keep: File -> bool, names: Names, order: Order,
                           parentDir: File, has: bool)
    requires IsPlaced(base, at, names.placeOf) && IsUncompressed(u, base, keep, names) && IsOrder(order)
    requires !parentDir.temporary
    ensures multiset(Lines(Splice(Sorted(Append(u, Dot(parentDir, has)), order), NOT_TEMPORARY), []))
            == multiset(Lines(Splice(base, keep), [])) + LinesOfDot(parentDir, has)
  {
    LinesOfOneDot(parentDir, has);
    hide Lines, Splice, Sorted, IsPlaced, IsUncompressed, Dot, LinesOfDot;
    var d := Dot(parentDir, has);
    SpliceSorted(Append(u, d), order, NOT_TEMPORARY);
    SpliceAppend(u, d, NOT_TEMPORARY);
    LinesAppend(Splice(u, NOT_TEMPORARY), d, []);
    UncompressedHasSameLines(u, base, at, keep, names);
  }

  lemma LinesOfOneDot(parentDir: File, has: bool)
    requires !parentDir.temporary
    ensures multiset(Lines(Dot(parentDir, has), [])) == LinesOfDot(parentDir, has)
    ensures Splice(Dot(parentDir, has), NOT_TEMPORARY) == Dot(parentDir, has)
  {
    var line: Line := [parentDir];
    var lines: seq<Line> := [line];
    assert [] + [parentDir] == line;
    assert Lines(Tree(parentDir, Empty), []) == lines + [] + [] == lines;
    assert Lines(Empty, []) == [];
  }

  lemma FlatHasSizes(f: Forest)
    ensures HasSizes(Flatten(f, 0), f)
  {
  }

  /** The part of sort_view() that puts a sorted copy of the tree in place of the original. */
  method SortList(list: FileList, order: Order)
    requires list.Valid() && IsOrder(order)
    modifies list
    ensures list.Valid() && fresh(list.entries) && list.Contents() == Sorted(old(list.Contents()), order)
  {
    hide Flatten, Forests.Valid, Unflatten, Size, Sorted, HasSizes, IsOrder;
    ghost var f := list.Contents();
    var unsorted := list.entries[..list.count];
    FlatHasSizes(f);
    list.entries := new Entry[|unsorted|](k requires 0 <= k < |unsorted| => unsorted[k]);
    SortTreeSlice(list.entries, 0, unsorted, true, order, f);
    FirstLink();
    assert list.entries[..list.count] == list.entries[0..0 + |unsorted|];
    FlattenIsValid(Sorted(f, order), 0);
  }

  /** sort_view() for a tree under a local filter. */
  method SortUnderFilter(list: FileList, order: Order, names: Names, parentDir: File, ghost base: Forest,
                         ghost at: Place, ghost keep: File -> bool)
    requires list.Valid() && AreNames(names) && IsPart(list.Contents(), base, at, keep, names) && IsOrder(order)
    requires forall q :: 0 <= q < list.count && IsParentDir(list.entries[q].file) ==> list.entries[q].childPos == 0
    requires IsParentDir(parentDir) && !parentDir.temporary
    modifies list
    ensures list.Valid() && fresh(list.entries)
    ensures AreInPlaces(Listed(old(list.Contents())), names)
    ensures var u := Append(PutAll(Listed(old(list.Contents())), names),
                            Dot(parentDir, old(HasDot(list.entries[..list.count]))));
            list.Contents() == Splice(Sorted(u, order), NOT_TEMPORARY)
    ensures multiset(Lines(list.Contents(), []))
            == multiset(Lines(Splice(base, keep), [])) + LinesOfDot(parentDir, old(HasDot(list.entries[..list.count])))
  {
    assert IsPlaced(base, at, names.placeOf);
    hide IsPart, IsUncompressed, AreInPlaces, PutAll, Flatten, Forests.Valid, Unflatten, Size, HasDot, Sorted, Splice,
      Lines, HasSizes, IsOrder, IsPlaced;
    ghost var has, listed := HasDot(list.entries[..list.count]), Listed(list.Contents());
    UncompressTree(list, names, parentDir, base, at, keep);
    SortedUncompressed(PutAll(listed, names), base, at, keep, names, order, parentDir, has);
    SortList(list, order);
    DropTemporaries(list);
  }
}
