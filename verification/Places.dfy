/** Trees that follow the file system: which directories of a file are above it is determined by its path. */
module Places {
  import opened Forests
  import opened Lineages
  import opened Pruning

  /** Components of a path. */
  type Place = seq<string>

  type Placing = File -> Place

  function AllFiles(f: Forest): set<File> {
    if f.Empty? then {} else {f.root} + AllFiles(f.kids) + AllFiles(f.rest)
  }

  predicate HasRoot(f: Forest, place: Place, placeOf: Placing) {
    f.Cons? && (placeOf(f.root) == place || HasRoot(f.rest, place, placeOf))
  }

  /** Roots are right inside of the place and their places are all different, the same for their contents. */
  predicate IsPlaced(f: Forest, at: Place, placeOf: Placing) {
    f.Cons? ==>
      && at <= placeOf(f.root) && |placeOf(f.root)| == |at| + 1
      && IsPlaced(f.kids, placeOf(f.root), placeOf)
      && IsPlaced(f.rest, at, placeOf) && !HasRoot(f.rest, placeOf(f.root), placeOf)
  }

  lemma {:induction false} FileIsInside(f: Forest, at: Place, placeOf: Placing, file: File)
    requires IsPlaced(f, at, placeOf) && file in AllFiles(f)
    ensures var place := placeOf(file);
            at <= place && |at| < |place| && HasRoot(f, place[..|at| + 1], placeOf)
  {
    var place := placeOf(file);
    if file == f.root {
      assert place[..|at| + 1] == place;
    } else if file in AllFiles(f.kids) {
      FileIsInside(f.kids, placeOf(f.root), placeOf, file);
      assert place[..|at| + 1] == placeOf(f.root) && at == place[..|at|];
    } else {
      FileIsInside(f.rest, at, placeOf, file);
    }
  }

  function Last(line: Line): File {
    line[|line| - 1]
  }

  /** Files of the forest whose places are on the way to the given one, the outermost first. */
  ghost predicate IsWay(line: seq<File>, files: set<File>, place: Place, placeOf: Placing) {
    && (forall y :: y in line <==> y in files && placeOf(y) <= place)
    && Grows(line, placeOf)
  }

  lemma SameStart(a: Place, b: Place, n: nat)
    requires n <= |a| && n <= |b|
    ensures a <= b ==> a[..n] == b[..n]
  {
  }

  /** Nothing of the rest is on the way to what is inside of the first root. */
  lemma RestIsElsewhere(f: Forest, at: Place, placeOf: Placing, y: File, place: Place)
    requires f.Cons? && IsPlaced(f, at, placeOf) && y in AllFiles(f.rest) && placeOf(f.root) <= place
    ensures !(placeOf(y) <= place)
  {
    FileIsInside(f.rest, at, placeOf, y);
    assert placeOf(f.root) == place[..|at| + 1];
    SameStart(placeOf(y), place, |at| + 1);
  }

  /** And vice versa. */
  lemma FirstIsElsewhere(f: Forest, at: Place, placeOf: Placing, y: File, file: File)
    requires f.Cons? && IsPlaced(f, at, placeOf) && (y == f.root || y in AllFiles(f.kids)) && file in AllFiles(f.rest)
    ensures !(placeOf(y) <= placeOf(file))
  {
    FileIsInside(f.rest, at, placeOf, file);
    if y in AllFiles(f.kids) {
      FileIsInside(f.kids, placeOf(f.root), placeOf, y);
    }
    assert placeOf(y)[..|at| + 1] == placeOf(f.root);
    SameStart(placeOf(y), placeOf(file), |at| + 1);
  }

  lemma WayFromRoot(f: Forest, at: Place, placeOf: Placing, way: seq<File>, place: Place)
    requires f.Cons? && IsPlaced(f, at, placeOf)
    requires placeOf(f.root) <= place && IsWay(way, AllFiles(f.kids), place, placeOf)
    ensures IsWay([f.root] + way, AllFiles(f), place, placeOf)
  {
    var all := [f.root] + way;
    forall y ensures y in all <==> y in AllFiles(f) && placeOf(y) <= place {
      assert y in all <==> y == f.root || y in way;
      if y in AllFiles(f.rest) {
        RestIsElsewhere(f, at, placeOf, y, place);
      }
    }
    forall i, j | 0 <= i < j < |all| ensures |placeOf(all[i])| < |placeOf(all[j])| {
      if i == 0 {
        assert all[j] in way;
        FileIsInside(f.kids, placeOf(f.root), placeOf, all[j]);
      }
    }
  }

  lemma WayPastRoot(f: Forest, at: Place, placeOf: Placing, way: seq<File>, file: File)
    requires f.Cons? && IsPlaced(f, at, placeOf)
    requires file in AllFiles(f.rest) && IsWay(way, AllFiles(f.rest), placeOf(file), placeOf)
    ensures IsWay(way, AllFiles(f), placeOf(file), placeOf)
  {
    forall y | y in AllFiles(f) && placeOf(y) <= placeOf(file) ensures y in AllFiles(f.rest) {
      if y !in AllFiles(f.rest) {
        FirstIsElsewhere(f, at, placeOf, y, file);
      }
    }
  }

  /** The line leads to a file of the forest by the way to it. */
  ghost predicate LeadsTo(line: Line, f: Forest, above: seq<File>, placeOf: Placing) {
    && above <= line && |above| < |line| && Last(line) in AllFiles(f)
    && IsWay(line[|above|..], AllFiles(f), placeOf(Last(line)), placeOf)
  }

  lemma KidsLineLeads(f: Forest, at: Place, above: seq<File>, placeOf: Placing, line: Line)
    requires f.Cons? && IsPlaced(f, at, placeOf) && LeadsTo(line, f.kids, above + [f.root], placeOf)
    ensures LeadsTo(line, f, above, placeOf)
  {
    hide IsWay, IsPlaced;
    var way := line[|above| + 1..];
    KidsArePlaced(f, at, placeOf);
    FileIsInside(f.kids, placeOf(f.root), placeOf, Last(line));
    assert line == above + [f.root] + way;
    assert line[|above|..] == [f.root] + way;
    WayFromRoot(f, at, placeOf, way, placeOf(Last(line)));
  }

  lemma KidsArePlaced(f: Forest, at: Place, placeOf: Placing)
    requires f.Cons? && IsPlaced(f, at, placeOf)
    ensures IsPlaced(f.kids, placeOf(f.root), placeOf) && IsPlaced(f.rest, at, placeOf)
  {
  }

  /** Directories of a file are those on the way to it. */
  lemma {:induction false} LineIsWay(f: Forest, at: Place, above: seq<File>, placeOf: Placing, k: nat)
    requires IsPlaced(f, at, placeOf) && k < |Lines(f, above)|
    ensures LeadsTo(Lines(f, above)[k], f, above, placeOf)
  {
    var first: seq<Line> := [above + [f.root]];
    var kids, rest := Lines(f.kids, first[0]), Lines(f.rest, above);
    assert Lines(f, above) == first + kids + rest;
    var line := Lines(f, above)[k];
    KidsArePlaced(f, at, placeOf);
    hide Lines, IsPlaced, IsWay;
    if k == 0 {
      assert line[|above|..] == [f.root] + [];
      RootIsWay(f, at, placeOf);
    } else if k <= |kids| {
      assert line == kids[k - 1];
      LineIsWay(f.kids, placeOf(f.root), first[0], placeOf, k - 1);
      KidsLineLeads(f, at, above, placeOf, line);
    } else {
      assert line == rest[k - 1 - |kids|];
      LineIsWay(f.rest, at, above, placeOf, k - 1 - |kids|);
      WayPastRoot(f, at, placeOf, line[|above|..], Last(line));
    }
  }

  lemma RootIsWay(f: Forest, at: Place, placeOf: Placing)
    requires f.Cons? && IsPlaced(f, at, placeOf)
    ensures IsWay([f.root] + [], AllFiles(f), placeOf(f.root), placeOf)
  {
    forall y | y in AllFiles(f.kids) ensures !(placeOf(y) <= placeOf(f.root)) {
      FileIsInside(f.kids, placeOf(f.root), placeOf, y);
    }
    WayFromRoot(f, at, placeOf, [], placeOf(f.root));
  }

  lemma {:induction false} KeptAre(line: seq<File>, keep: File -> bool)
    ensures forall y :: y in Kept(line, keep) <==> y in line && keep(y)
  {
    if line != [] {
      var n := |line| - 1;
      KeptAre(line[..n], keep);
      assert line == line[..n] + [line[n]];
    }
  }

  predicate Grows(line: seq<File>, placeOf: Placing) {
    forall i, j :: 0 <= i < j < |line| ==> |placeOf(line[i])| < |placeOf(line[j])|
  }

  lemma {:induction false} KeptGrow(line: seq<File>, keep: File -> bool, placeOf: Placing)
    requires Grows(line, placeOf)
    ensures Grows(Kept(line, keep), placeOf)
  {
    if line != [] {
      var n := |line| - 1;
      var r := Kept(line[..n], keep);
      KeptGrow(line[..n], keep, placeOf);
      KeptAre(line[..n], keep);
      assert Kept(line, keep) == r + if keep(line[n]) then [line[n]] else [];
      hide Kept;
      forall i | 0 <= i < |r| ensures |placeOf(r[i])| < |placeOf(line[n])| {
        assert r[i] in line[..n];
      }
    }
  }

  ghost function KeptOf(f: Forest, keep: File -> bool): set<File> {
    set file | file in AllFiles(f) && keep(file)
  }

  lemma KeptIsWay(line: seq<File>, f: Forest, keep: File -> bool, place: Place, placeOf: Placing)
    requires IsWay(line, AllFiles(f), place, placeOf)
    ensures IsWay(Kept(line, keep), KeptOf(f, keep), place, placeOf)
  {
    KeptAre(line, keep);
    KeptGrow(line, keep, placeOf);
  }

  lemma ButLast(a: seq<File>, placeOf: Placing, y: File)
    requires a != [] && Grows(a, placeOf)
    ensures y in a[..|a| - 1] <==> y in a && y != a[|a| - 1]
  {
    assert a == a[..|a| - 1] + [a[|a| - 1]];
  }

  lemma BothAreEmpty(a: seq<File>, b: seq<File>)
    requires forall y :: y in a <==> y in b
    ensures a == [] <==> b == []
  {
    if a != [] {
      assert a[0] in b;
    }
    if b != [] {
      assert b[0] in a;
    }
  }

  /** There is only one way. */
  lemma {:induction false} WaysAreSame(a: seq<File>, b: seq<File>, placeOf: Placing)
    requires forall y :: y in a <==> y in b
    requires Grows(a, placeOf) && Grows(b, placeOf)
    ensures a == b
  {
    BothAreEmpty(a, b);
    if a != [] {
      var n, m := |a| - 1, |b| - 1;
      assert a[n] in b && b[m] in a;
      assert a[n] == b[m];
      forall y ensures y in a[..n] <==> y in b[..m] {
        ButLast(a, placeOf, y);
        ButLast(b, placeOf, y);
      }
      WaysAreSame(a[..n], b[..m], placeOf);
    }
  }

  // Each file has one line.

  lemma {:induction false} LinesOfFiles(f: Forest, above: seq<File>, file: File)
    ensures file in AllFiles(f) <==> exists k :: 0 <= k < |Lines(f, above)| && Last(Lines(f, above)[k]) == file
  {
    if f.Cons? {
      var first: seq<Line> := [above + [f.root]];
      var kids, rest := Lines(f.kids, first[0]), Lines(f.rest, above);
      var all := Lines(f, above);
      assert all == first + kids + rest;
      hide Lines;
      LinesOfFiles(f.kids, first[0], file);
      LinesOfFiles(f.rest, above, file);
      assert Last(all[0]) == f.root;
      if k :| 0 <= k < |kids| && Last(kids[k]) == file {
        assert all[1 + k] == kids[k];
      }
      if k :| 0 <= k < |rest| && Last(rest[k]) == file {
        assert all[1 + |kids| + k] == rest[k];
      }
      if k :| 0 <= k < |all| && Last(all[k]) == file {
        assert all[k] == if k == 0 then first[0] else if k <= |kids| then kids[k - 1] else rest[k - 1 - |kids|];
      }
    }
  }

  predicate AreDistinct(lines: seq<Line>) {
    forall i, j :: 0 <= i < j < |lines| ==> Last(lines[i]) != Last(lines[j])
  }

  lemma {:induction false} LinesAreDistinct(f: Forest, at: Place, above: seq<File>, placeOf: Placing)
    requires IsPlaced(f, at, placeOf)
    ensures AreDistinct(Lines(f, above))
  {
    if f.Cons? {
      var first: seq<Line> := [above + [f.root]];
      var kids, rest := Lines(f.kids, first[0]), Lines(f.rest, above);
      var all := Lines(f, above);
      assert all == first + kids + rest;
      LinesAreDistinct(f.kids, placeOf(f.root), first[0], placeOf);
      LinesAreDistinct(f.rest, at, above, placeOf);
      hide Lines;
      assert Last(all[0]) == f.root;
      forall i, j | 0 <= i < j < |all| ensures Last(all[i]) != Last(all[j]) {
        var file, other := Last(all[i]), Last(all[j]);
        assert i > 0 ==> all[i] == if i <= |kids| then kids[i - 1] else rest[i - 1 - |kids|];
        assert all[j] == if j <= |kids| then kids[j - 1] else rest[j - 1 - |kids|];
        if i <= |kids| < j {
          LinesOfFiles(f.rest, above, other);
          LinesOfFiles(f.kids, first[0], file);
          FirstAndRestDiffer(f, at, placeOf, file, other);
        } else if i == 0 {
          LinesOfFiles(f.kids, first[0], other);
          FileIsInside(f.kids, placeOf(f.root), placeOf, other);
        }
      }
    }
  }

  lemma FirstAndRestDiffer(f: Forest, at: Place, placeOf: Placing, file: File, other: File)
    requires f.Cons? && IsPlaced(f, at, placeOf)
    requires (file == f.root || file in AllFiles(f.kids)) && other in AllFiles(f.rest)
    ensures file != other
  {
    FileIsInside(f.rest, at, placeOf, other);
    if file in AllFiles(f.kids) {
      FileIsInside(f.kids, placeOf(f.root), placeOf, file);
      assert placeOf(file)[..|at| + 1] == placeOf(f.root);
    } else {
      assert placeOf(file)[..|at| + 1] == placeOf(file);
    }
  }

  // What is left of the forest.

  /** The line of the file among those that are left. */
  ghost predicate IsLineTo(line: Line, files: set<File>, placeOf: Placing) {
    Last(line) in files && IsWay(line, files, placeOf(Last(line)), placeOf)
  }

  lemma {:induction false} SplicedAre(lines: seq<Line>, keep: File -> bool, r: Line)
    ensures r in SplicedLines(lines, keep)
            <==> exists k :: 0 <= k < |lines| && keep(Last(lines[k])) && r == Kept(lines[k], keep)
  {
    hide Kept;
    if lines != [] {
      var rest := lines[1..];
      SplicedAre(rest, keep, r);
      if k :| 0 <= k < |rest| && keep(Last(rest[k])) && r == Kept(rest[k], keep) {
        assert lines[k + 1] == rest[k];
      }
      if k :| 0 <= k < |lines| && keep(Last(lines[k])) && r == Kept(lines[k], keep) {
        assert k > 0 ==> lines[k] == rest[k - 1];
      }
    }
  }

  lemma LastIsKept(line: Line, keep: File -> bool)
    requires keep(Last(line))
    ensures Kept(line, keep) != [] && Kept(line, keep)[|Kept(line, keep)| - 1] == Last(line)
  {
  }

  lemma {:induction false} SplicedAreDistinct(lines: seq<Line>, keep: File -> bool)
    requires AreDistinct(lines)
    ensures AreDistinct(SplicedLines(lines, keep))
  {
    if lines != [] {
      var rest := lines[1..];
      SplicedAreDistinct(rest, keep);
      hide Kept;
      var r := SplicedLines(rest, keep);
      if keep(Last(lines[0])) {
        forall i | 0 <= i < |r| ensures Last(r[i]) != Last(lines[0]) {
          SplicedAre(rest, keep, r[i]);
          var k :| 0 <= k < |rest| && keep(Last(rest[k])) && r[i] == Kept(rest[k], keep);
          LastIsKept(rest[k], keep);
          assert lines[k + 1] == rest[k];
        }
        LastIsKept(lines[0], keep);
      }
    }
  }

  /** Lines of files that are left are ways to them through what is left. */
  lemma SplicedIsWay(f: Forest, at: Place, keep: File -> bool, placeOf: Placing, r: Line)
    requires IsPlaced(f, at, placeOf)
    ensures r in SplicedLines(Lines(f, []), keep) <==> IsLineTo(r, KeptOf(f, keep), placeOf)
  {
    hide Lines, SplicedLines, Kept, IsPlaced, AllFiles;
    var lines, files := Lines(f, []), KeptOf(f, keep);
    SplicedAre(lines, keep, r);
    if k :| 0 <= k < |lines| && keep(Last(lines[k])) && r == Kept(lines[k], keep) {
      LineIsWay(f, at, [], placeOf, k);
      LastIsKept(lines[k], keep);
      assert lines[k][0..] == lines[k];
      KeptIsWay(lines[k], f, keep, placeOf(Last(r)), placeOf);
    }
    if IsLineTo(r, files, placeOf) {
      LinesOfFiles(f, [], Last(r));
      var k :| 0 <= k < |lines| && Last(lines[k]) == Last(r);
      LineIsWay(f, at, [], placeOf, k);
      assert lines[k][0..] == lines[k];
      KeptIsWay(lines[k], f, keep, placeOf(Last(r)), placeOf);
      WaysAreSame(r, Kept(lines[k], keep), placeOf);
    }
  }

  lemma {:induction false} EachOnce(lines: seq<Line>, r: Line)
    requires AreDistinct(lines)
    ensures multiset(lines)[r] == if r in lines then 1 else 0
  {
    if lines != [] {
      var n := |lines| - 1;
      EachOnce(lines[..n], r);
      assert lines == lines[..n] + [lines[n]];
      assert r == lines[n] ==> r !in lines[..n];
    }
  }

  /** If two trees that follow the file system have the same files left in them, then these files are in the same of
      these directories, wherever the trees start. */
  lemma SameFilesSameLines(f: Forest, at: Place, keep: File -> bool, g: Forest, other: Place, same: File -> bool,
                           placeOf: Placing)
    requires IsPlaced(f, at, placeOf) && IsPlaced(g, other, placeOf) && KeptOf(f, keep) == KeptOf(g, same)
    ensures multiset(Lines(Splice(f, keep), [])) == multiset(Lines(Splice(g, same), []))
  {
    assert Kept([], keep) == [] && Kept([], same) == [];
    hide Lines, SplicedLines, Kept, Splice, IsPlaced, KeptOf;
    SpliceKeepsLines(f, [], keep);
    SpliceKeepsLines(g, [], same);
    var a, b := SplicedLines(Lines(f, []), keep), SplicedLines(Lines(g, []), same);
    LinesAreDistinct(f, at, [], placeOf);
    LinesAreDistinct(g, other, [], placeOf);
    SplicedAreDistinct(Lines(f, []), keep);
    SplicedAreDistinct(Lines(g, []), same);
    var inA: multiset<Line>, inB: multiset<Line> := multiset(a), multiset(b);
    forall r: Line ensures inA[r] == inB[r] {
      SplicedIsWay(f, at, keep, placeOf, r);
      SplicedIsWay(g, other, same, placeOf, r);
      EachOnce(a, r);
      EachOnce(b, r);
    }
  }
}
