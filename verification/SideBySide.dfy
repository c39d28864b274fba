/** Filling of two panes with a comparison: fill_side_by_side_by_ids(). */
module SideBySide {
  import opened Alignment
  import opened Wrappers

  datatype Direction = Up | Left | Diag

  datatype Stats = Stats(identical: nat, different: nat, uniqueLeft: nat, uniqueRight: nat)

  /** A step of the path that is recorded in the table loses nothing. */
  predicate IsStep(curr: seq<Entry>, other: seq<Entry>, i: nat, j: nat, step: Direction)
    requires i <= |curr| && j <= |other|
  {
    var d := Distance(curr, other, i, j);
    match step
    case Up => i > 0 && d == Distance(curr, other, i - 1, j) + 1
    case Left => i == j == 0 || (j > 0 && d == Distance(curr, other, i, j - 1) + 1)
    case Diag =>
      && i > 0 && j > 0 && curr[|curr| - i].id == other[|other| - j].id
      && d == Distance(curr, other, i - 1, j - 1)
  }

  /** Row `r` of the table of distances is for the last `i` entries and starts with `n` results. */
  ghost predicate IsRow(d: array2<int>, r: nat, curr: seq<Entry>, other: seq<Entry>, i: nat, n: nat)
    requires r < 2 == d.Length0 && d.Length1 == |other| + 1 && i <= |curr| && n <= |other| + 1
    reads d
  {
    forall j | 0 <= j < n :: d[r, j] == Distance(curr, other, i, j)
  }

  /** All directions are known for less than `i` entries and for the first `n` results for `i`. */
  ghost predicate AreSteps(p: array2<Direction>, curr: seq<Entry>, other: seq<Entry>, i: nat, n: nat)
    requires p.Length0 == |curr| + 1 && p.Length1 == |other| + 1 && i <= |curr| + 1 && n <= |other| + 1
    requires n > 0 ==> i <= |curr|
    reads p
  {
    forall a: nat, b: nat | (a < i && b <= |other|) || (a == i && b < n) :: IsStep(curr, other, a, b, p[a, b])
  }

  /** A single result. */
  method FillCell(curr: seq<Entry>, other: seq<Entry>, i: nat, j: nat, up: int, left: int, diag: int)
    returns (d: int, step: Direction)
    requires i <= |curr| && j <= |other|
    requires i > 0 && j > 0 ==>
               && up == Distance(curr, other, i - 1, j)
               && left == Distance(curr, other, i, j - 1)
               && diag == Distance(curr, other, i - 1, j - 1)
    ensures d == Distance(curr, other, i, j) && IsStep(curr, other, i, j, step)
  {
    if i == 0 {
      d := j;
      step := Left;
    } else if j == 0 {
      d := i;
      step := Up;
    } else {
      var centry := curr[|curr| - i];
      var oentry := other[|other| - j];
      d := Min(up + 1, left + 1);
      step := if d == up + 1 then Up else Left;
      if centry.id == oentry.id && diag <= d {
        d := diag;
        step := Diag;
      }
    }
  }

  /** One row of results: the previous one is in the other row of the table. */
  method FillRow(curr: seq<Entry>, other: seq<Entry>, i: nat, d: array2<int>, p: array2<Direction>)
    requires i <= |curr| && d.Length0 == 2 && d.Length1 == |other| + 1
    requires p.Length0 == |curr| + 1 && p.Length1 == |other| + 1
    requires AreSteps(p, curr, other, i, 0)
    requires i > 0 ==> IsRow(d, 1 - i % 2, curr, other, i - 1, |other| + 1)
    modifies d, p
    ensures AreSteps(p, curr, other, i + 1, 0)
    ensures IsRow(d, i % 2, curr, other, i, |other| + 1)
  {
    hide Distance, IsStep;
    var row := i % 2;
    for j := 0 to |other| + 1
      invariant AreSteps(p, curr, other, i, j)
      invariant i > 0 ==> IsRow(d, 1 - row, curr, other, i - 1, |other| + 1)
      invariant IsRow(d, row, curr, other, i, j)
    {
      var up, left, diag := 0, 0, 0;
      if i > 0 && j > 0 {
        up, left, diag := d[1 - row, j], d[row, j - 1], d[1 - row, j - 1];
      }
      var dist, step := FillCell(curr, other, i, j, up, left, diag);
      d[row, j] := dist;
      p[i, j] := step;
    }
  }

  /** Solves sub-problems keeping only two rows of the table of distances and all directions. */
  method FillPaths(curr: seq<Entry>, other: seq<Entry>) returns (p: array2<Direction>)
    ensures fresh(p) && p.Length0 == |curr| + 1 && p.Length1 == |other| + 1
    ensures AreSteps(p, curr, other, |curr| + 1, 0)
  {
    hide Distance, IsStep;
    var d := new int[2, |other| + 1];
    p := new Direction[|curr| + 1, |other| + 1];
    for i := 0 to |curr| + 1
      invariant AreSteps(p, curr, other, i, 0)
      invariant i > 0 ==> IsRow(d, 1 - i % 2, curr, other, i - 1, |other| + 1)
    {
      FillRow(curr, other, i, d, p);
    }
  }

  function RowOf(curr: Option<Entry>, other: Option<Entry>): Row
    requires curr.Some? || other.Some?
  {
    if other.None? then Curr(curr.value)
    else if curr.None? then Other(other.value)
    else Pair(curr.value, other.value)
  }

  function AddStats(a: Stats, rows: seq<Row>, currIsLeft: bool): Stats {
    Stats(a.identical + Count(rows, Identical, currIsLeft), a.different + Count(rows, Different, currIsLeft),
          a.uniqueLeft + Count(rows, UniqueLeft, currIsLeft), a.uniqueRight + Count(rows, UniqueRight, currIsLeft))
  }

  /** Statistics with one more row. */
  function AddRow(a: Stats, kind: Kind): Stats {
    match kind
    case Identical => a.(identical := a.identical + 1)
    case Different => a.(different := a.different + 1)
    case UniqueLeft => a.(uniqueLeft := a.uniqueLeft + 1)
    case UniqueRight => a.(uniqueRight := a.uniqueRight + 1)
  }

  /** Contents of the views and statistics made of rows. */
  datatype Filled = Filled(curr: seq<Entry>, other: seq<Entry>, stats: Stats)

  function Fill(start: Filled, rows: seq<Row>, shown: set<Kind>, currIsLeft: bool): Filled {
    var s := ShownRows(rows, shown, currIsLeft);
    Filled(start.curr + CurrCells(s), start.other + OtherCells(s), AddStats(start.stats, rows, currIsLeft))
  }

  lemma ShownNext(rows: seq<Row>, r: Row, shown: set<Kind>, currIsLeft: bool)
    ensures var was, now := ShownRows(rows, shown, currIsLeft), ShownRows(rows + [r], shown, currIsLeft);
            if KindOf(r, currIsLeft) in shown then
              CurrCells(now) == CurrCells(was) + [CurrCell(r)] && OtherCells(now) == OtherCells(was) + [OtherCell(r)]
            else now == was
  {
    var s := ShownRows(rows, shown, currIsLeft);
    assert (rows + [r])[..|rows|] == rows;
    assert (s + [r])[..|s|] == s && s + [] == s;
  }

  lemma CountNext(rows: seq<Row>, r: Row, kind: Kind, currIsLeft: bool)
    ensures Count(rows + [r], kind, currIsLeft)
            == Count(rows, kind, currIsLeft) + if KindOf(r, currIsLeft) == kind then 1 else 0
  {
    assert (rows + [r])[..|rows|] == rows;
  }

  lemma FillNext(start: Filled, rows: seq<Row>, r: Row, shown: set<Kind>, currIsLeft: bool)
    ensures var was, now := Fill(start, rows, shown, currIsLeft), Fill(start, rows + [r], shown, currIsLeft);
            && now.stats == AddRow(was.stats, KindOf(r, currIsLeft))
            && now.curr == was.curr + (if KindOf(r, currIsLeft) in shown then [CurrCell(r)] else [])
            && now.other == was.other + (if KindOf(r, currIsLeft) in shown then [OtherCell(r)] else [])
  {
    hide Count, ShownRows, CurrCells, OtherCells, KindOf;
    ShownNext(rows, r, shown, currIsLeft);
    CountNext(rows, r, Identical, currIsLeft);
    CountNext(rows, r, Different, currIsLeft);
    CountNext(rows, r, UniqueLeft, currIsLeft);
    CountNext(rows, r, UniqueRight, currIsLeft);
  }

  /** The entry is added to the end of the list or the list stays the same. */
  predicate IsAdded(was: seq<Entry>, now: seq<Entry>, e: Entry, isShown: bool) {
    now == if isShown then was + [e] else was
  }

  lemma FillNothing(start: Filled, shown: set<Kind>, currIsLeft: bool)
    ensures Fill(start, [], shown, currIsLeft) == start
  {
  }

  /** The pair of views and statistics of their comparison. */
  class DiffViews {
    const currIsLeft: bool
    var curr: seq<Entry>
    var other: seq<Entry>
    var stats: Stats

    ghost function Contents(): Filled
      reads this
    {
      Filled(curr, other, stats)
    }

    /** put_side_by_side_pair(): one of the entries might be missing. */
    method PutSideBySidePair(c: Option<Entry>, o: Option<Entry>, shown: set<Kind>)
      requires c.Some? || o.Some?
      modifies this
      ensures stats == AddRow(old(stats), KindOf(RowOf(c, o), currIsLeft))
      ensures var r := RowOf(c, o);
              && curr == old(curr) + (if KindOf(r, currIsLeft) in shown then [CurrCell(r)] else [])
              && other == old(other) + (if KindOf(r, currIsLeft) in shown then [OtherCell(r)] else [])
      ensures c.Some? && o.Some? && c.value.id == o.value.id ==>
                && stats == old(stats.(identical := stats.identical + 1))
                && IsAdded(old(curr), curr, c.value, Identical in shown)
                && IsAdded(old(other), other, o.value, Identical in shown)
      ensures c.Some? && o.Some? && c.value.id != o.value.id ==>
                && stats == old(stats.(different := stats.different + 1))
                && IsAdded(old(curr), curr, c.value, Different in shown)
                && IsAdded(old(other), other, o.value, Different in shown)
      ensures c.None? || o.None? ==>
                if c.Some? == currIsLeft then stats == old(stats.(uniqueLeft := stats.uniqueLeft + 1))
                else stats == old(stats.(uniqueRight := stats.uniqueRight + 1))
      ensures c.None? || o.None? ==>
                var isShown := (if c.Some? == currIsLeft then UniqueLeft else UniqueRight) in shown;
                && IsAdded(old(curr), curr, if c.Some? then c.value else Separator(o.value.id), isShown)
                && IsAdded(old(other), other, if o.Some? then o.value else Separator(c.value.id), isShown)
    {
      var kind;
      if o.None? {
        kind := if currIsLeft then UniqueLeft else UniqueRight;
      } else if c.None? {
        kind := if currIsLeft then UniqueRight else UniqueLeft;
      } else {
        kind := if c.value.id == o.value.id then Identical else Different;
      }

      match kind {
        case UniqueLeft => stats := stats.(uniqueLeft := stats.uniqueLeft + 1);
        case UniqueRight => stats := stats.(uniqueRight := stats.uniqueRight + 1);
        case Identical => stats := stats.(identical := stats.identical + 1);
        case Different => stats := stats.(different := stats.different + 1);
      }

      if kind in shown {
        if c.Some? {
          curr := curr + [c.value];
        } else {
          curr := curr + [Separator(o.value.id)];
        }
        if o.Some? {
          other := other + [o.value];
        } else {
          other := other + [Separator(c.value.id)];
        }
      }
    }

    /** fill_side_by_side_by_ids(): both lists in as few rows as possible. */
    method FillSideBySideByIds(currList: seq<Entry>, otherList: seq<Entry>, shown: set<Kind>)
      returns (ghost rows: seq<Row>)
      modifies this
      ensures IsAlignment(rows, currList, otherList)
      ensures forall rows' | IsAlignment(rows', currList, otherList) :: OneSided(rows) <= OneSided(rows')
      ensures Contents() == Fill(old(Contents()), rows, shown, currIsLeft)
      ensures old(curr) == old(other) == [] && AreFiles(currList) && AreFiles(otherList) ==>
                InSync(curr, other) && forall e | e in curr || e in other :: !e.temporary
      ensures |rows| >= OneSided(rows)
      ensures stats.different == old(stats.different)
      ensures stats.identical == old(stats.identical) + |rows| - OneSided(rows)
      ensures stats.uniqueLeft
              == old(stats.uniqueLeft) + |if currIsLeft then currList else otherList| + OneSided(rows) - |rows|
      ensures stats.uniqueRight
              == old(stats.uniqueRight) + |if currIsLeft then otherList else currList| + OneSided(rows) - |rows|
      ensures old(curr) == old(other) == [] && AreFiles(currList) && AreFiles(otherList) ==>
                AreFilled(curr, other, rows, shown, currIsLeft)
    {
      hide Distance, IsStep, Fill, InSync, AreFiles, CurrOf, OtherOf, OneSided, AreFilled, IsAdded;
      NoRows();
      var p := FillPaths(currList, otherList);
      var i: nat, j: nat := |currList|, |otherList|;
      rows := [];
      FillNothing(Contents(), shown, currIsLeft);
      while i != 0 || j != 0
        invariant i <= |currList| && j <= |otherList|
        invariant CurrOf(rows) == currList[..|currList| - i] && OtherOf(rows) == otherList[..|otherList| - j]
        invariant AreSteps(p, currList, otherList, |currList| + 1, 0) && PairsMatch(rows)
        invariant OneSided(rows) + Distance(currList, otherList, i, j)
                  == Distance(currList, otherList, |currList|, |otherList|)
        invariant Contents() == Fill(old(Contents()), rows, shown, currIsLeft)
        decreases i + j
      {
        StepLosesNothing(currList, otherList, i, j, p[i, j]);
        ghost var r;
        match p[i, j] {
          case Up =>
            r := Curr(currList[|currList| - i]);
            PutSideBySidePair(Some(currList[|currList| - i]), None, shown);
            i := i - 1;
          case Left =>
            r := Other(otherList[|otherList| - j]);
            PutSideBySidePair(None, Some(otherList[|otherList| - j]), shown);
            j := j - 1;
          case Diag =>
            r := Pair(currList[|currList| - i], otherList[|otherList| - j]);
            PutSideBySidePair(Some(currList[|currList| - i]), Some(otherList[|otherList| - j]), shown);
            i, j := i - 1, j - 1;
        }
        CurrOfAppend(rows, r);
        OtherOfAppend(rows, r);
        OneSidedAppend(rows, r);
        FillNext(old(Contents()), rows, r, shown, currIsLeft);
        rows := rows + [r];
      }
      DistanceAtEnd(currList, otherList);
      forall rows' | IsAlignment(rows', currList, otherList) ensures OneSided(rows) <= OneSided(rows') {
        assert currList[0..] == currList && otherList[0..] == otherList;
        DistanceIsLeast(currList, otherList, |currList|, |otherList|, rows');
      }
      if old(curr) == old(other) == [] && AreFiles(currList) && AreFiles(otherList) {
        FilledAreInSync(old(Contents()), rows, currList, otherList, shown, currIsLeft);
        RowsAreFilled(old(Contents()), rows, currList, otherList, shown, currIsLeft);
      }
      FilledAreCounted(old(Contents()), rows, shown, currIsLeft);
    }
  }

  /** Views show those rows of the alignment the forms of which are asked for and nothing else: pairs are either on
      lines of views or no line has two files, files of each of the lists are in the view of that list. */
  ghost predicate AreFilled(curr: seq<Entry>, other: seq<Entry>, rows: seq<Row>, shown: set<Kind>, currIsLeft: bool) {
    var those := Those(rows, Identical in shown, (if currIsLeft then UniqueLeft else UniqueRight) in shown,
                       (if currIsLeft then UniqueRight else UniqueLeft) in shown);
    && ArePanesOf(curr, other, those)
    && Files(curr) == CurrOf(those) && Files(other) == OtherOf(those)
    && (Identical in shown ==> forall r | r in rows && r.Pair? :: HasLine(curr, other, r.curr, r.other))
    && (Identical !in shown ==> forall k | 0 <= k < |curr| :: IsFake(curr[k]) || IsFake(other[k]))
  }

  lemma RowsAreFilled(start: Filled, rows: seq<Row>, currList: seq<Entry>, otherList: seq<Entry>, shown: set<Kind>,
                      currIsLeft: bool)
    requires start.curr == start.other == []
    requires IsAlignment(rows, currList, otherList) && AreFiles(currList) && AreFiles(otherList)
    ensures var filled := Fill(start, rows, shown, currIsLeft);
            AreFilled(filled.curr, filled.other, rows, shown, currIsLeft)
  {
    hide ShownRows, Those, CurrCells, OtherCells, AreFiles, ArePanesOf, Files, HasLine, CurrOf, OtherOf, IsFake;
    var pairs, currs := Identical in shown, (if currIsLeft then UniqueLeft else UniqueRight) in shown;
    var others := (if currIsLeft then UniqueRight else UniqueLeft) in shown;
    var those, filled := Those(rows, pairs, currs, others), Fill(start, rows, shown, currIsLeft);
    ShownAreThose(rows, shown, currIsLeft);
    CellsArePanes(those);
    assert filled.curr == CurrCells(those) && filled.other == OtherCells(those);
    PairsAreOnLines(filled.curr, filled.other, rows, pairs, currs, others);
    RowsHaveOnlyFiles(rows);
    forall r | r in those ensures r in rows {
      ThoseAre(rows, pairs, currs, others, r);
    }
    PanesHaveFiles(filled.curr, filled.other, those);
  }

  lemma FilledAreCounted(start: Filled, rows: seq<Row>, shown: set<Kind>, currIsLeft: bool)
    requires PairsMatch(rows)
    ensures OneSided(rows) <= |rows|
    ensures var was, now := start.stats, Fill(start, rows, shown, currIsLeft).stats;
            && now.different == was.different
            && now.identical == was.identical + |rows| - OneSided(rows)
            && now.uniqueLeft == was.uniqueLeft + |if currIsLeft then CurrOf(rows) else OtherOf(rows)|
                                 + OneSided(rows) - |rows|
            && now.uniqueRight == was.uniqueRight + |if currIsLeft then OtherOf(rows) else CurrOf(rows)|
                                  + OneSided(rows) - |rows|
  {
    hide Count, ShownRows, CurrCells, OtherCells, CurrOf, OtherOf, OneSided;
    RowsAreCounted(rows, currIsLeft);
  }

  lemma FilledAreInSync(start: Filled, rows: seq<Row>, curr: seq<Entry>, other: seq<Entry>, shown: set<Kind>,
                        currIsLeft: bool)
    requires start.curr == start.other == []
    requires IsAlignment(rows, curr, other) && AreFiles(curr) && AreFiles(other)
    ensures var filled := Fill(start, rows, shown, currIsLeft);
            && InSync(filled.curr, filled.other)
            && forall e | e in filled.curr || e in filled.other :: !e.temporary
  {
    hide ShownRows, CurrCells, OtherCells, InSync, IsAlignment, AreFiles;
    var s := ShownRows(rows, shown, currIsLeft);
    AlignedPanesAreInSync(rows, curr, other, shown, currIsLeft);
    assert [] + CurrCells(s) == CurrCells(s) && [] + OtherCells(s) == OtherCells(s);
  }

  lemma DistanceAtEnd(curr: seq<Entry>, other: seq<Entry>)
    ensures Distance(curr, other, 0, 0) == 0
  {
  }

  lemma StepLosesNothing(curr: seq<Entry>, other: seq<Entry>, i: nat, j: nat, step: Direction)
    requires i <= |curr| && j <= |other| && IsStep(curr, other, i, j, step) && (i != 0 || j != 0)
    ensures step != Left ==> i > 0
    ensures step != Up ==> j > 0
    ensures step.Diag? ==> curr[|curr| - i].id == other[|other| - j].id
    ensures Distance(curr, other, i, j) == (if step.Diag? then 0 else 1)
              + Distance(curr, other, if step.Left? then i else i - 1, if step.Up? then j else j - 1)
  {
    hide Distance;
  }
}
