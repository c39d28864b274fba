/** Side-by-side comparison guided by identifiers of files: which rows it consists of. */
module Alignment {
  import opened Wrappers

  /** An entry of a list of a comparison.  Entries without a name are separators. */
  datatype Entry = Entry(path: string, name: string, id: int, temporary: bool)

  datatype Row =
    | Pair(curr: Entry, other: Entry)
    | Curr(curr: Entry)
    | Other(other: Entry)

  function CurrOf(rows: seq<Row>): seq<Entry> {
    if rows == [] then []
    else (if rows[0].Other? then [] else [rows[0].curr]) + CurrOf(rows[1..])
  }

  function OtherOf(rows: seq<Row>): seq<Entry> {
    if rows == [] then []
    else (if rows[0].Curr? then [] else [rows[0].other]) + OtherOf(rows[1..])
  }

  /** Number of rows that are not pairs. */
  function OneSided(rows: seq<Row>): nat {
    if rows == [] then 0
    else (if rows[0].Pair? then 0 else 1) + OneSided(rows[1..])
  }

  predicate PairsMatch(rows: seq<Row>) {
    forall r | r in rows && r.Pair? :: r.curr.id == r.other.id
  }

  /** Rows have all entries of both lists in their order and pair only those of equal ids. */
  predicate IsAlignment(rows: seq<Row>, curr: seq<Entry>, other: seq<Entry>) {
    CurrOf(rows) == curr && OtherOf(rows) == other && PairsMatch(rows)
  }

  /** The least number of one-sided rows for the last `i` and `j` entries of the lists. */
  function Distance(curr: seq<Entry>, other: seq<Entry>, i: nat, j: nat): (d: nat)
    requires i <= |curr| && j <= |other|
  {
    if i == 0 then j
    else if j == 0 then i
    else
      var d := Min(Distance(curr, other, i - 1, j) + 1, Distance(curr, other, i, j - 1) + 1);
      if curr[|curr| - i].id == other[|other| - j].id && Distance(curr, other, i - 1, j - 1) <= d
      then Distance(curr, other, i - 1, j - 1) else d
  }

  /** No way of matching the ends of the lists is better. */
  lemma {:induction false} DistanceIsLeast(curr: seq<Entry>, other: seq<Entry>, i: nat, j: nat, rows: seq<Row>)
    requires i <= |curr| && j <= |other|
    requires IsAlignment(rows, curr[|curr| - i..], other[|other| - j..])
    ensures Distance(curr, other, i, j) <= OneSided(rows)
    decreases |rows|
  {
    if rows != [] {
      var i' := if rows[0].Other? then i else i - 1;
      var j' := if rows[0].Curr? then j else j - 1;
      var rest := rows[1..];
      assert CurrOf(rows) == (if rows[0].Other? then [] else [rows[0].curr]) + CurrOf(rest);
      assert OtherOf(rows) == (if rows[0].Curr? then [] else [rows[0].other]) + OtherOf(rest);
      assert i' >= 0 && CurrOf(rest) == curr[|curr| - i'..];
      assert j' >= 0 && OtherOf(rest) == other[|other| - j'..];
      DistanceIsLeast(curr, other, i', j', rest);
      DistanceStep(curr, other, i, j);
    }
  }

  lemma DistanceStep(curr: seq<Entry>, other: seq<Entry>, i: nat, j: nat)
    requires i <= |curr| && j <= |other|
    ensures i > 0 ==> Distance(curr, other, i, j) <= Distance(curr, other, i - 1, j) + 1
    ensures j > 0 ==> Distance(curr, other, i, j) <= Distance(curr, other, i, j - 1) + 1
    ensures i > 0 && j > 0 && curr[|curr| - i].id == other[|other| - j].id ==>
              Distance(curr, other, i, j) <= Distance(curr, other, i - 1, j - 1)
  {
  }

  // ---- rows one after another ----

  lemma {:induction false} CurrOfAppend(rows: seq<Row>, r: Row)
    ensures CurrOf(rows + [r]) == CurrOf(rows) + (if r.Other? then [] else [r.curr])
  {
    if rows == [] {
      assert rows + [r] == [r];
    } else {
      assert (rows + [r])[1..] == rows[1..] + [r];
      CurrOfAppend(rows[1..], r);
    }
  }

  lemma {:induction false} OtherOfAppend(rows: seq<Row>, r: Row)
    ensures OtherOf(rows + [r]) == OtherOf(rows) + (if r.Curr? then [] else [r.other])
  {
    if rows == [] {
      assert rows + [r] == [r];
    } else {
      assert (rows + [r])[1..] == rows[1..] + [r];
      OtherOfAppend(rows[1..], r);
    }
  }

  lemma {:induction false} OneSidedAppend(rows: seq<Row>, r: Row)
    ensures OneSided(rows + [r]) == OneSided(rows) + (if r.Pair? then 0 else 1)
  {
    if rows == [] {
      assert rows + [r] == [r];
    } else {
      assert (rows + [r])[1..] == rows[1..] + [r];
      OneSidedAppend(rows[1..], r);
    }
  }

  datatype Kind = Identical | Different | UniqueLeft | UniqueRight

  /** Where a row belongs, `currIsLeft` says which pane is the current one. */
  function KindOf(r: Row, currIsLeft: bool): Kind {
    match r
    case Curr(_) => if currIsLeft then UniqueLeft else UniqueRight
    case Other(_) => if currIsLeft then UniqueRight else UniqueLeft
    case Pair(c, o) => if c.id == o.id then Identical else Different
  }

  function Separator(id: int): Entry {
    Entry("", "", id, false)
  }

  predicate IsFake(e: Entry) {
    e.name == ""
  }

  function CurrCell(r: Row): Entry {
    if r.Other? then Separator(r.other.id) else r.curr
  }

  function OtherCell(r: Row): Entry {
    if r.Curr? then Separator(r.curr.id) else r.other
  }

  /** Rows of the kinds that are shown. */
  function ShownRows(rows: seq<Row>, shown: set<Kind>, currIsLeft: bool): seq<Row> {
    if rows == [] then []
    else ShownRows(rows[..|rows| - 1], shown, currIsLeft)
         + if KindOf(rows[|rows| - 1], currIsLeft) in shown then [rows[|rows| - 1]] else []
  }

  function Count(rows: seq<Row>, kind: Kind, currIsLeft: bool): nat {
    if rows == [] then 0
    else Count(rows[..|rows| - 1], kind, currIsLeft)
         + if KindOf(rows[|rows| - 1], currIsLeft) == kind then 1 else 0
  }

  function CurrCells(rows: seq<Row>): seq<Entry> {
    if rows == [] then [] else CurrCells(rows[..|rows| - 1]) + [CurrCell(rows[|rows| - 1])]
  }

  function OtherCells(rows: seq<Row>): seq<Entry> {
    if rows == [] then [] else OtherCells(rows[..|rows| - 1]) + [OtherCell(rows[|rows| - 1])]
  }

  /** Panes agree: they are of the same length, rows have the same ids and are not empty. */
  predicate InSync(a: seq<Entry>, b: seq<Entry>) {
    |a| == |b| && forall k | 0 <= k < |a| :: a[k].id == b[k].id && !(IsFake(a[k]) && IsFake(b[k]))
  }

  /** Files of a row have names. */
  predicate HasFile(r: Row) {
    !IsFake(if r.Other? then r.other else r.curr)
  }

  lemma {:induction false} CellsAreInSync(rows: seq<Row>)
    requires PairsMatch(rows) && forall r | r in rows :: HasFile(r)
    ensures InSync(CurrCells(rows), OtherCells(rows)) && |CurrCells(rows)| == |rows|
  {
    if rows != [] {
      var init, last := rows[..|rows| - 1], rows[|rows| - 1];
      assert last in rows && HasFile(last);
      CellsAreInSync(init);
    }
  }

  lemma {:induction false} ShownRowsAreRows(rows: seq<Row>, shown: set<Kind>, currIsLeft: bool)
    ensures forall r | r in ShownRows(rows, shown, currIsLeft) :: r in rows
  {
    if rows != [] {
      ShownRowsAreRows(rows[..|rows| - 1], shown, currIsLeft);
    }
  }

  /** Panes filled with any kinds of rows of an alignment agree. */
  lemma ShownRowsAreInSync(rows: seq<Row>, shown: set<Kind>, currIsLeft: bool)
    requires PairsMatch(rows) && forall r | r in rows :: HasFile(r)
    ensures var s := ShownRows(rows, shown, currIsLeft);
            InSync(CurrCells(s), OtherCells(s)) && |CurrCells(s)| == |s|
  {
    hide ShownRows, CurrCells, OtherCells;
    ShownRowsAreRows(rows, shown, currIsLeft);
    CellsAreInSync(ShownRows(rows, shown, currIsLeft));
  }

  /** Entries of files that aren't going to be removed. */
  predicate AreFiles(list: seq<Entry>) {
    forall e | e in list :: !IsFake(e) && !e.temporary
  }

  /** Rows of an alignment of files have files. */
  lemma {:induction false} RowsHaveFiles(rows: seq<Row>)
    requires AreFiles(CurrOf(rows)) && AreFiles(OtherOf(rows))
    ensures forall r | r in rows :: HasFile(r)
    ensures forall r | r in rows :: !CurrCell(r).temporary && !OtherCell(r).temporary
  {
    if rows != [] {
      RowsHaveFiles(rows[1..]);
      assert rows == [rows[0]] + rows[1..];
    }
  }

  lemma {:induction false} CellsAreLasting(rows: seq<Row>)
    requires forall r | r in rows :: !CurrCell(r).temporary && !OtherCell(r).temporary
    ensures forall e | e in CurrCells(rows) || e in OtherCells(rows) :: !e.temporary
  {
    if rows != [] {
      assert rows[|rows| - 1] in rows;
      CellsAreLasting(rows[..|rows| - 1]);
    }
  }

  /** Panes filled with any kinds of rows of an alignment of files are in the state in which they can be filtered. */
  lemma AlignedPanesAreInSync(rows: seq<Row>, curr: seq<Entry>, other: seq<Entry>, shown: set<Kind>, currIsLeft: bool)
    requires IsAlignment(rows, curr, other) && AreFiles(curr) && AreFiles(other)
    ensures var s := ShownRows(rows, shown, currIsLeft);
            && InSync(CurrCells(s), OtherCells(s))
            && forall e | e in CurrCells(s) || e in OtherCells(s) :: !e.temporary
  {
    hide ShownRows, CurrCells, OtherCells;
    RowsHaveFiles(rows);
    ShownRowsAreInSync(rows, shown, currIsLeft);
    ShownRowsAreRows(rows, shown, currIsLeft);
    CellsAreLasting(ShownRows(rows, shown, currIsLeft));
  }

  /** Every entry is counted, entries of pairs are counted together. */
  lemma {:induction false} EntriesAreCounted(rows: seq<Row>, currIsLeft: bool)
    ensures 2 * (Count(rows, Identical, currIsLeft) + Count(rows, Different, currIsLeft))
            + Count(rows, UniqueLeft, currIsLeft) + Count(rows, UniqueRight, currIsLeft)
            == |CurrOf(rows)| + |OtherOf(rows)|
    ensures OneSided(rows) == Count(rows, UniqueLeft, currIsLeft) + Count(rows, UniqueRight, currIsLeft)
    ensures Count(rows, if currIsLeft then UniqueLeft else UniqueRight, currIsLeft)
            + Count(rows, Identical, currIsLeft) + Count(rows, Different, currIsLeft) == |CurrOf(rows)|
  {
    if rows != [] {
      var init, last := rows[..|rows| - 1], rows[|rows| - 1];
      EntriesAreCounted(init, currIsLeft);
      assert rows == init + [last];
      CurrOfAppend(init, last);
      OtherOfAppend(init, last);
      OneSidedAppend(init, last);
    }
  }

  // ---- what panes show ----

  /** Rows of the wanted forms. */
  function Those(rows: seq<Row>, pairs: bool, currs: bool, others: bool): seq<Row> {
    if rows == [] then []
    else
      var r := rows[|rows| - 1];
      Those(rows[..|rows| - 1], pairs, currs, others)
      + if (r.Pair? && pairs) || (r.Curr? && currs) || (r.Other? && others) then [r] else []
  }

  /** Panes consist of exactly these rows: files that are paired with each other are on the same line. */
  predicate ArePanesOf(a: seq<Entry>, b: seq<Entry>, rows: seq<Row>) {
    && |a| == |b| == |rows|
    && forall k | 0 <= k < |rows| ::
         && (if rows[k].Other? then IsFake(a[k]) else a[k] == rows[k].curr)
         && (if rows[k].Curr? then IsFake(b[k]) else b[k] == rows[k].other)
  }

  /** Files of a pane, without separators. */
  function Files(s: seq<Entry>): seq<Entry> {
    if s == [] then []
    else Files(s[..|s| - 1]) + if IsFake(s[|s| - 1]) then [] else [s[|s| - 1]]
  }

  predicate HasLine(a: seq<Entry>, b: seq<Entry>, x: Entry, y: Entry) {
    exists k :: 0 <= k < |a| && k < |b| && a[k] == x && b[k] == y
  }

  /** Which forms of rows are shown when entries of pairs have equal ids. */
  lemma {:induction false} ShownAreThose(rows: seq<Row>, shown: set<Kind>, currIsLeft: bool)
    requires PairsMatch(rows)
    ensures ShownRows(rows, shown, currIsLeft)
            == Those(rows, Identical in shown, (if currIsLeft then UniqueLeft else UniqueRight) in shown,
                     (if currIsLeft then UniqueRight else UniqueLeft) in shown)
  {
    if rows != [] {
      assert rows[|rows| - 1] in rows;
      ShownAreThose(rows[..|rows| - 1], shown, currIsLeft);
    }
  }

  lemma {:induction false} CellsArePanes(rows: seq<Row>)
    ensures ArePanesOf(CurrCells(rows), OtherCells(rows), rows)
  {
    if rows != [] {
      CellsArePanes(rows[..|rows| - 1]);
    }
  }

  lemma {:induction false} ThoseAre(rows: seq<Row>, pairs: bool, currs: bool, others: bool, r: Row)
    ensures r in Those(rows, pairs, currs, others)
            <==> r in rows && if r.Pair? then pairs else if r.Curr? then currs else others
  {
    if rows != [] {
      var init := rows[..|rows| - 1];
      ThoseAre(init, pairs, currs, others, r);
      assert rows == init + [rows[|rows| - 1]];
    }
  }

  /** All entries that rows have are files. */
  predicate HaveFiles(rows: seq<Row>) {
    forall r | r in rows :: (r.Other? || !IsFake(r.curr)) && (r.Curr? || !IsFake(r.other))
  }

  lemma {:induction false} RowsHaveOnlyFiles(rows: seq<Row>)
    requires AreFiles(CurrOf(rows)) && AreFiles(OtherOf(rows))
    ensures HaveFiles(rows)
  {
    if rows != [] {
      RowsHaveOnlyFiles(rows[1..]);
      assert rows == [rows[0]] + rows[1..];
    }
  }

  /** Files of panes are those of rows, nothing is moved to the other pane. */
  lemma {:induction false} PanesHaveFiles(a: seq<Entry>, b: seq<Entry>, rows: seq<Row>)
    requires ArePanesOf(a, b, rows) && HaveFiles(rows)
    ensures Files(a) == CurrOf(rows) && Files(b) == OtherOf(rows)
  {
    if rows != [] {
      var n := |rows| - 1;
      assert rows == rows[..n] + [rows[n]];
      assert rows[n] in rows;
      PanesHaveFiles(a[..n], b[..n], rows[..n]);
      CurrOfAppend(rows[..n], rows[n]);
      OtherOfAppend(rows[..n], rows[n]);
    }
  }

  /** Either all pairs are on lines of the panes or there isn't a line with two files. */
  lemma PairsAreOnLines(a: seq<Entry>, b: seq<Entry>, rows: seq<Row>, pairs: bool, currs: bool, others: bool)
    requires ArePanesOf(a, b, Those(rows, pairs, currs, others))
    ensures pairs ==> forall r | r in rows && r.Pair? :: HasLine(a, b, r.curr, r.other)
    ensures !pairs ==> forall k | 0 <= k < |a| :: IsFake(a[k]) || IsFake(b[k])
  {
    hide Those;
    var those := Those(rows, pairs, currs, others);
    if pairs {
      forall r | r in rows && r.Pair? ensures HasLine(a, b, r.curr, r.other) {
        ThoseAre(rows, pairs, currs, others, r);
        var k :| 0 <= k < |those| && those[k] == r;
        assert a[k] == r.curr && b[k] == r.other;
      }
    } else {
      forall k | 0 <= k < |a| ensures IsFake(a[k]) || IsFake(b[k]) {
        ThoseAre(rows, pairs, currs, others, those[k]);
      }
    }
  }

  /** Numbers of rows of all kinds follow from the lengths of the lists. */
  lemma {:induction false} RowsAreCounted(rows: seq<Row>, currIsLeft: bool)
    requires PairsMatch(rows)
    ensures OneSided(rows) <= |rows|
    ensures Count(rows, Different, currIsLeft) == 0 && Count(rows, Identical, currIsLeft) == |rows| - OneSided(rows)
    ensures Count(rows, if currIsLeft then UniqueLeft else UniqueRight, currIsLeft)
            == |CurrOf(rows)| + OneSided(rows) - |rows|
    ensures Count(rows, if currIsLeft then UniqueRight else UniqueLeft, currIsLeft)
            == |OtherOf(rows)| + OneSided(rows) - |rows|
  {
    if rows != [] {
      var init, last := rows[..|rows| - 1], rows[|rows| - 1];
      assert last in rows && rows == init + [last];
      RowsAreCounted(init, currIsLeft);
      CurrOfAppend(init, last);
      OtherOfAppend(init, last);
      OneSidedAppend(init, last);
    }
  }

  // ---- alignments of sorted lists ----

  predicate AreSorted(list: seq<Entry>) {
    forall i, j | 0 <= i < j < |list| :: list[i].id <= list[j].id
  }

  lemma FirstRow(r: Row, rest: seq<Row>)
    ensures CurrOf([r] + rest) == (if r.Other? then [] else [r.curr]) + CurrOf(rest)
    ensures OtherOf([r] + rest) == (if r.Curr? then [] else [r.other]) + OtherOf(rest)
    ensures OneSided([r] + rest) == (if r.Pair? then 0 else 1) + OneSided(rest)
  {
    assert ([r] + rest)[1..] == rest;
  }

  lemma NoRows()
    ensures CurrOf([]) == [] && OtherOf([]) == [] && OneSided([]) == 0
  {
  }

  lemma JoinedParts<T>(all: seq<T>, first: seq<T>, rest: seq<T>, b: seq<T>)
    requires all == first + (rest + b)
    ensures all == (first + rest) + b
  {
  }

  lemma {:induction false} JoinedRows(a: seq<Row>, b: seq<Row>)
    ensures CurrOf(a + b) == CurrOf(a) + CurrOf(b)
    ensures OtherOf(a + b) == OtherOf(a) + OtherOf(b)
    ensures OneSided(a + b) == OneSided(a) + OneSided(b)
  {
    hide CurrOf, OtherOf, OneSided;
    if a == [] {
      assert a + b == b;
      NoRows();
    } else {
      var r, rest := a[0], a[1..];
      JoinedRows(rest, b);
      FirstRow(r, rest);
      FirstRow(r, rest + b);
      assert a == [r] + rest;
      assert a + b == [r] + (rest + b);
      JoinedParts(CurrOf(a + b), if r.Other? then [] else [r.curr], CurrOf(rest), CurrOf(b));
      JoinedParts(OtherOf(a + b), if r.Curr? then [] else [r.other], OtherOf(rest), OtherOf(b));
    }
  }

  /** One-sided rows. */
  function Alone(list: seq<Entry>): (rows: seq<Row>)
    ensures CurrOf(rows) == list && OtherOf(rows) == [] && OneSided(rows) == |list| && PairsMatch(rows)
  {
    if list == [] then []
    else
      FirstRow(Curr(list[0]), Alone(list[1..]));
      [Curr(list[0])] + Alone(list[1..])
  }

  /** Whether a one-sided row of the other list has the id. */
  predicate HasOther(rows: seq<Row>, id: int) {
    exists r :: r in rows && r.Other? && r.other.id == id
  }

  lemma {:induction false} OtherIsOfList(rows: seq<Row>, r: Row)
    requires r in rows && r.Other?
    ensures r.other in OtherOf(rows)
  {
    if r != rows[0] {
      OtherIsOfList(rows[1..], r);
    }
  }

  lemma HasRow(rows: seq<Row>, id: int)
    requires HasOther(rows, id)
    ensures rows != []
  {
  }

  lemma HasLaterOther(rows: seq<Row>, id: int)
    requires HasOther(rows, id) && !(rows[0].Other? && rows[0].other.id == id)
    ensures HasOther(rows[1..], id)
  {
    var r :| r in rows && r.Other? && r.other.id == id;
    assert rows == [rows[0]] + rows[1..];
  }

  lemma PairHasTheId(list: seq<Entry>, rows: seq<Row>)
    requires list != [] && HasOther(rows, list[0].id) && PairsMatch(rows) && rows[0].Pair?
    requires AreSorted(list + CurrOf(rows)) && AreSorted(OtherOf(rows))
    ensures rows[0].curr.id == list[0].id && forall e | e in list :: e.id == list[0].id
  {
    var currs, others := list + CurrOf(rows), OtherOf(rows);
    assert currs[|list|] == rows[0].curr && others[0] == rows[0].other;
    var r :| r in rows && r.Other? && r.other.id == list[0].id;
    OtherIsOfList(rows, r);
    hide CurrOf, OtherOf, HasOther;
    var k :| 0 <= k < |others| && others[k] == r.other;
    assert others[0].id <= others[k].id;
    assert rows[0] in rows;
    assert currs[0] == list[0] && currs[0].id <= currs[|list|].id;
    forall i | 0 <= i < |list| ensures list[i].id == list[0].id {
      assert currs[0] == list[0] && currs[i] == list[i];
      assert currs[i].id <= currs[|list|].id;
    }
  }

  lemma TailIsSorted(list: seq<Entry>, from: nat)
    requires AreSorted(list) && from <= |list|
    ensures AreSorted(list[from..])
  {
  }

  /** Matches a row of the other list with the first of one-sided rows of the current one. */
  lemma MatchFirst(list: seq<Entry>, rows: seq<Row>) returns (better: seq<Row>)
    requires list != [] && rows != [] && rows[0].Other? && rows[0].other.id == list[0].id && PairsMatch(rows)
    ensures IsAlignment(better, list + CurrOf(rows), OtherOf(rows))
    ensures OneSided(better) == OneSided(rows) + |list| - 2
  {
    hide Alone;
    var r, rest := rows[0], rows[1..];
    assert rows == [r] + rest;
    FirstRow(r, rest);
    better := [Pair(list[0], r.other)] + (Alone(list[1..]) + rest);
    FirstRow(Pair(list[0], r.other), Alone(list[1..]) + rest);
    JoinedRows(Alone(list[1..]), rest);
    assert [list[0]] + (list[1..] + CurrOf(rest)) == list + CurrOf(rest);
  }

  /** When the rows are preceded by one-sided ones, the first of which has the same id as some one-sided row of the
      other list, the two can be matched. */
  lemma {:induction false} Match(list: seq<Entry>, rows: seq<Row>) returns (better: seq<Row>)
    requires list != [] && HasOther(rows, list[0].id) && PairsMatch(rows)
    requires AreSorted(list + CurrOf(rows)) && AreSorted(OtherOf(rows))
    ensures IsAlignment(better, list + CurrOf(rows), OtherOf(rows))
    ensures OneSided(better) == OneSided(rows) + |list| - 2
    decreases |rows|
  {
    hide AreSorted, HasOther, CurrOf, OtherOf, OneSided;
    HasRow(rows, list[0].id);
    var r, rest := rows[0], rows[1..];
    if r.Other? && r.other.id == list[0].id {
      better := MatchFirst(list, rows);
      return;
    }
    assert rows == [r] + rest;
    FirstRow(r, rest);
    HasLaterOther(rows, list[0].id);
    match r {
      case Other(o) =>
        assert [] + CurrOf(rest) == CurrOf(rest);
        TailIsSorted(OtherOf(rows), 1);
        assert OtherOf(rows)[1..] == OtherOf(rest);
        var later := Match(list, rest);
        better := [r] + later;
        FirstRow(r, later);
      case Curr(c) =>
        assert list + ([c] + CurrOf(rest)) == list + [c] + CurrOf(rest);
        assert [] + OtherOf(rest) == OtherOf(rest);
        better := Match(list + [c], rest);
      case Pair(c, o) =>
        PairHasTheId(list, rows);
        var next := list[1..] + [c];
        assert list + ([c] + CurrOf(rest)) == [list[0]] + (next + CurrOf(rest));
        TailIsSorted(list + CurrOf(rows), 1);
        TailIsSorted(OtherOf(rows), 1);
        assert (list + CurrOf(rows))[1..] == next + CurrOf(rest) && OtherOf(rows)[1..] == OtherOf(rest);
        var later := Match(next, rest);
        better := [Pair(list[0], o)] + later;
        FirstRow(Pair(list[0], o), later);
    }
  }

  function Swapped(rows: seq<Row>): (r: seq<Row>)
    ensures CurrOf(r) == OtherOf(rows) && OtherOf(r) == CurrOf(rows) && OneSided(r) == OneSided(rows)
    ensures |r| == |rows|
    ensures forall k | 0 <= k < |r| :: r[k] == SwappedRow(rows[k])
    ensures PairsMatch(rows) ==> PairsMatch(r)
  {
    if rows == [] then []
    else
      FirstRow(SwappedRow(rows[0]), Swapped(rows[1..]));
      [SwappedRow(rows[0])] + Swapped(rows[1..])
  }

  function SwappedRow(r: Row): Row {
    match r
    case Pair(c, o) => Pair(o, c)
    case Curr(c) => Other(c)
    case Other(o) => Curr(o)
  }

  /** One-sided rows of the same id can be matched if the one of the current list is the first of them. */
  lemma Improve(rows: seq<Row>, i: nat, j: nat) returns (better: seq<Row>)
    requires PairsMatch(rows) && AreSorted(CurrOf(rows)) && AreSorted(OtherOf(rows))
    requires i < j < |rows| && rows[i].Curr? && rows[j].Other? && rows[i].curr.id == rows[j].other.id
    ensures IsAlignment(better, CurrOf(rows), OtherOf(rows)) && OneSided(better) < OneSided(rows)
  {
    hide CurrOf, OtherOf, OneSided, AreSorted;
    var init, r, rest := rows[..i], rows[i], rows[i + 1..];
    assert rows == init + ([r] + rest);
    JoinedRows(init, [r] + rest);
    FirstRow(r, rest);
    assert [] + OtherOf(rest) == OtherOf(rest);
    assert HasOther(rest, r.curr.id) by {
      assert rest[j - i - 1] == rows[j];
    }
    TailIsSorted(CurrOf(rows), |CurrOf(init)|);
    TailIsSorted(OtherOf(rows), |OtherOf(init)|);
    assert CurrOf(rows)[|CurrOf(init)|..] == [r.curr] + CurrOf(rest);
    assert OtherOf(rows)[|OtherOf(init)|..] == OtherOf(rest);
    var later := Match([r.curr], rest);
    better := init + later;
    JoinedRows(init, later);
  }

  lemma ApartIsWorse(rows: seq<Row>, x: Row, y: Row) returns (better: seq<Row>)
    requires PairsMatch(rows) && AreSorted(CurrOf(rows)) && AreSorted(OtherOf(rows))
    requires x in rows && y in rows && x.Curr? && y.Other? && x.curr.id == y.other.id
    ensures IsAlignment(better, CurrOf(rows), OtherOf(rows)) && OneSided(better) < OneSided(rows)
  {
    hide CurrOf, OtherOf, OneSided, AreSorted;
    var i :| 0 <= i < |rows| && rows[i] == x;
    var j :| 0 <= j < |rows| && rows[j] == y;
    if i < j {
      better := Improve(rows, i, j);
    } else {
      var swapped := Improve(Swapped(rows), j, i);
      better := Swapped(swapped);
    }
  }

  /** The best alignment of lists that are sorted by ids doesn't leave entries of the same id on their own on both
      sides. */
  lemma NoneIsApart(rows: seq<Row>, curr: seq<Entry>, other: seq<Entry>)
    requires IsAlignment(rows, curr, other) && AreSorted(curr) && AreSorted(other)
    requires forall rows' | IsAlignment(rows', curr, other) :: OneSided(rows) <= OneSided(rows')
    ensures forall x, y | x in rows && y in rows && x.Curr? && y.Other? :: x.curr.id != y.other.id
  {
    hide CurrOf, OtherOf, OneSided, AreSorted, PairsMatch;
    forall x, y | x in rows && y in rows && x.Curr? && y.Other? ensures x.curr.id != y.other.id {
      if x.curr.id == y.other.id {
        var better := ApartIsWorse(rows, x, y);
        assert false;
      }
    }
  }

  /** Number of entries with the id. */
  function Having(list: seq<Entry>, id: int): nat {
    if list == [] then 0 else (if list[0].id == id then 1 else 0) + Having(list[1..], id)
  }

  /** Number of pairs of entries with the id. */
  function PairsOfId(rows: seq<Row>, id: int): nat {
    if rows == [] then 0
    else (if rows[0].Pair? && rows[0].curr.id == id then 1 else 0) + PairsOfId(rows[1..], id)
  }

  lemma {:induction false} PairsAreOfBoth(rows: seq<Row>, id: int)
    requires PairsMatch(rows)
    ensures PairsOfId(rows, id) <= Having(CurrOf(rows), id) && PairsOfId(rows, id) <= Having(OtherOf(rows), id)
    ensures (forall r | r in rows && r.Curr? :: r.curr.id != id) ==> PairsOfId(rows, id) == Having(CurrOf(rows), id)
    ensures (forall r | r in rows && r.Other? :: r.other.id != id) ==> PairsOfId(rows, id) == Having(OtherOf(rows), id)
  {
    if rows != [] {
      var r, rest := rows[0], rows[1..];
      assert rows == [r] + rest;
      PairsAreOfBoth(rest, id);
      HavingFirst(if r.Other? then [] else [r.curr], CurrOf(rest), id);
      HavingFirst(if r.Curr? then [] else [r.other], OtherOf(rest), id);
    }
  }

  lemma HavingFirst(first: seq<Entry>, rest: seq<Entry>, id: int)
    requires |first| <= 1
    ensures Having(first + rest, id) == (if first != [] && first[0].id == id then 1 else 0) + Having(rest, id)
  {
    if first == [] {
      assert first + rest == rest;
    } else {
      assert (first + rest)[1..] == rest;
    }
  }

  /** There are as many pairs of files with an id as possible: each file of one of the lists is in a pair. */
  lemma PairsAreMost(rows: seq<Row>, curr: seq<Entry>, other: seq<Entry>, id: int)
    requires IsAlignment(rows, curr, other) && AreSorted(curr) && AreSorted(other)
    requires forall rows' | IsAlignment(rows', curr, other) :: OneSided(rows) <= OneSided(rows')
    ensures PairsOfId(rows, id) == Min(Having(curr, id), Having(other, id))
  {
    hide CurrOf, OtherOf, OneSided, AreSorted, Having, PairsOfId;
    NoneIsApart(rows, curr, other);
    PairsAreOfBoth(rows, id);
  }
}
