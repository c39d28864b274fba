/** Leaving only files that are present in both panes (leave_only_dups() in src/compare.c). */
module Duplicates {
  import opened Panes
  import opened IdLists

  /** State of the main loop. */
  datatype State = State(curr: seq<Item>, other: seq<Item>, i: nat, j: nat, newId: nat)

  predicate IsState(s: State) {
    s.i <= |s.other| && s.j <= |s.curr|
  }

  /** Position of the first of entries that has an id which isn't smaller. */
  function SkipSmaller(items: seq<Item>, from: nat, id: int): (to: nat)
    requires from <= |items|
    ensures from <= to <= |items| && (to < |items| ==> items[to].id >= id)
    ensures forall l :: from <= l < to ==> items[l].id < id
    decreases |items| - from
  {
    if from < |items| && items[from].id < id then SkipSmaller(items, from + 1, id) else from
  }

  /** Position past entries that have the id. */
  function SkipEqual(items: seq<Item>, from: nat, id: int): (to: nat)
    requires from <= |items|
    ensures from <= to <= |items| && (to < |items| ==> items[to].id != id)
    ensures forall l :: from <= l < to ==> items[l].id == id
    decreases |items| - from
  {
    if from < |items| && items[from].id == id then SkipEqual(items, from + 1, id) else from
  }

  function Marked(items: seq<Item>, from: nat, to: nat, id: int): (r: seq<Item>)
    requires from <= to <= |items|
    ensures |r| == |items|
    ensures forall k :: 0 <= k < |items| ==> r[k] == if from <= k < to then items[k].(id := id) else items[k]
  {
    seq(|items|, k requires 0 <= k < |items| => if from <= k < to then items[k].(id := id) else items[k])
  }

  /** A single iteration of the main loop. */
  function Step(s: State): (t: State)
    requires IsState(s) && s.i < |s.other|
    ensures IsState(t) && |t.curr| == |s.curr| && |t.other| == |s.other|
  {
    var id := s.other[s.i].id;
    var j := SkipSmaller(s.curr, s.j, id);
    var curr := Marked(s.curr, s.j, j, -1);
    if j < |curr| && curr[j].id == id then
      var i2, j2 := SkipEqual(s.other, s.i, id), SkipEqual(curr, j, id);
      State(Marked(curr, j, j2, s.newId + 1), Marked(s.other, s.i, i2, s.newId + 1), i2, j2, s.newId + 1)
    else
      State(curr, s.other, s.i, j, s.newId)
  }

  /** State after the specified number of iterations or at the end. */
  function Steps(s: State, n: nat): (t: State)
    requires IsState(s)
    ensures IsState(t) && |t.curr| == |s.curr| && |t.other| == |s.other|
    decreases n
  {
    if n == 0 || s.i == |s.other| then s else Steps(Step(s), n - 1)
  }

  ghost predicate Finishes(s: State)
    requires IsState(s)
  {
    exists n: nat :: Steps(s, n).i == |s.other|
  }

  function Start(curr: seq<Item>, other: seq<Item>): (s: State)
    ensures IsState(s)
  {
    State(curr, other, SkipEqual(other, 0, -1), 0, 0)
  }

  // What comes out of this.

  /** Ids that aren't skipped. */
  function KnownIds(other: seq<Item>): set<int> {
    Ids(other) - {-1}
  }

  /** New ids are assigned in the order of the old ones. */
  function NewId(other: seq<Item>, id: int): nat {
    Rank(KnownIds(other), id)
  }

  function Renumbered(item: Item, other: seq<Item>): Item {
    item.(id := if item.id in KnownIds(other) then NewId(other, item.id) else -1)
  }

  function RenumberedAll(items: seq<Item>, other: seq<Item>): (r: seq<Item>)
    ensures |r| == |items|
    ensures forall k :: 0 <= k < |items| ==> r[k] == Renumbered(items[k], other)
  {
    seq(|items|, k requires 0 <= k < |items| => Renumbered(items[k], other))
  }

  /** Entries before the positions have smaller ids than entries after them. */
  predicate AreApart(curr: seq<Item>, j: nat, other: seq<Item>, i: nat)
    requires i <= |other| && j <= |curr|
  {
    && (forall k, l :: 0 <= k < i && j <= l < |curr| ==> other[k].id == -1 || other[k].id < curr[l].id)
    && (forall k, l :: i <= k < |other| && 0 <= l < j ==> curr[l].id < other[k].id)
    && (0 < i < |other| ==> other[i - 1].id < other[i].id)
    && (i < |other| ==> other[i].id != -1)
  }

  /** Entries before the positions are processed. */
  ghost predicate IsProcessed(s: State, curr: seq<Item>, other: seq<Item>) {
    && |s.curr| == |curr| && |s.other| == |other| && IsState(s)
    && AreApart(curr, s.j, other, s.i)
    && (forall k :: 0 <= k < |other| ==> s.other[k] == if k < s.i then Renumbered(other[k], other) else other[k])
    && (forall k :: 0 <= k < |curr| ==> s.curr[k] == if k < s.j then Renumbered(curr[k], other) else curr[k])
    && s.newId == if s.i == 0 then 0 else NewId(other, other[s.i - 1].id)
  }

  predicate AreInputs(curr: seq<Item>, other: seq<Item>) {
    && Sorted(curr) && Sorted(other)
    && forall k :: 0 <= k < |other| ==> other[k].id >= -1
  }

  lemma {:induction false} StartIsProcessed(curr: seq<Item>, other: seq<Item>)
    requires AreInputs(curr, other)
    ensures IsProcessed(Start(curr, other), curr, other)
  {
  }

  lemma FirstNewId(other: seq<Item>, i: nat)
    requires Sorted(other) && i < |other| && other[i].id != -1
    requires forall k :: 0 <= k < |other| ==> other[k].id >= -1
    requires i > 0 ==> other[i - 1].id < other[i].id
    ensures NewId(other, other[i].id) == 1 + if i == 0 then 0 else NewId(other, other[i - 1].id)
  {
    RankNext(other, KnownIds(other), i);
    assert (set x | x in KnownIds(other) && x <= -1) == {};
  }

  /** The next id is found. */
  lemma {:induction false} StepMatches(s: State, curr: seq<Item>, other: seq<Item>)
    requires AreInputs(curr, other) && IsProcessed(s, curr, other)
    requires s.i < |other| && other[s.i].id in Ids(curr)
    ensures var j := SkipSmaller(s.curr, s.j, other[s.i].id); j < |curr| && curr[j].id == other[s.i].id
    ensures Step(s).i > s.i
  {
    hide NewId, KnownIds;
    var id := other[s.i].id;
    var j := SkipSmaller(s.curr, s.j, id);
    var l :| 0 <= l < |curr| && curr[l].id == id;
    assert l >= s.j && s.curr[l] == curr[l];
    assert l >= j;
  }

  lemma {:induction false} StepSeparates(s: State, curr: seq<Item>, other: seq<Item>)
    requires AreInputs(curr, other) && IsProcessed(s, curr, other)
    requires s.i < |other| && other[s.i].id in Ids(curr)
    ensures AreApart(curr, Step(s).j, other, Step(s).i)
  {
    hide NewId, KnownIds;
    StepMatches(s, curr, other);
    var id, t := other[s.i].id, Step(s);
    assert forall k :: s.i <= k < t.i ==> other[k].id == id;
    assert forall k :: t.i <= k < |other| ==> other[k].id > id;
    assert forall l :: s.j <= l < t.j ==> curr[l].id <= id;
    assert forall l :: t.j <= l < |curr| ==> curr[l].id > id;
  }

  lemma {:induction false} StepRenumbersOther(s: State, curr: seq<Item>, other: seq<Item>)
    requires AreInputs(curr, other) && IsProcessed(s, curr, other)
    requires s.i < |other| && other[s.i].id in Ids(curr)
    ensures var t := Step(s);
            && (forall k :: 0 <= k < |other| ==>
                  t.other[k] == if k < t.i then Renumbered(other[k], other) else other[k])
            && t.newId == NewId(other, other[t.i - 1].id)
  {
    hide NewId, KnownIds, AreApart, Ids, Sorted;
    StepMatches(s, curr, other);
    NextId(s, curr, other);
    assert forall k :: s.i <= k < Step(s).i ==> other[k].id == other[s.i].id;
  }

  lemma {:induction false} SkippedAreUnknown(s: State, curr: seq<Item>, other: seq<Item>)
    requires AreInputs(curr, other) && IsProcessed(s, curr, other) && s.i < |other|
    ensures forall l :: s.j <= l < SkipSmaller(s.curr, s.j, other[s.i].id) ==> curr[l].id !in KnownIds(other)
  {
    hide NewId;
    forall l | s.j <= l < SkipSmaller(s.curr, s.j, other[s.i].id) ensures curr[l].id !in KnownIds(other) {
      assert s.curr[l].id < other[s.i].id;
    }
  }

  lemma {:induction false} StepRenumbersCurr(s: State, curr: seq<Item>, other: seq<Item>)
    requires AreInputs(curr, other) && IsProcessed(s, curr, other)
    requires s.i < |other| && other[s.i].id in Ids(curr)
    ensures var t := Step(s);
            forall k :: 0 <= k < |curr| ==> t.curr[k] == if k < t.j then Renumbered(curr[k], other) else curr[k]
  {
    hide NewId, KnownIds, AreApart, Ids, Sorted;
    StepMatches(s, curr, other);
    NextId(s, curr, other);
    SkippedAreUnknown(s, curr, other);
    var id, t := other[s.i].id, Step(s);
    var j := SkipSmaller(s.curr, s.j, id);
    forall k | 0 <= k < |curr|
      ensures t.curr[k] == if k < t.j then Renumbered(curr[k], other) else curr[k]
    {
      assert j <= k < t.j ==> curr[k].id == id;
    }
  }

  lemma NextId(s: State, curr: seq<Item>, other: seq<Item>)
    requires AreInputs(curr, other) && IsProcessed(s, curr, other) && s.i < |other|
    ensures other[s.i].id in KnownIds(other) && NewId(other, other[s.i].id) == s.newId + 1
  {
    hide NewId;
    FirstNewId(other, s.i);
  }

  lemma {:induction false} StepProcesses(s: State, curr: seq<Item>, other: seq<Item>)
    requires AreInputs(curr, other) && IsProcessed(s, curr, other)
    requires s.i < |other| && other[s.i].id in Ids(curr)
    ensures IsProcessed(Step(s), curr, other) && Step(s).i > s.i
  {
    hide Step, AreApart, Renumbered, NewId;
    StepMatches(s, curr, other);
    StepSeparates(s, curr, other);
    StepRenumbersOther(s, curr, other);
    StepRenumbersCurr(s, curr, other);
  }

  lemma {:induction false} GetsToTheEnd(s: State, curr: seq<Item>, other: seq<Item>)
    requires AreInputs(curr, other) && IsProcessed(s, curr, other) && KnownIds(other) <= Ids(curr)
    ensures Finishes(s)
    decreases |other| - s.i
  {
    if s.i == |other| {
      assert Steps(s, 0).i == |s.other|;
    } else {
      assert other[s.i].id in KnownIds(other);
      StepProcesses(s, curr, other);
      hide Step, IsProcessed, Finishes;
      GetsToTheEnd(Step(s), curr, other);
      FinishesWithStep(s);
    }
  }

  lemma {:induction false} FinishesWithStep(s: State)
    requires IsState(s) && s.i < |s.other| && Finishes(Step(s))
    ensures Finishes(s)
  {
    var n: nat :| Steps(Step(s), n).i == |Step(s).other|;
    assert Steps(s, n + 1).i == |s.other|;
  }

  lemma {:induction false} StepStaysBefore(s: State, curr: seq<Item>, other: seq<Item>, k: nat)
    requires AreInputs(curr, other) && IsProcessed(s, curr, other)
    requires s.i <= k < |other| && other[k].id !in Ids(curr)
    ensures IsState(s) && |s.curr| == |curr| && |s.other| == |other|
    ensures other[s.i].id in Ids(curr) ==> Step(s).i <= k
    ensures other[s.i].id !in Ids(curr) ==> forall l :: s.j <= l < |curr| ==> s.curr[l].id != s.other[s.i].id
  {
    hide NewId, KnownIds;
    if other[s.i].id in Ids(curr) {
      StepMatches(s, curr, other);
    }
  }

  /** The loop never gets past an id which only one of the lists has. */
  lemma {:induction false} StaysBefore(s: State, curr: seq<Item>, other: seq<Item>, k: nat, n: nat)
    requires AreInputs(curr, other) && IsProcessed(s, curr, other)
    requires s.i <= k < |other| && other[k].id !in Ids(curr)
    ensures Steps(s, n).i <= k
    decreases n
  {
    hide Step, IsProcessed;
    if n > 0 {
      StepStaysBefore(s, curr, other, k);
      if other[s.i].id in Ids(curr) {
        StepProcesses(s, curr, other);
        StaysBefore(Step(s), curr, other, k, n - 1);
      } else {
        GetsStuck(s, curr, other, n);
      }
    }
  }

  /** With such an id being the next one iterations change nothing except for skipping smaller ids. */
  lemma {:induction false} GetsStuck(s: State, curr: seq<Item>, other: seq<Item>, n: nat)
    requires IsState(s) && |s.curr| == |curr| && s.i < |s.other|
    requires forall l :: s.j <= l < |curr| ==> s.curr[l].id != s.other[s.i].id
    ensures Steps(s, n).i == s.i
    decreases n
  {
    if n > 0 {
      GetsStuck(Step(s), curr, other, n - 1);
    }
  }

  /** The loop terminates exactly when all files of the other list have duplicates in the current one, which is the
      reason for not giving ids to the rest of files when only duplicates are of interest. */
  lemma {:induction false} FinishesIff(curr: seq<Item>, other: seq<Item>)
    requires AreInputs(curr, other)
    ensures Finishes(Start(curr, other)) <==> KnownIds(other) <= Ids(curr)
  {
    StartIsProcessed(curr, other);
    var s := Start(curr, other);
    if KnownIds(other) <= Ids(curr) {
      GetsToTheEnd(s, curr, other);
    } else {
      var id :| id in KnownIds(other) && id !in Ids(curr);
      var k :| 0 <= k < |other| && other[k].id == id;
      forall n: nat ensures Steps(s, n).i != |s.other| {
        StaysBefore(s, curr, other, k, n);
      }
    }
  }

  // The same with arrays.

  /** Marks leading entries with smaller ids as unmatched. */
  method MarkSmaller(items: array<Item>, from: nat, id: int) returns (to: nat)
    requires from <= items.Length
    modifies items
    ensures to == SkipSmaller(old(items[..]), from, id)
    ensures items[..] == Marked(old(items[..]), from, to, -1)
  {
    to := from;
    while to < items.Length && items[to].id < id
      invariant from <= to <= items.Length
      invariant forall k :: 0 <= k < items.Length ==>
                  items[k] == if from <= k < to then old(items[k]).(id := -1) else old(items[k])
      invariant SkipSmaller(old(items[..]), to, id) == SkipSmaller(old(items[..]), from, id)
    {
      items[to] := items[to].(id := -1);
      to := to + 1;
    }
  }

  /** Changes id of a sequence of identical ids. */
  method MarkEqual(items: array<Item>, from: nat, id: int, newId: int) returns (to: nat)
    requires from < items.Length && items[from].id == id
    modifies items
    ensures to == SkipEqual(old(items[..]), from, id)
    ensures items[..] == Marked(old(items[..]), from, to, newId)
  {
    to := from;
    while to < items.Length && items[to].id == id
      invariant from <= to <= items.Length
      invariant forall k :: 0 <= k < items.Length ==>
                  items[k] == if from <= k < to then old(items[k]).(id := newId) else old(items[k])
      invariant SkipEqual(old(items[..]), to, id) == SkipEqual(old(items[..]), from, id)
    {
      items[to] := items[to].(id := newId);
      to := to + 1;
    }
  }

  method RunStep(curr: array<Item>, other: array<Item>, i: nat, j: nat, newId: nat)
    returns (i2: nat, j2: nat, newId2: nat)
    requires curr != other && i < other.Length && j <= curr.Length
    modifies curr, other
    ensures State(curr[..], other[..], i2, j2, newId2) == Step(State(old(curr[..]), old(other[..]), i, j, newId))
  {
    i2, newId2 := i, newId;
    var id := other[i].id;
    j2 := MarkSmaller(curr, j, id);
    if j2 < curr.Length && curr[j2].id == id {
      newId2 := newId2 + 1;
      i2 := MarkEqual(other, i, id, newId2);
      j2 := MarkEqual(curr, j2, id, newId2);
    }
  }

  lemma NextIsKnown(s: State, curr: seq<Item>, other: seq<Item>)
    requires IsProcessed(s, curr, other) && s.i < |other|
    ensures other[s.i].id in KnownIds(other)
  {
  }

  lemma RestIsUnknown(s: State, curr: seq<Item>, other: seq<Item>)
    requires IsProcessed(s, curr, other) && s.i == |other|
    ensures forall l :: s.j <= l < |curr| ==> Renumbered(curr[l], other) == curr[l].(id := -1)
    ensures s.other == RenumberedAll(other, other)
  {
  }

  /** Gives the same new ids to files that are in both of the lists and -1 to all other files. */
  method LeaveOnlyDups(curr: array<Item>, other: array<Item>)
    requires curr != other && AreInputs(curr[..], other[..]) && KnownIds(other[..]) <= Ids(curr[..])
    modifies curr, other
    ensures other[..] == RenumberedAll(old(other[..]), old(other[..]))
    ensures curr[..] == RenumberedAll(old(curr[..]), old(other[..]))
  {
    hide Step, AreApart, Renumbered, KnownIds, NewId;
    ghost var wasCurr, wasOther := curr[..], other[..];
    StartIsProcessed(wasCurr, wasOther);
    var i: nat, j: nat, newId: nat := 0, 0, 0;
    while i < other.Length && other[i].id == -1
      invariant i <= other.Length
      invariant SkipEqual(wasOther, i, -1) == SkipEqual(wasOther, 0, -1)
    {
      i := i + 1;
    }

    while i < other.Length
      invariant IsProcessed(State(curr[..], other[..], i, j, newId), wasCurr, wasOther)
      decreases other.Length - i
    {
      ghost var s := State(curr[..], other[..], i, j, newId);
      NextIsKnown(s, wasCurr, wasOther);
      StepProcesses(s, wasCurr, wasOther);
      i, j, newId := RunStep(curr, other, i, j, newId);
    }

    ghost var s := State(curr[..], other[..], i, j, newId);
    RestIsUnknown(s, wasCurr, wasOther);
    while j < curr.Length
      invariant j <= curr.Length
      invariant other[..] == RenumberedAll(wasOther, wasOther)
      invariant forall k :: 0 <= k < curr.Length ==>
                  curr[k] == if k < j then Renumbered(wasCurr[k], wasOther) else wasCurr[k]
    {
      curr[j] := curr[j].(id := -1);
      j := j + 1;
    }
  }

  // What the new ids mean.

  /** What remains after removal of unmatched files. */
  function Present(items: seq<Item>): seq<Item> {
    if items == [] then []
    else
      var last := items[|items| - 1];
      Present(items[..|items| - 1]) + (if last.id != -1 then [last] else [])
  }

  /** Exactly files with duplicates in the other list are left, in the same order. */
  lemma {:induction false} DupsAreLeft(items: seq<Item>, other: seq<Item>)
    ensures Present(RenumberedAll(items, other)) == RenumberedAll(Select(items, KnownIds(other), true), other)
  {
    if items != [] {
      var n := |items| - 1;
      var all := RenumberedAll(items, other);
      DupsAreLeft(items[..n], other);
      assert all[..n] == RenumberedAll(items[..n], other);
      hide NewId, KnownIds;
      SelectNext(items, n, KnownIds(other), true);
      assert items[..n + 1] == items;
    }
  }

  lemma SortedHaveSameIds(items: seq<Item>, sorted: seq<Item>)
    requires multiset(items) == multiset(sorted)
    ensures Ids(items) == Ids(sorted)
  {
    forall id ensures id in Ids(items) <==> id in Ids(sorted) {
      if id in Ids(items) {
        var i :| 0 <= i < |items| && items[i].id == id;
        assert items[i] in multiset(sorted);
      }
      if id in Ids(sorted) {
        var i :| 0 <= i < |sorted| && sorted[i].id == id;
        assert sorted[i] in multiset(items);
      }
    }
  }

  /** Lists of a comparison that looks only for duplicates don't make the loop run forever after they are sorted. */
  lemma ComparedListsFinish(curr: seq<Item>, other: seq<Item>, sortedCurr: seq<Item>, sortedOther: seq<Item>)
    requires forall i :: 0 <= i < |other| ==> HasId(curr, other[i].id)
    requires multiset(curr) == multiset(sortedCurr) && multiset(other) == multiset(sortedOther)
    requires AreInputs(sortedCurr, sortedOther)
    ensures Finishes(Start(sortedCurr, sortedOther))
  {
    SortedHaveSameIds(curr, sortedCurr);
    SortedHaveSameIds(other, sortedOther);
    FinishesIff(sortedCurr, sortedOther);
    forall id | id in KnownIds(sortedOther) ensures id in Ids(curr) {
      var i :| 0 <= i < |other| && other[i].id == id;
      assert HasId(curr, id);
    }
  }
}
