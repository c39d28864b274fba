/** Changing order of viewers of a file (src/filetype.c). */
module Viewers {
  import opened Wrappers

  type Group = seq<string>

  datatype Record = Record(command: string, description: string)

  /** Programs to be used for files that match the group of patterns. */
  datatype Assoc = Assoc(mg: Group, records: seq<Record>)

  /** Associations that match or don't match. */
  function Part(list: seq<Assoc>, matches: Group -> bool, matching: bool): seq<Assoc> {
    if list == [] then []
    else (if matches(list[0].mg) == matching then [list[0]] else []) + Part(list[1..], matches, matching)
  }

  /** Viewers in the order of their use. */
  function Flat(list: seq<Assoc>, matches: Group -> bool): seq<Record> {
    if list == [] then []
    else (if matches(list[0].mg) then list[0].records else []) + Flat(list[1..], matches)
  }

  function Rotated<T>(s: seq<T>, n: nat): seq<T>
    requires n <= |s|
  {
    s[n..] + s[..n]
  }

  function Filter(records: seq<Record>, keep: Record -> bool): seq<Record> {
    if records == [] then []
    else (if keep(records[0]) then [records[0]] else []) + Filter(records[1..], keep)
  }

  lemma Joined<T>(a: seq<T>, b: seq<T>, c: seq<T>)
    ensures (a + b) + c == a + (b + c)
    ensures [] + a == a == a + []
  {
  }

  lemma {:induction false} PartAppend(a: seq<Assoc>, b: seq<Assoc>, matches: Group -> bool, matching: bool)
    ensures Part(a + b, matches, matching) == Part(a, matches, matching) + Part(b, matches, matching)
  {
    if a == [] {
      assert a + b == b;
    } else {
      assert (a + b)[1..] == a[1..] + b;
      PartAppend(a[1..], b, matches, matching);
      Joined(if matches(a[0].mg) == matching then [a[0]] else [],
             Part(a[1..], matches, matching), Part(b, matches, matching));
    }
  }

  lemma {:induction false} FlatAppend(a: seq<Assoc>, b: seq<Assoc>, matches: Group -> bool)
    ensures Flat(a + b, matches) == Flat(a, matches) + Flat(b, matches)
  {
    if a == [] {
      assert a + b == b;
    } else {
      assert (a + b)[1..] == a[1..] + b;
      FlatAppend(a[1..], b, matches);
      Joined(if matches(a[0].mg) then a[0].records else [], Flat(a[1..], matches), Flat(b, matches));
    }
  }

  lemma {:induction false} FilterAppend(a: seq<Record>, b: seq<Record>, keep: Record -> bool)
    ensures Filter(a + b, keep) == Filter(a, keep) + Filter(b, keep)
  {
    if a == [] {
      assert a + b == b;
    } else {
      assert (a + b)[1..] == a[1..] + b;
      FilterAppend(a[1..], b, keep);
      Joined(if keep(a[0]) then [a[0]] else [], Filter(a[1..], keep), Filter(b, keep));
    }
  }

  lemma OneAssoc(assoc: Assoc, matches: Group -> bool)
    ensures Flat([assoc], matches) == if matches(assoc.mg) then assoc.records else []
    ensures forall matching :: Part([assoc], matches, matching) == if matches(assoc.mg) == matching then [assoc] else []
    ensures Flat([], matches) == [] && forall matching :: Part([], matches, matching) == []
  {
    assert [assoc][1..] == [];
  }

  lemma {:induction false} FlatOfPart(list: seq<Assoc>, matches: Group -> bool)
    ensures Flat(Part(list, matches, true), matches) == Flat(list, matches)
    ensures Flat(Part(list, matches, false), matches) == []
    ensures Part(Part(list, matches, false), matches, false) == Part(list, matches, false)
    ensures Part(Part(list, matches, true), matches, false) == []
  {
    if list != [] {
      hide Flat, Part;
      var first, rest := [list[0]], list[1..];
      assert list == first + rest;
      OneAssoc(list[0], matches);
      FlatOfPart(rest, matches);
      FlatAppend(first, rest, matches);
      FlatAppend(first, Part(rest, matches, true), matches);
      FlatAppend(first, Part(rest, matches, false), matches);
      PartAppend(first, rest, matches, true);
      PartAppend(first, rest, matches, false);
      PartAppend(first, Part(rest, matches, true), matches, false);
      PartAppend(first, Part(rest, matches, false), matches, false);
      Joined(Part(rest, matches, true), [], []);
      Joined(Part(rest, matches, false), [], []);
      Joined(Flat(rest, matches), [], []);
    }
  }

  /** The part of the association that starts with its n-th record, if there is anything in it. */
  function Tail(assoc: Assoc, n: nat): seq<Assoc>
    requires n <= |assoc.records|
  {
    if n == |assoc.records| then [] else [assoc.(records := assoc.records[n..])]
  }

  /** The part of the association before its n-th record, if there is anything in it. */
  function Head(assoc: Assoc, n: nat): seq<Assoc>
    requires n <= |assoc.records|
  {
    if n == 0 then [] else [assoc.(records := assoc.records[..n])]
  }

  /** The list after moving matching associations up to the n-th record of the i-th of them past the rest of it. */
  function Pivoted(list: seq<Assoc>, matches: Group -> bool, i: nat, n: nat): seq<Assoc>
    requires i < |list| && n <= |list[i].records|
  {
    Part(list[..i], matches, false) + (Tail(list[i], n) + list[i + 1..])
    + (Part(list[..i], matches, true) + Head(list[i], n))
  }

  /** Position of a record among viewers. */
  function Position(list: seq<Assoc>, matches: Group -> bool, i: nat, k: nat): nat
    requires i < |list|
  {
    |Flat(list[..i], matches)| + k
  }

  lemma Cut<T>(s: seq<T>, i: nat)
    requires i < |s|
    ensures s == s[..i] + ([s[i]] + s[i + 1..])
  {
  }

  lemma FlatAt(list: seq<Assoc>, matches: Group -> bool, i: nat)
    requires i < |list|
    ensures Flat(list, matches)
            == Flat(list[..i], matches)
               + (if matches(list[i].mg) then list[i].records else []) + Flat(list[i + 1..], matches)
  {
    hide Flat;
    var a, b, c := list[..i], [list[i]], list[i + 1..];
    Cut(list, i);
    FlatAppend(a, b + c, matches);
    FlatAppend(b, c, matches);
    OneAssoc(list[i], matches);
    Joined(Flat(a, matches), Flat(b, matches), Flat(c, matches));
  }

  lemma PivotedIs(list: seq<Assoc>, matches: Group -> bool, i: nat, n: nat, start: seq<Assoc>)
    requires i < |list| && n <= |list[i].records|
    requires start
             == Part(list[..i], matches, false) + (Tail(list[i], n) + list[i + 1..]) + Part(list[..i], matches, true)
    ensures Pivoted(list, matches, i, n) == start + Head(list[i], n)
  {
    Joined(Part(list[..i], matches, false) + (Tail(list[i], n) + list[i + 1..]),
           Part(list[..i], matches, true), Head(list[i], n));
  }

  lemma FlatCut(assoc: Assoc, n: nat, matches: Group -> bool)
    requires n <= |assoc.records|
    ensures matches(assoc.mg) ==>
              Flat(Tail(assoc, n), matches) == assoc.records[n..] && Flat(Head(assoc, n), matches) == assoc.records[..n]
    ensures !matches(assoc.mg) ==> Flat(Tail(assoc, n), matches) == Flat(Head(assoc, n), matches) == []
    ensures matches(assoc.mg) ==> Part(Tail(assoc, n), matches, false) == Part(Head(assoc, n), matches, false) == []
  {
    OneAssoc(assoc.(records := assoc.records[n..]), matches);
    OneAssoc(assoc.(records := assoc.records[..n]), matches);
  }

  lemma FlatPivoted(list: seq<Assoc>, matches: Group -> bool, i: nat, n: nat, which: Group -> bool)
    requires i < |list| && n <= |list[i].records|
    ensures Flat(Pivoted(list, matches, i, n), which)
            == Flat(Part(list[..i], matches, false), which)
               + (Flat(Tail(list[i], n), which) + Flat(list[i + 1..], which))
               + (Flat(Part(list[..i], matches, true), which) + Flat(Head(list[i], n), which))
  {
    hide Flat, Part, Tail, Head;
    var a, b, c := list[..i], list[i], list[i + 1..];
    FlatAppend(Part(a, matches, false) + (Tail(b, n) + c), Part(a, matches, true) + Head(b, n), which);
    FlatAppend(Part(a, matches, false), Tail(b, n) + c, which);
    FlatAppend(Tail(b, n), c, which);
    FlatAppend(Part(a, matches, true), Head(b, n), which);
  }

  /** Viewers of the file are rotated. */
  lemma PivotedIsRotated(list: seq<Assoc>, matches: Group -> bool, i: nat, n: nat)
    requires i < |list| && n <= |list[i].records| && matches(list[i].mg)
    ensures Position(list, matches, i, n) <= |Flat(list, matches)|
    ensures Flat(Pivoted(list, matches, i, n), matches) == Rotated(Flat(list, matches), Position(list, matches, i, n))
  {
    hide Flat, Part, Tail, Head, Pivoted, Rotated;
    var a, records, c := list[..i], list[i].records, list[i + 1..];
    FlatPivoted(list, matches, i, n, matches);
    FlatOfPart(a, matches);
    FlatCut(list[i], n, matches);
    FlatAt(list, matches, i);
    RotatedJoined(Flat(a, matches), records, Flat(c, matches), n);
    Joined(records[n..] + Flat(c, matches), [], []);
  }

  lemma RotatedJoined<T>(a: seq<T>, b: seq<T>, c: seq<T>, n: nat)
    requires n <= |b|
    ensures Rotated(a + b + c, |a| + n) == b[n..] + c + (a + b[..n])
  {
    var s := a + b + c;
    assert s[|a| + n..] == b[n..] + c;
    assert s[..|a| + n] == a + b[..n];
  }

  /** Associations that don't match stay in the same order. */
  lemma PivotedKeepsOthers(list: seq<Assoc>, matches: Group -> bool, i: nat, n: nat)
    requires i < |list| && n <= |list[i].records| && matches(list[i].mg)
    ensures Part(Pivoted(list, matches, i, n), matches, false) == Part(list, matches, false)
  {
    hide Flat, Part, Tail, Head;
    var a, b, c := list[..i], list[i], list[i + 1..];
    PartAppend(Part(a, matches, false) + (Tail(b, n) + c), Part(a, matches, true) + Head(b, n), matches, false);
    PartAppend(Part(a, matches, false), Tail(b, n) + c, matches, false);
    PartAppend(Tail(b, n), c, matches, false);
    PartAppend(Part(a, matches, true), Head(b, n), matches, false);
    FlatOfPart(a, matches);
    FlatCut(b, n, matches);
    assert list == a + ([b] + c);
    PartAppend(a, [b] + c, matches, false);
    PartAppend([b], c, matches, false);
    OneAssoc(b, matches);
  }

  lemma {:induction false} PartsAreAll(list: seq<Assoc>, matches: Group -> bool, which: Group -> bool)
    ensures multiset(Flat(Part(list, matches, false), which)) + multiset(Flat(Part(list, matches, true), which))
            == multiset(Flat(list, which))
  {
    if list != [] {
      hide Flat, Part;
      var first, rest := [list[0]], list[1..];
      assert list == first + rest;
      PartsAreAll(rest, matches, which);
      OneAssoc(list[0], matches);
      OneAssoc(list[0], which);
      PartAppend(first, rest, matches, true);
      PartAppend(first, rest, matches, false);
      FlatAppend(first, rest, which);
      FlatAppend(Part(first, matches, true), Part(rest, matches, true), which);
      FlatAppend(Part(first, matches, false), Part(rest, matches, false), which);
    }
  }

  /** For any file at all viewers are the same after the move except for their order. */
  lemma PivotedKeepsRecords(list: seq<Assoc>, matches: Group -> bool, i: nat, n: nat, which: Group -> bool)
    requires i < |list| && n <= |list[i].records|
    ensures multiset(Flat(Pivoted(list, matches, i, n), which)) == multiset(Flat(list, which))
  {
    hide Flat, Part, Tail, Head, Pivoted;
    FlatPivoted(list, matches, i, n, which);
    PartsAreAll(list[..i], matches, which);
    FlatAt(list, which, i);
    FlatCut(list[i], n, which);
    assert list[i].records == list[i].records[..n] + list[i].records[n..];
  }

  /** Index of an association after the move, for the i-th one it's index of its part that is moved to the end. */
  function NewIndex(list: seq<Assoc>, matches: Group -> bool, i: nat, n: nat, p: nat): nat
    requires i < |list| && n <= |list[i].records| && p < |list|
  {
    var before, tail := Part(list[..i], matches, false), Tail(list[i], n) + list[i + 1..];
    if p > i then |before| + |Tail(list[i], n)| + (p - i - 1)
    else if p == i || matches(list[p].mg) then |before| + |tail| + |Part(list[..p], matches, true)|
    else |Part(list[..p], matches, false)|
  }

  /** Whether the association can be moved. */
  predicate Participates(list: seq<Assoc>, matches: Group -> bool, i: nat, p: nat)
    requires p < |list|
  {
    p <= i && matches(list[p].mg)
  }

  lemma {:induction false} PartAt(list: seq<Assoc>, matches: Group -> bool, i: nat, p: nat, matching: bool)
    requires p < i <= |list|
    ensures |Part(list[..p], matches, matching)| <= |Part(list[..i], matches, matching)|
    ensures matches(list[p].mg) == matching ==>
              && |Part(list[..p], matches, matching)| < |Part(list[..i], matches, matching)|
              && Part(list[..i], matches, matching)[|Part(list[..p], matches, matching)|] == list[p]
    decreases i
  {
    PartNext(list, i - 1, matches);
    if p < i - 1 {
      PartAt(list, matches, i - 1, p, matching);
    }
  }

  lemma NewIndexIsRight(list: seq<Assoc>, matches: Group -> bool, i: nat, n: nat, p: nat)
    requires i < |list| && n <= |list[i].records| && p < |list| && p != i
    ensures var now := Pivoted(list, matches, i, n);
            NewIndex(list, matches, i, n, p) < |now| && now[NewIndex(list, matches, i, n, p)] == list[p]
  {
    hide Part;
    if p < i {
      PartAt(list, matches, i, p, true);
      PartAt(list, matches, i, p, false);
    }
  }

  /** Associations that don't participate are never overtaken, neither by each other nor by ones that do. */
  lemma NoneIsOvertaken(list: seq<Assoc>, matches: Group -> bool, i: nat, n: nat, p: nat, q: nat)
    requires i < |list| && n <= |list[i].records| && matches(list[i].mg)
    requires p < q < |list| && !Participates(list, matches, i, p)
    ensures NewIndex(list, matches, i, n, p) < NewIndex(list, matches, i, n, q)
    ensures q == i ==> NewIndex(list, matches, i, n, p) < |Part(list[..i], matches, false)|
  {
    hide Part;
    if p < i {
      PartAt(list, matches, i, p, false);
      if q <= i {
        PartAt(list, matches, q, p, false);
      }
    }
  }

  lemma {:induction false} PartSizes(list: seq<Assoc>, matches: Group -> bool)
    ensures |Part(list, matches, false)| + |Part(list, matches, true)| == |list|
  {
    if list != [] {
      PartSizes(list[1..], matches);
    }
  }

  lemma PartNext(list: seq<Assoc>, i: nat, matches: Group -> bool)
    requires i < |list|
    ensures forall matching ::
              Part(list[..i + 1], matches, matching)
              == if matches(list[i].mg) == matching then Part(list[..i], matches, matching) + [list[i]]
                 else Part(list[..i], matches, matching)
    ensures Flat(list[..i + 1], matches)
            == if matches(list[i].mg) then Flat(list[..i], matches) + list[i].records else Flat(list[..i], matches)
  {
    assert list[..i + 1] == list[..i] + [list[i]];
    OneAssoc(list[i], matches);
    PartAppend(list[..i], [list[i]], matches, false);
    PartAppend(list[..i], [list[i]], matches, true);
    FlatAppend(list[..i], [list[i]], matches);
  }

  lemma FilterNext(records: seq<Record>, k: nat, keep: Record -> bool)
    requires k < |records|
    ensures Filter(records[..k + 1], keep)
            == if keep(records[k]) then Filter(records[..k], keep) + [records[k]] else Filter(records[..k], keep)
  {
    assert records[..k + 1] == records[..k] + [records[k]];
    FilterAppend(records[..k], [records[k]], keep);
    assert [records[k]][1..] == [];
  }

  lemma FilterPrev(records: seq<Record>, k: nat, keep: Record -> bool)
    requires k < |records| && !keep(records[k])
    ensures Filter(records[k..], keep) == Filter(records[k + 1..], keep)
  {
    assert records[k..][1..] == records[k + 1..];
  }

  lemma FlatPrev(list: seq<Assoc>, i: nat, matches: Group -> bool)
    requires i < |list|
    ensures Flat(list[i..], matches)
            == if matches(list[i].mg) then list[i].records + Flat(list[i + 1..], matches)
               else Flat(list[i + 1..], matches)
  {
    assert list[i..][1..] == list[i + 1..];
  }

  lemma NothingIsWanted(matches: Group -> bool, wanted: Record -> bool)
    ensures forall matching :: Part([], matches, matching) == []
    ensures Filter(Flat([], matches), wanted) == Filter([], wanted) == []
  {
  }

  /** Position of the first suitable record or number of records if there are none. */
  function FirstOf(records: seq<Record>, wanted: Record -> bool): (p: nat)
    ensures p <= |records|
  {
    if records == [] || wanted(records[0]) then 0 else 1 + FirstOf(records[1..], wanted)
  }

  lemma {:induction false} FirstOfIs(records: seq<Record>, wanted: Record -> bool)
    ensures var p := FirstOf(records, wanted);
            && (p < |records| ==> wanted(records[p]))
            && forall k :: 0 <= k < p ==> !wanted(records[k])
  {
    if records != [] && !wanted(records[0]) {
      FirstOfIs(records[1..], wanted);
      assert forall k :: 0 < k < FirstOf(records, wanted) ==> records[k] == records[1..][k - 1];
    }
  }

  lemma {:induction false} LastOfIs(records: seq<Record>, wanted: Record -> bool)
    ensures var p := LastOf(records, wanted);
            && ((p < |records| && wanted(records[p])) || forall k :: 0 <= k < |records| ==> !wanted(records[k]))
            && forall k :: p < k < |records| ==> !wanted(records[k])
  {
    if records != [] && !wanted(records[|records| - 1]) {
      LastOfIs(records[..|records| - 1], wanted);
    }
  }

  lemma {:induction false} LastIsFirst(records: seq<Record>, wanted: Record -> bool)
    requires forall k :: 0 <= k < |records| ==> !wanted(records[k])
    ensures LastOf(records, wanted) == 0
  {
    if records != [] {
      LastIsFirst(records[..|records| - 1], wanted);
    }
  }

  /** The first record with the command is in the beginning and what was before it is in the end, nothing changes if
      there is no such record. */
  predicate IsOnTop(was: seq<Record>, now: seq<Record>, n: nat, command: string) {
    && n <= |was| && now == was[n..] + was[..n]
    && (n < |was| ==> was[n].command == command)
    && forall k :: 0 <= k < n ==> was[k].command != command
  }

  /** The first installed viewer is in the end along with everything before it. */
  predicate IsCycled(was: seq<Record>, now: seq<Record>, n: nat, exist: string -> bool) {
    && n <= |was|
    && (if n < |was| then exist(was[n].command) && now == was[n + 1..] + was[..n + 1] else now == was)
    && forall k :: 0 <= k < n ==> !exist(was[k].command)
  }

  /** The last installed viewer is in the beginning along with everything after it. */
  predicate IsCycledBack(was: seq<Record>, now: seq<Record>, n: int, exist: string -> bool) {
    && -1 <= n < |was|
    && (if n >= 0 then exist(was[n].command) && now == was[n..] + was[..n] else now == was)
    && forall k :: n < k < |was| ==> !exist(was[k].command)
  }

  lemma {:induction false} FirstIs(records: seq<Record>, wanted: Record -> bool, p: nat)
    requires p < |records| && wanted(records[p]) && Filter(records[..p], wanted) == []
    ensures FirstOf(records, wanted) == p
  {
    if p > 0 {
      assert records[..p][1..] == records[1..][..p - 1];
      FirstIs(records[1..], wanted, p - 1);
    }
  }

  /** Position of the last suitable record or zero if there are none. */
  function LastOf(records: seq<Record>, wanted: Record -> bool): (p: nat)
    ensures p <= |records| && (records != [] ==> p < |records|)
  {
    if records == [] then 0
    else if wanted(records[|records| - 1]) then |records| - 1
    else LastOf(records[..|records| - 1], wanted)
  }

  lemma {:induction false} LastIs(records: seq<Record>, wanted: Record -> bool, p: nat)
    requires p < |records| && wanted(records[p]) && Filter(records[p + 1..], wanted) == []
    ensures LastOf(records, wanted) == p
    decreases |records|
  {
    if p < |records| - 1 {
      var start := records[..|records| - 1];
      assert records[p + 1..] == start[p + 1..] + [records[|records| - 1]];
      FilterAppend(start[p + 1..], [records[|records| - 1]], wanted);
      FilterOne(records[|records| - 1], wanted);
      LastIs(start, wanted, p);
    }
  }

  lemma {:induction false} LastIsNot(records: seq<Record>, wanted: Record -> bool)
    requires Filter(records, wanted) == []
    ensures LastOf(records, wanted) == 0
    decreases |records|
  {
    if records != [] {
      var start := records[..|records| - 1];
      assert records == start + [records[|records| - 1]];
      FilterAppend(start, [records[|records| - 1]], wanted);
      FilterOne(records[|records| - 1], wanted);
      LastIsNot(start, wanted);
    }
  }

  lemma {:induction false} FirstIsNot(records: seq<Record>, wanted: Record -> bool)
    requires Filter(records, wanted) == []
    ensures FirstOf(records, wanted) == |records|
  {
    if records != [] {
      FirstIsNot(records[1..], wanted);
    }
  }

  lemma RotatedIs<T>(s: seq<T>, n: nat)
    requires n <= |s|
    ensures Rotated(s, n) == s[n..] + s[..n]
  {
  }

  lemma NotRotated<T>(s: seq<T>)
    ensures Rotated(s, 0) == s && Rotated(s, |s|) == s
  {
  }

  function Next<T>(s: seq<T>): seq<T> {
    if s == [] then [] else Rotated(s, 1)
  }

  function Prev<T>(s: seq<T>): seq<T> {
    if s == [] then [] else Rotated(s, |s| - 1)
  }

  /** Cycling in one direction is undone by cycling in the other one. */
  lemma PrevOfNext<T>(s: seq<T>)
    ensures Prev(Next(s)) == s && Next(Prev(s)) == s
  {
  }

  /** With nothing suitable before a record rotating around it rotates suitable records by one. */
  lemma RotatedPastFirst(records: seq<Record>, wanted: Record -> bool, p: nat)
    requires p < |records| && wanted(records[p]) && Filter(records[..p], wanted) == []
    ensures Filter(Rotated(records, p + 1), wanted) == Next(Filter(records, wanted))
  {
    hide Filter;
    var a, b, c := records[..p], [records[p]], records[p + 1..];
    assert records == a + (b + c) && records[..p + 1] == a + b;
    FilterAppend(a, b + c, wanted);
    FilterAppend(b, c, wanted);
    FilterAppend(a, b, wanted);
    FilterAppend(c, a + b, wanted);
    FilterOne(records[p], wanted);
    Joined(Filter(b + c, wanted), [], []);
    assert Next(b + Filter(c, wanted)) == Filter(c, wanted) + b;
  }

  lemma RotatedToLast(records: seq<Record>, wanted: Record -> bool, p: nat)
    requires p < |records| && wanted(records[p]) && Filter(records[p + 1..], wanted) == []
    ensures Filter(Rotated(records, p), wanted) == Prev(Filter(records, wanted))
  {
    hide Filter;
    var a, b, c := records[..p], [records[p]], records[p + 1..];
    assert records == a + (b + c) && records[p..] == b + c;
    FilterAppend(a, b + c, wanted);
    FilterAppend(b, c, wanted);
    FilterAppend(b + c, a, wanted);
    FilterOne(records[p], wanted);
    assert Prev(Filter(a, wanted) + b) == b + Filter(a, wanted);
  }

  lemma FilterOne(record: Record, wanted: Record -> bool)
    ensures Filter([record], wanted) == if wanted(record) then [record] else []
  {
    assert [record][1..] == [];
  }

  method SplitAssoc(assoc: Assoc, at: nat) returns (rest: Assoc, prefix: Assoc)
    requires at <= |assoc.records|
    ensures prefix.records + rest.records == assoc.records && |prefix.records| == at
    ensures prefix.mg == rest.mg == assoc.mg
  {
    prefix := Assoc(assoc.mg, assoc.records[..at]);
    rest := assoc.(records := assoc.records[at..]);
  }

  /** Copies a range of one array into another one. */
  method Copy(from: array<Assoc>, start: nat, end: nat, to: array<Assoc>, at: nat)
    requires from != to && start <= end <= from.Length && at + (end - start) <= to.Length
    modifies to
    ensures to[..at + (end - start)] == old(to[..at]) + from[start..end]
  {
    var n := 0;
    while n < end - start
      invariant 0 <= n <= end - start
      invariant to[..at + n] == old(to[..at]) + from[start..start + n]
    {
      to[at + n] := from[start + n];
      assert to[..at + (n + 1)] == to[..at + n] + [from[start + n]];
      assert from[start..start + (n + 1)] == from[start..start + n] + [from[start + n]];
      n := n + 1;
    }
  }

  method CopySeq(from: seq<Assoc>, to: array<Assoc>, at: nat)
    requires at + |from| <= to.Length
    modifies to
    ensures to[..at + |from|] == old(to[..at]) + from
  {
    var n := 0;
    while n < |from|
      invariant n <= |from|
      invariant to[..at + n] == old(to[..at]) + from[..n]
    {
      to[at + n] := from[n];
      assert to[..at + (n + 1)] == to[..at + n] + [from[n]];
      assert from[..n + 1] == from[..n] + [from[n]];
      n := n + 1;
    }
    assert from[..n] == from;
  }

  /** The list differs only in order of associations and in that one of them can be in two parts. */
  ghost predicate IsReordered(list: seq<Assoc>, now: seq<Assoc>, matches: Group -> bool) {
    && Part(now, matches, false) == Part(list, matches, false)
    && |list| <= |now| <= |list| + 1
    && forall which: Group -> bool :: multiset(Flat(now, which)) == multiset(Flat(list, which))
  }

  /** The list is the result of moving matching associations up to some record past the rest of the list. */
  ghost predicate IsMoved(list: seq<Assoc>, now: seq<Assoc>, matches: Group -> bool) {
    now == list ||
    exists i: nat, n: nat :: IsPivoted(list, now, matches, i, n)
  }

  predicate IsPivoted(list: seq<Assoc>, now: seq<Assoc>, matches: Group -> bool, i: nat, n: nat) {
    i < |list| && n <= |list[i].records| && matches(list[i].mg) && now == Pivoted(list, matches, i, n)
  }

  /** Where associations end up after the move: the i-th one is split, `place[i]` is the place of its first part and
      `tail` is the place of the second one, if there are such parts. */
  ghost predicate KeepsPriorities(list: seq<Assoc>, now: seq<Assoc>, matches: Group -> bool, i: nat, n: nat,
                                  place: seq<nat>, tail: nat)
    requires i < |list| && n <= |list[i].records|
  {
    && |place| == |list| && |now| == |list| - 1 + |Head(list[i], n)| + |Tail(list[i], n)|
    && (forall p :: 0 <= p < |list| && p != i ==> place[p] < |now| && now[place[p]] == list[p])
    && Head(list[i], n) == (if place[i] < |now| then [now[place[i]]] else [])
    && (Tail(list[i], n) != [] ==> tail < |now| && Tail(list[i], n) == [now[tail]])
    && (forall p, q :: 0 <= p < q < |list| && !Participates(list, matches, i, p) ==> place[p] < place[q])
    && (forall p :: 0 <= p < i && !Participates(list, matches, i, p) ==> place[p] < tail)
    && (forall q :: i < q < |list| ==> tail + |Tail(list[i], n)| <= place[q])
  }

  lemma SplitIsRight(list: seq<Assoc>, matches: Group -> bool, i: nat, n: nat)
    requires i < |list| && n <= |list[i].records|
    ensures var now, place := Pivoted(list, matches, i, n), NewIndex(list, matches, i, n, i);
            var tail := |Part(list[..i], matches, false)|;
            && |now| == |list| - 1 + |Head(list[i], n)| + |Tail(list[i], n)|
            && Head(list[i], n) == (if place < |now| then [now[place]] else [])
            && (Tail(list[i], n) != [] ==> tail < |now| && Tail(list[i], n) == [now[tail]])
            && forall q :: i < q < |list| ==> tail + |Tail(list[i], n)| <= NewIndex(list, matches, i, n, q)
  {
    hide Part;
    PartSizes(list[..i], matches);
  }

  /** In any move associations that don't participate are overtaken by nothing: there is a mapping of old places to the
      new ones in which they stay before everything they were before of. */
  lemma MovedKeepsPriorities(list: seq<Assoc>, now: seq<Assoc>, matches: Group -> bool, i: nat, n: nat)
    requires IsPivoted(list, now, matches, i, n)
    ensures exists place, tail :: KeepsPriorities(list, now, matches, i, n, place, tail)
  {
    var place := seq(|list|, p requires 0 <= p < |list| => NewIndex(list, matches, i, n, p));
    var tail := |Part(list[..i], matches, false)|;
    hide NewIndex, Pivoted, Part, Head, Tail;
    SplitIsRight(list, matches, i, n);
    forall p | 0 <= p < |list| && p != i ensures place[p] < |now| && now[place[p]] == list[p] {
      NewIndexIsRight(list, matches, i, n, p);
    }
    forall p, q | 0 <= p < q < |list| && !Participates(list, matches, i, p) ensures place[p] < place[q] {
      NoneIsOvertaken(list, matches, i, n, p, q);
    }
    forall p | 0 <= p < i && !Participates(list, matches, i, p) ensures place[p] < tail {
      NoneIsOvertaken(list, matches, i, n, p, i);
    }
    assert KeepsPriorities(list, now, matches, i, n, place, tail);
  }

  /** Viewers of the file are rotated by any move. */
  lemma MovedIsRotated(list: seq<Assoc>, now: seq<Assoc>, matches: Group -> bool)
    requires IsMoved(list, now, matches)
    ensures exists n: nat :: n <= |Flat(list, matches)| && Flat(now, matches) == Rotated(Flat(list, matches), n)
  {
    hide Flat, Pivoted;
    if now == list {
      var flat := Flat(list, matches);
      assert Rotated(flat, 0) == flat;
    } else {
      var i: nat, n: nat :| IsPivoted(list, now, matches, i, n);
      PivotedIsRotated(list, matches, i, n);
    }
  }

  lemma PivotedIsReordered(list: seq<Assoc>, matches: Group -> bool, i: nat, n: nat)
    requires i < |list| && n <= |list[i].records| && matches(list[i].mg) && list[i].records != []
    ensures IsReordered(list, Pivoted(list, matches, i, n), matches)
  {
    PivotedKeepsOthers(list, matches, i, n);
    PartSizes(list[..i], matches);
    forall which: Group -> bool
      ensures multiset(Flat(Pivoted(list, matches, i, n), which)) == multiset(Flat(list, which))
    {
      PivotedKeepsRecords(list, matches, i, n, which);
    }
  }

  /** Position of a record among viewers of the file. */
  lemma FlatPosition(list: seq<Assoc>, matches: Group -> bool, i: nat, k: nat, wanted: Record -> bool)
    requires i < |list| && matches(list[i].mg) && k < |list[i].records|
    ensures var p, flat := Position(list, matches, i, k), Flat(list, matches);
            && p < |flat| && flat[p] == list[i].records[k]
            && Filter(flat[..p], wanted)
               == Filter(Flat(list[..i], matches), wanted) + Filter(list[i].records[..k], wanted)
            && Filter(flat[p + 1..], wanted)
               == Filter(list[i].records[k + 1..], wanted) + Filter(Flat(list[i + 1..], matches), wanted)
  {
    hide Flat, Filter;
    FlatAt(list, matches, i);
    var a, b, c := Flat(list[..i], matches), list[i].records, Flat(list[i + 1..], matches);
    var flat := a + b + c;
    assert flat[..|a| + k] == a + b[..k] && flat[|a| + k + 1..] == b[k + 1..] + c;
    FilterAppend(a, b[..k], wanted);
    FilterAppend(b[k + 1..], c, wanted);
  }

  class ViewerList {
    const mgMatch: (Group, string) -> bool
    const ftExists: string -> bool
    var list: array<Assoc>
    var count: nat

    ghost predicate Valid()
      reads this
    {
      count <= list.Length
    }

    ghost function Contents(): seq<Assoc>
      requires Valid()
      reads this, list
    {
      list[..count]
    }

    function MatchesOf(file: string): Group -> bool {
      var matcher := mgMatch;
      mg => matcher(mg, file)
    }

    /** Whether it's a viewer to look for: the given one or one that's installed. */
    function WantedOf(viewer: Option<string>): Record -> bool {
      var exist := ftExists;
      (record: Record) => if viewer.Some? then record.command == viewer.value else exist(record.command)
    }

    method FindRecord(records: seq<Record>, viewer: Option<string>) returns (found: bool, k: nat)
      ensures k <= |records| && Filter(records[..k], WantedOf(viewer)) == []
      ensures found ==> k < |records| && WantedOf(viewer)(records[k])
      ensures !found ==> k == |records|
    {
      hide Filter;
      ghost var wanted := WantedOf(viewer);
      NothingIsWanted(_ => false, wanted);
      found, k := false, 0;
      while k < |records|
        invariant k <= |records| && Filter(records[..k], wanted) == []
      {
        FilterNext(records, k, wanted);
        if viewer.Some? {
          if records[k].command == viewer.value {
            return true, k;
          }
        } else {
          if ftExists(records[k].command) {
            return true, k;
          }
        }
        k := k + 1;
      }
    }

    /** Finds the first suitable viewer, associations before it are put into two lists. */
    method PickOutUntilFirst(file: string, viewer: Option<string>)
      returns (found: bool, newList: array<Assoc>, prefix: seq<Assoc>, i: nat, j: nat, k: nat)
      requires Valid()
      ensures fresh(newList) && newList.Length == count + 1
      ensures i <= count && Filter(Flat(Contents()[..i], MatchesOf(file)), WantedOf(viewer)) == []
      ensures found ==>
                && i < count && MatchesOf(file)(list[i].mg)
                && k < |list[i].records| && WantedOf(viewer)(list[i].records[k])
                && Filter(list[i].records[..k], WantedOf(viewer)) == []
                && j <= newList.Length && newList[..j] == Part(Contents()[..i], MatchesOf(file), false)
                && prefix == Part(Contents()[..i], MatchesOf(file), true)
      ensures !found ==> i == count
    {
      hide Flat, Part, Filter;
      ghost var all, matches, wanted := Contents(), MatchesOf(file), WantedOf(viewer);
      NothingIsWanted(matches, wanted);
      newList := new Assoc[count + 1](_ => Assoc([], []));
      found, i, j, k, prefix := false, 0, 0, 0, [];
      while i < count
        invariant i <= count && j <= i
        invariant newList[..j] == Part(all[..i], matches, false)
        invariant prefix == Part(all[..i], matches, true)
        invariant Filter(Flat(all[..i], matches), wanted) == []
      {
        var assoc := list[i];
        PartNext(all, i, matches);
        if !mgMatch(assoc.mg, file) {
          newList[j] := assoc;
          assert newList[..j + 1] == newList[..j] + [assoc];
          i, j := i + 1, j + 1;
          continue;
        }

        found, k := FindRecord(assoc.records, viewer);
        if found {
          return;
        }
        assert assoc.records[..k] == assoc.records;
        FilterAppend(Flat(all[..i], matches), assoc.records, wanted);
        prefix := prefix + [assoc];
        i := i + 1;
      }
    }

    method FindLastRecord(records: seq<Record>) returns (found: bool, k: nat)
      ensures found ==>
                k < |records| && WantedOf(None)(records[k]) && Filter(records[k + 1..], WantedOf(None)) == []
      ensures !found ==> Filter(records, WantedOf(None)) == []
    {
      hide Filter;
      NothingIsWanted(_ => false, WantedOf(None));
      var n := |records|;
      assert records[n..] == [];
      while n > 0
        invariant n <= |records| && Filter(records[n..], WantedOf(None)) == []
      {
        if ftExists(records[n - 1].command) {
          return true, n - 1;
        }
        FilterPrev(records, n - 1, WantedOf(None));
        n := n - 1;
      }
      assert records[n..] == records;
      return false, 0;
    }

    /** Finds the last present viewer. */
    method FindLast(file: string) returns (found: bool, l: nat, k: nat)
      requires Valid()
      ensures found ==>
                && l < count && MatchesOf(file)(list[l].mg)
                && k < |list[l].records| && WantedOf(None)(list[l].records[k])
                && Filter(list[l].records[k + 1..], WantedOf(None)) == []
                && Filter(Flat(Contents()[l + 1..], MatchesOf(file)), WantedOf(None)) == []
      ensures !found ==> Filter(Flat(Contents(), MatchesOf(file)), WantedOf(None)) == []
    {
      hide Flat, Filter;
      ghost var all, matches, wanted := Contents(), MatchesOf(file), WantedOf(None);
      NothingIsWanted(matches, wanted);
      var n := count;
      assert all[n..] == [];
      while n > 0
        invariant n <= count && Filter(Flat(all[n..], matches), wanted) == []
      {
        l := n - 1;
        FlatPrev(all, l, matches);
        if mgMatch(list[l].mg, file) {
          found, k := FindLastRecord(list[l].records);
          if found {
            return;
          }
          FilterAppend(list[l].records, Flat(all[n..], matches), wanted);
        }
        n := l;
      }
      assert all[n..] == all;
      return false, 0, 0;
    }

    /** Finds the last present viewer, associations before it are put into two lists. */
    method PickOutUntilLast(file: string)
      returns (found: bool, newList: array<Assoc>, prefix: seq<Assoc>, i: nat, j: nat, k: nat)
      requires Valid()
      ensures fresh(newList) && newList.Length == count + 1
      ensures found ==>
                && i < count && MatchesOf(file)(list[i].mg)
                && k < |list[i].records| && WantedOf(None)(list[i].records[k])
                && Filter(list[i].records[k + 1..], WantedOf(None)) == []
                && Filter(Flat(Contents()[i + 1..], MatchesOf(file)), WantedOf(None)) == []
                && j <= newList.Length && newList[..j] == Part(Contents()[..i], MatchesOf(file), false)
                && prefix == Part(Contents()[..i], MatchesOf(file), true)
      ensures !found ==> Filter(Flat(Contents(), MatchesOf(file)), WantedOf(None)) == []
    {
      hide Flat, Part, Filter;
      ghost var all, matches := Contents(), MatchesOf(file);
      NothingIsWanted(matches, WantedOf(None));
      newList := new Assoc[count + 1](_ => Assoc([], []));
      i, j, prefix := 0, 0, [];
      var l: nat;
      found, l, k := FindLast(file);
      if !found {
        return;
      }
      while i < l
        invariant j <= i <= l
        invariant newList[..j] == Part(all[..i], matches, false)
        invariant prefix == Part(all[..i], matches, true)
      {
        PartNext(all, i, matches);
        if !mgMatch(list[i].mg, file) {
          newList[j] := list[i];
          assert newList[..j + 1] == newList[..j] + [list[i]];
          i, j := i + 1, j + 1;
          continue;
        }
        prefix := prefix + [list[i]];
        i := i + 1;
      }
    }

    /** Makes the viewer the first one for the file. */
    method MakePivotFirst(newList: array<Assoc>, prefix: seq<Assoc>, i: nat, size: nat, k: nat,
                          ghost matches: Group -> bool)
      requires Valid() && newList != list && newList.Length == count + 1
      requires i < count && k < |list[i].records|
      requires size <= newList.Length && newList[..size] == Part(Contents()[..i], matches, false)
      requires prefix == Part(Contents()[..i], matches, true)
      modifies this`list, this`count, list, newList
      ensures Valid() && list == newList
      ensures Contents() == Pivoted(old(Contents()), matches, i, k)
    {
      hide Part, Pivoted;
      ghost var all := Contents();
      PartSizes(all[..i], matches);
      var j := size;
      var needSplit := k != 0;
      var splitPrefix := list[i];
      if needSplit {
        list[i], splitPrefix := SplitAssoc(list[i], k);
      }

      assert list[i..count] == Tail(all[i], k) + all[i + 1..];
      j := Assemble(newList, prefix, i, j);
      assert j == count;
      PivotedIs(all, matches, i, k, list[..j]);
      if needSplit {
        list[count] := splitPrefix;
        count := count + 1;
        assert list[..count] == list[..j] + [splitPrefix];
      }
    }

    /** Replaces the list with the new one to which a part of the old list and the prefix are appended. */
    method Assemble(newList: array<Assoc>, prefix: seq<Assoc>, i: nat, start: nat) returns (j: nat)
      requires Valid() && newList != list && i <= count
      requires start + (count - i) + |prefix| <= newList.Length
      modifies this`list, newList
      ensures list == newList && j == start + (count - i) + |prefix|
      ensures list[..j] == old(newList[..start]) + old(list[i..count]) + prefix
    {
      Copy(list, i, count, newList, start);
      j := start + (count - i);
      CopySeq(prefix, newList, j);
      j := j + |prefix|;
      list := newList;
    }

    /** Makes the viewer the last one for the file. */
    method MakePivotLast(newList: array<Assoc>, prefix: seq<Assoc>, pivot: nat, size: nat, k: nat,
                         ghost matches: Group -> bool)
      requires Valid() && newList != list && newList.Length == count + 1
      requires pivot < count && k < |list[pivot].records|
      requires size <= newList.Length && newList[..size] == Part(Contents()[..pivot], matches, false)
      requires prefix == Part(Contents()[..pivot], matches, true)
      modifies this`list, this`count, list, newList
      ensures Valid() && list == newList
      ensures Contents() == Pivoted(old(Contents()), matches, pivot, k + 1)
    {
      hide Part, Pivoted;
      ghost var all := Contents();
      PartSizes(all[..pivot], matches);
      var i, j := pivot, size;
      var needSplit := k != |list[i].records| - 1;
      var lastItem := list[i];
      if needSplit {
        list[i], lastItem := SplitAssoc(list[i], k + 1);
      } else {
        assert lastItem.records[..k + 1] == lastItem.records;
        i := i + 1;
      }
      assert Head(all[pivot], k + 1) == [lastItem];

      assert list[i..count] == Tail(all[pivot], k + 1) + all[pivot + 1..];
      j := Assemble(newList, prefix, i, j);
      ghost var start := list[..j];
      PivotedIs(all, matches, pivot, k + 1, start);
      if needSplit {
        assert j == count;
        list[count] := lastItem;
        count := count + 1;
      } else {
        assert j == count - 1;
        list[j] := lastItem;
      }
      assert list[..count] == start + [lastItem];
    }

    lemma BringsToTop(flat: seq<Record>, viewer: string)
      ensures var n := FirstOf(flat, WantedOf(Some(viewer))); IsOnTop(flat, Rotated(flat, n), n, viewer)
    {
      FirstOfIs(flat, WantedOf(Some(viewer)));
    }

    lemma Cycles(flat: seq<Record>)
      ensures var n := FirstOf(flat, WantedOf(None)); IsCycled(flat, Rotated(flat, Min(n + 1, |flat|)), n, ftExists)
    {
      var n := FirstOf(flat, WantedOf(None));
      FirstOfIs(flat, WantedOf(None));
      hide FirstOf, Rotated;
      forall k | 0 <= k < n ensures !ftExists(flat[k].command) {
        assert !WantedOf(None)(flat[k]);
      }
      if n < |flat| {
        assert WantedOf(None)(flat[n]);
        RotatedIs(flat, n + 1);
      } else {
        NotRotated(flat);
      }
    }

    lemma CyclesBack(flat: seq<Record>)
      ensures exists n :: IsCycledBack(flat, Rotated(flat, LastOf(flat, WantedOf(None))), n, ftExists)
    {
      var p := LastOf(flat, WantedOf(None));
      LastOfIs(flat, WantedOf(None));
      if p < |flat| && ftExists(flat[p].command) {
        assert IsCycledBack(flat, Rotated(flat, p), p, ftExists);
      } else {
        forall k | 0 <= k < |flat| ensures !WantedOf(None)(flat[k]) {
        }
        LastIsFirst(flat, WantedOf(None));
        assert IsCycledBack(flat, Rotated(flat, p), -1, ftExists);
      }
    }

    /** Moves the viewer to the top of the list of viewers of the file by rotating them. */
    method MoveToTop(file: string, viewer: string)
      requires Valid()
      modifies this`list, this`count, list
      ensures Valid() && (list == old(list) || fresh(list))
      ensures IsReordered(old(Contents()), Contents(), MatchesOf(file))
      ensures IsMoved(old(Contents()), Contents(), MatchesOf(file))
      ensures var flat := old(Flat(Contents(), MatchesOf(file)));
              Flat(Contents(), MatchesOf(file)) == Rotated(flat, FirstOf(flat, WantedOf(Some(viewer))))
      ensures exists n :: IsOnTop(old(Flat(Contents(), MatchesOf(file))), Flat(Contents(), MatchesOf(file)), n, viewer)
    {
      hide Flat, Part, Filter, Pivoted, IsReordered, Rotated, IsOnTop;
      BringsToTop(Flat(Contents(), MatchesOf(file)), viewer);
      ghost var all, matches, wanted := Contents(), MatchesOf(file), WantedOf(Some(viewer));
      ghost var flat := Flat(all, matches);
      var found, newList, prefix, i, j, k := PickOutUntilFirst(file, Some(viewer));
      if found {
        FlatPosition(all, matches, i, k, wanted);
        FirstIs(flat, wanted, Position(all, matches, i, k));
        PivotedIsRotated(all, matches, i, k);
        PivotedIsReordered(all, matches, i, k);
        MakePivotFirst(newList, prefix, i, j, k, matches);
        assert IsPivoted(all, Contents(), matches, i, k);
      } else {
        assert all[..i] == all;
        FirstIsNot(flat, wanted);
        NotRotated(flat);
        StaysOrdered(all, matches);
      }
    }

    /** Moves the first installed viewer of the file past its other viewers. */
    method CycleNext(file: string)
      requires Valid()
      modifies this`list, this`count, list
      ensures Valid() && (list == old(list) || fresh(list))
      ensures IsReordered(old(Contents()), Contents(), MatchesOf(file))
      ensures IsMoved(old(Contents()), Contents(), MatchesOf(file))
      ensures var flat := old(Flat(Contents(), MatchesOf(file)));
              Flat(Contents(), MatchesOf(file)) == Rotated(flat, Min(FirstOf(flat, WantedOf(None)) + 1, |flat|))
      ensures exists n ::
                IsCycled(old(Flat(Contents(), MatchesOf(file))), Flat(Contents(), MatchesOf(file)), n, ftExists)
      ensures Filter(Flat(Contents(), MatchesOf(file)), WantedOf(None))
              == Next(old(Filter(Flat(Contents(), MatchesOf(file)), WantedOf(None))))
    {
      hide Flat, Part, Filter, Pivoted, IsReordered, Rotated, IsCycled;
      Cycles(Flat(Contents(), MatchesOf(file)));
      ghost var all, matches, wanted := Contents(), MatchesOf(file), WantedOf(None);
      var found, newList, prefix, i, j, k := PickOutUntilFirst(file, None);
      if found {
        FlatPosition(all, matches, i, k, wanted);
        FirstIs(Flat(all, matches), wanted, Position(all, matches, i, k));
        RotatedPastFirst(Flat(all, matches), wanted, Position(all, matches, i, k));
        PivotedIsRotated(all, matches, i, k + 1);
        PivotedIsReordered(all, matches, i, k + 1);
        MakePivotLast(newList, prefix, i, j, k, matches);
        assert IsPivoted(all, Contents(), matches, i, k + 1);
      } else {
        assert all[..i] == all;
        FirstIsNot(Flat(all, matches), wanted);
        NotRotated(Flat(all, matches));
        StaysOrdered(all, matches);
      }
    }

    /** Moves the last installed viewer of the file to be the first one. */
    method CyclePrev(file: string)
      requires Valid()
      modifies this`list, this`count, list
      ensures Valid() && (list == old(list) || fresh(list))
      ensures IsReordered(old(Contents()), Contents(), MatchesOf(file))
      ensures IsMoved(old(Contents()), Contents(), MatchesOf(file))
      ensures var flat := old(Flat(Contents(), MatchesOf(file)));
              Flat(Contents(), MatchesOf(file)) == Rotated(flat, LastOf(flat, WantedOf(None)))
      ensures exists n ::
                IsCycledBack(old(Flat(Contents(), MatchesOf(file))), Flat(Contents(), MatchesOf(file)), n, ftExists)
      ensures Filter(Flat(Contents(), MatchesOf(file)), WantedOf(None))
              == Prev(old(Filter(Flat(Contents(), MatchesOf(file)), WantedOf(None))))
    {
      hide Flat, Part, Filter, Pivoted, IsReordered, Rotated, IsCycledBack;
      CyclesBack(Flat(Contents(), MatchesOf(file)));
      ghost var all, matches, wanted := Contents(), MatchesOf(file), WantedOf(None);
      var found, newList, prefix, i, j, k := PickOutUntilLast(file);
      if found {
        FlatPosition(all, matches, i, k, wanted);
        LastIs(Flat(all, matches), wanted, Position(all, matches, i, k));
        RotatedToLast(Flat(all, matches), wanted, Position(all, matches, i, k));
        PivotedIsRotated(all, matches, i, k);
        PivotedIsReordered(all, matches, i, k);
        MakePivotFirst(newList, prefix, i, j, k, matches);
        assert IsPivoted(all, Contents(), matches, i, k);
      } else {
        LastIsNot(Flat(all, matches), wanted);
        NotRotated(Flat(all, matches));
        StaysOrdered(all, matches);
      }
    }

    /** Cycling forward and then back leaves the order of installed viewers as it was. */
    method CycleNextAndPrev(file: string)
      requires Valid()
      modifies this`list, this`count, list
      ensures Valid()
      ensures Filter(Flat(Contents(), MatchesOf(file)), WantedOf(None))
              == old(Filter(Flat(Contents(), MatchesOf(file)), WantedOf(None)))
    {
      PrevOfNext(Filter(Flat(Contents(), MatchesOf(file)), WantedOf(None)));
      CycleNext(file);
      CyclePrev(file);
    }
  }

  lemma StaysOrdered(list: seq<Assoc>, matches: Group -> bool)
    ensures IsReordered(list, list, matches)
  {
  }
}
