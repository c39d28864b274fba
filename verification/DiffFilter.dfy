/** Removal of files from one of two panes of a comparison: filter_in_compare(). */
module DiffFilter {
  import opened Alignment

  /** Entries that are not going to be removed. */
  function Lasting(s: seq<Entry>): (r: seq<Entry>)
    ensures |r| <= |s|
  {
    if s == [] then []
    else Lasting(s[..|s| - 1]) + if s[|s| - 1].temporary then [] else [s[|s| - 1]]
  }

  /** Index of the entry at `p` among lasting ones. */
  function Rank(s: seq<Entry>, p: nat): (r: nat)
    requires p <= |s|
    ensures r <= p
  {
    if p == 0 then 0 else Rank(s, p - 1) + if s[p - 1].temporary then 0 else 1
  }

  lemma {:induction false} RankIsLength(s: seq<Entry>, p: nat)
    requires p <= |s|
    ensures |Lasting(s[..p])| == Rank(s, p)
  {
    if p > 0 {
      RankIsLength(s, p - 1);
      assert s[..p][..p - 1] == s[..p - 1];
    }
  }

  lemma {:induction false} RankStep(s: seq<Entry>, p: nat, q: nat)
    requires p <= q <= |s|
    ensures Rank(s, p) <= Rank(s, q) <= Rank(s, p) + (q - p)
    ensures p < q && !s[p].temporary ==> Rank(s, p) < Rank(s, q)
  {
    if p < q {
      RankStep(s, p, q - 1);
    }
  }

  /** A lasting entry is where its rank says. */
  lemma {:induction false} LastingAt(s: seq<Entry>, p: nat)
    requires p < |s| && !s[p].temporary
    ensures Rank(s, p) < |Lasting(s)| && Lasting(s)[Rank(s, p)] == s[p]
  {
    var n := |s| - 1;
    if p < n {
      LastingAt(s[..n], p);
      RankPrefix(s, n, p);
    } else {
      RankIsLength(s, n);
    }
  }

  lemma {:induction false} RankPrefix(s: seq<Entry>, n: nat, p: nat)
    requires p <= n <= |s|
    ensures Rank(s[..n], p) == Rank(s, p)
  {
    if p > 0 {
      RankPrefix(s, n, p - 1);
    }
  }

  /** Every index among lasting entries is a rank. */
  lemma {:induction false} OfRank(s: seq<Entry>, t: nat) returns (p: nat)
    requires t < |Lasting(s)|
    ensures p < |s| && !s[p].temporary && Rank(s, p) == t
  {
    var n := |s| - 1;
    if t < |Lasting(s[..n])| {
      p := OfRank(s[..n], t);
      RankPrefix(s, n, p);
    } else {
      p := n;
      RankIsLength(s, n);
    }
  }

  function Marked(e: Entry): Entry {
    e.(temporary := true)
  }

  lemma {:induction false} RankAfterMark(s: seq<Entry>, m: nat, p: nat)
    requires m < |s| && p <= |s| && !s[m].temporary
    ensures Rank(s[m := Marked(s[m])], p) == Rank(s, p) - if m < p then 1 else 0
  {
    if p > 0 {
      RankAfterMark(s, m, p - 1);
    }
  }

  lemma LastingOfLast(s: seq<Entry>)
    requires s != []
    ensures var n := |s| - 1;
            Lasting(s) == Lasting(s[..n]) + if s[n].temporary then [] else [s[n]]
  {
  }

  lemma RemovedFromFirst(a: seq<Entry>, b: seq<Entry>, r: nat)
    requires r < |a|
    ensures (a + b)[..r] + (a + b)[r + 1..] == a[..r] + a[r + 1..] + b
  {
  }

  /** Marking an entry removes it from the lasting ones. */
  lemma {:induction false} LastingAfterMark(s: seq<Entry>, m: nat)
    requires m < |s| && !s[m].temporary
    ensures var r := Rank(s, m);
            && r < |Lasting(s)|
            && Lasting(s[m := Marked(s[m])]) == Lasting(s)[..r] + Lasting(s)[r + 1..]
  {
    var n, s' := |s| - 1, s[m := Marked(s[m])];
    LastingAt(s, m);
    LastingOfLast(s);
    LastingOfLast(s');
    hide Lasting, Rank;
    if m < n {
      assert s'[..n] == s[..n][m := Marked(s[m])];
      LastingAfterMark(s[..n], m);
      RankPrefix(s, n, m);
      RemovedFromFirst(Lasting(s[..n]), if s[n].temporary then [] else [s[n]], Rank(s, m));
    } else {
      assert s'[..n] == s[..n];
      RankIsLength(s, n);
    }
  }

  /** Entries that are not lasting are noticed by their rank. */
  lemma {:induction false} RankOfRest(s: seq<Entry>, i: nat, n: nat)
    requires i <= n <= |s|
    ensures Rank(s, i) <= Rank(s, n) <= Rank(s, i) + (n - i)
    ensures Rank(s, n) == Rank(s, i) + (n - i) <==> forall p | i <= p < n :: !s[p].temporary
    decreases n - i
  {
    if i < n {
      RankOfRest(s, i, n - 1);
    }
  }

  /** All entries from `a` to `b` are in the same group. */
  predicate SameRun(s: seq<Entry>, a: int, b: int)
    requires 0 <= a && b < |s|
  {
    forall k | a <= k <= b :: s[k].id == s[b].id
  }

  predicate IsSeparator(e: Entry) {
    !e.temporary && IsFake(e)
  }

  /** There are no separators in the part of the group of `i` that is before it. */
  predicate NoneBehind(s: seq<Entry>, i: nat)
    requires i < |s|
  {
    forall p | 0 <= p <= i && SameRun(s, p, i) :: !IsSeparator(s[p])
  }

  predicate NoneBetween(s: seq<Entry>, lo: int, hi: int)
    requires 0 <= lo && hi <= |s|
  {
    forall p | lo <= p < hi :: !IsSeparator(s[p])
  }

  /** What find_separator() looks for: the closest preceding separator of the group or else the
      closest following one. */
  predicate IsClosest(s: seq<Entry>, i: nat, r: int)
    requires i < |s|
  {
    if r < 0 then
      NoneBehind(s, i) && forall p | i <= p < |s| && SameRun(s, i, p) :: !IsSeparator(s[p])
    else
      && r < |s| && IsSeparator(s[r])
      && (r <= i ==> SameRun(s, r, i) && NoneBetween(s, r + 1, i + 1))
      && (i < r ==> SameRun(s, i, r) && NoneBehind(s, i) && NoneBetween(s, i, r))
  }

  /** find_separator() */
  method FindSeparator(view: seq<Entry>, idx: nat) returns (r: int)
    requires idx < |view|
    ensures IsClosest(view, idx, r)
  {
    var id := view[idx].id;
    var i: int := idx;
    while i >= 0 && view[i].id == id
      invariant -1 <= i <= idx
      invariant forall k | i < k <= idx :: view[k].id == id
      invariant NoneBetween(view, i + 1, idx + 1)
    {
      if !view[i].temporary && IsFake(view[i]) {
        return i;
      }
      i := i - 1;
    }
    assert NoneBehind(view, idx);
    i := idx + 1;
    while i < |view| && view[i].id == id
      invariant idx < i <= |view|
      invariant forall k | idx <= k < i :: view[k].id == id
      invariant NoneBetween(view, idx, i)
    {
      if !view[i].temporary && IsFake(view[i]) {
        return i;
      }
      i := i + 1;
    }
    return -1;
  }

  /** A row per entry that is not going to be removed, after the first `i` entries of the view are
      processed and `j` of them are kept. */
  function Rows(view: seq<Entry>, i: nat, j: nat): seq<Entry>
    requires j <= i <= |view|
  {
    view[..j] + view[i..]
  }

  /** Entries that are to be removed in advance are in the group that is being processed. */
  ghost predicate AheadIsNear(other: seq<Entry>, i: nat) {
    forall p | i <= p < |other| && other[p].temporary :: SameRun(other, i, p)
  }

  /** ... and no separators precede them. */
  ghost predicate AheadIsFirst(other: seq<Entry>, i: nat) {
    forall p | i <= p < |other| && other[p].temporary ::
      forall q | 0 <= q < p && SameRun(other, q, p) :: !IsSeparator(other[q])
  }

  /** Lasting entries which wait for rows to come are also in that group. */
  ghost predicate BehindIsNear(other: seq<Entry>, i: nat, j: nat) {
    i < |other| ==>
      forall q: nat | q < i && !other[q].temporary && j <= Rank(other, q) :: SameRun(other, q, i)
  }

  ghost predicate Synced(view: seq<Entry>, other: seq<Entry>, i: nat, j: nat) {
    && j <= i <= |view| == |other|
    && InSync(Rows(view, i, j), Lasting(other))
    && (forall k | i <= k < |view| :: view[k].id == other[k].id)
    && AheadIsNear(other, i) && AheadIsFirst(other, i) && BehindIsNear(other, i, j)
  }

  /** Nothing is marked in advance if and only if ranks are up to date. */
  lemma AheadByRank(view: seq<Entry>, other: seq<Entry>, i: nat, j: nat)
    requires Synced(view, other, i, j)
    ensures j <= Rank(other, i)
    ensures j == Rank(other, i) <==> forall p | i <= p < |other| :: !other[p].temporary
  {
    var n := |other|;
    RankIsLength(other, n);
    assert other[..n] == other;
    RankOfRest(other, i, n);
  }

  /** Removal of different rows from the panes within a group of rows. */
  lemma RemoveRows(a: seq<Entry>, b: seq<Entry>, j: nat, r: nat)
    requires InSync(a, b) && j < |a| && r < |b|
    requires forall t | (j <= t <= r || r <= t <= j) :: b[t].id == b[j].id
    requires forall t | (j <= t < r || r < t <= j) :: !IsFake(b[t])
    ensures InSync(a[..j] + a[j + 1..], b[..r] + b[r + 1..])
  {
  }

  /** The row to be removed from the other pane: everything between it and the current row is of
      the same group and isn't a separator. */
  lemma BetweenRows(view: seq<Entry>, other: seq<Entry>, i: nat, j: nat, m: int, t: nat)
    requires Synced(view, other, i, j) && i < |other| && 0 <= m && IsClosest(other, i, m)
    requires t < |Lasting(other)| && (j <= t <= Rank(other, m) || Rank(other, m) <= t <= j)
    ensures Lasting(other)[t].id == other[i].id
    ensures t != Rank(other, m) ==> !IsFake(Lasting(other)[t])
  {
    hide Rank, Lasting;
    AheadByRank(view, other, i, j);
    var p := OfRank(other, t);
    LastingAt(other, p);
    RankStep(other, if p <= m then p else m, if p <= m then m else p);
    RankStep(other, if p <= i then p else i, if p <= i then i else p);
    RankStep(other, if m <= i then m else i, if m <= i then i else m);
    assert p != m ==> t != Rank(other, m);
    if p < i && j <= t {
      assert SameRun(other, p, i);
    }
  }

  /** A following row of another group means that nothing is marked in advance. */
  lemma NextGroup(view: seq<Entry>, other: seq<Entry>, i: nat, j: nat)
    requires j <= i + 1 <= |view| == |other|
    requires InSync(Rows(view, i + 1, j), Lasting(other))
    requires forall p | i < p < |other| && other[p].temporary :: SameRun(other, i, p)
    requires forall q: nat | q < i && !other[q].temporary && j <= Rank(other, q) :: SameRun(other, q, i)
    ensures AheadIsNear(other, i + 1) && BehindIsNear(other, i + 1, j)
  {
    hide Rank, Lasting;
    var n := |other|;
    if i + 1 < n {
      forall q: nat | q < i + 1 && !other[q].temporary && j <= Rank(other, q) ensures SameRun(other, q, i + 1) {
        if other[i + 1].id != other[i].id {
          RankIsLength(other, n);
          assert other[..n] == other;
          assert forall p | i + 1 <= p < n :: SameRun(other, i, p) ==> other[i + 1].id == other[i].id;
          RankOfRest(other, i + 1, n);
          RankStep(other, q, i + 1);
          assert false;
        } else if q < i {
          assert SameRun(other, q, i);
        }
      }
    }
  }

  lemma RowsAfterDrop(view: seq<Entry>, other: seq<Entry>, i: nat, j: nat, m: int)
    requires Synced(view, other, i, j) && i < |other| && 0 <= m && IsClosest(other, i, m)
    ensures InSync(Rows(view, i + 1, j), Lasting(other[m := Marked(other[m])]))
  {
    hide Rank, Lasting;
    var v, o, r := Rows(view, i, j), Lasting(other), Rank(other, m);
    LastingAfterMark(other, m);
    forall t: nat | (j <= t <= r || r <= t <= j) && t < |o| ensures o[t].id == other[i].id {
      BetweenRows(view, other, i, j, m, t);
    }
    forall t: nat | (j <= t < r || r < t <= j) && t < |o| ensures !IsFake(o[t]) {
      BetweenRows(view, other, i, j, m, t);
    }
    RemoveRows(v, o, j, r);
    assert v[..j] + v[j + 1..] == Rows(view, i + 1, j);
  }

  lemma NearAfterDrop(other: seq<Entry>, i: nat, j: nat, m: int)
    requires AheadIsNear(other, i) && BehindIsNear(other, i, j)
    requires i < |other| && 0 <= m && IsClosest(other, i, m)
    ensures var other' := other[m := Marked(other[m])];
            && (forall p | i < p < |other'| && other'[p].temporary :: SameRun(other', i, p))
            && (forall q: nat | q < i && !other'[q].temporary && j <= Rank(other', q) :: SameRun(other', q, i))
  {
    hide Rank;
    var other' := other[m := Marked(other[m])];
    forall p | i < p < |other'| && other'[p].temporary ensures SameRun(other', i, p) {
      assert p == m || SameRun(other, i, p);
    }
    forall q: nat | q < i && !other'[q].temporary && j <= Rank(other', q) ensures SameRun(other', q, i) {
      RankAfterMark(other, m, q);
      assert SameRun(other, q, i);
    }
  }

  /** A row is gone from both panes. */
  lemma AfterDrop(view: seq<Entry>, other: seq<Entry>, i: nat, j: nat, m: int)
    requires Synced(view, other, i, j) && i < |other| && 0 <= m && IsClosest(other, i, m)
    ensures Synced(view, other[m := Marked(other[m])], i + 1, j)
  {
    hide Rank, Lasting, InSync, AheadIsFirst, AheadIsNear, BehindIsNear, Rows;
    RowsAfterDrop(view, other, i, j, m);
    NearAfterDrop(other, i, j, m);
    NextGroup(view, other[m := Marked(other[m])], i, j);
    AheadIsFirstAfterDrop(other, i, m);
  }

  lemma AheadIsFirstAfterDrop(other: seq<Entry>, i: nat, m: int)
    requires i < |other| && 0 <= m && IsClosest(other, i, m) && AheadIsFirst(other, i)
    ensures AheadIsFirst(other[m := Marked(other[m])], i + 1)
  {
    var other' := other[m := Marked(other[m])];
    forall p | i + 1 <= p < |other'| && other'[p].temporary
      ensures forall q | 0 <= q < p && SameRun(other', q, p) :: !IsSeparator(other'[q])
    {
      forall q | 0 <= q < p && SameRun(other', q, p) ensures !IsSeparator(other'[q]) {
        assert SameRun(other, q, p) by { assert forall k | q <= k <= p :: other[k].id == other'[k].id; }
        if p == m && q <= i {
          assert SameRun(other, q, i);
        }
      }
    }
  }

  /** The current row stays. */
  lemma AfterKeep(view: seq<Entry>, other: seq<Entry>, i: nat, j: nat)
    requires Synced(view, other, i, j) && i < |other|
    ensures Synced(view[j := view[i]], other, i + 1, j + 1)
  {
    hide Rank, Lasting;
    var view' := view[j := view[i]];
    assert Rows(view', i + 1, j + 1) == Rows(view, i, j);
    NextGroup(view', other, i, j + 1);
  }

  /** Without a separator to remove, the row of the other pane is a file. */
  lemma RowIsFile(view: seq<Entry>, other: seq<Entry>, i: nat, j: nat)
    requires Synced(view, other, i, j) && i < |other| && IsClosest(other, i, -1)
    ensures j < |Lasting(other)| && !IsFake(Lasting(other)[j])
  {
    hide Rank, Lasting;
    AheadByRank(view, other, i, j);
    var p := OfRank(other, j);
    LastingAt(other, p);
    if p < i {
      assert SameRun(other, p, i);
    } else {
      RankStep(other, i, p);
    }
  }

  /** The current file is replaced by a separator. */
  lemma AfterClear(view: seq<Entry>, other: seq<Entry>, i: nat, j: nat)
    requires Synced(view, other, i, j) && i < |other| && IsClosest(other, i, -1)
    ensures var e := view[i].(name := "", id := other[i].id);
            Synced(view[i := e], other, i, j)
  {
    hide Rank, Lasting;
    RowIsFile(view, other, i, j);
    var e := view[i].(name := "", id := other[i].id);
    assert Rows(view[i := e], i, j) == Rows(view, i, j)[j := e];
  }

  function Kept(s: seq<Entry>, filter: Entry -> bool): seq<Entry> {
    if s == [] then []
    else Kept(s[..|s| - 1], filter) + if filter(s[|s| - 1]) then [s[|s| - 1]] else []
  }

  lemma {:induction false} FilesRemove(s: seq<Entry>, r: nat)
    requires r < |s| && IsFake(s[r])
    ensures Files(s[..r] + s[r + 1..]) == Files(s)
  {
    var n := |s| - 1;
    var t := s[..r] + s[r + 1..];
    if r < n {
      assert t[..n - 1] == s[..n][..r] + s[..n][r + 1..];
      FilesRemove(s[..n], r);
    } else {
      assert t == s[..n];
    }
  }

  /** Marking of a separator leaves all files of the pane. */
  lemma FilesAfterMark(s: seq<Entry>, m: nat)
    requires m < |s| && IsSeparator(s[m])
    ensures Files(Lasting(s[m := Marked(s[m])])) == Files(Lasting(s))
  {
    hide Rank, Lasting, Files;
    LastingAt(s, m);
    LastingAfterMark(s, m);
    FilesRemove(Lasting(s), Rank(s, m));
  }

  lemma {:induction false} AllLast(s: seq<Entry>)
    requires forall k | 0 <= k < |s| :: !s[k].temporary
    ensures Lasting(s) == s
  {
    if s != [] {
      AllLast(s[..|s| - 1]);
      assert s == s[..|s| - 1] + [s[|s| - 1]];
    }
  }

  lemma StartSynced(view: seq<Entry>, other: seq<Entry>)
    requires InSync(view, other) && forall k | 0 <= k < |other| :: !other[k].temporary
    ensures Synced(view, other, 0, 0) && Lasting(other) == other
  {
    hide Lasting, Rank;
    AllLast(other);
    assert Rows(view, 0, 0) == view;
  }

  lemma FinishSynced(view: seq<Entry>, other: seq<Entry>, left: nat)
    requires Synced(view, other, |view|, left)
    ensures InSync(view[..left], Lasting(other))
  {
    hide Lasting, Rank;
    assert Rows(view, |view|, left) == view[..left];
  }

  lemma KeptStep(view: seq<Entry>, i: nat, filter: Entry -> bool)
    requires i < |view|
    ensures Kept(Files(view[..i + 1]), filter) ==
            Kept(Files(view[..i]), filter) + if !IsFake(view[i]) && filter(view[i]) then [view[i]] else []
  {
    var f := Files(view[..i]);
    assert view[..i + 1][..i] == view[..i];
    assert (f + [view[i]])[..|f|] == f;
    assert f + [] == f;
  }

  lemma FilesStep(view: seq<Entry>, j: nat)
    requires j < |view|
    ensures Files(view[..j + 1]) == Files(view[..j]) + if IsFake(view[j]) then [] else [view[j]]
  {
    assert view[..j + 1][..j] == view[..j];
  }

  /** The number of lasting entries is the number of rows even if ids differ. */
  predicate SameSize(view: seq<Entry>, other: seq<Entry>, i: nat, j: nat) {
    j <= i <= |view| == |other| && j + (|view| - i) == |Lasting(other)|
  }

  lemma StartSameSize(view: seq<Entry>, other: seq<Entry>)
    requires |view| == |other| && forall k | 0 <= k < |other| :: !other[k].temporary
    ensures SameSize(view, other, 0, 0)
  {
    AllLast(other);
  }

  lemma MarkKeepsSize(view: seq<Entry>, other: seq<Entry>, i: nat, j: nat, m: nat)
    requires SameSize(view, other, i, j) && i < |view| && m < |other| && IsSeparator(other[m])
    ensures SameSize(view, other[m := Marked(other[m])], i + 1, j)
  {
    hide Lasting, Rank;
    LastingAt(other, m);
    LastingAfterMark(other, m);
  }

  /** zap_compare_view(): the first `left` entries of the view remain, entries of the other view
      that have to go are marked.  In views grouped by paths ids of a row can differ, then only sizes and files
      matter. */
  method ZapCompareView(view: array<Entry>, other: array<Entry>, filter: Entry -> bool) returns (left: nat)
    requires view != other && view.Length == other.Length
    requires forall k | 0 <= k < other.Length :: !other[k].temporary
    modifies view, other
    ensures left <= view.Length && left == |Lasting(other[..])|
    ensures InSync(old(view[..]), old(other[..])) ==> InSync(view[..left], Lasting(other[..]))
    ensures Files(view[..left]) == Kept(Files(old(view[..])), filter)
    ensures Files(Lasting(other[..])) == Files(old(other[..]))
  {
    hide Synced, InSync, SameSize, Lasting, Files, Kept, Rank, NoneBehind;
    ghost var was, synced := view[..], InSync(view[..], other[..]);
    var j := 0;
    StartSameSize(view[..], other[..]);
    if synced {
      StartSynced(view[..], other[..]);
    }
    AllLast(other[..]);
    assert was[..0] == [] && Kept(Files([]), filter) == Files([]) by { NothingKept(filter); }
    for i := 0 to view.Length
      invariant j <= i && SameSize(view[..], other[..], i, j)
      invariant synced ==> Synced(view[..], other[..], i, j)
      invariant forall k | i <= k < view.Length :: view[k] == was[k]
      invariant Files(view[..j]) == Kept(Files(was[..i]), filter)
      invariant Files(Lasting(other[..])) == Files(old(other[..]))
    {
      KeptStep(was, i, filter);
      ghost var v, o := view[..], other[..];
      if !IsFake(view[i]) && !filter(view[i]) {
        var separator := FindSeparator(other[..], i);
        if separator >= 0 {
          if synced {
            AfterDrop(v, o, i, j, separator);
          }
          MarkKeepsSize(v, o, i, j, separator);
          FilesAfterMark(o, separator);
          other[separator] := Marked(other[separator]);
          assert other[..] == o[separator := Marked(o[separator])];
          continue;
        }
        assert IsClosest(o, i, -1);
        if synced {
          AfterClear(v, o, i, j);
        }
        view[i] := view[i].(name := "", id := other[i].id);
        assert view[..] == v[i := view[i]];
        SizeOfUpdated(v, view[..], o, i, j);
        v := view[..];
        assert v[..j] == view[..j];
      }
      if synced {
        AfterKeep(v, o, i, j);
      }
      if i != j {
        view[j] := view[i];
      }
      assert view[..] == v[j := v[i]];
      SizeOfUpdated(v, view[..], o, i, j);
      FilesStep(view[..], j);
      assert view[..][..j + 1] == view[..j + 1] && view[..][..j] == v[..j];
      j := j + 1;
    }
    assert was[..view.Length] == was;
    SizeAtEnd(view[..], other[..], j);
    if synced {
      FinishSynced(view[..], other[..], j);
    }
    return j;
  }

  lemma SizeOfUpdated(was: seq<Entry>, now: seq<Entry>, other: seq<Entry>, i: nat, j: nat)
    requires SameSize(was, other, i, j) && |now| == |was|
    ensures SameSize(now, other, i, j)
    ensures i < |now| ==> SameSize(now, other, i + 1, j + 1)
  {
  }

  lemma SizeAtEnd(view: seq<Entry>, other: seq<Entry>, j: nat)
    requires SameSize(view, other, |view|, j)
    ensures j == |Lasting(other)|
  {
  }

  lemma NothingKept(filter: Entry -> bool)
    ensures Kept(Files([]), filter) == Files([])
  {
  }

  lemma LastingStep(s: seq<Entry>, i: nat)
    requires i < |s|
    ensures Lasting(s[..i + 1]) == Lasting(s[..i]) + if s[i].temporary then [] else [s[i]]
  {
    assert s[..i + 1][..i] == s[..i];
  }

  lemma {:induction false} LastingLasts(s: seq<Entry>)
    ensures forall e | e in Lasting(s) :: !e.temporary
  {
    if s != [] {
      LastingLasts(s[..|s| - 1]);
    }
  }

  /** exclude_temporary_entries(): zap_entries() of a list without a tree structure. */
  method ExcludeTemporaryEntries(entries: array<Entry>) returns (count: nat)
    modifies entries
    ensures count <= entries.Length && entries[..count] == Lasting(old(entries[..]))
  {
    hide Lasting;
    ghost var was := entries[..];
    var j := 0;
    assert Lasting(was[..0]) == [] by { LastingOfNothing(was); }
    for i := 0 to entries.Length
      invariant j <= i
      invariant forall k | i <= k < entries.Length :: entries[k] == was[k]
      invariant entries[..j] == Lasting(was[..i])
    {
      LastingStep(was, i);
      if !entries[i].temporary {
        if i != j {
          entries[j] := entries[i];
        }
        j := j + 1;
      }
    }
    assert was[..entries.Length] == was;
    return j;
  }

  lemma LastingOfNothing(s: seq<Entry>)
    ensures Lasting(s[..0]) == []
  {
  }

  /** filter_in_compare(): fails if nothing is left.  Otherwise the panes are of the same size and agree if they did,
      the filtered one has lost only rejected files and the other one hasn't lost any. */
  method FilterInCompare(view: array<Entry>, other: array<Entry>, filter: Entry -> bool)
    returns (failed: bool, left: nat)
    requires view != other && view.Length == other.Length
    requires forall k | 0 <= k < other.Length :: !other[k].temporary
    modifies view, other
    ensures left <= view.Length && Files(view[..left]) == Kept(Files(old(view[..])), filter)
    ensures failed <==> left == 0
    ensures !failed ==>
              && left <= other.Length
              && (InSync(old(view[..]), old(other[..])) ==> InSync(view[..left], other[..left]))
              && (forall k | 0 <= k < left :: !other[k].temporary)
              && Files(other[..left]) == Files(old(other[..]))
    ensures left == 0 ==> Kept(Files(old(view[..])), filter) == [] && Files(old(other[..])) == []
  {
    hide Lasting, Files, Kept, Rank, InSync;
    left := ZapCompareView(view, other, filter);
    LastingLasts(other[..]);
    if left == 0 {
      assert view[..0] == [] && Lasting(other[..]) == [];
      NoFiles();
      return true, 0;
    }
    var count := ExcludeTemporaryEntries(other);
    assert count == left;
    assert forall k | 0 <= k < left :: other[k] in other[..left];
    return false, left;
  }

  lemma NoFiles()
    ensures Files([]) == []
  {
  }
}
