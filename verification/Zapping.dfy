/** Removal of entries from a list in place: zap_entries(). */
module Zapping {
  import opened Forests
  import opened Edits
  import opened Lineages
  import opened Links
  import opened Pruning

  /** Skipping siblings starting inside of a tree leads to its end. */
  lemma {:induction false} TreeIsTiled(s: seq<Entry>, n: nat, lo: nat)
    requires Nested(s) && n < |s| && n < lo <= End(s, n) <= |s|
    ensures Tiled(s, lo, End(s, n))
    decreases End(s, n) - lo
  {
    hide Nested;
    if lo < End(s, n) {
      Inside(s, n, lo);
      Linked(s, lo);
      TreeIsTiled(s, n, End(s, lo));
    }
  }

  /** Only counts of descendants matter. */
  lemma {:induction false} TiledCopy(s: seq<Entry>, t: seq<Entry>, lo: nat, hi: int)
    requires lo <= hi <= |s| && hi <= |t|
    requires Tiled(s, lo, hi)
    requires forall k | lo <= k < hi :: t[k].childCount == s[k].childCount
    ensures Tiled(t, lo, hi)
    decreases hi - lo
  {
    if lo < hi {
      TiledCopy(s, t, lo + 1 + s[lo].childCount, hi);
    }
  }

  /** A child of a removed entry with the link `up`: it becomes a child of the parent of
      that entry or a top-level entry. */
  function Reattached(e: Entry, up: int): Entry {
    e.(childPos := if up == 0 then 0 else e.childPos + up - 1)
  }

  /** Descendants of a child are not children, and what follows them is. */
  lemma SkipChild(s: seq<Entry>, n: nat, q: nat)
    requires Nested(s) && n < q < |s| && q < End(s, n) <= |s| && Parent(s, q) == n
    ensures q < End(s, q) <= End(s, n)
    ensures End(s, q) < End(s, n) ==> Parent(s, End(s, q)) == n
    ensures forall r: nat | q < r < End(s, q) :: Parent(s, r) != n
  {
    hide Nested;
    Inside(s, n, q);
    ParentIsAround(s, q);
    if End(s, q) < End(s, n) {
      NextSibling(s, q);
    }
    forall r: nat | q < r < End(s, q) ensures Parent(s, r) != n {
      Inside(s, q, r);
    }
  }

  /** First part of a removal: reassigns children of the entry at `i` to its parent.  In a list
      `s` the entry is at position `n` and the tree of the entry ends at `m`. */
  method ReassignChildren(entries: array<Entry>, i: nat, ghost s: seq<Entry>, ghost n: nat)
    requires Nested(s) && n < |s| && n < End(s, n) <= |s|
    requires n <= i && |s| + (i - n) <= entries.Length
    requires forall k | i <= k < |s| + (i - n) :: entries[k] == s[k - (i - n)]
    modifies entries
    ensures forall k | 0 <= k <= i || End(s, n) + (i - n) <= k < entries.Length :: entries[k] == old(entries[k])
    ensures forall k | i < k < End(s, n) + (i - n) ::
              entries[k] == if Parent(s, k - (i - n)) == n then Reattached(old(entries[k]), s[n].childPos)
                            else old(entries[k])
  {
    hide Nested;
    ghost var shift, m := i - n, End(s, n);
    var pos := i + 1;
    if pos < m + shift { Inside(s, n, n + 1); }
    while pos < i + 1 + entries[i].childCount
      invariant i < pos <= m + shift
      invariant entries[i] == s[n]
      invariant pos < m + shift ==> Parent(s, pos - shift) == n
      invariant forall k | 0 <= k <= i || pos <= k < entries.Length :: entries[k] == old(entries[k])
      invariant forall k | i < k < pos ::
              entries[k] == if Parent(s, k - shift) == n then Reattached(old(entries[k]), s[n].childPos)
                            else old(entries[k])
      decreases m + shift - pos
    {
      SkipChild(s, n, pos - shift);
      if entries[i].childPos == 0 {
        entries[pos] := entries[pos].(childPos := 0);
      } else {
        entries[pos] := entries[pos].(childPos := entries[pos].childPos + entries[i].childPos - 1);
      }
      pos := pos + (entries[pos].childCount + 1);
    }
  }

  /** The list `s` in the middle of compaction: its first `j` entries are in place and the rest of
      them starts at `i`. */
  ghost predicate Compacted(entries: seq<Entry>, s: seq<Entry>, i: nat, j: nat) {
    && j <= i && j <= |s| && |s| + (i - j) <= |entries|
    && (forall k | 0 <= k < j :: entries[k] == s[k])
    && (forall k | i <= k < |s| + (i - j) :: entries[k] == s[k - (i - j)])
  }

  lemma EndAt(f: Forest, n: nat)
    requires n < Size(f)
    ensures var s := Flatten(f, 0);
            End(s, n) == n + 1 + Size(KidsAt(f, n)) <= |s| && 0 <= s[n].childPos
  {
    hide Flatten;
    KidsAtCount(f, 0, n);
    LinkKind(f, 0, n);
  }

  lemma ReplacedEntry(f: Forest, n: nat, g: Forest, k: nat)
    requires n < Size(f) && k < Size(Replace(f, n, g))
    ensures var s, s', m := Flatten(f, 0), Flatten(Replace(f, n, g), 0), End(Flatten(f, 0), n);
            var d := Size(g) - (m - n);
            && n < m <= Size(f) && 0 <= s[n].childPos && Size(Replace(f, n, g)) == Size(f) + d
            && s'[k] == if k < n then Relinked(s, n, m, d, k)
                        else if k < n + Size(g) then Flatten(g, s[n].childPos)[k - n]
                        else Relinked(s, n, m, d, k - d)
  {
    hide Flatten, Relinked, Replace, KidsAt, Size;
    EndAt(f, n);
    FlattenReplace(f, n, g, 0, k);
  }

  /** All entries of the list in which the tree at `n` is replaced by trees `g`. */
  lemma ReplacedList(f: Forest, n: nat, g: Forest)
    requires n < Size(f)
    ensures var s, s', m := Flatten(f, 0), Flatten(Replace(f, n, g), 0), End(Flatten(f, 0), n);
            var d := Size(g) - (m - n);
            && n < m <= |s| && 0 <= s[n].childPos && |s'| == |s| + d
            && (forall k: nat | k < n :: s'[k] == Relinked(s, n, m, d, k))
            && (forall k: nat | n <= k < n + Size(g) :: s'[k] == Flatten(g, s[n].childPos)[k - n])
            && (forall k: nat | n + Size(g) <= k < |s'| :: s'[k] == Relinked(s, n, m, d, k - d))
  {
    hide Flatten, Relinked, Replace, KidsAt, Size;
    EndAt(f, n);
    var s, s', m := Flatten(f, 0), Flatten(Replace(f, n, g), 0), End(Flatten(f, 0), n);
    forall k: nat | k < |s'|
      ensures s'[k] == if k < n then Relinked(s, n, m, Size(g) - (m - n), k)
                       else if k < n + Size(g) then Flatten(g, s[n].childPos)[k - n]
                       else Relinked(s, n, m, Size(g) - (m - n), k - (Size(g) - (m - n)))
    {
      ReplacedEntry(f, n, g, k);
    }
  }

  /** The list after replacement by trees which are put right before the rest of the list. */
  lemma ClosedAtEnd(entries: seq<Entry>, f: Forest, n: nat, g: Forest, shift: nat, i: nat)
    requires n < Size(f) && n < End(Flatten(f, 0), n) <= Size(f) && 0 <= Flatten(f, 0)[n].childPos
    requires var s, m := Flatten(f, 0), End(Flatten(f, 0), n);
             && n <= i == m + shift - Size(g)
             && Holds(entries, s, n, shift, 0, |s|, 0, Size(g) - (m - n))
             && forall k | i <= k < i + Size(g) :: entries[k] == Flatten(g, s[n].childPos)[k - i]
    ensures Compacted(entries, Flatten(Replace(f, n, g), 0), i, n)
  {
    hide Flatten, Relinked, Replace, KidsAt, Size, Holds;
    ReplacedList(f, n, g);
    var s, s', m := Flatten(f, 0), Flatten(Replace(f, n, g), 0), End(Flatten(f, 0), n);
    var d := Size(g) - (m - n);
    HoldsAround(entries, s, n, shift, d);
    assert forall k: nat | k < n :: entries[k] == s'[k];
    forall k | i <= k < |s'| + (i - n) ensures entries[k] == s'[k - (i - n)] {
      if i + Size(g) <= k {
        assert entries[k] == Relinked(s, n, m, d, k - shift);
      }
    }
  }

  /** The list after replacement by trees which are put right after the start of the list. */
  lemma ClosedAtStart(entries: seq<Entry>, f: Forest, n: nat, g: Forest, shift: nat)
    requires n < Size(f) && n < End(Flatten(f, 0), n) <= Size(f) && 0 <= Flatten(f, 0)[n].childPos
    requires var s, m := Flatten(f, 0), End(Flatten(f, 0), n);
             && Size(g) <= m - n + shift
             && Holds(entries, s, n, shift, 0, |s|, 0, Size(g) - (m - n))
             && forall k | n <= k < n + Size(g) :: entries[k] == Flatten(g, s[n].childPos)[k - n]
    ensures Compacted(entries, Flatten(Replace(f, n, g), 0), End(Flatten(f, 0), n) + shift, n + Size(g))
  {
    hide Flatten, Relinked, Replace, KidsAt, Size, Holds;
    ReplacedList(f, n, g);
    var s, s', m := Flatten(f, 0), Flatten(Replace(f, n, g), 0), End(Flatten(f, 0), n);
    HoldsAround(entries, s, n, shift, Size(g) - (m - n));
    var i, j := m + shift, n + Size(g);
    assert forall k: nat | k < j :: entries[k] == s'[k];
    assert forall k | i <= k < |s'| + (i - j) :: entries[k] == s'[k - (i - j)];
  }

  /** With all entries corrected it doesn't matter what they were before that. */
  lemma HoldsForAny(entries: seq<Entry>, s: seq<Entry>, n: nat, shift: nat, was: int, d: int)
    requires n < |s| && n < End(s, n) <= |s| && Holds(entries, s, n, shift, 0, |s|, was, d)
    ensures Holds(entries, s, n, shift, 0, |s|, 0, d)
  {
    hide Relinked;
  }

  /** Removed entries are of no importance. */
  lemma HoldsOutside(was: seq<Entry>, entries: seq<Entry>, s: seq<Entry>, n: nat, shift: nat, v: nat, lim: int)
    requires n < |s| && n < End(s, n) <= |s| && Holds(was, s, n, shift, v, lim, 0, 0)
    requires |entries| == |was|
    requires forall k | 0 <= k < n || End(s, n) + shift <= k < |was| :: entries[k] == was[k]
    ensures Holds(entries, s, n, shift, v, lim, 0, 0)
  {
    hide Relinked;
  }

  lemma HoldsAround(entries: seq<Entry>, s: seq<Entry>, n: nat, shift: nat, d: int)
    requires n < |s| && n < End(s, n) <= |s| && Holds(entries, s, n, shift, 0, |s|, 0, d)
    ensures |s| + shift <= |entries|
    ensures forall k | 0 <= k < n :: entries[k] == Relinked(s, n, End(s, n), d, k)
    ensures forall k | End(s, n) + shift <= k < |s| + shift :: entries[k] == Relinked(s, n, End(s, n), d, k - shift)
  {
    hide Relinked;
  }

  /** Children are stored right after their parent. */
  lemma {:induction false} KidsSlice(f: Forest, up: nat, n: nat, t: nat)
    requires n < Size(f) && t < Size(KidsAt(f, n))
    ensures Flatten(f, up)[n + 1 + t] == Flatten(KidsAt(f, n), 1)[t]
  {
    hide Flatten;
    FlattenAt(f, up, n + 1 + t);
    if 1 <= n <= Size(f.kids) {
      KidsSlice(f.kids, 1, n - 1, t);
    } else if n != 0 {
      KidsSlice(f.rest, Further(up, 1 + Size(f.kids)), n - 1 - Size(f.kids), t);
    }
  }

  /** Moving a forest to the top level clears links of its roots. */
  lemma {:induction false} FlattenToTop(f: Forest, up: nat, q: nat)
    requires up > 0 && q < Size(f)
    ensures var e := Flatten(f, up)[q];
            Flatten(f, 0)[q] == if e.childPos <= q then e else e.(childPos := 0)
  {
    hide Flatten;
    var n := Size(f.kids);
    FlattenAt(f, up, q);
    FlattenAt(f, 0, q);
    if 1 <= q <= n {
      LinkKind(f.kids, 1, q - 1);
    } else if n < q {
      FlattenToTop(f.rest, Further(up, 1 + n), q - 1 - n);
      LinkKind(f.rest, Further(up, 1 + n), q - 1 - n);
    }
  }

  /** Reassigning children moves their forest to the place of the removed parent. */
  lemma KidsReattached(f: Forest, n: nat, t: nat)
    requires n < Size(f) && t < Size(KidsAt(f, n))
    ensures var s := Flatten(f, 0);
            && 0 <= s[n].childPos
            && Flatten(KidsAt(f, n), s[n].childPos)[t] ==
               if Parent(s, n + 1 + t) == n then Reattached(s[n + 1 + t], s[n].childPos) else s[n + 1 + t]
  {
    hide Flatten;
    EndAt(f, n);
    var up, kids := Flatten(f, 0)[n].childPos, KidsAt(f, n);
    KidsSlice(f, 0, n, t);
    LinkKind(kids, 1, t);
    if up == 0 {
      FlattenToTop(kids, 1, t);
    } else {
      FlattenFurther(kids, 1, up, t);
    }
  }

  /** The forest after the rejected entry at `j` is taken out. */
  function Dropped(f: Forest, j: nat, c: Filter, subtrees: bool): Forest
    requires j < Size(f)
  {
    if !subtrees then Replace(f, j, KidsAt(f, j))
    else if c.leafs && IsOnlyChild(f, j) then Replace(f, j, Tree(c.leafOf(FileAt(f, j - 1)), Empty))
    else Replace(f, j, Empty)
  }

  lemma HoldsAtFirst(entries: seq<Entry>, s: seq<Entry>, i: nat, j: nat)
    requires Compacted(entries, s, i, j) && j < |s| && j < End(s, j) <= |s|
    ensures Holds(entries, s, j, i - j, j, End(s, j), 0, 0)
  {
  }

  /** What an only child looks like. */
  lemma OnlyChildLinks(f: Forest, j: nat)
    requires j < Size(f)
    ensures var s := Flatten(f, 0);
            && 0 <= s[j].childPos <= j
            && (s[j].childPos == 1 ==> j < End(s, j - 1))
            && (IsOnlyChild(f, j) <==> s[j].childPos == 1 && s[j - 1].childCount == 1 + Size(KidsAt(f, j)))
  {
    hide Flatten, KidsAt, Size, Nested;
    var s := Flatten(f, 0);
    FlattenIsNested(f);
    Linked(s, j);
    if j > 0 {
      EndAt(f, j - 1);
      if j < End(s, j - 1) {
        Inside(s, j - 1, j);
      }
    }
  }

  /** Contents of the entry before `j` is what is being removed. */
  lemma OnlyChildAt(entries: seq<Entry>, f: Forest, j: nat, shift: nat)
    requires j < Size(f) && j < End(Flatten(f, 0), j) <= Size(f)
    requires Holds(entries, Flatten(f, 0), j, shift, 0, Size(f), 0, -1 - Size(KidsAt(f, j)))
    ensures 0 <= Flatten(f, 0)[j].childPos <= j
    ensures IsOnlyChild(f, j) <==> Flatten(f, 0)[j].childPos == 1 && entries[j - 1].childCount == 0
    ensures j > 0 ==> entries[j - 1].file == FileAt(f, j - 1)
  {
    hide Flatten, KidsAt, Size, IsOnlyChild;
    OnlyChildLinks(f, j);
    if j > 0 {
      FlattenFileAt(f, 0, j - 1);
    }
  }

  /** The new entry at `j` might overwrite the removed one, but descendants of the latter are
      still skipped exactly. */
  lemma LeafIsTiled(was: seq<Entry>, entries: seq<Entry>, s: seq<Entry>, i: nat, j: nat)
    requires Nested(s) && j < |s| && j < End(s, j) <= |s| && j <= i && |s| + (i - j) <= |was|
    requires forall k | i <= k < End(s, j) + (i - j) :: was[k].childCount == s[k - (i - j)].childCount
    requires |entries| == |was| && entries[j].childCount == 0
    requires forall k | 0 <= k < |was| && k != j :: entries[k] == was[k]
    ensures 0 <= entries[i].childCount && Tiled(entries, i + 1 + entries[i].childCount, End(s, j) + (i - j))
  {
    hide Nested;
    if i != j {
      assert was[i].childCount == s[i - (i - j)].childCount;
    } else if j + 1 < End(s, j) {
      TreeIsTiled(s, j, j + 1);
      forall k | j < k < End(s, j) ensures entries[k].childCount == s[k].childCount {
        assert was[k].childCount == s[k - (i - j)].childCount;
      }
      TiledCopy(s, entries, j + 1, End(s, j));
    }
  }

  lemma HoldsWithLeaf(was: seq<Entry>, entries: seq<Entry>, s: seq<Entry>, i: nat, j: nat, d: int)
    requires j < |s| && j < End(s, j) <= |s| && j <= i
    requires Holds(was, s, j, i - j, 0, |s|, 0, d)
    requires |entries| == |was| && forall k | 0 <= k < |was| && k != j :: entries[k] == was[k]
    ensures Holds(entries, s, j, i - j, j, End(s, j), d, d)
  {
    hide Relinked;
  }

  /** The part of zap_entries() that puts a ".." entry into a directory which has become empty. */
  method AddLeaf(entries: array<Entry>, i: nat, j: nat, nremoved: int, leaf: File, ghost f: Forest)
    requires j < Size(f) && j <= i && nremoved == 1 + Size(KidsAt(f, j))
    requires End(Flatten(f, 0), j) == j + nremoved <= Size(f) && Flatten(f, 0)[j].childPos == 1
    requires Holds(entries[..], Flatten(f, 0), j, i - j, 0, Size(f), 0, -nremoved)
    requires forall k | i <= k < i + nremoved :: entries[k].childCount == Flatten(f, 0)[k - (i - j)].childCount
    requires entries[i].childPos == 1
    modifies entries
    ensures Compacted(entries[..], Flatten(Replace(f, j, Tree(leaf, Empty)), 0), i + nremoved, j + 1)
  {
    hide Flatten, Relinked, Replace, KidsAt, Size, Nested, Holds, Tiled, Compacted;
    ghost var s, shift, g := Flatten(f, 0), i - j, Tree(leaf, Empty);
    FlattenIsNested(f);
    HoldsAround(entries[..], s, j, shift, -nremoved);
    ghost var was := entries[..];
    entries[j] := Entry(leaf, 1, 0);
    LeafIsTiled(was, entries[..], s, i, j);
    HoldsWithLeaf(was, entries[..], s, i, j, -nremoved);
    FixTreeLinks(entries, i, j, nremoved, 1, s, -nremoved);
    HoldsForAny(entries[..], s, j, shift, -nremoved, 1 - nremoved);
    FlattenCons(g, 1);
    FlattenCons(Empty, 1);
    ClosedAtStart(entries[..], f, j, g, shift);
  }

  /** The list after children have taken the place of the entry at `j`. */
  lemma CloseOverKids(entries: seq<Entry>, f: Forest, i: nat, j: nat)
    requires j < Size(f) && j <= i && j < End(Flatten(f, 0), j) <= Size(f) && Size(f) + (i - j) <= |entries|
    requires Holds(entries, Flatten(f, 0), j, i - j, 0, Size(f), 0, -1)
    requires var s := Flatten(f, 0);
             forall k | i < k < End(s, j) + (i - j) ::
               entries[k] == if Parent(s, k - (i - j)) == j then Reattached(s[k - (i - j)], s[j].childPos)
                             else s[k - (i - j)]
    ensures Compacted(entries, Flatten(Replace(f, j, KidsAt(f, j)), 0), i + 1, j)
  {
    hide Flatten, Relinked, Replace, KidsAt, Size, Holds, Compacted;
    EndAt(f, j);
    var s, g, m := Flatten(f, 0), KidsAt(f, j), End(Flatten(f, 0), j);
    forall k | i < k < m + (i - j) ensures entries[k] == Flatten(g, s[j].childPos)[k - (i + 1)] {
      KidsReattached(f, j, k - (i + 1));
    }
    ClosedAtEnd(entries, f, j, g, i - j, i + 1);
  }

  /** The part of zap_entries() that checks whether a directory has become empty. */
  method CloseOverTree(entries: array<Entry>, i: nat, j: nat, nremoved: int, c: Filter, ghost f: Forest)
    returns (j': nat)
    requires j < Size(f) && j <= i && nremoved == 1 + Size(KidsAt(f, j))
    requires End(Flatten(f, 0), j) == j + nremoved <= Size(f)
    requires Holds(entries[..], Flatten(f, 0), j, i - j, 0, Size(f), 0, -nremoved)
    requires i + nremoved <= entries.Length && entries[i].childPos == Flatten(f, 0)[j].childPos
    requires forall k | i <= k < i + nremoved :: entries[k].childCount == Flatten(f, 0)[k - (i - j)].childCount
    modifies entries
    ensures j' == if c.leafs && IsOnlyChild(f, j) then j + 1 else j
    ensures Size(Dropped(f, j, c, true)) + (i + nremoved - j') == Size(f) + (i - j)
    ensures Compacted(entries[..], Flatten(Dropped(f, j, c, true), 0), i + nremoved, j')
  {
    hide Flatten, Relinked, Replace, KidsAt, Size, IsOnlyChild, Holds, Compacted;
    j' := j;
    OnlyChildAt(entries[..], f, j, i - j);
    var parent := j - entries[i].childPos;
    FlattenCons(Empty, 0);
    if c.leafs && parent == j - 1 && entries[parent].childCount == 0 {
      FlattenCons(Tree(c.leafOf(entries[parent].file), Empty), 0);
      AddLeaf(entries, i, j, nremoved, c.leafOf(entries[parent].file), f);
      j' := j + 1;
    } else {
      FlattenCons(Empty, Flatten(f, 0)[j].childPos);
      ClosedAtStart(entries[..], f, j, Empty, i - j);
    }
  }

  /** The part of zap_entries() that takes out a rejected entry. */
  method Drop(entries: array<Entry>, i: nat, j: nat, c: Filter, subtrees: bool, ghost f: Forest)
    returns (i': nat, j': nat)
    requires j < Size(f) && Compacted(entries[..], Flatten(f, 0), i, j)
    modifies entries
    ensures j' == if subtrees && c.leafs && IsOnlyChild(f, j) then j + 1 else j
    ensures i < i' && j' <= i' && j' <= Size(Dropped(f, j, c, subtrees))
    ensures Size(Dropped(f, j, c, subtrees)) + (i' - j') == Size(f) + (i - j)
    ensures Compacted(entries[..], Flatten(Dropped(f, j, c, subtrees), 0), i', j')
  {
    hide Flatten, Relinked, Replace, KidsAt, Size, Nested, IsOnlyChild, Holds;
    ghost var s, shift, m, g := Flatten(f, 0), i - j, End(Flatten(f, 0), j), KidsAt(f, j);
    FlattenIsNested(f);
    EndAt(f, j);
    assert entries[i] == s[j];
    HoldsAtFirst(entries[..], s, i, j);
    var nremoved := if subtrees then entries[i].childCount + 1 else 1;

    ghost var was := entries[..];
    ReassignChildren(entries, i, s, j);
    HoldsOutside(was, entries[..], s, j, shift, j, End(s, j));
    FixTreeLinks(entries, i, j, 0, -nremoved, s, 0);
    i', j' := i + nremoved, j;

    if !subtrees {
      CloseOverKids(entries[..], f, i, j);
    } else {
      j' := CloseOverTree(entries, i, j, nremoved, c, f);
    }
  }

  /** What zap_entries() has to make of a forest. */
  function Zapped(f: Forest, c: Filter, subtrees: bool): Forest {
    if subtrees then Prune(f, c) else Splice(f, c.keep)
  }

  /** What is left to do when `n` entries are known to stay. */
  function ZappedFrom(f: Forest, n: int, c: Filter, subtrees: bool): Forest {
    if subtrees then PruneFrom(f, n, c) else SpliceFrom(f, n, c.keep)
  }

  lemma KeepStep(f: Forest, j: nat, c: Filter, subtrees: bool)
    requires j < Size(f) && c.keep(Flatten(f, 0)[j].file)
    ensures ZappedFrom(f, j, c, subtrees) == ZappedFrom(f, j + 1, c, subtrees)
  {
    hide Flatten, PruneFrom, SpliceFrom, FileAt;
    FlattenFileAt(f, 0, j);
    if subtrees {
      PruneKeep(f, j, c);
    } else {
      SpliceKeep(f, j, c.keep);
    }
  }

  lemma DropStep(f: Forest, j: nat, c: Filter, subtrees: bool)
    requires j < Size(f) && !c.keep(Flatten(f, 0)[j].file)
    ensures ZappedFrom(f, j, c, subtrees) ==
            ZappedFrom(Dropped(f, j, c, subtrees), if subtrees && c.leafs && IsOnlyChild(f, j) then j + 1 else j,
                       c, subtrees)
  {
    hide Flatten, PruneFrom, SpliceFrom, FileAt, Replace, KidsAt;
    FlattenFileAt(f, 0, j);
    if !subtrees {
      SpliceReject(f, j, c.keep);
    } else if c.leafs && IsOnlyChild(f, j) {
      PruneLast(f, j, c);
    } else {
      PruneReject(f, j, c);
    }
  }

  lemma MoveUp(entries: seq<Entry>, s: seq<Entry>, i: nat, j: nat)
    requires Compacted(entries, s, i, j) && j < |s|
    ensures Compacted(if i == j then entries else entries[j := entries[i]], s, i + 1, j + 1)
  {
  }

  /** The loop of zap_entries(): `left` entries at the start of the array remain. */
  method Compact(entries: array<Entry>, count: nat, c: Filter, subtrees: bool, ghost forest: Forest)
    returns (left: nat)
    requires count <= entries.Length && entries[..count] == Flatten(forest, 0)
    modifies entries
    ensures left <= count && entries[..left] == Flatten(Zapped(forest, c, subtrees), 0)
  {
    hide Flatten, Size, PruneFrom, SpliceFrom, Dropped, Prune, Splice, Compacted;
    ghost var f := forest;
    if subtrees { PruneFromStart(f, 0, c); } else { SpliceFromStart(f, 0, c.keep); }
    var i, j := 0, 0;
    StartCompacting(entries[..], f, count);
    while i < count
      invariant j <= i <= count && Size(f) + (i - j) == count
      invariant Compacted(entries[..], Flatten(f, 0), i, j)
      invariant ZappedFrom(f, j, c, subtrees) == Zapped(forest, c, subtrees)
    {
      ghost var was := entries[..];
      CurrentEntry(was, Flatten(f, 0), i, j);
      if c.keep(entries[i].file) {
        KeepStep(f, j, c, subtrees);
        MoveUp(was, Flatten(f, 0), i, j);
        if i != j {
          entries[j] := entries[i];
        }
        assert entries[..] == if i == j then was else was[j := was[i]];
        j := j + 1;
        i := i + 1;
      } else {
        DropStep(f, j, c, subtrees);
        ghost var f' := Dropped(f, j, c, subtrees);
        i, j := Drop(entries, i, j, c, subtrees, f);
        f := f';
      }
    }
    if subtrees { PruneFromEnd(f, j, c); } else { SpliceFromEnd(f, j, c.keep); }
    FinishCompacting(entries[..], f, i);
    return j;
  }

  lemma StartCompacting(entries: seq<Entry>, f: Forest, count: nat)
    requires count <= |entries| && entries[..count] == Flatten(f, 0)
    ensures Size(f) == count && Compacted(entries, Flatten(f, 0), 0, 0)
  {
    hide Flatten, Size;
    assert |Flatten(f, 0)| == count;
  }

  lemma CurrentEntry(entries: seq<Entry>, s: seq<Entry>, i: nat, j: nat)
    requires Compacted(entries, s, i, j) && j < |s|
    ensures i < |entries| && entries[i] == s[j]
  {
  }

  lemma FinishCompacting(entries: seq<Entry>, f: Forest, i: nat)
    requires Compacted(entries, Flatten(f, 0), i, Size(f))
    ensures Size(f) <= |entries| && entries[..Size(f)] == Flatten(f, 0)
  {
    hide Flatten, Size;
  }

  /** What remains in terms of files and their directories. */
  function LinesLeft(f: Forest, c: Filter, subtrees: bool): seq<Line> {
    if subtrees then PrunedLines(Lines(f, []), c.keep) else SplicedLines(Lines(f, []), c.keep)
  }

  lemma LeftAreLines(f: Forest, c: Filter, subtrees: bool)
    requires !subtrees || !c.leafs
    ensures Lines(Zapped(f, c, subtrees), []) == LinesLeft(f, c, subtrees)
    ensures |LinesLeft(f, c, subtrees)| == Size(Zapped(f, c, subtrees))
  {
    hide Lines, Prune, Splice, PrunedLines, SplicedLines, Size;
    SizeOfLines(Zapped(f, c, subtrees), []);
    if subtrees {
      PruneKeepsExactLines(f, [], c);
    } else {
      assert Kept([], c.keep) == [];
      SpliceKeepsLines(f, [], c.keep);
    }
  }

  /** A list of entries of a view and its length.  The rest of the array is unused. */
  class FileList {
    var entries: array<Entry>
    var count: nat

    ghost predicate Valid()
      reads this, entries
    {
      count <= entries.Length && Forests.Valid(entries[..count], 0)
    }

    /** The forest in the list. */
    ghost function Contents(): (f: Forest)
      requires Valid()
      reads this, entries
      ensures Flatten(f, 0) == entries[..count]
    {
      Unflatten(entries[..count], 0)
    }

    /** zap_entries(): removes rejected entries. */
    method ZapEntries(c: Filter, allowEmpty: bool, subtrees: bool, parentDir: File) returns (removed: nat)
      requires Valid()
      modifies this, entries
      ensures Valid()
      ensures var left := Zapped(old(Contents()), c, subtrees);
              && Contents() == (if left.Empty? && !allowEmpty then Tree(parentDir, Empty) else left)
              && removed == old(count) - Size(left)
      ensures !subtrees || !c.leafs ==>
                var lines := LinesLeft(old(Contents()), c, subtrees);
                && removed == old(count) - |lines|
                && if lines == [] && !allowEmpty then Contents() == Tree(parentDir, Empty)
                   else Lines(Contents(), []) == lines
    {
      hide Flatten, Size, Prune, Splice, Lines, LinesLeft;
      ghost var left := Zapped(Contents(), c, subtrees);
      if !subtrees || !c.leafs {
        LeftAreLines(Contents(), c, subtrees);
      }
      var j := Compact(entries, count, c, subtrees, Contents());
      removed := count - j;
      count := j;
      FlattenIsValid(left, 0);
      SizeCons(left);

      if count == 0 && !allowEmpty {
        AddParentDir(parentDir);
      }
    }

    /** add_parent_dir() for an empty list. */
    method AddParentDir(parentDir: File)
      requires count == 0
      modifies this, entries
      ensures Valid() && Contents() == Tree(parentDir, Empty)
    {
      hide Flatten, Size;
      if entries.Length == 0 {
        entries := new Entry[1];
      }
      entries[0] := Entry(parentDir, 0, 0);
      count := 1;
      FlattenCons(Tree(parentDir, Empty), 0);
      FlattenCons(Empty, 1);
      FlattenCons(Empty, 0);
      assert entries[..count] == Flatten(Tree(parentDir, Empty), 0);
      FlattenIsValid(Tree(parentDir, Empty), 0);
    }
  }
}
