/** Repair of links of a list around a removed, emptied or added tree: fix_tree_links(). */
module Links {
  import opened Forests
  import opened Edits

  /** Skipping over trees by their counts of descendants leads from `lo` exactly to `hi`. */
  predicate Tiled(s: seq<Entry>, lo: int, hi: int)
    requires 0 <= lo && hi <= |s|
    decreases hi - lo
  {
    lo == hi || (lo < hi && 0 <= s[lo].childCount && Tiled(s, lo + 1 + s[lo].childCount, hi))
  }

  lemma Linked(s: seq<Entry>, q: nat)
    requires Nested(s) && q < |s|
    ensures LinkedAt(s, 0, q)
  {
  }

  lemma Inside(s: seq<Entry>, p: nat, q: nat)
    requires Nested(s) && p < q < |s|
    ensures InsideAt(s, p, q)
  {
  }

  /** Position `v` is `n` or one of its ancestors. */
  predicate IsAround(s: seq<Entry>, v: nat, n: nat)
    requires v < |s|
  {
    v == n || IsAncestor(s, v, n)
  }

  /** The parent of a non-root position. */
  function Parent(s: seq<Entry>, v: nat): int
    requires v < |s|
  {
    v - s[v].childPos
  }

  lemma ParentIsAround(s: seq<Entry>, v: nat)
    requires Nested(s) && v < |s| && s[v].childPos != 0
    ensures 0 <= Parent(s, v) < v < End(s, v) <= End(s, Parent(s, v)) <= |s|
  {
    hide Nested;
    Linked(s, v);
    Linked(s, Parent(s, v));
    Inside(s, Parent(s, v), v);
  }

  /** A tree is followed by its next sibling or by the end of their parent's contents. */
  lemma NextSibling(s: seq<Entry>, v: nat)
    requires Nested(s) && v < |s| && s[v].childPos != 0
    requires 0 <= Parent(s, v) < v < End(s, v) < End(s, Parent(s, v)) <= |s|
    ensures Parent(s, End(s, v)) == Parent(s, v)
  {
    hide Nested;
    var p, q := Parent(s, v), End(s, v);
    Inside(s, p, q);
    Linked(s, q);
    var x := Parent(s, q);
    if p < x {
      Inside(s, p, x);
      if x < v {
        Inside(s, x, v);
      } else if v < x {
        Inside(s, v, x);
      }
    }
  }

  /** A step up from `v` misses no ancestor of `n`. */
  lemma StepUp(s: seq<Entry>, n: nat, v: nat)
    requires Nested(s) && n < |s| && v < |s| && IsAround(s, v, n) && s[v].childPos != 0
    ensures 0 <= Parent(s, v) < v && IsAncestor(s, Parent(s, v), n)
    ensures forall q: nat | Parent(s, v) < q < v :: !IsAncestor(s, q, n)
  {
    hide Nested;
    ParentIsAround(s, v);
    forall q: nat | Parent(s, v) < q < v ensures !IsAncestor(s, q, n) {
      Inside(s, q, v);
    }
  }

  /** No entry outside of the top-level tree around `n` depends on the size of the tree at `n`. */
  lemma AtTop(s: seq<Entry>, n: nat, v: nat, q: nat)
    requires Nested(s) && n < |s| && v < |s| && IsAround(s, v, n) && s[v].childPos == 0 && q < |s|
    requires n < End(s, n)
    ensures q < v ==> !IsAncestor(s, q, n)
    ensures End(s, v) <= q ==> !IsLaterSibling(s, q, n, End(s, n))
  {
    hide Nested;
    if q < v {
      Inside(s, q, v);
    }
    if End(s, v) <= q && s[q].childPos != 0 {
      ParentIsAround(s, q);
      var x := Parent(s, q);
      if x < v {
        Inside(s, x, v);
      } else if v < x < n {
        Inside(s, v, x);
      }
    }
  }

  /** Descendants of a tree that follows `n` do not depend on the size of the tree at `n`. */
  lemma InsideSibling(s: seq<Entry>, n: nat, q: nat, r: nat)
    requires Nested(s) && n < q < r < |s| && r < End(s, q) && n < End(s, n)
    ensures !IsLaterSibling(s, r, n, End(s, n))
  {
    hide Nested;
    Inside(s, q, r);
  }

  /** Entries of a list that is being compacted: of the list `s` with the tree at position `n`,
      entries before the tree are in their places and entries after the tree are `shift` positions
      further.  `d` is by how much sizes of the contents are corrected: up to position `lim` of
      the entries after the tree and from position `v` of the entries before it by `d'`. */
  ghost predicate Holds(entries: seq<Entry>, s: seq<Entry>, n: nat, shift: nat,
                        v: nat, lim: int, d: int, d': int)
    requires n < |s| && n < End(s, n) <= |s|
  {
    && |s| + shift <= |entries|
    && (forall k | 0 <= k < n :: entries[k] == Relinked(s, n, End(s, n), if v <= k then d' else d, k))
    && (forall k | End(s, n) <= k - shift < |s| ::
          entries[k] == Relinked(s, n, End(s, n), if k - shift < lim then d' else d, k - shift))
  }

  lemma HoldsSize(entries: seq<Entry>, s: seq<Entry>, n: nat, shift: nat, v: nat, lim: int, d: int, d': int)
    requires n < |s| && n < End(s, n) <= |s| && Holds(entries, s, n, shift, v, lim, d, d')
    ensures |s| + shift <= |entries|
  {
  }

  /** What is inside of the tree doesn't matter. */
  lemma HoldsApart(entries: seq<Entry>, s: seq<Entry>, n: nat, shift: nat, v: nat, lim: int, d: int, d': int,
                   k: nat, x: Entry)
    requires n < |s| && n < End(s, n) <= |s| && Holds(entries, s, n, shift, v, lim, d, d')
    requires n <= k < End(s, n) + shift && k < |entries|
    ensures Holds(entries[k := x], s, n, shift, v, lim, d, d')
  {
  }

  /** A step of the walk: corrects the root at `q` and skips its descendants. */
  lemma CorrectSibling(entries: seq<Entry>, s: seq<Entry>, n: nat, shift: nat, v: nat, q: nat, d: int, c: int)
    requires Nested(s) && n < |s| && n < End(s, n) <= q < |s| && q < End(s, q) <= |s|
    requires s[q].childPos != 0 && Parent(s, q) < n
    requires Holds(entries, s, n, shift, v, q, d, d + c)
    ensures var e := entries[q + shift];
            && e.childCount == s[q].childCount
            && Holds(entries[q + shift := e.(childPos := e.childPos + c)], s, n, shift, v, End(s, q), d, d + c)
  {
    hide Nested;
    var e, m := entries[q + shift], End(s, n);
    var corrected := entries[q + shift := e.(childPos := e.childPos + c)];
    forall k | m <= k - shift < |s|
      ensures corrected[k] == Relinked(s, n, m, if k - shift < End(s, q) then d + c else d, k - shift)
    {
      if q < k - shift < End(s, q) {
        InsideSibling(s, n, q, k - shift);
      }
    }
  }

  lemma ParentCount(entries: seq<Entry>, s: seq<Entry>, n: nat, shift: nat, v: nat, d: int, c: int)
    requires Nested(s) && n < |s| && n < End(s, n) <= |s|
    requires v < |s| && IsAround(s, v, n) && s[v].childPos != 0
    requires Holds(entries, s, n, shift, v, End(s, v), d, d + c)
    ensures 0 <= Parent(s, v) < v && entries[Parent(s, v)].childCount == s[Parent(s, v)].childCount + d
  {
    hide Nested;
    StepUp(s, n, v);
  }

  /** The part of fix_tree_links() that walks over siblings at one level: corrects links of the
      trees after `v` up to the end of the parent's contents.  On the first level, the walk may
      start at positions of entries which are not in the list anymore. */
  method FixSiblings(entries: array<Entry>, first: int, parent: int, displacement: int, correction: int,
                     ghost s: seq<Entry>, ghost n: nat, ghost shift: nat, ghost v: nat, ghost d: int)
    returns (pos: int)
    requires Nested(s) && n < |s| && n < End(s, n) <= |s|
    requires v < |s| && IsAround(s, v, n) && s[v].childPos != 0
    requires 0 <= parent == Parent(s, v) < v < End(s, v) <= End(s, parent) <= |s|
    requires End(s, n) <= End(s, v) && Holds(entries[..], s, n, shift, v, End(s, v), d, d + correction)
    requires n <= first <= End(s, v) + shift && displacement == shift - d
    requires v == n || first == End(s, v) + shift
    requires Tiled(entries[..], first, End(s, v) + shift)
    modifies entries
    ensures pos == End(s, parent) + shift
    ensures Holds(entries[..], s, n, shift, v, End(s, parent), d, d + correction)
    ensures forall k | 0 <= k < first || |s| + shift <= k < entries.Length :: entries[k] == old(entries[k])
  {
    hide Nested, Relinked, Holds;
    pos := first;
    HoldsSize(entries[..], s, n, shift, v, End(s, v), d, d + correction);
    StepUp(s, n, v);
    ghost var q, m := End(s, v), End(s, n);
    ghost var was := entries[..];
    if q < End(s, parent) { NextSibling(s, v); }
    ParentCount(entries[..], s, n, shift, v, d, correction);
    while pos <= parent + displacement + entries[parent].childCount
      invariant first <= pos <= End(s, parent) + shift
      invariant m <= q <= End(s, parent)
      invariant q < End(s, parent) ==> Parent(s, q) == parent
      invariant pos == q + shift || (pos < q + shift && v == n && q == m && Tiled(was, pos, q + shift))
      invariant entries[parent].childCount == s[parent].childCount + d
      invariant Holds(entries[..], s, n, shift, v, q, d, d + correction)
      invariant forall k | 0 <= k < first || pos <= k < m + shift || |s| + shift <= k < entries.Length ::
                  entries[k] == was[k]
      decreases End(s, parent) + shift - pos
    {
      if pos == q + shift {
        ParentIsAround(s, q);
        CorrectSibling(entries[..], s, n, shift, v, q, d, correction);
        if End(s, q) < End(s, parent) { NextSibling(s, q); }
        q := End(s, q);
      } else {
        HoldsApart(entries[..], s, n, shift, v, q, d, d + correction, pos,
                   entries[pos].(childPos := entries[pos].childPos + correction));
      }
      ghost var before := entries[..];
      entries[pos] := entries[pos].(childPos := entries[pos].childPos + correction);
      assert entries[..] == before[pos := entries[pos]];
      pos := pos + entries[pos].childCount + 1;
    }
  }

  /** After the step up, all entries between `p` and `v` are as they should be. */
  lemma CorrectParent(entries: seq<Entry>, s: seq<Entry>, n: nat, shift: nat, v: nat, d: int, c: int)
    requires Nested(s) && n < |s| && n < End(s, n) <= |s|
    requires v < |s| && IsAround(s, v, n) && s[v].childPos != 0
    requires 0 <= Parent(s, v) < n
    requires Holds(entries, s, n, shift, v, End(s, Parent(s, v)), d, d + c)
    ensures var p := Parent(s, v);
            var e := entries[p];
            && e.childPos == s[p].childPos
            && Holds(entries[p := e.(childCount := e.childCount + c)], s, n, shift, p, End(s, p), d, d + c)
  {
    hide Nested;
    StepUp(s, n, v);
  }

  /** All corrections are done at the top level. */
  lemma CorrectTop(entries: seq<Entry>, s: seq<Entry>, n: nat, shift: nat, v: nat, d: int, c: int)
    requires Nested(s) && n < |s| && n < End(s, n) <= |s|
    requires v < |s| && IsAround(s, v, n) && s[v].childPos == 0
    requires Holds(entries, s, n, shift, v, End(s, v), d, d + c)
    ensures Holds(entries, s, n, shift, 0, |s|, d, d + c)
  {
    hide Nested;
    var m := End(s, n);
    forall k | 0 <= k < n ensures entries[k] == Relinked(s, n, m, d + c, k) {
      AtTop(s, n, v, k);
    }
    forall k | m <= k - shift < |s| ensures entries[k] == Relinked(s, n, m, d + c, k - shift) {
      AtTop(s, n, v, k - shift);
    }
  }

  lemma StartInside(entries: seq<Entry>, s: seq<Entry>, n: nat, shift: nat, d: int, c: int)
    requires Nested(s) && n < |s| && n < End(s, n) <= |s| && s[n].childPos != 0
    requires Holds(entries, s, n, shift, n, End(s, n), d, d)
    ensures 0 <= Parent(s, n) < n < End(s, n) <= End(s, Parent(s, n)) <= |s|
    ensures Holds(entries, s, n, shift, n, End(s, n), d, d + c)
  {
    hide Nested;
    ParentIsAround(s, n);
  }

  lemma StartAtRoot(entries: seq<Entry>, s: seq<Entry>, n: nat, shift: nat, d: int, c: int)
    requires Nested(s) && n < |s| && n < End(s, n) <= |s| && s[n].childPos == 0
    requires Holds(entries, s, n, shift, n, End(s, n), d, d)
    ensures Holds(entries, s, n, shift, 0, |s|, d, d + c)
  {
    hide Nested;
    CorrectTop(entries, s, n, shift, n, d, c);
  }

  lemma NothingIsTiled(s: seq<Entry>, lo: nat)
    requires lo <= |s|
    ensures Tiled(s, lo, lo)
  {
  }

  lemma HoldsThroughout(entries: seq<Entry>, s: seq<Entry>, n: nat, shift: nat, d: int)
    requires n < |s| && n < End(s, n) <= |s| && Holds(entries, s, n, shift, n, End(s, n), d, d)
    ensures Holds(entries, s, n, shift, 0, |s|, d, d)
  {
  }

  /** An iteration of the outer loop of fix_tree_links(): corrects everything inside of the parent. */
  method FixLevel(entries: array<Entry>, first: int, parent: int, displacement: int, correction: int,
                  ghost s: seq<Entry>, ghost n: nat, ghost shift: nat, ghost v: nat, ghost d: int)
    returns (pos: int)
    requires Nested(s) && n < |s| && n < End(s, n) <= |s|
    requires v < |s| && IsAround(s, v, n) && s[v].childPos != 0
    requires 0 <= parent == Parent(s, v) < v <= n && v < End(s, v) <= End(s, parent) <= |s|
    requires End(s, n) <= End(s, v) && Holds(entries[..], s, n, shift, v, End(s, v), d, d + correction)
    requires n <= first <= End(s, v) + shift && displacement == shift - d
    requires v == n || first == End(s, v) + shift
    requires Tiled(entries[..], first, End(s, v) + shift)
    modifies entries
    ensures pos == End(s, parent) + shift <= entries.Length && Tiled(entries[..], pos, pos)
    ensures Holds(entries[..], s, n, shift, parent, End(s, parent), d, d + correction)
    ensures IsAround(s, parent, n) && entries[parent].childPos == s[parent].childPos
    ensures forall k | n <= k < first || |s| + shift <= k < entries.Length :: entries[k] == old(entries[k])
  {
    hide Nested, Relinked, Holds, IsAround, Tiled;
    pos := FixSiblings(entries, first, parent, displacement, correction, s, n, shift, v, d);
    HoldsSize(entries[..], s, n, shift, v, End(s, parent), d, d + correction);
    ParentIsOutside(s, n, v);
    CorrectParent(entries[..], s, n, shift, v, d, correction);
    ghost var before := entries[..];
    entries[parent] := entries[parent].(childCount := entries[parent].childCount + correction);
    assert entries[..] == before[parent := entries[parent]];
    NothingIsTiled(entries[..], pos);
  }

  lemma ParentIsOutside(s: seq<Entry>, n: nat, v: nat)
    requires Nested(s) && n < |s| && v < |s| && IsAround(s, v, n) && s[v].childPos != 0
    ensures 0 <= Parent(s, v) < v && IsAround(s, Parent(s, v), n)
  {
    hide Nested;
    StepUp(s, n, v);
  }

  /** fix_tree_links() for an entry at `oldIdx` that is about to be at `newIdx`. */
  method FixTreeLinks(entries: array<Entry>, oldIdx: nat, newIdx: nat, displacement: int, correction: int,
                      ghost s: seq<Entry>, ghost d: int)
    requires Nested(s) && newIdx < |s| && newIdx < End(s, newIdx) <= |s|
    requires newIdx <= oldIdx < entries.Length && displacement == -d
    requires Holds(entries[..], s, newIdx, oldIdx - newIdx, newIdx, End(s, newIdx), d, d)
    requires entries[oldIdx].childPos == s[newIdx].childPos
    requires 0 <= entries[oldIdx].childCount
    requires Tiled(entries[..], oldIdx + 1 + entries[oldIdx].childCount, End(s, newIdx) + oldIdx - newIdx)
    modifies entries
    ensures Holds(entries[..], s, newIdx, oldIdx - newIdx, 0, |s|, d, d + correction)
    ensures forall k | newIdx <= k < oldIdx + 1 + old(entries[oldIdx].childCount)
                       || |s| + oldIdx - newIdx <= k < entries.Length ::
              entries[k] == old(entries[k])
  {
    ghost var n, gap: nat := newIdx, oldIdx - newIdx;
    if correction == 0 {
      HoldsThroughout(entries[..], s, n, gap, d);
      return;
    }
    hide Nested, Relinked, Holds, IsAround, Tiled;
    HoldsSize(entries[..], s, n, gap, n, End(s, n), d, d);
    if entries[oldIdx].childPos == 0 {
      StartAtRoot(entries[..], s, n, gap, d, correction);
      return;
    }
    var shift := displacement + (oldIdx - newIdx);
    var pos := oldIdx + (entries[oldIdx].childCount + 1);
    var parent := newIdx - entries[oldIdx].childPos;
    StartInside(entries[..], s, n, gap, d, correction);
    FixLevels(entries, pos, parent, shift, correction, s, n, gap, d);
  }

  /** The outer loop of fix_tree_links(). */
  method FixLevels(entries: array<Entry>, first: int, firstParent: int, displacement: int, correction: int,
                   ghost s: seq<Entry>, ghost n: nat, ghost gap: nat, ghost d: int)
    requires Nested(s) && n < |s| && n < End(s, n) <= |s| && |s| + gap <= entries.Length
    requires s[n].childPos != 0 && firstParent == Parent(s, n) && displacement == gap - d
    requires Holds(entries[..], s, n, gap, n, End(s, n), d, d + correction)
    requires n <= first <= End(s, n) + gap && Tiled(entries[..], first, End(s, n) + gap)
    modifies entries
    ensures Holds(entries[..], s, n, gap, 0, |s|, d, d + correction)
    ensures forall k | n <= k < first || |s| + gap <= k < entries.Length :: entries[k] == old(entries[k])
  {
    assert IsAround(s, n, n);
    hide Nested, Relinked, Holds, IsAround, Tiled;
    var pos, parent := first, firstParent;
    ghost var v: nat := n;
    ParentIsAround(s, n);
    while true
      invariant v <= n && IsAround(s, v, n) && s[v].childPos != 0
      invariant 0 <= parent == Parent(s, v) < v < End(s, v) <= End(s, parent) <= |s| && End(s, n) <= End(s, v)
      invariant Holds(entries[..], s, n, gap, v, End(s, v), d, d + correction)
      invariant first <= pos <= End(s, v) + gap && (v == n || pos == End(s, v) + gap)
      invariant Tiled(entries[..], pos, End(s, v) + gap)
      invariant forall k | n <= k < first || |s| + gap <= k < entries.Length :: entries[k] == old(entries[k])
      decreases parent
    {
      pos := FixLevel(entries, pos, parent, displacement, correction, s, n, gap, v, d);
      v := parent;
      if entries[parent].childPos == 0 {
        CorrectTop(entries[..], s, n, gap, v, d, correction);
        break;
      }
      parent := parent - entries[parent].childPos;
      ParentIsAround(s, v);
    }
  }
}
