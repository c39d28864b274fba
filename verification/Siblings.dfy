/** Motions between siblings of a tree: they walk over a list using only its links. */
module Siblings {
  import opened Forests
  import opened Links

  /** Both entries are top-level ones or have the same parent. */
  predicate AreSiblings(s: seq<Entry>, p: nat, q: nat)
    requires p < |s| && q < |s|
  {
    if s[p].childPos == 0 then s[q].childPos == 0
    else s[q].childPos != 0 && Parent(s, q) == Parent(s, p)
  }

  /** The last descendant and everything before it up to an entry is inside of that entry. */
  lemma InsideParent(s: seq<Entry>, q: nat, r: nat)
    requires Nested(s) && q < r < |s| && r < End(s, q)
    ensures s[r].childPos != 0 && q <= Parent(s, r)
  {
    hide Nested;
    Inside(s, q, r);
  }

  /** Index of the first entry of the level of the cursor. */
  function FirstSibling(s: seq<Entry>, cursor: nat): (r: int)
    requires Nested(s) && cursor < |s|
    ensures 0 <= r <= cursor && AreSiblings(s, cursor, r)
    ensures forall q: nat | q < r :: !AreSiblings(s, cursor, q)
  {
    hide Nested;
    Linked(s, 0);
    Linked(s, cursor);
    var parent := cursor - s[cursor].childPos;
    if parent == cursor then
      0
    else
      Inside(s, parent, parent + 1);
      assert forall q: nat | q <= parent :: s[q].childPos == 0 || Parent(s, q) < parent by {
        forall q: nat | q <= parent ensures s[q].childPos == 0 || Parent(s, q) < parent { Linked(s, q); }
      }
      parent + 1
  }

  method LastSibling(s: seq<Entry>, cursor: nat) returns (pos: int)
    requires Nested(s) && cursor < |s|
    ensures cursor <= pos < |s| && AreSiblings(s, cursor, pos)
    ensures forall q: nat | pos < q < |s| :: !AreSiblings(s, cursor, q)
  {
    hide Nested;
    pos := cursor - s[cursor].childPos;
    if pos == cursor {
      pos := |s| - 1;
      while s[pos].childPos != 0
        invariant cursor <= pos < |s|
        invariant forall q: nat | pos < q < |s| :: s[q].childPos != 0
        decreases pos
      {
        ParentIsAround(s, pos);
        ghost var above := Parent(s, pos);
        if above < cursor { InsideParent(s, above, cursor); }
        forall q: nat | above < q <= pos ensures s[q].childPos != 0 { InsideParent(s, above, q); }
        pos := pos - s[pos].childPos;
      }
    } else {
      var parent := pos;
      ParentIsAround(s, cursor);
      Linked(s, parent);
      pos := parent + s[parent].childCount;
      forall q: nat | End(s, parent) <= q < |s| ensures !AreSiblings(s, cursor, q) { PastEnd(s, parent, q); }
      while pos - s[pos].childPos != parent
        invariant cursor <= pos < End(s, parent)
        invariant forall q: nat | pos < q < End(s, parent) :: Parent(s, q) != parent
        decreases pos
      {
        InsideParent(s, parent, pos);
        ParentIsAround(s, pos);
        ghost var above := Parent(s, pos);
        if above < cursor { InsideParent(s, above, cursor); }
        forall q: nat | above < q <= pos ensures Parent(s, q) != parent { InsideParent(s, above, q); }
        pos := pos - s[pos].childPos;
      }
    }
  }

  /** Children do not follow the end of their parent's contents. */
  lemma PastEnd(s: seq<Entry>, parent: nat, q: nat)
    requires Nested(s) && parent < |s| && parent < q < |s| && End(s, parent) <= q
    ensures s[q].childPos == 0 || Parent(s, q) != parent
  {
    hide Nested;
    Linked(s, q);
  }

  /** What follows a tree among siblings of the cursor. */
  lemma NextAtLevel(s: seq<Entry>, v: nat, cursor: nat)
    requires Nested(s) && v < |s| && cursor < |s| && AreSiblings(s, cursor, v)
    ensures v < End(s, v) <= |s|
    ensures s[v].childPos == 0 && End(s, v) < |s| ==> s[End(s, v)].childPos == 0
    ensures s[v].childPos != 0 ==>
              && 0 <= Parent(s, v) < v && End(s, v) <= End(s, Parent(s, v)) <= |s|
              && (End(s, v) < End(s, Parent(s, v)) ==> AreSiblings(s, v, End(s, v)))
    ensures forall q: nat | v < q < End(s, v) :: !AreSiblings(s, cursor, q)
  {
    hide Nested;
    Linked(s, v);
    forall q: nat | v < q < End(s, v) ensures !AreSiblings(s, cursor, q) { InsideParent(s, v, q); }
    var q := End(s, v);
    if s[v].childPos != 0 {
      ParentIsAround(s, v);
      Linked(s, Parent(s, v));
      if q < End(s, Parent(s, v)) {
        Inside(s, Parent(s, v), q);
        NextSibling(s, v);
      }
    } else if q < |s| && s[q].childPos != 0 {
      ParentIsAround(s, q);
      var x := Parent(s, q);
      if x < v {
        Inside(s, x, v);
      } else if v < x {
        Inside(s, v, x);
      }
    }
  }

  /** The nearest following directory of the level of the cursor or the cursor itself. */
  method NextDirSibling(s: seq<Entry>, cursor: nat) returns (r: int)
    requires Nested(s) && cursor < |s|
    ensures cursor <= r < |s| && AreSiblings(s, cursor, r)
    ensures r != cursor ==>
              && s[r].file.isDir
              && forall q: nat | cursor < q < r :: AreSiblings(s, cursor, q) ==> !s[q].file.isDir
    ensures r == cursor ==> forall q: nat | cursor < q < |s| :: AreSiblings(s, cursor, q) ==> !s[q].file.isDir
  {
    hide Nested;
    NextAtLevel(s, cursor, cursor);
    var pos: int := cursor;
    var parent := if s[pos].childPos == 0 then -1 else pos - s[pos].childPos;
    var pastEnd := if parent == -1 then |s| else parent + 1 + s[parent].childCount;
    forall q: nat | pastEnd <= q < |s| ensures !AreSiblings(s, cursor, q) { PastEnd(s, parent, q); }
    pos := pos + (s[pos].childCount + 1);
    while pos < pastEnd
      invariant cursor < pos <= pastEnd <= |s|
      invariant pos < pastEnd ==> AreSiblings(s, cursor, pos)
      invariant forall q: nat | cursor < q < pos :: AreSiblings(s, cursor, q) ==> !s[q].file.isDir
    {
      if s[pos].file.isDir {
        break;
      }
      NextAtLevel(s, pos, cursor);
      pos := pos + (s[pos].childCount + 1);
    }
    r := if pos < pastEnd then pos else cursor;
  }

  /** The nearest preceding directory of the level of the cursor or the cursor itself. */
  method PrevDirSibling(s: seq<Entry>, cursor: nat) returns (r: int)
    requires Nested(s) && cursor < |s|
    ensures 0 <= r <= cursor && AreSiblings(s, cursor, r)
    ensures r != cursor ==>
              && s[r].file.isDir
              && forall q: nat | r < q < cursor :: AreSiblings(s, cursor, q) ==> !s[q].file.isDir
    ensures r == cursor ==> forall q: nat | q < cursor :: AreSiblings(s, cursor, q) ==> !s[q].file.isDir
  {
    hide Nested;
    Linked(s, cursor);
    var pos: int := cursor;
    var parent := if s[pos].childPos == 0 then -1 else pos - s[pos].childPos;
    forall q: nat | q < cursor && q <= parent ensures !AreSiblings(s, cursor, q) { Linked(s, q); }
    pos := pos - 1;
    while pos > parent
      invariant parent <= pos < cursor
      invariant forall q: nat | pos < q < cursor :: AreSiblings(s, cursor, q) ==> !s[q].file.isDir
    {
      Linked(s, pos);
      var p := if s[pos].childPos == 0 then -1 else pos - s[pos].childPos;
      if parent >= 0 { InsideParent(s, parent, pos); }
      // If we are deeper than at first, one level up.
      if p != parent {
        forall q: nat | p < q <= pos ensures !AreSiblings(s, cursor, q) { InsideParent(s, p, q); }
        pos := p;
        continue;
      }
      if s[pos].file.isDir {
        break;
      }
      pos := pos - 1;
    }
    r := if pos > parent then pos else cursor;
  }

  /** Lists accepted by the tree recognizer are fine. */
  lemma ValidIsNested(s: seq<Entry>)
    requires Valid(s, 0)
    ensures Nested(s)
  {
    FlattenIsNested(Unflatten(s, 0));
  }
}
