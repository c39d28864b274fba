/** The tree views keep a forest of files as one pre-order array.  Every entry of
    the array stores the distance to its parent (0 for a top-level entry) and
    the number of its descendants.  This module defines the forest, its array
    form and the conversions between them. */
module Forests {

  /** What an entry says about a file besides its place in the tree. */
  datatype File = File(path: string, name: string, isDir: bool, folded: bool, temporary: bool)

  /** An element of a list of a view: a file and its links. */
  datatype Entry = Entry(file: File, childPos: int, childCount: int)

  /** A forest: its first tree (a root and the forest of its children) and the remaining trees. */
  datatype Forest = Empty | Cons(root: File, kids: Forest, rest: Forest)

  function Size(f: Forest): nat {
    match f
    case Empty => 0
    case Cons(_, kids, rest) => 1 + Size(kids) + Size(rest)
  }

  /** Distance to the parent `n` entries further; top-level entries always have 0. */
  function Further(up: nat, n: nat): nat {
    if up == 0 then 0 else up + n
  }

  /** The array of a forest whose first entry is at the distance `up` from the parent. */
  function Flatten(f: Forest, up: nat): (s: seq<Entry>)
    ensures |s| == Size(f)
  {
    match f
    case Empty => []
    case Cons(root, kids, rest) =>
      [Entry(root, up, Size(kids))] + Flatten(kids, 1) + Flatten(rest, Further(up, 1 + Size(kids)))
  }

  /** One step of the definition. */
  lemma FlattenCons(f: Forest, up: nat)
    ensures f.Empty? ==> Size(f) == 0 && Flatten(f, up) == []
    ensures f.Cons? ==>
              && Size(f) == 1 + Size(f.kids) + Size(f.rest)
              && Flatten(f, up) == [Entry(f.root, up, Size(f.kids))] + Flatten(f.kids, 1)
                                   + Flatten(f.rest, Further(up, 1 + Size(f.kids)))
  {
  }

  /** Position right after the last descendant. */
  function End(s: seq<Entry>, p: nat): int
    requires p < |s|
  {
    p + 1 + s[p].childCount
  }

  /** The tree recognizer: all links are exact. */
  predicate Valid(s: seq<Entry>, up: nat)
    decreases |s|
  {
    s == [] ||
    (&& 0 <= s[0].childCount < |s|
     && s[0].childPos == up
     && Valid(s[1..1 + s[0].childCount], 1)
     && Valid(s[1 + s[0].childCount..], Further(up, 1 + s[0].childCount)))
  }

  /** The forest stored in an array. */
  function Unflatten(s: seq<Entry>, up: nat): (f: Forest)
    requires Valid(s, up)
    ensures Flatten(f, up) == s
    decreases |s|
  {
    if s == [] then
      Empty
    else
      var n := s[0].childCount;
      assert s == [s[0]] + s[1..1 + n] + s[1 + n..];
      Cons(s[0].file, Unflatten(s[1..1 + n], 1), Unflatten(s[1 + n..], Further(up, 1 + n)))
  }

  lemma {:induction false} FlattenIsValid(f: Forest, up: nat)
    ensures Valid(Flatten(f, up), up)
    ensures Unflatten(Flatten(f, up), up) == f
  {
    hide Flatten;
    FlattenCons(f, up);
    if f.Cons? {
      var s, n := Flatten(f, up), Size(f.kids);
      FlattenIsValid(f.kids, 1);
      FlattenIsValid(f.rest, Further(up, 1 + n));
      assert s[1..1 + n] == Flatten(f.kids, 1);
      assert s[1 + n..] == Flatten(f.rest, Further(up, 1 + n));
    }
  }

  /** Two forests with the same array are the same forest. */
  lemma FlattenIsInjective(f: Forest, g: Forest, up: nat)
    requires Flatten(f, up) == Flatten(g, up)
    ensures f == g
  {
    FlattenIsValid(f, up);
    FlattenIsValid(g, up);
  }

  // ---- what the links of a forest look like at single positions ----

  /** Where position `q` of a non-empty forest's array comes from: its first root, a
      descendant of that root or a later tree. */
  lemma FlattenAt(f: Forest, up: nat, q: nat)
    requires f.Cons? && q < Size(f)
    ensures var n := Size(f.kids);
            Flatten(f, up)[q] ==
            if q == 0 then Entry(f.root, up, n)
            else if q <= n then Flatten(f.kids, 1)[q - 1]
            else Flatten(f.rest, Further(up, 1 + n))[q - 1 - n]
  {
  }

  /** A link is 0 in a top-level entry, leaves the forest from its other roots, and leads
      backwards to an entry whose descendants include this one everywhere else. */
  predicate LinkedAt(s: seq<Entry>, up: nat, q: nat)
    requires q < |s|
  {
    && 0 <= s[q].childCount && End(s, q) <= |s|
    && (|| s[q].childPos == Further(up, q)
        || (&& 1 <= s[q].childPos <= q
            && 0 <= s[q - s[q].childPos].childCount
            && q < End(s, q - s[q].childPos)))
  }

  lemma {:induction false} FlattenLinkedAt(f: Forest, up: nat, q: nat)
    requires q < Size(f)
    ensures LinkedAt(Flatten(f, up), up, q)
  {
    hide Flatten;
    var s, n := Flatten(f, up), Size(f.kids);
    FlattenAt(f, up, q);
    if 1 <= q <= n {
      FlattenLinkedAt(f.kids, 1, q - 1);
      if s[q].childPos <= q {
        FlattenAt(f, up, q - s[q].childPos);
      }
    } else if n < q {
      FlattenLinkedAt(f.rest, Further(up, 1 + n), q - 1 - n);
      if 1 <= s[q].childPos <= q - 1 - n {
        FlattenAt(f, up, q - s[q].childPos);
      }
    }
  }

  /** The descendants of an entry form an interval, such intervals nest, and links do not
      lead out of them. */
  predicate InsideAt(s: seq<Entry>, p: nat, q: nat)
    requires p < q < |s|
  {
    q < End(s, p) ==> End(s, q) <= End(s, p) && 1 <= s[q].childPos <= q - p
  }

  lemma {:induction false} FlattenInsideAt(f: Forest, up: nat, p: nat, q: nat)
    requires p < q < Size(f)
    ensures InsideAt(Flatten(f, up), p, q)
  {
    hide Flatten;
    var n := Size(f.kids);
    FlattenAt(f, up, p);
    FlattenAt(f, up, q);
    if p == 0 && q <= n {
      FlattenLinkedAt(f.kids, 1, q - 1);
    } else if 1 <= p && q <= n {
      FlattenInsideAt(f.kids, 1, p - 1, q - 1);
    } else if 1 <= p <= n < q {
      FlattenLinkedAt(f.kids, 1, p - 1);
    } else if n < p {
      FlattenInsideAt(f.rest, Further(up, 1 + n), p - 1 - n, q - 1 - n);
    }
  }

  /** All of the above for a whole list. */
  ghost predicate Nested(s: seq<Entry>) {
    && (forall q: nat | q < |s| :: LinkedAt(s, 0, q))
    && (forall p: nat, q: nat | p < q < |s| :: InsideAt(s, p, q))
  }

  lemma FlattenIsNested(f: Forest)
    ensures Nested(Flatten(f, 0))
  {
    forall q: nat | q < Size(f) ensures LinkedAt(Flatten(f, 0), 0, q) {
      FlattenLinkedAt(f, 0, q);
    }
    forall p: nat, q: nat | p < q < Size(f) ensures InsideAt(Flatten(f, 0), p, q) {
      FlattenInsideAt(f, 0, p, q);
    }
  }
}
