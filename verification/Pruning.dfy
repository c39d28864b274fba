/** Removal of files from a forest, as wanted and as done node by node in pre-order. */
module Pruning {
  import opened Forests
  import opened Edits

  function Tree(root: File, kids: Forest): Forest {
    Cons(root, kids, Empty)
  }

  /** Settings of a removal: which files stay, and whether a directory that loses all of its
      contents gets a ".." entry and what this entry is. */
  datatype Filter = Filter(keep: File -> bool, leafs: bool, leafOf: File -> File)

  /** Children of `root` after `kids` has been turned into `kids'`. */
  function WithLeaf(c: Filter, root: File, kids: Forest, kids': Forest): Forest {
    if c.leafs && kids.Cons? && kids'.Empty? then Tree(c.leafOf(root), Empty) else kids'
  }

  /** The forest without rejected files and anything that is inside of them. */
  function Prune(f: Forest, c: Filter): Forest {
    match f
    case Empty => Empty
    case Cons(root, kids, rest) =>
      if c.keep(root) then
        Cons(root, WithLeaf(c, root, kids, Prune(kids, c)), Prune(rest, c))
      else
        Prune(rest, c)
  }

  /** The forest in which children of rejected files take their place. */
  function Splice(f: Forest, keep: File -> bool): Forest {
    match f
    case Empty => Empty
    case Cons(root, kids, rest) =>
      if keep(root) then
        Cons(root, Splice(kids, keep), Splice(rest, keep))
      else
        Append(Splice(kids, keep), Splice(rest, keep))
  }

  // ---- the same for positions from `n` on ----

  function PruneFrom(f: Forest, n: int, c: Filter): Forest {
    match f
    case Empty => Empty
    case Cons(root, kids, rest) =>
      var rest' := PruneFrom(rest, n - 1 - Size(kids), c);
      if n <= 0 && !c.keep(root) then
        rest'
      else
        Cons(root, WithLeaf(c, root, kids, PruneFrom(kids, n - 1, c)), rest')
  }

  function SpliceFrom(f: Forest, n: int, keep: File -> bool): Forest {
    match f
    case Empty => Empty
    case Cons(root, kids, rest) =>
      var rest' := SpliceFrom(rest, n - 1 - Size(kids), keep);
      if n <= 0 && !keep(root) then
        Append(SpliceFrom(kids, n - 1, keep), rest')
      else
        Cons(root, SpliceFrom(kids, n - 1, keep), rest')
  }

  lemma PruneFromStart(f: Forest, n: int, c: Filter)
    requires n <= 0
    ensures PruneFrom(f, n, c) == Prune(f, c)
  {
  }

  lemma PruneFromEnd(f: Forest, n: int, c: Filter)
    requires Size(f) <= n
    ensures PruneFrom(f, n, c) == f
  {
  }

  lemma SpliceFromStart(f: Forest, n: int, keep: File -> bool)
    requires n <= 0
    ensures SpliceFrom(f, n, keep) == Splice(f, keep)
  {
  }

  lemma SpliceFromEnd(f: Forest, n: int, keep: File -> bool)
    requires Size(f) <= n
    ensures SpliceFrom(f, n, keep) == f
  {
  }

  function FileAt(f: Forest, n: nat): File
    requires n < Size(f)
  {
    if n == 0 then f.root
    else if n <= Size(f.kids) then FileAt(f.kids, n - 1)
    else FileAt(f.rest, n - 1 - Size(f.kids))
  }

  lemma FlattenFileAt(f: Forest, up: nat, n: nat)
    requires n < Size(f)
    ensures Flatten(f, up)[n].file == FileAt(f, n)
  {
    hide Flatten;
    FlattenAt(f, up, n);
  }

  /** The entry at `n` is everything that is inside of the previous entry. */
  predicate IsOnlyChild(f: Forest, n: nat)
    requires n < Size(f)
  {
    n > 0 && Size(KidsAt(f, n - 1)) == 1 + Size(KidsAt(f, n))
  }

  /** Positions up to 0 are all the same, positions from the size on are all the same. */
  lemma PruneFromSame(f: Forest, n: int, n': int, c: Filter)
    requires (n <= 0 && n' <= 0) || (Size(f) <= n && Size(f) <= n')
    ensures PruneFrom(f, n, c) == PruneFrom(f, n', c)
  {
    if n <= 0 && n' <= 0 {
      PruneFromStart(f, n, c);
      PruneFromStart(f, n', c);
    } else {
      PruneFromEnd(f, n, c);
      PruneFromEnd(f, n', c);
    }
  }

  lemma SpliceFromSame(f: Forest, n: int, n': int, keep: File -> bool)
    requires (n <= 0 && n' <= 0) || (Size(f) <= n && Size(f) <= n')
    ensures SpliceFrom(f, n, keep) == SpliceFrom(f, n', keep)
  {
    if n <= 0 && n' <= 0 {
      SpliceFromStart(f, n, keep);
      SpliceFromStart(f, n', keep);
    } else {
      SpliceFromEnd(f, n, keep);
      SpliceFromEnd(f, n', keep);
    }
  }

  /** A change among the children of the first root, or past it. */
  lemma PruneInKids(f: Forest, kids': Forest, n: nat, n': nat, c: Filter)
    requires f.Cons? && f.kids.Cons? && kids'.Cons? && 1 <= n <= Size(f.kids) && 1 <= n' <= 1 + Size(kids')
    requires PruneFrom(f.kids, n - 1, c) == PruneFrom(kids', n' - 1, c)
    ensures PruneFrom(f, n, c) == PruneFrom(f.(kids := kids'), n', c)
  {
    PruneFromSame(f.rest, n - 1 - Size(f.kids), n' - 1 - Size(kids'), c);
  }

  lemma PruneInRest(f: Forest, rest': Forest, n: nat, n': nat, c: Filter)
    requires f.Cons? && Size(f.kids) < n && Size(f.kids) < n'
    requires PruneFrom(f.rest, n - 1 - Size(f.kids), c) == PruneFrom(rest', n' - 1 - Size(f.kids), c)
    ensures PruneFrom(f, n, c) == PruneFrom(f.(rest := rest'), n', c)
  {
    PruneFromSame(f.kids, n - 1, n' - 1, c);
  }

  lemma {:induction false} PruneKeep(f: Forest, n: nat, c: Filter)
    requires n < Size(f) && c.keep(FileAt(f, n))
    ensures PruneFrom(f, n, c) == PruneFrom(f, n + 1, c)
  {
    var k := Size(f.kids);
    if n == 0 {
      PruneFromSame(f.kids, n - 1, n, c);
      PruneFromSame(f.rest, n - 1 - k, n - k, c);
    } else if n <= k {
      PruneKeep(f.kids, n - 1, c);
      PruneInKids(f, f.kids, n, n + 1, c);
    } else {
      PruneKeep(f.rest, n - 1 - k, c);
      PruneInRest(f, f.rest, n, n + 1, c);
    }
  }

  lemma PruneFirst(f: Forest, c: Filter)
    requires f.Cons? && !c.keep(f.root)
    ensures PruneFrom(f, 0, c) == PruneFrom(Replace(f, 0, Empty), 0, c)
  {
    PruneFromSame(f.rest, -1 - Size(f.kids), 0, c);
  }

  lemma SizeCons(f: Forest)
    ensures Size(f) == if f.Empty? then 0 else 1 + Size(f.kids) + Size(f.rest)
  {
  }

  lemma KidsAtCons(f: Forest, n: nat)
    requires n < Size(f)
    ensures f.Cons? && Size(f) == 1 + Size(f.kids) + Size(f.rest)
    ensures n == 0 ==> KidsAt(f, n) == f.kids
    ensures 1 <= n <= Size(f.kids) ==> KidsAt(f, n) == KidsAt(f.kids, n - 1)
    ensures Size(f.kids) < n ==> KidsAt(f, n) == KidsAt(f.rest, n - 1 - Size(f.kids))
  {
  }

  /** Where an only child is. */
  lemma OnlyChildStep(f: Forest, n: nat)
    requires f.Cons? && 1 <= n < Size(f)
    ensures Size(f.kids) < n && IsOnlyChild(f, n) ==> n - 1 > Size(f.kids)
    ensures Size(f.kids) < n && IsOnlyChild(f.rest, n - 1 - Size(f.kids)) ==> IsOnlyChild(f, n)
    ensures Size(f.kids) < n && IsOnlyChild(f, n) ==> IsOnlyChild(f.rest, n - 1 - Size(f.kids))
    ensures 1 < n <= Size(f.kids) ==> (IsOnlyChild(f, n) <==> IsOnlyChild(f.kids, n - 1))
    ensures n == 1 <= Size(f.kids) ==>
              && f.kids.Cons? && !IsOnlyChild(f.kids, 0)
              && (IsOnlyChild(f, 1) <==> f.kids.rest.Empty?)
  {
    hide KidsAt, Size;
    KidsAtCons(f, n);
    KidsAtCons(f, n - 1);
    if n <= Size(f.kids) {
      KidsAtCons(f.kids, n - 1);
      SizeCons(f.kids.rest);
    }
  }

  /** Removal of a descendant leaves a root without children only if it was the only child. */
  lemma KidsLeft(f: Forest, n: nat, g: Forest)
    requires f.Cons? && 1 <= n <= Size(f.kids)
    ensures f.kids.Cons?
    ensures n > 1 || g.Cons? || f.kids.rest.Cons? ==> Replace(f.kids, n - 1, g).Cons?
  {
    SizeCons(f.kids);
  }

  lemma {:induction false} PruneReject(f: Forest, n: nat, c: Filter)
    requires n < Size(f) && !c.keep(FileAt(f, n))
    requires c.leafs ==> !IsOnlyChild(f, n)
    ensures PruneFrom(f, n, c) == PruneFrom(Replace(f, n, Empty), n, c)
  {
    hide PruneFrom, KidsAt, IsOnlyChild, Replace, Size;
    SizeCons(f);
    if n == 0 {
      PruneFirst(f, c);
    } else {
      ReplaceStep(f, n, Empty);
      OnlyChildStep(f, n);
      var k := Size(f.kids);
      if n <= k {
        KidsLeft(f, n, Empty);
        PruneReject(f.kids, n - 1, c);
        if Replace(f.kids, n - 1, Empty).Cons? {
          PruneInKids(f, Replace(f.kids, n - 1, Empty), n, n, c);
        } else {
          SizeCons(Empty);
          PruneFromEnd(Empty, n - 1, c);
          PruneAllKids(f, n, c);
        }
      } else {
        PruneReject(f.rest, n - 1 - k, c);
        PruneInRest(f, Replace(f.rest, n - 1 - k, Empty), n, n, c);
      }
    }
  }

  lemma PruneAllKids(f: Forest, n: nat, c: Filter)
    requires f.Cons? && 1 <= n <= Size(f.kids) && !c.leafs && PruneFrom(f.kids, n - 1, c) == Empty
    ensures PruneFrom(f, n, c) == PruneFrom(f.(kids := Empty), n, c)
  {
    PruneFromSame(f.rest, n - 1 - Size(f.kids), 0, c);
    assert n == 1;
  }

  lemma PruneLastOfRoot(f: Forest, c: Filter)
    requires f.Cons? && f.kids.Cons? && f.kids.rest.Empty? && c.leafs && !c.keep(f.kids.root)
    ensures var leaf := Tree(c.leafOf(f.root), Empty);
            PruneFrom(f, 1, c) == PruneFrom(f.(kids := Replace(f.kids, 0, leaf)), 2, c)
  {
    var leaf := Tree(c.leafOf(f.root), Empty);
    AppendEmpty(leaf);
    var f', r := f.(kids := leaf), f.rest;
    PruneFromEnd(leaf, 1, c);
    PruneFromSame(r, 0 - Size(f.kids), 0, c);
    assert PruneFrom(f.kids, 0, c) == Empty;
    assert PruneFrom(f, 1, c) == Cons(f.root, leaf, PruneFrom(r, 0, c));
    assert PruneFrom(f', 2, c) == Cons(f.root, leaf, PruneFrom(r, 0, c));
  }

  lemma {:induction false} PruneLast(f: Forest, n: nat, c: Filter)
    requires 1 <= n < Size(f) && !c.keep(FileAt(f, n)) && c.leafs && IsOnlyChild(f, n)
    ensures PruneFrom(f, n, c) ==
            PruneFrom(Replace(f, n, Tree(c.leafOf(FileAt(f, n - 1)), Empty)), n + 1, c)
  {
    hide PruneFrom, KidsAt, IsOnlyChild, Replace, Size;
    SizeCons(f);
    var leaf := Tree(c.leafOf(FileAt(f, n - 1)), Empty);
    ReplaceStep(f, n, leaf);
    OnlyChildStep(f, n);
    var k := Size(f.kids);
    if k < n {
      PruneLast(f.rest, n - 1 - k, c);
      PruneInRest(f, Replace(f.rest, n - 1 - k, leaf), n, n + 1, c);
    } else if n == 1 {
      PruneLastOfRoot(f, c);
    } else {
      PruneLast(f.kids, n - 1, c);
      KidsLeft(f, n, leaf);
      SizeCons(leaf);
      PruneInKids(f, Replace(f.kids, n - 1, leaf), n, n + 1, c);
    }
  }

  lemma AppendEmpty(f: Forest)
    ensures Append(f, Empty) == f
  {
  }

  lemma {:induction false} SpliceKeep(f: Forest, n: nat, keep: File -> bool)
    requires n < Size(f) && keep(FileAt(f, n))
    ensures SpliceFrom(f, n, keep) == SpliceFrom(f, n + 1, keep)
  {
    var k := Size(f.kids);
    if n == 0 {
      SpliceFromSame(f.kids, n - 1, n, keep);
    } else if n <= k {
      SpliceKeep(f.kids, n - 1, keep);
    } else {
      SpliceFromSame(f.kids, n - 1, n, keep);
      SpliceKeep(f.rest, n - 1 - k, keep);
    }
    if n <= k {
      SpliceFromSame(f.rest, n - 1 - k, n - k, keep);
    }
  }

  lemma {:induction false} SpliceAppend(f: Forest, g: Forest, keep: File -> bool)
    ensures Splice(Append(f, g), keep) == Append(Splice(f, keep), Splice(g, keep))
  {
    if f.Cons? {
      SpliceAppend(f.rest, g, keep);
      AppendAssociative(Splice(f.kids, keep), Splice(f.rest, keep), Splice(g, keep));
    }
  }

  lemma {:induction false} AppendAssociative(f: Forest, g: Forest, h: Forest)
    ensures Append(Append(f, g), h) == Append(f, Append(g, h))
  {
    if f.Cons? {
      AppendAssociative(f.rest, g, h);
    }
  }

  lemma {:induction false} SpliceReject(f: Forest, n: nat, keep: File -> bool)
    requires n < Size(f) && !keep(FileAt(f, n))
    ensures SpliceFrom(f, n, keep) == SpliceFrom(Replace(f, n, KidsAt(f, n)), n, keep)
  {
    var k := Size(f.kids);
    var f' := Replace(f, n, KidsAt(f, n));
    if n == 0 {
      SpliceFromStart(f, 0, keep);
      SpliceFromStart(f', 0, keep);
      SpliceAppend(f.kids, f.rest, keep);
    } else if n <= k {
      SpliceReject(f.kids, n - 1, keep);
      SpliceFromSame(f.rest, n - 1 - k, n - 1 - Size(f'.kids), keep);
    } else {
      SpliceReject(f.rest, n - 1 - k, keep);
    }
  }
}
