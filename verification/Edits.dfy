/** Replacing the tree at one position of a pre-order array by other trees, and the change of
    links this takes. */
module Edits {
  import opened Forests

  function Append(f: Forest, g: Forest): Forest {
    match f
    case Empty => g
    case Cons(root, kids, rest) => Cons(root, kids, Append(rest, g))
  }

  /** The children of the entry at position `n`. */
  function KidsAt(f: Forest, n: nat): (kids: Forest)
    requires n < Size(f)
    ensures n + 1 + Size(kids) <= Size(f)
  {
    if n == 0 then f.kids
    else if n <= Size(f.kids) then KidsAt(f.kids, n - 1)
    else KidsAt(f.rest, n - 1 - Size(f.kids))
  }

  /** The forest in which trees `g` stand in place of the tree whose root is at position `n`. */
  function Replace(f: Forest, n: nat, g: Forest): (r: Forest)
    requires n < Size(f)
    ensures Size(r) == Size(f) + Size(g) - 1 - Size(KidsAt(f, n))
  {
    if n == 0 then
      SizeAppend(g, f.rest);
      Append(g, f.rest)
    else if n <= Size(f.kids) then
      f.(kids := Replace(f.kids, n - 1, g))
    else
      f.(rest := Replace(f.rest, n - 1 - Size(f.kids), g))
  }

  lemma {:induction false} SizeAppend(f: Forest, g: Forest)
    ensures Size(Append(f, g)) == Size(f) + Size(g)
  {
    if f.Cons? {
      SizeAppend(f.rest, g);
    }
  }

  /** Position `q` is an ancestor of position `n`. */
  predicate IsAncestor(s: seq<Entry>, q: nat, n: nat)
    requires q < |s|
  {
    q < n < End(s, q)
  }

  /** Position `q` follows the tree at `n`, which ends at `m`, and its parent is above `n`. */
  predicate IsLaterSibling(s: seq<Entry>, q: nat, n: nat, m: nat)
    requires q < |s|
  {
    m <= q && s[q].childPos != 0 && q - s[q].childPos < n
  }

  /** The entry at `q` after the tree at positions [n, m) has grown by `d` entries. */
  function Relinked(s: seq<Entry>, n: nat, m: nat, d: int, q: nat): Entry
    requires q < |s|
  {
    s[q].(childCount := s[q].childCount + if IsAncestor(s, q, n) then d else 0,
          childPos := s[q].childPos + if IsLaterSibling(s, q, n, m) then d else 0)
  }

  /** The entry at `q` of the array in which the tree at [n, m) of `s` is replaced by `mid`. */
  function Replaced(s: seq<Entry>, n: nat, m: nat, mid: seq<Entry>, q: nat): Entry
    requires n <= m <= |s| && q < |s| - (m - n) + |mid|
  {
    var d := |mid| - (m - n);
    if q < n then Relinked(s, n, m, d, q)
    else if q < n + |mid| then mid[q - n]
    else Relinked(s, n, m, d, q - d)
  }

  lemma {:induction false} FlattenAppend(f: Forest, g: Forest, up: nat)
    ensures Size(Append(f, g)) == Size(f) + Size(g)
    ensures Flatten(Append(f, g), up) == Flatten(f, up) + Flatten(g, Further(up, Size(f)))
  {
    hide Flatten;
    FlattenCons(f, up);
    if f.Cons? {
      var n := 1 + Size(f.kids);
      var u := Further(up, n);
      FlattenAppend(f.rest, g, u);
      FlattenCons(Append(f, g), up);
      assert Further(u, Size(f.rest)) == Further(up, Size(f));
    }
  }

  /** Links of roots lead out of the forest, all other links stay inside. */
  lemma LinkKind(f: Forest, up: nat, q: nat)
    requires q < Size(f)
    ensures var e := Flatten(f, up)[q];
            && 0 <= e.childCount && q + 1 + e.childCount <= Size(f)
            && (e.childPos == Further(up, q) || 1 <= e.childPos <= q)
  {
    hide Flatten;
    FlattenLinkedAt(f, up, q);
  }

  lemma {:induction false} KidsAtCount(f: Forest, up: nat, n: nat)
    requires n < Size(f)
    ensures Flatten(f, up)[n].childCount == Size(KidsAt(f, n))
  {
    hide Flatten;
    FlattenAt(f, up, n);
    if 1 <= n <= Size(f.kids) {
      KidsAtCount(f.kids, 1, n - 1);
    } else if n != 0 {
      KidsAtCount(f.rest, Further(up, 1 + Size(f.kids)), n - 1 - Size(f.kids));
    }
  }

  /** Moving a forest away from its parent changes links of its roots only. */
  lemma {:induction false} FlattenFurther(f: Forest, up: nat, up': nat, q: nat)
    requires up > 0 && up' > 0 && q < Size(f)
    ensures var e := Flatten(f, up)[q];
            Flatten(f, up')[q] == if e.childPos <= q then e else e.(childPos := e.childPos + up' - up)
  {
    hide Flatten;
    var n := Size(f.kids);
    FlattenAt(f, up, q);
    FlattenAt(f, up', q);
    if 1 <= q <= n {
      LinkKind(f.kids, 1, q - 1);
    } else if n < q {
      FlattenFurther(f.rest, Further(up, 1 + n), Further(up', 1 + n), q - 1 - n);
      LinkKind(f.rest, Further(up, 1 + n), q - 1 - n);
    }
  }

  /** Entries of trees that follow a tree whose size changes by `d`. */
  lemma RelinkedRest(f: Forest, up: nat, n: nat, m: nat, d: int, t: nat)
    requires f.Cons? && t < Size(f.rest) && n < m <= 1 + Size(f.kids) && 0 <= 1 + Size(f.kids) + d
    ensures var c := 1 + Size(f.kids);
            Relinked(Flatten(f, up), n, m, d, c + t) == Flatten(f.rest, Further(up, c + d))[t]
  {
    hide Flatten;
    var c := 1 + Size(f.kids);
    FlattenAt(f, up, c + t);
    LinkKind(f.rest, Further(up, c), t);
    if up > 0 {
      FlattenFurther(f.rest, Further(up, c), Further(up, c + d), t);
    }
  }

  /** Replacing in the forest is replacing in its array, as seen at position `q`. */
  ghost predicate ReplacesAt(f: Forest, n: nat, g: Forest, up: nat, q: nat)
    requires n < Size(f) && q < Size(Replace(f, n, g))
  {
    var s := Flatten(f, up);
    && 0 <= s[n].childPos
    && Flatten(Replace(f, n, g), up)[q] ==
       Replaced(s, n, n + 1 + Size(KidsAt(f, n)), Flatten(g, s[n].childPos), q)
  }

  lemma ReplaceFirst(f: Forest, g: Forest, up: nat, q: nat)
    requires f.Cons? && q < Size(Replace(f, 0, g))
    ensures ReplacesAt(f, 0, g, up, q)
  {
    hide Flatten, Size, Append;
    FlattenCons(f, up);
    FlattenAt(f, up, 0);
    FlattenAppend(g, f.rest, up);
    if Size(g) <= q {
      RelinkedRest(f, up, 0, 1 + Size(f.kids), Size(g) - 1 - Size(f.kids), q - Size(g));
    }
  }

  lemma ReplaceInKids(f: Forest, n: nat, g: Forest, up: nat, q: nat)
    requires f.Cons? && 1 <= n <= Size(f.kids) && q < Size(Replace(f, n, g))
    requires 1 <= q <= Size(Replace(f.kids, n - 1, g)) ==> ReplacesAt(f.kids, n - 1, g, 1, q - 1)
    ensures ReplacesAt(f, n, g, up, q)
  {
    hide Flatten, Size, Append, Replace, KidsAt;
    ReplaceStep(f, n, g);
    LinkKind(f, up, n);
    FlattenAt(f, up, n);
    FlattenAt(Replace(f, n, g), up, q);
    var w, c := 1 + Size(KidsAt(f, n)), Size(f.kids);
    var d := Size(g) - w;
    if c + d < q {
      RelinkedRest(f, up, n, n + w, d, q - 1 - (c + d));
    } else if q < n {
      FlattenAt(f, up, q);
    } else if n + Size(g) <= q {
      FlattenAt(f, up, q - d);
    }
  }

  lemma ReplaceStep(f: Forest, n: nat, g: Forest)
    requires 1 <= n < Size(f)
    ensures f.Cons? && Size(f) == 1 + Size(f.kids) + Size(f.rest)
    ensures n <= Size(f.kids) ==>
              KidsAt(f, n) == KidsAt(f.kids, n - 1) && Replace(f, n, g) == f.(kids := Replace(f.kids, n - 1, g))
    ensures Size(f.kids) < n ==>
              && KidsAt(f, n) == KidsAt(f.rest, n - 1 - Size(f.kids))
              && Replace(f, n, g) == f.(rest := Replace(f.rest, n - 1 - Size(f.kids), g))
  {
  }

  lemma ReplaceInRest(f: Forest, n: nat, g: Forest, up: nat, q: nat)
    requires f.Cons? && Size(f.kids) < n < Size(f) && q < Size(Replace(f, n, g))
    requires Size(f.kids) < q ==>
               ReplacesAt(f.rest, n - 1 - Size(f.kids), g, Further(up, 1 + Size(f.kids)), q - 1 - Size(f.kids))
    ensures ReplacesAt(f, n, g, up, q)
  {
    hide Flatten, Size, Append, Replace, KidsAt;
    ReplaceStep(f, n, g);
    LinkKind(f, up, n);
    FlattenAt(f, up, n);
    FlattenAt(Replace(f, n, g), up, q);
    var c, d := Size(f.kids), Size(g) - 1 - Size(KidsAt(f, n));
    if q < n {
      FlattenAt(f, up, q);
      if 1 <= q <= c {
        LinkKind(f.kids, 1, q - 1);
      }
    } else if n + Size(g) <= q {
      FlattenAt(f, up, q - d);
    }
  }

  lemma {:induction false} FlattenReplace(f: Forest, n: nat, g: Forest, up: nat, q: nat)
    requires n < Size(f) && q < Size(Replace(f, n, g))
    ensures ReplacesAt(f, n, g, up, q)
  {
    hide Flatten, ReplacesAt, Size, Append;
    if n == 0 {
      FlattenCons(f, up);
      ReplaceFirst(f, g, up, q);
    } else {
      ReplaceStep(f, n, g);
      var c := Size(f.kids);
      if n <= c {
        if 1 <= q <= Size(Replace(f.kids, n - 1, g)) {
          FlattenReplace(f.kids, n - 1, g, 1, q - 1);
        }
        ReplaceInKids(f, n, g, up, q);
      } else {
        if c < q {
          FlattenReplace(f.rest, n - 1 - c, g, Further(up, 1 + c), q - 1 - c);
        }
        ReplaceInRest(f, n, g, up, q);
      }
    }
  }
}
