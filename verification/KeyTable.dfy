/** The table of notations of ASCII keys and its initialization by sorting (init_bracket_notation()). */
module KeyTable {
  import opened Notation

  // Order of notations.

  lemma CommonIs(a: string, b: string, n: nat)
    requires n <= |a| && n <= |b| && (forall i :: 0 <= i < n ==> a[i] == b[i])
    requires n < |a| && n < |b| ==> a[n] != b[n]
    ensures Common(a, b) == n
  {
    var common := Common(a, b);
    assert forall i :: 0 <= i < common ==> a[i] == a[..common][i] == b[..common][i] == b[i];
  }

  lemma OneIsLess(a: string, b: string)
    requires a != b
    ensures Less(a, b) || Less(b, a)
  {
    var n := Common(a, b);
    assert forall i :: 0 <= i < n ==> a[i] == a[..n][i] == b[..n][i] == b[i];
    CommonIs(b, a, n);
  }

  lemma LessIsTransitive(a: string, b: string, c: string)
    requires Less(a, b) && Less(b, c)
    ensures Less(a, c)
  {
    var n, m := Common(a, b), Common(b, c);
    assert forall i :: 0 <= i < n ==> a[i] == a[..n][i] == b[..n][i] == b[i];
    assert forall i :: 0 <= i < m ==> b[i] == b[..m][i] == c[..m][i] == c[i];
    CommonIs(a, c, if n < m then n else m);
  }

  // Sorting.

  function Insert(pair: Pair, table: seq<Pair>): seq<Pair> {
    if table == [] || Less(pair.notation, table[0].notation) then [pair] + table
    else [table[0]] + Insert(pair, table[1..])
  }

  function SortedTable(pairs: seq<Pair>): seq<Pair> {
    if pairs == [] then [] else Insert(pairs[0], SortedTable(pairs[1..]))
  }

  predicate AreDistinct(pairs: seq<Pair>) {
    forall i, j :: 0 <= i < j < |pairs| ==> pairs[i].notation != pairs[j].notation
  }

  lemma {:induction false} InsertKeepsPairs(pair: Pair, table: seq<Pair>)
    ensures multiset(Insert(pair, table)) == multiset([pair]) + multiset(table)
  {
    if table != [] && !Less(pair.notation, table[0].notation) {
      InsertKeepsPairs(pair, table[1..]);
      assert table == [table[0]] + table[1..];
    }
  }

  lemma {:induction false} SortKeepsPairs(pairs: seq<Pair>)
    ensures multiset(SortedTable(pairs)) == multiset(pairs)
  {
    if pairs != [] {
      SortKeepsPairs(pairs[1..]);
      InsertKeepsPairs(pairs[0], SortedTable(pairs[1..]));
      assert pairs == [pairs[0]] + pairs[1..];
    }
  }

  lemma {:induction false} InsertSorts(pair: Pair, table: seq<Pair>)
    requires IsSorted(table)
    requires forall i :: 0 <= i < |table| ==> table[i].notation != pair.notation
    ensures IsSorted(Insert(pair, table))
  {
    hide Less;
    if table == [] {
    } else if Less(pair.notation, table[0].notation) {
      forall i | 0 < i < |table| ensures Less(pair.notation, table[i].notation) {
        LessIsTransitive(pair.notation, table[0].notation, table[i].notation);
      }
    } else {
      OneIsLess(pair.notation, table[0].notation);
      InsertSorts(pair, table[1..]);
      InsertKeepsPairs(pair, table[1..]);
      var rest := Insert(pair, table[1..]);
      forall i | 0 <= i < |rest| ensures Less(table[0].notation, rest[i].notation) {
        assert rest[i] in multiset(rest);
        if rest[i] != pair {
          assert rest[i] in multiset(table[1..]);
        }
      }
    }
  }

  lemma {:induction false} SortSorts(pairs: seq<Pair>)
    requires AreDistinct(pairs)
    ensures IsSorted(SortedTable(pairs))
  {
    if pairs != [] {
      var rest := SortedTable(pairs[1..]);
      SortSorts(pairs[1..]);
      SortKeepsPairs(pairs[1..]);
      forall i | 0 <= i < |rest| ensures rest[i].notation != pairs[0].notation {
        assert rest[i] in multiset(rest);
        assert rest[i] in multiset(pairs[1..]);
      }
      InsertSorts(pairs[0], rest);
    }
  }

  // Keys.

  const C_SPACE: char := 0xe000 as char

  /** Which keys a family of notations stands for. */
  datatype Kind = Controls | ShiftControls | Alts | AltControls | AltShifts

  /** Notations that consist of the prefix and one of the names. */
  datatype Family = Family(prefix: string, kind: Kind)

  /** Names of keys: the i-th letter goes with the i-th control character. */
  function NameAt(kind: Kind, i: nat): char
    requires i < NameCount(kind)
  {
    if i < 26 then (i + 'a' as int) as char
    else if kind.Controls? || kind.ShiftControls? then
      if i < 31 then (i - 26 + '[' as int) as char else '@'
    else if i < 36 then (i - 26 + '0' as int) as char
    else if i == 36 then '.' else ','
  }

  function NameCount(kind: Kind): nat {
    match kind
    case Controls => 32
    case ShiftControls => 31
    case Alts => 38
    case _ => 26
  }

  function KeyAt(kind: Kind, i: nat): (key: string)
    requires i < NameCount(kind)
    ensures |key| <= 2
  {
    match kind
    case Controls => if i == 31 then [C_SPACE] else [(i + 1) as char]
    case ShiftControls => [(i + 1) as char]
    case Alts => [ESC, NameAt(kind, i)]
    case AltControls => [ESC, (i + 1) as char]
    case AltShifts => [ESC, (i + 'A' as int) as char]
  }

  function PairAt(f: Family, i: nat): Pair
    requires i < NameCount(f.kind)
  {
    Pair("<" + f.prefix + [NameAt(f.kind, i)] + ">", KeyAt(f.kind, i))
  }

  function PairsOf(f: Family): (pairs: seq<Pair>)
    ensures |pairs| == NameCount(f.kind)
    ensures forall i :: 0 <= i < |pairs| ==> pairs[i] == PairAt(f, i)
  {
    seq(NameCount(f.kind), i requires 0 <= i < NameCount(f.kind) => PairAt(f, i))
  }

  function PairsOfAll(families: seq<Family>): seq<Pair> {
    if families == [] then [] else PairsOf(families[0]) + PairsOfAll(families[1..])
  }

  /** "<c-s-a>" and "<s-c-a>" are aliases of "<c-a>", "m" is an alias of "a". */
  const FAMILIES := [
    Family("c-", Controls), Family("s-c-", ShiftControls), Family("c-s-", ShiftControls),
    Family("a-", Alts), Family("m-", Alts),
    Family("a-c-", AltControls), Family("m-c-", AltControls), Family("c-a-", AltControls), Family("c-m-", AltControls),
    Family("a-s-", AltShifts), Family("s-a-", AltShifts), Family("m-s-", AltShifts), Family("s-m-", AltShifts)
  ]

  /** Keys that have names of their own. */
  const WORDS := [
    Pair("<esc>", [ESC]), Pair("<cr>", [13 as char]), Pair("<space>", " "), Pair("<nop>", ""),
    Pair("<tab>", [9 as char]), Pair("<lt>", "<"), Pair("<s-tab>", [KEY_BTAB]), Pair("<del>", [DELETE]),
    Pair("<bs>", [KEY_BACKSPACE])
  ]

  /** The notation can't be mixed up with those of families. */
  predicate IsWord(n: string) {
    n != "<a->" && (|n| == 5 ==> n[2] != '-') && (|n| == 7 ==> n[4] != '-')
  }

  /** Names of other keys, which are those of cursor and function keys. */
  predicate AreOthers(others: seq<Pair>) {
    && AreDistinct(others) && AreNotations(others)
    && (forall i :: 0 <= i < |others| ==> IsWord(others[i].notation))
    && (forall i, j :: 0 <= i < |others| && 0 <= j < |WORDS| ==> others[i].notation != WORDS[j].notation)
  }

  predicate IsPrefix(prefix: string) {
    && (|prefix| == 2 || |prefix| == 4) && prefix[|prefix| - 1] == '-'
    && forall i :: 0 <= i < |prefix| ==> prefix[i] != '>' && Lower(prefix[i]) == prefix[i]
  }

  predicate AreFamilies(families: seq<Family>) {
    && (forall i :: 0 <= i < |families| ==> IsPrefix(families[i].prefix))
    && (forall i, j :: 0 <= i < j < |families| ==> families[i].prefix != families[j].prefix)
  }

  lemma PrefixesDiffer(i: nat, j: nat)
    requires i < j < |FAMILIES|
    ensures FAMILIES[i].prefix != FAMILIES[j].prefix
  {
    var a, b := FAMILIES[i].prefix, FAMILIES[j].prefix;
    assert |a| != |b| || a[0] != b[0] || a[2] != b[2];
  }

  lemma PrefixIsFine(i: nat)
    requires i < |FAMILIES|
    ensures IsPrefix(FAMILIES[i].prefix)
  {
  }

  lemma FamiliesAreFine()
    ensures AreFamilies(FAMILIES)
  {
    forall i, j | 0 <= i < j < |FAMILIES| ensures FAMILIES[i].prefix != FAMILIES[j].prefix {
      PrefixesDiffer(i, j);
    }
    forall i | 0 <= i < |FAMILIES| ensures IsPrefix(FAMILIES[i].prefix) {
      PrefixIsFine(i);
    }
    hide IsPrefix;
  }

  lemma BracketsMakeNotation(name: string)
    requires name != [] && forall i :: 0 <= i < |name| ==> name[i] != '>' && Lower(name[i]) == name[i]
    ensures IsNotation("<" + name + ">")
  {
  }

  lemma NameIsPlain(kind: Kind, i: nat)
    requires i < NameCount(kind)
    ensures NameAt(kind, i) != '>' && Lower(NameAt(kind, i)) == NameAt(kind, i)
    ensures kind.Alts? ==> IsAlt(NameAt(kind, i))
  {
  }

  lemma NamesDiffer(kind: Kind, i: nat, j: nat)
    requires i < j < NameCount(kind)
    ensures NameAt(kind, i) != NameAt(kind, j)
  {
  }

  /** The prefix and the name can be told from a notation, words aren't like this. */
  lemma PairIs(f: Family, i: nat)
    requires IsPrefix(f.prefix) && i < NameCount(f.kind)
    ensures var n := PairAt(f, i).notation;
            && IsNotation(n) && |PairAt(f, i).key| <= |n| && !IsWord(n) && n != "<a->"
            && |n| == |f.prefix| + 3 && n[1..|n| - 2] == f.prefix && n[|n| - 2] == NameAt(f.kind, i)
  {
    var name := f.prefix + [NameAt(f.kind, i)];
    NameIsPlain(f.kind, i);
    hide IsNotation, NameAt, KeyAt;
    BracketsMakeNotation(name);
    assert PairAt(f, i).notation == "<" + name + ">";
  }

  /** What is known of pairs of families. */
  predicate IsOfFamily(pair: Pair, families: seq<Family>) {
    exists k, i :: 0 <= k < |families| && 0 <= i < NameCount(families[k].kind) && pair == PairAt(families[k], i)
  }

  lemma PairsDiffer(f: Family, i: nat, g: Family, j: nat)
    requires IsPrefix(f.prefix) && i < NameCount(f.kind) && IsPrefix(g.prefix) && j < NameCount(g.kind)
    requires f.prefix != g.prefix || (f == g && i != j)
    ensures PairAt(f, i).notation != PairAt(g, j).notation
  {
    hide NameAt, KeyAt, PairAt, IsPrefix, NameCount;
    PairIs(f, i);
    PairIs(g, j);
    if f == g {
      if i < j {
        NamesDiffer(f.kind, i, j);
      } else {
        NamesDiffer(f.kind, j, i);
      }
    }
  }

  lemma {:induction false} PairsOfFamilies(families: seq<Family>, pair: Pair)
    ensures pair in PairsOfAll(families) <==> IsOfFamily(pair, families)
  {
    hide PairAt, NameCount;
    if families != [] {
      var rest := families[1..];
      PairsOfFamilies(rest, pair);
      if pair in PairsOf(families[0]) {
        var i :| 0 <= i < NameCount(families[0].kind) && pair == PairAt(families[0], i);
        assert IsOfFamily(pair, families);
      } else if IsOfFamily(pair, rest) {
        var k, i :| 0 <= k < |rest| && 0 <= i < NameCount(rest[k].kind) && pair == PairAt(rest[k], i);
        assert families[k + 1] == rest[k];
      }
      if IsOfFamily(pair, families) {
        var k, i :| 0 <= k < |families| && 0 <= i < NameCount(families[k].kind) && pair == PairAt(families[k], i);
        if k == 0 {
          assert PairsOf(families[0])[i] == pair;
        } else {
          assert rest[k - 1] == families[k];
        }
      }
    }
  }

  /** Notations of the first list aren't in the second one. */
  predicate AreApart(a: seq<Pair>, b: seq<Pair>) {
    forall x, y :: x in a && y in b ==> x.notation != y.notation
  }

  lemma JoinedAreDistinct(a: seq<Pair>, b: seq<Pair>)
    requires AreDistinct(a) && AreDistinct(b) && AreApart(a, b)
    ensures AreDistinct(a + b)
  {
    var all := a + b;
    forall i, j | 0 <= i < j < |all| ensures all[i].notation != all[j].notation {
      if i < |a| <= j {
        assert all[i] in a && all[j] in b;
      } else if j < |a| {
        assert all[i] == a[i] && all[j] == a[j];
      } else {
        assert all[i] == b[i - |a|] && all[j] == b[j - |a|];
      }
    }
  }

  lemma FamilyIsDistinct(f: Family)
    requires IsPrefix(f.prefix)
    ensures AreDistinct(PairsOf(f))
  {
    hide PairAt, NameCount;
    forall i, j | 0 <= i < j < NameCount(f.kind) ensures PairAt(f, i).notation != PairAt(f, j).notation {
      PairsDiffer(f, i, f, j);
    }
  }

  lemma {:induction false} FamiliesAreDistinct(families: seq<Family>)
    requires AreFamilies(families)
    ensures AreDistinct(PairsOfAll(families))
  {
    hide PairAt, NameCount, AreDistinct, IsPrefix;
    if families != [] {
      var first, rest := families[0], families[1..];
      FamiliesAreDistinct(rest);
      FamilyIsDistinct(first);
      forall x, y | x in PairsOf(first) && y in PairsOfAll(rest) ensures x.notation != y.notation {
        PairsOfFamilies(rest, y);
        var k, j :| 0 <= k < |rest| && 0 <= j < NameCount(rest[k].kind) && y == PairAt(rest[k], j);
        var i :| 0 <= i < NameCount(first.kind) && x == PairAt(first, i);
        assert rest[k] == families[k + 1];
        PairsDiffer(first, i, rest[k], j);
      }
      JoinedAreDistinct(PairsOf(first), PairsOfAll(rest));
    } else {
      NothingIsDistinct();
    }
  }

  lemma NothingIsDistinct()
    ensures AreDistinct([])
  {
  }

  lemma WordsDiffer(i: nat, j: nat)
    requires i < j < |WORDS|
    ensures WORDS[i].notation != WORDS[j].notation
  {
    var a, b := WORDS[i].notation, WORDS[j].notation;
    assert |a| != |b| || a[1] != b[1] || a[2] != b[2] || a[3] != b[3];
  }

  lemma WordIsFine(i: nat)
    requires i < |WORDS|
    ensures IsNotation(WORDS[i].notation) && IsWord(WORDS[i].notation) && |WORDS[i].key| <= |WORDS[i].notation|
  {
    var name := WORDS[i].notation[1..|WORDS[i].notation| - 1];
    BracketsMakeNotation(name);
    assert WORDS[i].notation == "<" + name + ">";
    hide IsNotation;
  }

  lemma WordsAreFine()
    ensures AreDistinct(WORDS) && AreNotations(WORDS)
    ensures forall i :: 0 <= i < |WORDS| ==> IsWord(WORDS[i].notation)
  {
    hide IsNotation, IsWord;
    forall i, j | 0 <= i < j < |WORDS| ensures WORDS[i].notation != WORDS[j].notation {
      WordsDiffer(i, j);
    }
    forall i | 0 <= i < |WORDS|
      ensures IsNotation(WORDS[i].notation) && IsWord(WORDS[i].notation) && |WORDS[i].key| <= |WORDS[i].notation|
    {
      WordIsFine(i);
    }
  }

  lemma HasSame(pairs: seq<Pair>, table: seq<Pair>, notation: string, key: string)
    requires multiset(pairs) == multiset(table) && Has(pairs, notation, key)
    ensures Has(table, notation, key)
  {
    assert Pair(notation, key) in multiset(table);
  }

  /** Sorting turns any list of pairs with distinct notations of all the keys into a table for the search. */
  lemma SortMakesKeyTable(pairs: seq<Pair>)
    requires AreDistinct(pairs) && AreNotations(pairs) && HasKeys(pairs)
    ensures IsKeyTable(SortedTable(pairs))
  {
    hide AreNotations, HasKeys, IsSorted, AreDistinct, SortedTable;
    SortSorts(pairs);
    SortKeepsPairs(pairs);
    SortKeepsNotations(pairs, SortedTable(pairs));
    SortKeepsKeys(pairs, SortedTable(pairs));
  }

  lemma SortKeepsNotations(pairs: seq<Pair>, table: seq<Pair>)
    requires multiset(pairs) == multiset(table) && AreNotations(pairs)
    ensures AreNotations(table)
  {
    hide IsNotation;
    forall i | 0 <= i < |table| ensures IsNotation(table[i].notation) && |table[i].key| <= |table[i].notation| {
      assert table[i] in multiset(pairs);
    }
  }

  lemma SortKeepsKeys(pairs: seq<Pair>, table: seq<Pair>)
    requires multiset(pairs) == multiset(table) && HasKeys(pairs)
    ensures HasKeys(table)
  {
    hide Has;
    forall n, k | Has(pairs, n, k) ensures Has(table, n, k) {
      HasSame(pairs, table, n, k);
    }
    forall i | 0 <= i < |table| ensures exists j :: 0 <= j < |pairs| && table[i] == pairs[j] {
      assert table[i] in multiset(pairs);
    }
  }

  predicate AreWords(words: seq<Pair>) {
    AreDistinct(words) && AreNotations(words) && forall i :: 0 <= i < |words| ==> IsWord(words[i].notation)
  }

  lemma JoinedAreWords(others: seq<Pair>)
    requires AreOthers(others)
    ensures AreWords(WORDS + others)
  {
    WordsAreFine();
    forall x, y | x in WORDS && y in others ensures x.notation != y.notation {
      var i :| 0 <= i < |others| && others[i] == y;
      var j :| 0 <= j < |WORDS| && WORDS[j] == x;
    }
    JoinedAreDistinct(WORDS, others);
  }

  lemma FamilyIsNotWord(families: seq<Family>, x: Pair)
    requires AreFamilies(families) && x in PairsOfAll(families)
    ensures IsNotation(x.notation) && |x.key| <= |x.notation| && !IsWord(x.notation) && x.notation != "<a->"
  {
    hide IsNotation, PairAt, NameCount, IsWord, PairsOfAll;
    PairsOfFamilies(families, x);
    var k, i :| 0 <= k < |families| && 0 <= i < NameCount(families[k].kind) && x == PairAt(families[k], i);
    PairIs(families[k], i);
  }

  lemma FamiliesAndWords(families: seq<Family>, words: seq<Pair>)
    requires AreFamilies(families) && AreWords(words)
    ensures AreDistinct(PairsOfAll(families) + words) && AreNotations(PairsOfAll(families) + words)
  {
    FamiliesAreDistinct(families);
    hide IsNotation, AreDistinct, IsWord, PairsOfAll, AreFamilies;
    var pairs := PairsOfAll(families);
    forall i | 0 <= i < |pairs|
      ensures IsNotation(pairs[i].notation) && |pairs[i].key| <= |pairs[i].notation| && !IsWord(pairs[i].notation)
    {
      FamilyIsNotWord(families, pairs[i]);
    }
    JoinedAreDistinct(pairs, words);
  }

  /** The table: all notations of ASCII keys with their aliases and the rest of notations. */
  function Table(others: seq<Pair>): seq<Pair> {
    PairsOfAll(FAMILIES) + (WORDS + others)
  }

  lemma FamilyIsThere(others: seq<Pair>, k: nat, i: nat)
    requires k < |FAMILIES| && i < NameCount(FAMILIES[k].kind)
    ensures Has(Table(others), PairAt(FAMILIES[k], i).notation, PairAt(FAMILIES[k], i).key)
  {
    hide PairAt, NameCount;
    var pair := PairAt(FAMILIES[k], i);
    assert IsOfFamily(pair, FAMILIES);
    PairsOfFamilies(FAMILIES, pair);
    assert pair in Table(others);
  }

  lemma WordIsThere(others: seq<Pair>, i: nat)
    requires i < |WORDS|
    ensures Has(Table(others), WORDS[i].notation, WORDS[i].key)
  {
    hide PairsOfAll;
    assert Table(others)[|PairsOfAll(FAMILIES)| + i] == WORDS[i];
  }

  lemma ControlIsThere(others: seq<Pair>, c: char)
    requires 1 as char <= c < ' '
    ensures Has(Table(others), "<c-" + [ControlName(c)] + ">", [c])
  {
    hide Has, Table;
    var i := c as int - 1;
    FamilyIsThere(others, 0, i);
    assert PairAt(FAMILIES[0], i) == Pair("<c-" + [ControlName(c)] + ">", [c]);
  }

  lemma AltIsThere(others: seq<Pair>, c: char)
    requires IsAlt(c)
    ensures Has(Table(others), "<a-" + [c] + ">", [ESC, c])
  {
    hide Has, Table;
    var i := if 'a' <= c <= 'z' then c as int - 'a' as int
             else if '0' <= c <= '9' then c as int - '0' as int + 26
             else if c == '.' then 36 else 37;
    FamilyIsThere(others, 3, i);
    assert PairAt(FAMILIES[3], i) == Pair("<a-" + [c] + ">", [ESC, c]);
  }

  lemma UpperIsThere(others: seq<Pair>, c: char)
    requires IsUpper(c)
    ensures Has(Table(others), "<a-s-" + [Lower(c)] + ">", [ESC, c])
  {
    hide Has, Table;
    var i := c as int - 'A' as int;
    FamilyIsThere(others, 9, i);
    assert PairAt(FAMILIES[9], i) == Pair("<a-s-" + [Lower(c)] + ">", [ESC, c]);
  }

  lemma FamilyIsAlt(f: Family, i: nat, c: char)
    requires IsPrefix(f.prefix) && i < NameCount(f.kind) && (f.prefix == "a-" ==> f.kind.Alts?)
    requires PairAt(f, i).notation == "<a-" + [c] + ">"
    ensures IsAlt(c)
  {
    PairIs(f, i);
    NameIsPlain(f.kind, i);
    hide PairAt, NameCount, IsNotation;
    var n := PairAt(f, i).notation;
    assert n[1..|n| - 2] == "a-" && n[|n| - 2] == c;
  }

  /** Only keys that go with Alt have such notations. */
  predicate IsAltOnly(x: Pair) {
    x.notation != "<a->" && forall c: char :: x.notation == "<a-" + [c] + ">" ==> IsAlt(c)
  }

  lemma FamiliesAreAltOnly(families: seq<Family>, x: Pair)
    requires AreFamilies(families) && x in PairsOfAll(families)
    requires forall k :: 0 <= k < |families| && families[k].prefix == "a-" ==> families[k].kind.Alts?
    ensures IsAltOnly(x)
  {
    hide PairAt, NameCount, PairsOfAll, IsPrefix, IsWord, IsNotation;
    FamilyIsNotWord(families, x);
    PairsOfFamilies(families, x);
    var k, i :| 0 <= k < |families| && 0 <= i < NameCount(families[k].kind) && x == PairAt(families[k], i);
    forall c: char | x.notation == "<a-" + [c] + ">" ensures IsAlt(c) {
      FamilyIsAlt(families[k], i, c);
    }
  }

  lemma WordIsAltOnly(x: Pair)
    requires IsWord(x.notation)
    ensures IsAltOnly(x)
  {
    forall c: char ensures x.notation != "<a-" + [c] + ">" {
      assert ("<a-" + [c] + ">")[2] == '-';
    }
  }

  lemma TableIsAltOnly(others: seq<Pair>, x: Pair)
    requires AreOthers(others) && x in Table(others)
    ensures IsAltOnly(x)
  {
    hide PairsOfAll, IsAltOnly, AreFamilies, IsWord, AreOthers;
    FamiliesAreFine();
    JoinedAreWords(others);
    if x in PairsOfAll(FAMILIES) {
      FamiliesAreAltOnly(FAMILIES, x);
    } else {
      WordIsAltOnly(x);
    }
  }

  lemma TableHasKeys(others: seq<Pair>)
    requires AreOthers(others)
    ensures HasKeys(Table(others))
  {
    hide Has, AreOthers, Table;
    forall i | 0 <= i < |WORDS| ensures Has(Table(others), WORDS[i].notation, WORDS[i].key) {
      WordIsThere(others, i);
    }
    assert WORDS[0] == Pair("<esc>", [ESC]) && WORDS[1] == Pair("<cr>", [13 as char]);
    assert WORDS[2] == Pair("<space>", " ") && WORDS[5] == Pair("<lt>", "<");
    assert WORDS[6] == Pair("<s-tab>", [KEY_BTAB]) && WORDS[7] == Pair("<del>", [DELETE]);
    assert WORDS[8] == Pair("<bs>", [KEY_BACKSPACE]);
    forall c: char | 1 as char <= c < ' ' ensures Has(Table(others), "<c-" + [ControlName(c)] + ">", [c]) {
      ControlIsThere(others, c);
    }
    forall c: char | IsAlt(c) ensures Has(Table(others), "<a-" + [c] + ">", [ESC, c]) {
      AltIsThere(others, c);
    }
    forall c: char | IsUpper(c) ensures Has(Table(others), "<a-s-" + [Lower(c)] + ">", [ESC, c]) {
      UpperIsThere(others, c);
    }
    forall i | 0 <= i < |Table(others)| ensures IsAltOnly(Table(others)[i]) {
      TableIsAltOnly(others, Table(others)[i]);
    }
  }

  lemma TableIsDistinct(others: seq<Pair>)
    requires AreOthers(others)
    ensures AreDistinct(Table(others)) && AreNotations(Table(others))
  {
    hide AreDistinct, AreNotations, AreOthers, PairsOfAll, AreFamilies, AreWords;
    FamiliesAreFine();
    JoinedAreWords(others);
    FamiliesAndWords(FAMILIES, WORDS + others);
  }

  /** The table meets the requirements, whatever notations of other keys are. */
  lemma KeysAreThere(others: seq<Pair>)
    requires AreOthers(others)
    ensures AreDistinct(Table(others)) && AreNotations(Table(others)) && HasKeys(Table(others))
    ensures IsKeyTable(SortedTable(Table(others)))
  {
    hide AreDistinct, AreNotations, HasKeys, AreOthers, Table, SortedTable, IsKeyTable;
    TableIsDistinct(others);
    TableHasKeys(others);
    SortMakesKeyTable(Table(others));
  }

  lemma IsInTable(others: seq<Pair>, k: nat, i: nat, notation: string, key: string)
    requires k < |FAMILIES| && i < NameCount(FAMILIES[k].kind) && PairAt(FAMILIES[k], i) == Pair(notation, key)
    ensures Has(SortedTable(Table(others)), notation, key)
  {
    hide Has, Table, PairAt, NameCount;
    FamilyIsThere(others, k, i);
    SortKeepsPairs(Table(others));
    HasSame(Table(others), SortedTable(Table(others)), notation, key);
  }

  /** Control together with Shift is the same as Control alone. */
  lemma ControlAliases(others: seq<Pair>, c: char)
    requires 'a' <= c <= 'z' || '[' <= c <= '_'
    ensures var code := if 'a' <= c then c as int - 'a' as int + 1 else c as int - '[' as int + 27;
            var table, key: string := SortedTable(Table(others)), [code as char];
            && Has(table, "<c-" + [c] + ">", key)
            && Has(table, "<s-c-" + [c] + ">", key) && Has(table, "<c-s-" + [c] + ">", key)
  {
    hide Has, Table, SortedTable;
    var i := if 'a' <= c then c as int - 'a' as int else c as int - '[' as int + 26;
    var key: string := [(i + 1) as char];
    IsInTable(others, 0, i, "<c-" + [c] + ">", key);
    IsInTable(others, 1, i, "<s-c-" + [c] + ">", key);
    IsInTable(others, 2, i, "<c-s-" + [c] + ">", key);
  }

  /** Alt and Meta can be combined with Control in any order. */
  lemma AltControlAliases(others: seq<Pair>, c: char)
    requires 'a' <= c <= 'z'
    ensures var table, key: string := SortedTable(Table(others)), [ESC, (c as int - 'a' as int + 1) as char];
            && Has(table, "<a-c-" + [c] + ">", key) && Has(table, "<m-c-" + [c] + ">", key)
            && Has(table, "<c-a-" + [c] + ">", key) && Has(table, "<c-m-" + [c] + ">", key)
  {
    hide Has, Table, SortedTable;
    var i := c as int - 'a' as int;
    var key: string := [ESC, (i + 1) as char];
    IsInTable(others, 5, i, "<a-c-" + [c] + ">", key);
    IsInTable(others, 6, i, "<m-c-" + [c] + ">", key);
    IsInTable(others, 7, i, "<c-a-" + [c] + ">", key);
    IsInTable(others, 8, i, "<c-m-" + [c] + ">", key);
  }

  /** And with Shift. */
  lemma AltShiftAliases(others: seq<Pair>, c: char)
    requires 'a' <= c <= 'z'
    ensures var table, key: string := SortedTable(Table(others)), [ESC, (c as int - 32) as char];
            && Has(table, "<a-s-" + [c] + ">", key) && Has(table, "<s-a-" + [c] + ">", key)
            && Has(table, "<m-s-" + [c] + ">", key) && Has(table, "<s-m-" + [c] + ">", key)
  {
    hide Has, Table, SortedTable;
    var i := c as int - 'a' as int;
    var key: string := [ESC, (c as int - 32) as char];
    IsInTable(others, 9, i, "<a-s-" + [c] + ">", key);
    IsInTable(others, 10, i, "<s-a-" + [c] + ">", key);
    IsInTable(others, 11, i, "<m-s-" + [c] + ">", key);
    IsInTable(others, 12, i, "<s-m-" + [c] + ">", key);
  }

  /** Meta is the same as Alt. */
  lemma MetaIsAlt(others: seq<Pair>, c: char)
    requires 'a' <= c <= 'z' || '0' <= c <= '9' || c == '.' || c == ','
    ensures var table := SortedTable(Table(others));
            Has(table, "<a-" + [c] + ">", [ESC, c]) && Has(table, "<m-" + [c] + ">", [ESC, c])
  {
    hide Has, Table, SortedTable;
    var i := if 'a' <= c <= 'z' then c as int - 'a' as int
             else if '0' <= c <= '9' then c as int - '0' as int + 26
             else if c == '.' then 36 else 37;
    IsInTable(others, 3, i, "<a-" + [c] + ">", [ESC, c]);
    IsInTable(others, 4, i, "<m-" + [c] + ">", [ESC, c]);
  }

  lemma WordIsInTable(others: seq<Pair>, i: nat)
    requires i < |WORDS|
    ensures Has(SortedTable(Table(others)), WORDS[i].notation, WORDS[i].key)
  {
    hide Has, Table, SortedTable;
    WordIsThere(others, i);
    SortKeepsPairs(Table(others));
    HasSame(Table(others), SortedTable(Table(others)), WORDS[i].notation, WORDS[i].key);
  }

  /** Keys which have other names as well. */
  lemma NamedKeys(others: seq<Pair>)
    ensures var table := SortedTable(Table(others));
            && Has(table, "<tab>", [9 as char]) && Has(table, "<nop>", "") && Has(table, "<space>", " ")
            && Has(table, "<cr>", [13 as char]) && Has(table, "<esc>", [27 as char]) && Has(table, "<lt>", "<")
            && Has(table, "<del>", [127 as char]) && Has(table, "<c-@>", [C_SPACE])
  {
    hide Has, Table, SortedTable;
    WordIsInTable(others, 0);
    WordIsInTable(others, 1);
    WordIsInTable(others, 2);
    WordIsInTable(others, 3);
    WordIsInTable(others, 4);
    WordIsInTable(others, 5);
    WordIsInTable(others, 7);
    IsInTable(others, 0, 31, "<c-@>", [C_SPACE]);
  }
}
