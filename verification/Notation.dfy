/** Notation of keys: printing and parsing of key sequences (src/bracket_notation.c). */
module Notation {
  import opened Wrappers

  datatype Pair = Pair(notation: string, key: string)

  const ESC: char := 27 as char
  const BACKSPACE: char := 8 as char
  const DELETE: char := 127 as char
  const KEY_BACKSPACE: char := 0xe108 as char
  const KEY_BTAB: char := 0xe162 as char

  // Search in the table.

  function Lower(c: char): char {
    if 'A' <= c <= 'Z' then (c as int - 'A' as int + 'a' as int) as char else c
  }

  function Lowered(s: string): (r: string)
    ensures |r| == |s|
    ensures forall i :: 0 <= i < |s| ==> r[i] == Lower(s[i])
  {
    seq(|s|, i requires 0 <= i < |s| => Lower(s[i]))
  }

  /** Length of the common part. */
  function Common(a: string, b: string): (n: nat)
    ensures n <= |a| && n <= |b| && a[..n] == b[..n]
    ensures n < |a| && n < |b| ==> a[n] != b[n]
  {
    if a == [] || b == [] || a[0] != b[0] then 0
    else
      var n := Common(a[1..], b[1..]);
      assert a[..n + 1] == [a[0]] + a[1..][..n] && b[..n + 1] == [b[0]] + b[1..][..n];
      n + 1
  }

  /** Order of notations. */
  predicate Less(a: string, b: string) {
    var n := Common(a, b);
    n < |b| && (n == |a| || a[n] < b[n])
  }

  /** Result of comparing not more than |n| characters of s with n, the shorter string is smaller. */
  function Compare(s: string, n: string): int {
    var common := Common(s, n);
    if common == |n| then 0 else if common == |s| || s[common] < n[common] then -1 else 1
  }

  /** Only the last character of a notation can be '>'. */
  predicate IsNotation(n: string) {
    && |n| > 2 && n[0] == '<' && n[|n| - 1] == '>' && '>' !in n[..|n| - 1]
    && Lowered(n) == n
  }

  predicate IsSorted(table: seq<Pair>) {
    forall i, j :: 0 <= i < j < |table| ==> Less(table[i].notation, table[j].notation)
  }

  predicate AreNotations(table: seq<Pair>) {
    forall i :: 0 <= i < |table| ==> IsNotation(table[i].notation) && |table[i].key| <= |table[i].notation|
  }

  predicate IsTable(table: seq<Pair>) {
    IsSorted(table) && AreNotations(table)
  }

  predicate IsMatch(pair: Pair, text: string) {
    pair.notation <= Lowered(text)
  }

  /** The first entry of the table that starts the text. */
  function Find(table: seq<Pair>, text: string): (r: Option<Pair>)
    ensures r.Some? ==> r.value in table && IsMatch(r.value, text)
    ensures r.None? ==> forall i :: 0 <= i < |table| ==> !IsMatch(table[i], text)
  {
    if table == [] then None else if IsMatch(table[0], text) then Some(table[0]) else Find(table[1..], text)
  }

  /** The text is the notation with any of its letters in upper case. */
  predicate IsWritten(text: string, notation: string) {
    && |text| == |notation|
    && forall i :: 0 <= i < |text| ==>
         || text[i] == notation[i]
         || ('A' <= text[i] <= 'Z' && notation[i] as int - text[i] as int == 'a' as int - 'A' as int)
  }

  predicate StartsWith(text: string, notation: string) {
    |notation| <= |text| && IsWritten(text[..|notation|], notation)
  }

  /** Case of letters doesn't matter and nothing else is ignored. */
  lemma {:induction false} MatchIsStart(pair: Pair, text: string)
    requires IsNotation(pair.notation)
    ensures IsMatch(pair, text) <==> StartsWith(text, pair.notation)
  {
    var n, lowered := pair.notation, Lowered(text);
    assert forall i :: 0 <= i < |n| ==> n[i] == Lowered(n)[i] == Lower(n[i]);
    if StartsWith(text, n) {
      assert forall i :: 0 <= i < |n| ==> text[i] == text[..|n|][i];
      assert forall i :: 0 <= i < |n| ==> lowered[i] == n[i];
      assert lowered[..|n|] == n;
    }
    if n <= lowered {
      assert forall i :: 0 <= i < |n| ==> n[i] == lowered[..|n|][i] == Lower(text[i]);
    }
  }

  /** A notation ends where the first '>' is. */
  lemma EndsWithIt(n: string, text: string)
    requires IsNotation(n) && n <= text
    ensures text[|n| - 1] == '>' && forall i :: 0 <= i < |n| - 1 ==> text[i] != '>'
  {
    assert forall i :: 0 <= i < |n| - 1 ==> text[i] == n[..|n| - 1][i];
  }

  /** No notation is a beginning of another one. */
  lemma SamePrefix(a: string, b: string, text: string)
    requires IsNotation(a) && IsNotation(b) && a <= text && b <= text
    ensures a == b
  {
    EndsWithIt(a, text);
    EndsWithIt(b, text);
    assert a == text[..|a|] == b;
  }

  lemma LessIsStrict(a: string)
    ensures !Less(a, a)
  {
    var n := Common(a, a);
  }

  lemma MatchIsFound(table: seq<Pair>, text: string, i: nat)
    requires IsTable(table) && i < |table| && IsMatch(table[i], text)
    ensures Find(table, text) == Some(table[i])
  {
    var found := Find(table, text).value;
    var j :| 0 <= j < |table| && table[j] == found;
    SamePrefix(found.notation, table[i].notation, Lowered(text));
    LessIsStrict(found.notation);
    assert !(i < j) && !(j < i);
  }

  /** If the text is smaller than an entry, then entries after that one don't start the text. */
  lemma {:induction false} NotAfter(text: string, n: string, m: string)
    requires Compare(text, n) < 0 && Less(n, m)
    ensures !(m <= text)
  {
    var common, other := Common(text, n), Common(n, m);
    assert forall i :: 0 <= i < common ==> text[i] == text[..common][i] == n[i];
    assert forall i :: 0 <= i < other ==> n[i] == n[..other][i] == m[i];
  }

  lemma {:induction false} NotBefore(text: string, n: string, m: string)
    requires Compare(text, n) > 0 && Less(m, n) && IsNotation(n) && IsNotation(m)
    ensures !(m <= text)
  {
    var common, other := Common(text, n), Common(m, n);
    assert forall i :: 0 <= i < common ==> text[i] == text[..common][i] == n[i];
    assert forall i :: 0 <= i < other ==> n[i] == n[..other][i] == m[i];
  }

  /** Binary search finds what a linear one would. */
  method FindNotation(table: seq<Pair>, text: string) returns (pair: Option<Pair>)
    requires IsTable(table)
    ensures pair == Find(table, text)
    ensures pair.Some? ==> pair.value in table && StartsWith(text, pair.value.notation)
    ensures pair.None? ==> forall i :: 0 <= i < |table| ==> !StartsWith(text, table[i].notation)
  {
    hide Common, Less, Find, IsNotation, StartsWith, IsWritten;
    forall i | 0 <= i < |table| ensures IsMatch(table[i], text) <==> StartsWith(text, table[i].notation) {
      MatchIsStart(table[i], text);
    }
    hide IsMatch;
    var lowered := Lowered(text);
    var l, u := 0, |table| - 1;
    while l <= u
      invariant 0 <= l <= u + 1 <= |table|
      invariant forall i :: 0 <= i < l || u < i < |table| ==> !IsMatch(table[i], text)
    {
      var i := l + (u - l) / 2;
      var comp := Compare(lowered, table[i].notation);
      if comp == 0 {
        IsEqual(lowered, table[i].notation);
        MatchIsFound(table, text, i);
        return Some(table[i]);
      } else if comp < 0 {
        forall j | i <= j < |table| ensures !IsMatch(table[j], text) {
          if j == i {
            IsEqual(lowered, table[i].notation);
          } else {
            NotAfter(lowered, table[i].notation, table[j].notation);
          }
        }
        u := i - 1;
      } else {
        forall j | 0 <= j <= i ensures !IsMatch(table[j], text) {
          if j == i {
            IsEqual(lowered, table[i].notation);
          } else {
            NotBefore(lowered, table[i].notation, table[j].notation);
          }
        }
        l := i + 1;
      }
    }
    return None;
  }

  lemma {:induction false} IsEqual(text: string, n: string)
    ensures Compare(text, n) == 0 <==> n <= text
  {
    var common := Common(text, n);
    assert common == |n| ==> text[..common] == n[..common] == n;
  }

  // Parsing.

  /** Text with notations replaced with keys. */
  function Parse(table: seq<Pair>, text: string): string
    requires IsTable(table)
  {
    if text == [] then []
    else
      match Find(table, text)
      case None => [text[0]] + Parse(table, text[1..])
      case Some(pair) => pair.key + Parse(table, text[|pair.notation|..])
  }

  /** A notation in whatever case is replaced with its key. */
  lemma WrittenIsParsed(table: seq<Pair>, notation: string, key: string, text: string, rest: string)
    requires IsTable(table) && Has(table, notation, key) && IsWritten(text, notation)
    ensures Parse(table, text + rest) == key + Parse(table, rest)
  {
    hide Lowered, IsNotation, Less;
    var i :| 0 <= i < |table| && table[i] == Pair(notation, key);
    assert (text + rest)[..|notation|] == text && (text + rest)[|notation|..] == rest;
    MatchIsStart(table[i], text + rest);
    MatchIsFound(table, text + rest, i);
  }

  /** Anything else is kept. */
  lemma OtherIsKept(table: seq<Pair>, c: char, rest: string)
    requires IsTable(table) && forall i :: 0 <= i < |table| ==> !StartsWith([c] + rest, table[i].notation)
    ensures Parse(table, [c] + rest) == [c] + Parse(table, rest)
  {
    hide StartsWith, IsWritten, IsNotation, IsMatch, Less;
    forall i | 0 <= i < |table| ensures !IsMatch(table[i], [c] + rest) {
      MatchIsStart(table[i], [c] + rest);
    }
    assert ([c] + rest)[1..] == rest;
  }

  method CopyKey(key: string, buf: array<char>, p: nat)
    requires p + |key| <= buf.Length
    modifies buf
    ensures buf[..p + |key|] == old(buf[..p]) + key
  {
    var k := 0;
    while k < |key|
      invariant 0 <= k <= |key|
      invariant buf[..p + k] == old(buf[..p]) + key[..k]
    {
      buf[p + k] := key[k];
      assert buf[..p + (k + 1)] == buf[..p + k] + [key[k]];
      k := k + 1;
    }
    assert key[..k] == key;
  }

  lemma ParseStep(table: seq<Pair>, cmd: string, s: nat)
    requires IsTable(table) && s < |cmd|
    ensures Find(table, cmd[s..]).None? ==> Parse(table, cmd[s..]) == [cmd[s]] + Parse(table, cmd[s + 1..])
    ensures Find(table, cmd[s..]).Some? ==>
              var pair := Find(table, cmd[s..]).value;
              && 0 < |pair.notation| <= |cmd| - s && |pair.key| <= |pair.notation|
              && Parse(table, cmd[s..]) == pair.key + Parse(table, cmd[s + |pair.notation|..])
  {
    hide Find, Less, Common;
    assert cmd[s..][1..] == cmd[s + 1..];
    if Find(table, cmd[s..]).Some? {
      var n := |Find(table, cmd[s..]).value.notation|;
      assert cmd[s..][n..] == cmd[s + n..];
    }
  }

  /** The result starts with the key whose notation the text starts with or with the first character of the text. */
  predicate IsParsed(table: seq<Pair>, cmd: string, result: string)
    requires IsTable(table)
  {
    && (cmd == "" ==> result == "")
    && (forall i :: 0 <= i < |table| && StartsWith(cmd, table[i].notation) ==>
          result == table[i].key + Parse(table, cmd[|table[i].notation|..]))
    && (cmd != "" && (forall i :: 0 <= i < |table| ==> !StartsWith(cmd, table[i].notation)) ==>
          result == [cmd[0]] + Parse(table, cmd[1..]))
  }

  lemma StartIsParsed(table: seq<Pair>, cmd: string)
    requires IsTable(table)
    ensures IsParsed(table, cmd, Parse(table, cmd))
  {
    if cmd == "" {
      ParseNothing(table);
    }
    hide Parse, IsWritten, IsTable;
    forall i | 0 <= i < |table| && StartsWith(cmd, table[i].notation)
      ensures Parse(table, cmd) == table[i].key + Parse(table, cmd[|table[i].notation|..])
    {
      var n := |table[i].notation|;
      assert table[i] == Pair(table[i].notation, table[i].key);
      WrittenIsParsed(table, table[i].notation, table[i].key, cmd[..n], cmd[n..]);
      assert cmd == cmd[..n] + cmd[n..];
    }
    if cmd != "" && forall i :: 0 <= i < |table| ==> !StartsWith(cmd, table[i].notation) {
      assert cmd == [cmd[0]] + cmd[1..];
      OtherIsKept(table, cmd[0], cmd[1..]);
    }
  }

  /** The output never gets longer than the input, so the buffer of the size of the input is enough. */
  method SubstituteSpecs(table: seq<Pair>, cmd: string) returns (result: string)
    requires IsTable(table)
    ensures result == Parse(table, cmd) && |result| <= |cmd|
    ensures IsParsed(table, cmd, result)
  {
    hide Find, Parse, IsTable, IsParsed;
    var buf := new char[|cmd| + 1](_ => ' ');
    var p, s := 0, 0;
    assert cmd[s..] == cmd && buf[..p] == [];
    while s < |cmd|
      invariant 0 <= p <= s <= |cmd|
      invariant buf[..p] + Parse(table, cmd[s..]) == Parse(table, cmd)
    {
      ParseStep(table, cmd, s);
      var pair := FindNotation(table, cmd[s..]);
      ghost var was := buf[..p];
      if pair.None? {
        buf[p] := cmd[s];
        assert buf[..p + 1] == was + [cmd[s]];
        assert was + ([cmd[s]] + Parse(table, cmd[s + 1..])) == was + [cmd[s]] + Parse(table, cmd[s + 1..]);
        p, s := p + 1, s + 1;
      } else {
        var key, n := pair.value.key, |pair.value.notation|;
        CopyKey(key, buf, p);
        assert was + (key + Parse(table, cmd[s + n..])) == was + key + Parse(table, cmd[s + n..]);
        p, s := p + |key|, s + n;
      }
    }
    assert cmd[s..] == [];
    ParseNothing(table);
    result := buf[..p];
    assert result + [] == result;
    StartIsParsed(table, cmd);
  }

  lemma ParseNothing(table: seq<Pair>)
    requires IsTable(table)
    ensures Parse(table, []) == []
  {
  }

  // Printing.

  predicate IsAscii(s: string) {
    forall i :: 0 <= i < |s| ==> 1 as char <= s[i] <= DELETE
  }

  predicate IsUpper(c: char) {
    'A' <= c <= 'Z'
  }

  /** Characters which have notations of their combinations with Alt. */
  predicate IsAlt(c: char) {
    'a' <= c <= 'z' || '0' <= c <= '9' || c == '.' || c == ','
  }

  /** Name of the character whose combination with Control is the given one. */
  function ControlName(c: char): char
    requires 1 as char <= c < ' '
  {
    Lower((c as int - 1 + 'A' as int) as char)
  }

  /** Notation of what starts at the position and how many characters that is. */
  function Spec(s: string, i: nat): (r: (string, nat))
    requires IsAscii(s) && i < |s|
    ensures 1 <= r.1 <= |s| - i
  {
    var c := s[i];
    if c == ' ' then ("<space>", 1)
    else if c == 13 as char then ("<cr>", 1)
    else if c == 10 as char then ("<c-j>", 1)
    else if c == DELETE then ("<del>", 1)
    else if c == '<' then ("<lt>", 1)
    else if c == BACKSPACE && i == 0 then ("<bs>", 1)
    else if c == ESC then
      if i + 2 < |s| && s[i + 1] == '[' && s[i + 2] == 'Z' then ("<s-tab>", 3)
      else if i + 1 < |s| && s[i + 1] != ESC then
        if IsUpper(s[i + 1]) then ("<a-s-" + [Lower(s[i + 1])] + ">", 2) else ("<a-" + [s[i + 1]] + ">", 2)
      else ("<esc>", 1)
    else if c > ' ' then ([c], 1)
    else ("<c-" + [ControlName(c)] + ">", 1)
  }

  function Token(s: string, i: nat): (r: (string, nat))
    requires IsAscii(s) && i < |s|
    ensures 1 <= r.1 <= |s| - i
  {
    if s[i] == ' ' && i != 0 && i != |s| - 1 then (" ", 1) else Spec(s, i)
  }

  function Print(s: string, i: nat): string
    requires IsAscii(s) && i <= |s|
    decreases |s| - i
  {
    if i == |s| then [] else Token(s, i).0 + Print(s, i + Token(s, i).1)
  }

  method WstrToSpec(s: string) returns (descr: string)
    requires IsAscii(s)
    ensures descr == Print(s, 0)
    ensures descr != [] ==> descr[0] != ' ' && descr[|descr| - 1] != ' '
  {
    hide Spec, IsAscii;
    EdgesAreNotSpaces(s, 0);
    descr := "";
    var i := 0;
    while i < |s|
      invariant 0 <= i <= |s|
      invariant descr + Print(s, i) == Print(s, 0)
    {
      PrintStep(descr, s, i);
      if s[i] == ' ' && i != 0 && i != |s| - 1 {
        descr := descr + " ";
        i := i + 1;
      } else {
        var spec := Spec(s, i);
        descr := descr + spec.0;
        i := i + spec.1;
      }
    }
    assert descr + Print(s, i) == descr;
  }

  lemma {:induction false} EdgesAreNotSpaces(s: string, i: nat)
    requires IsAscii(s) && i <= |s|
    ensures i < |s| ==> Print(s, i) != [] && Print(s, i)[|Print(s, i)| - 1] != ' '
    ensures i == 0 < |s| ==> Print(s, 0)[0] != ' '
    decreases |s| - i
  {
    if i < |s| {
      EdgesAreNotSpaces(s, i + Token(s, i).1);
    }
  }

  /** Only spaces in the beginning and in the end are spelled out. */
  lemma SpacesArePrinted(s: string, i: nat)
    requires IsAscii(s) && i < |s| && s[i] == ' '
    ensures Print(s, i) == (if 0 < i < |s| - 1 then " " else "<space>") + Print(s, i + 1)
  {
  }

  /** Which of notations of a key is printed. */
  lemma NamesArePrinted(c: char)
    requires 1 as char <= c <= DELETE
    ensures Print([13 as char], 0) == "<cr>" && Print([10 as char], 0) == "<c-j>" && Print([27 as char], 0) == "<esc>"
    ensures Print([127 as char], 0) == "<del>" && Print([8 as char], 0) == "<bs>" && Print("<", 0) == "<lt>"
    ensures Print([27 as char, '[', 'Z'], 0) == "<s-tab>"
    ensures ' ' < c < DELETE && c != '<' ==> Print([c], 0) == [c]
  {
    PrintOne([c]);
    PrintOne([13 as char]);
    PrintOne([10 as char]);
    PrintOne([27 as char]);
    PrintOne([127 as char]);
    PrintOne([8 as char]);
    PrintOne("<");
    assert Token([27 as char, '[', 'Z'], 0) == ("<s-tab>", 3);
    assert Print([27 as char, '[', 'Z'], 3) == "";
  }

  lemma PrintOne(s: string)
    requires IsAscii(s) && |s| == 1
    ensures Print(s, 0) == Token(s, 0).0
  {
    assert Print(s, 1) == "";
  }

  lemma PrintStep(descr: string, s: string, i: nat)
    requires IsAscii(s) && i < |s|
    ensures descr + Print(s, i) == descr + Token(s, i).0 + Print(s, i + Token(s, i).1)
  {
    hide Token;
  }

  // Relation between the two.

  predicate Has(table: seq<Pair>, notation: string, key: string) {
    exists i :: 0 <= i < |table| && table[i] == Pair(notation, key)
  }

  /** What the table has to say about ASCII characters on their own and together with Alt. */
  ghost predicate HasKeys(table: seq<Pair>) {
    && Has(table, "<space>", " ") && Has(table, "<cr>", [13 as char]) && Has(table, "<del>", [DELETE])
    && Has(table, "<lt>", "<") && Has(table, "<esc>", [ESC])
    && Has(table, "<bs>", [KEY_BACKSPACE]) && Has(table, "<s-tab>", [KEY_BTAB])
    && (forall c: char :: 1 as char <= c < ' ' && c != ESC ==> Has(table, "<c-" + [ControlName(c)] + ">", [c]))
    && (forall c: char :: IsAlt(c) ==> Has(table, "<a-" + [c] + ">", [ESC, c]))
    && (forall c: char :: IsUpper(c) ==> Has(table, "<a-s-" + [Lower(c)] + ">", [ESC, c]))
    && (forall i :: 0 <= i < |table| ==> table[i].notation != "<a->")
    && (forall i, c: char :: 0 <= i < |table| && table[i].notation == "<a-" + [c] + ">" ==> IsAlt(c))
  }

  ghost predicate IsKeyTable(table: seq<Pair>) {
    IsTable(table) && HasKeys(table)
  }

  /** Keys that come right after Escape are parts of combinations with Alt, and Backspace looks like another key in the
      beginning. */
  predicate IsPrintableAt(s: string, i: nat)
    requires i < |s|
  {
    && (i == 0 ==> s[i] != BACKSPACE)
    && (s[i] == ESC && i + 1 < |s| ==> s[i + 1] == ESC || IsAlt(s[i + 1]) || IsUpper(s[i + 1]))
  }

  predicate IsPrintable(s: string, from: nat) {
    forall i :: from <= i < |s| ==> IsPrintableAt(s, i)
  }

  lemma NotationIsParsed(table: seq<Pair>, notation: string, key: string, rest: string)
    requires IsTable(table) && Has(table, notation, key)
    ensures Parse(table, notation + rest) == key + Parse(table, rest)
  {
    var i :| 0 <= i < |table| && table[i] == Pair(notation, key);
    var text := notation + rest;
    assert notation == Lowered(notation) == Lowered(text)[..|notation|];
    MatchIsFound(table, text, i);
    assert text[|notation|..] == rest;
  }

  lemma OtherIsParsed(table: seq<Pair>, c: char, rest: string)
    requires IsTable(table) && c != '<'
    ensures Parse(table, [c] + rest) == [c] + Parse(table, rest)
  {
    var text := [c] + rest;
    assert Lowered(text)[0] == Lower(c) != '<';
    assert text[1..] == rest;
  }

  lemma PrintableIsParsed(table: seq<Pair>, s: string, i: nat, rest: string)
    requires IsKeyTable(table) && IsAscii(s) && i < |s| && IsPrintableAt(s, i)
    ensures var (text, n) := Token(s, i); Parse(table, text + rest) == s[i..i + n] + Parse(table, rest)
  {
    hide Parse, IsTable, Has;
    var (text, n) := Token(s, i);
    if |text| == 1 {
      OtherIsParsed(table, s[i], rest);
      assert s[i..i + n] == [s[i]];
    } else {
      assert s[i..i + n] == if n == 1 then [s[i]] else [s[i], s[i + 1]];
      assert s[i] == 10 as char ==> text == "<c-" + [ControlName(s[i])] + ">";
      NotationIsParsed(table, text, s[i..i + n], rest);
    }
  }

  /** What comes out instead starts with something else. */
  lemma UnprintableIsChanged(table: seq<Pair>, s: string, i: nat, rest: string)
    requires IsKeyTable(table) && IsAscii(s) && i < |s| && !IsPrintableAt(s, i)
    ensures var text := Token(s, i).0 + rest; Parse(table, text) != [] && Parse(table, text)[0] != s[i]
  {
    hide Parse, IsTable, Has;
    var (text, n) := Token(s, i);
    if s[i] == BACKSPACE {
      NotationIsParsed(table, "<bs>", [KEY_BACKSPACE], rest);
    } else if n == 3 {
      NotationIsParsed(table, "<s-tab>", [KEY_BTAB], rest);
    } else {
      UnknownIsKept(table, s[i + 1], rest);
    }
  }

  lemma StartsAlt(n: string, c: char, text: string)
    requires IsNotation(n) && n <= text
    requires |text| >= 5 && text[..5] == "<a-" + [c] + ">"
    ensures n == if c == '>' then "<a->" else "<a-" + [c] + ">"
  {
    EndsWithIt(n, text);
    assert text[..5][4] == '>' && text[..5][3] == c;
    assert |n| == if c == '>' then 4 else 5;
    assert n == text[..5][..|n|];
  }

  lemma UnknownIsKept(table: seq<Pair>, c: char, rest: string)
    requires IsKeyTable(table) && 1 as char <= c <= DELETE && !IsAlt(c) && !IsUpper(c)
    ensures var text := Parse(table, "<a-" + [c] + ">" + rest); text != [] && text[0] == '<'
  {
    hide Has;
    var text := "<a-" + [c] + ">" + rest;
    var lowered := Lowered(text);
    assert lowered[..5] == "<a-" + [c] + ">";
    forall i | 0 <= i < |table| ensures !IsMatch(table[i], text) {
      var n := table[i].notation;
      if n <= lowered {
        StartsAlt(n, c, lowered);
      }
    }
  }

  /** Printing a key sequence and parsing the result leads to the original exactly when all parts of the sequence are
      printable. */
  lemma {:induction false} RoundTrip(table: seq<Pair>, s: string, i: nat)
    requires IsKeyTable(table) && IsAscii(s) && i <= |s|
    ensures Parse(table, Print(s, i)) == s[i..] <==> IsPrintable(s, i)
    decreases |s| - i
  {
    hide Parse, IsTable, Has, Token, IsPrintableAt;
    if i < |s| {
      var (text, n) := Token(s, i);
      var rest := Print(s, i + n);
      RoundTrip(table, s, i + n);
      if IsPrintableAt(s, i) {
        PrintableIsParsed(table, s, i, rest);
        assert s[i..] == s[i..i + n] + s[i + n..];
        PartsArePrintable(s, i);
      } else {
        UnprintableIsChanged(table, s, i, rest);
      }
    } else {
      ParseNothing(table);
    }
  }

  /** Only the first character of a printable combination can make it not printable. */
  lemma PartsArePrintable(s: string, i: nat)
    requires IsAscii(s) && i < |s| && IsPrintableAt(s, i)
    ensures IsPrintable(s, i) <==> IsPrintable(s, i + Token(s, i).1)
  {
    if Token(s, i).1 == 2 {
      assert IsPrintableAt(s, i + 1);
    }
  }
}
