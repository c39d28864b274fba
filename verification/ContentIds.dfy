/** Files with the same contents get the same ids although contents is examined only when it can't be avoided. */
module ContentIds {
  type Byte = bv8
  type Bytes = seq<Byte>

  /** What doesn't change during a comparison: files and the hash function, about which nothing is known. */
  datatype Env = Env(contents: string -> Bytes, isAccessible: string -> bool, digest: Bytes -> nat)

  datatype Entry = Entry(path: string, size: nat, isReadable: bool)

  /** Data of a record of the index. */
  datatype Info = Info(path: string, id: int, isReadable: bool, isPartial: bool)

  /** Lists of records for each fingerprint. */
  type Index = map<string, seq<Info>>

  /** Size of the prefix that gets hashed. */
  const PREFIX_SIZE := 4 * 1024

  /** Amount of data to read at once. */
  const BLOCK_SIZE := 32 * 1024

  // Fingerprints.

  function Digit(n: nat): char
    requires n < 10
  {
    "0123456789"[n]
  }

  function Decimal(n: nat): (s: string)
    ensures s != [] && '|' !in s
  {
    if n < 10 then [Digit(n)] else Decimal(n / 10) + [Digit(n % 10)]
  }

  lemma {:induction false} DecimalIsInjective(m: nat, n: nat)
    requires Decimal(m) == Decimal(n)
    ensures m == n
  {
    assert Decimal(m)[|Decimal(m)| - 1] == Digit(m % 10);
    assert Decimal(n)[|Decimal(n)| - 1] == Digit(n % 10);
    if m >= 10 && n >= 10 {
      assert Decimal(m / 10) == Decimal(m)[..|Decimal(m)| - 1] == Decimal(n / 10);
      DecimalIsInjective(m / 10, n / 10);
    }
  }

  function SizeKey(size: nat): string {
    Decimal(size)
  }

  function Prefix(contents: Bytes): Bytes {
    if |contents| <= PREFIX_SIZE then contents else contents[..PREFIX_SIZE]
  }

  function FullKey(env: Env, size: nat, contents: Bytes): string {
    Decimal(size) + "|" + Decimal(env.digest(Prefix(contents)))
  }

  /** Files that can't be read, like pipes, are considered to be empty. */
  function Contents(env: Env, path: string, isReadable: bool): Bytes {
    if isReadable then env.contents(path) else []
  }

  function KeyOf(env: Env, e: Entry): string {
    FullKey(env, e.size, Contents(env, e.path, e.isReadable))
  }

  /** The two kinds of fingerprints aren't confused with each other and sizes can be recovered from them. */
  lemma KeysAreDistinct(env: Env, size: nat, contents: Bytes, otherSize: nat, otherContents: Bytes)
    ensures SizeKey(size) != FullKey(env, otherSize, otherContents)
    ensures SizeKey(size) == SizeKey(otherSize) ==> size == otherSize
    ensures FullKey(env, size, contents) == FullKey(env, otherSize, otherContents) ==> size == otherSize
  {
    var key, otherKey := FullKey(env, size, contents), FullKey(env, otherSize, otherContents);
    var n, m := |Decimal(size)|, |Decimal(otherSize)|;
    assert key[n] == '|' && otherKey[m] == '|';
    assert key[..n] == Decimal(size) && otherKey[..m] == Decimal(otherSize);
    assert forall i :: 0 <= i < n ==> key[i] == key[..n][i] != '|';
    assert forall i :: 0 <= i < m ==> otherKey[i] == otherKey[..m][i] != '|';
    if SizeKey(size) == SizeKey(otherSize) || key == otherKey {
      assert n == m;
      DecimalIsInjective(size, otherSize);
    }
  }

  // What the ids should be.

  predicate Same(env: Env, a: Entry, b: Entry) {
    a.size == b.size && Contents(env, a.path, a.isReadable) == Contents(env, b.path, b.isReadable)
  }

  predicate HaveEqualContents(env: Env, a: Entry, b: Entry) {
    Contents(env, a.path, a.isReadable) == Contents(env, b.path, b.isReadable)
  }

  /** Position of the file which is the same as the given one or length of the list. */
  function Find(env: Env, reps: seq<Entry>, e: Entry): (i: nat)
    ensures i <= |reps|
    ensures i < |reps| ==> Same(env, reps[i], e)
    ensures forall j :: 0 <= j < i ==> !Same(env, reps[j], e)
  {
    if reps == [] then 0 else if Same(env, reps[0], e) then 0
    else
      var i := Find(env, reps[1..], e);
      assert forall j :: 0 < j <= i ==> reps[j] == reps[1..][j - 1];
      i + 1
  }

  /** Id of a file after files with ids from 1 to |reps| were met. */
  function IdOf(env: Env, reps: seq<Entry>, e: Entry, dupsOnly: bool): int {
    if !env.isAccessible(e.path) then -1
    else
      var i := Find(env, reps, e);
      if i < |reps| || !dupsOnly then i + 1 else -1
  }

  function RepsAfter(env: Env, reps: seq<Entry>, e: Entry, dupsOnly: bool): seq<Entry> {
    if IdOf(env, reps, e, dupsOnly) == |reps| + 1 then reps + [e] else reps
  }

  // The index.

  function Put(index: Index, key: string, info: Info): Index {
    index[key := if key in index && index[key] != [] then [index[key][0], info] + index[key][1..] else [info]]
  }

  /** A record is of a file that has the id and is stored by one of its fingerprints. */
  predicate IsOfRep(env: Env, key: string, info: Info, reps: seq<Entry>) {
    && 1 <= info.id <= |reps|
    && info.path == reps[info.id - 1].path
    && info.isReadable == reps[info.id - 1].isReadable
    && (key == SizeKey(reps[info.id - 1].size) || key == KeyOf(env, reps[info.id - 1]))
  }

  predicate Holds(infos: seq<Info>, id: int) {
    exists i :: 0 <= i < |infos| && infos[i].id == id
  }

  /** A file can be found either by its size alone or by the full fingerprint. */
  predicate IsIndexed(env: Env, index: Index, e: Entry, id: int) {
    && SizeKey(e.size) in index
    && |index[SizeKey(e.size)]| == 1
    && var first := index[SizeKey(e.size)][0];
       (first.isPartial && first.id == id) || (KeyOf(env, e) in index && Holds(index[KeyOf(env, e)], id))
  }

  predicate HasNoEmpty(index: Index) {
    forall key :: key in index ==> index[key] != []
  }

  ghost predicate AreOfReps(env: Env, index: Index, reps: seq<Entry>) {
    forall key, i :: key in index && 0 <= i < |index[key]| ==> IsOfRep(env, key, index[key][i], reps)
  }

  ghost predicate AreIndexed(env: Env, index: Index, reps: seq<Entry>) {
    forall j, id :: 0 <= j < |reps| && id == j + 1 ==> IsIndexed(env, index, reps[j], id)
  }

  ghost predicate Agrees(env: Env, index: Index, reps: seq<Entry>) {
    HasNoEmpty(index) && AreOfReps(env, index, reps) && AreIndexed(env, index, reps)
  }

  /** A fingerprint leads to files with that fingerprint. */
  lemma {:induction false} SizeKeyTells(env: Env, index: Index, reps: seq<Entry>, size: nat, i: nat)
    requires Agrees(env, index, reps)
    requires SizeKey(size) in index && i < |index[SizeKey(size)]|
    ensures IsOfRep(env, SizeKey(size), index[SizeKey(size)][i], reps)
    ensures reps[index[SizeKey(size)][i].id - 1].size == size
  {
    hide FullKey, SizeKey;
    var rep := reps[index[SizeKey(size)][i].id - 1];
    KeysAreDistinct(env, size, [], rep.size, Contents(env, rep.path, rep.isReadable));
  }

  lemma {:induction false} KeyTells(env: Env, index: Index, reps: seq<Entry>, e: Entry, i: nat)
    requires Agrees(env, index, reps)
    requires KeyOf(env, e) in index && i < |index[KeyOf(env, e)]|
    ensures IsOfRep(env, KeyOf(env, e), index[KeyOf(env, e)][i], reps)
    ensures reps[index[KeyOf(env, e)][i].id - 1].size == e.size
  {
    hide FullKey, SizeKey;
    var rep := reps[index[KeyOf(env, e)][i].id - 1];
    KeysAreDistinct(env, rep.size, [], e.size, Contents(env, e.path, e.isReadable));
    KeysAreDistinct(env, rep.size, Contents(env, rep.path, rep.isReadable),
                    e.size, Contents(env, e.path, e.isReadable));
  }

  /** Adding of a record to the index. */
  lemma {:induction false} PutKeepsFound(env: Env, index: Index, key: string, info: Info, e: Entry, id: int)
    requires HasNoEmpty(index)
    requires IsIndexed(env, index, e, id)
    requires key != SizeKey(e.size)
    ensures IsIndexed(env, Put(index, key, info), e, id)
  {
    hide FullKey, SizeKey;
    var full := KeyOf(env, e);
    if full in index && Holds(index[full], id) {
      var i :| 0 <= i < |index[full]| && index[full][i].id == id;
      var now := Put(index, key, info)[full];
      assert now[if key == full && i > 0 then i + 1 else i].id == id;
    }
  }

  lemma {:induction false} PutKeepsOfReps(env: Env, index: Index, key: string, info: Info, was: seq<Entry>,
                                          now: seq<Entry>)
    requires AreOfReps(env, index, was) && was <= now
    requires IsOfRep(env, key, info, now)
    ensures AreOfReps(env, Put(index, key, info), now)
  {
    hide IsOfRep, Put;
    forall k, i | k in Put(index, key, info) && 0 <= i < |Put(index, key, info)[k]|
      ensures IsOfRep(env, k, Put(index, key, info)[k][i], now)
    {
      var at := PutComesFrom(index, key, info, k, i);
      if k in index && at < |index[k]| {
        MoreReps(env, k, index[k][at], was, now);
      }
    }
  }

  /** Each of records in a list was there before or is the one that has been added. */
  lemma PutComesFrom(index: Index, key: string, info: Info, k: string, i: nat) returns (at: nat)
    requires k in Put(index, key, info) && i < |Put(index, key, info)[k]|
    ensures (k in index && at < |index[k]| && Put(index, key, info)[k][i] == index[k][at])
            || (k == key && Put(index, key, info)[k][i] == info && !(k in index && at < |index[k]|))
  {
    if k != key || (key in index && index[key] != [] && i != 1) {
      at := if k == key && i > 1 then i - 1 else i;
    } else {
      at := if key in index then |index[key]| else 0;
    }
  }

  lemma MoreReps(env: Env, key: string, info: Info, was: seq<Entry>, now: seq<Entry>)
    requires IsOfRep(env, key, info, was) && was <= now
    ensures IsOfRep(env, key, info, now)
  {
    hide KeyOf, SizeKey;
  }

  /** Nothing is known by the size, so there are no files to compare with. */
  lemma {:induction false} UnknownSizeIsNew(env: Env, index: Index, reps: seq<Entry>, e: Entry)
    requires Agrees(env, index, reps) && SizeKey(e.size) !in index
    ensures Find(env, reps, e) == |reps|
    ensures Agrees(env, Put(index, SizeKey(e.size), Info(e.path, |reps| + 1, e.isReadable, true)), reps + [e])
  {
    hide FullKey, SizeKey;
    hide Holds;
    var info, now := Info(e.path, |reps| + 1, e.isReadable, true), reps + [e];
    assert IsOfRep(env, SizeKey(e.size), info, now) by {
      assert now[|reps|] == e;
    }
    PutKeepsOfReps(env, index, SizeKey(e.size), info, reps, now);
    forall j | 0 <= j < |reps|
      ensures reps[j].size != e.size
      ensures IsIndexed(env, Put(index, SizeKey(e.size), info), now[j], j + 1)
    {
      PutKeepsFound(env, index, SizeKey(e.size), info, reps[j], j + 1);
    }
  }

  /** The full fingerprint of the file that's known only by its size. */
  function Upgraded(env: Env, index: Index, size: nat): Index
    requires SizeKey(size) in index && index[SizeKey(size)] != []
  {
    var first := index[SizeKey(size)][0].(isPartial := false);
    var key := FullKey(env, size, Contents(env, first.path, first.isReadable));
    Put(index, key, first)[SizeKey(size) := [first]]
  }

  lemma {:induction false} UpgradeAgrees(env: Env, index: Index, reps: seq<Entry>, size: nat)
    requires Agrees(env, index, reps) && SizeKey(size) in index
    ensures Agrees(env, Upgraded(env, index, size), reps)
  {
    UpgradeKeepsOfReps(env, index, reps, size);
    hide FullKey, SizeKey, IsIndexed, IsOfRep, AreOfReps;
    forall j, id | 0 <= j < |reps| && id == j + 1 ensures IsIndexed(env, Upgraded(env, index, size), reps[j], id) {
      UpgradeKeepsFound(env, index, reps, size, j);
    }
  }

  lemma {:induction false} UpgradeKeepsOfReps(env: Env, index: Index, reps: seq<Entry>, size: nat)
    requires Agrees(env, index, reps) && SizeKey(size) in index
    ensures AreOfReps(env, Upgraded(env, index, size), reps)
  {
    hide FullKey, SizeKey, IsIndexed, Put;
    var first := index[SizeKey(size)][0].(isPartial := false);
    SizeKeyTells(env, index, reps, size, 0);
    PutKeepsOfReps(env, index, KeyOf(env, reps[first.id - 1]), first, reps, reps);
  }

  lemma {:induction false} UpgradeKeepsFound(env: Env, index: Index, reps: seq<Entry>, size: nat, j: nat)
    requires Agrees(env, index, reps) && SizeKey(size) in index && j < |reps|
    ensures IsIndexed(env, Upgraded(env, index, size), reps[j], j + 1)
  {
    hide FullKey, SizeKey;
    var sizeKey, first := SizeKey(size), index[SizeKey(size)][0].(isPartial := false);
    var e, key := reps[j], FullKey(env, size, Contents(env, first.path, first.isReadable));
    SizeKeyTells(env, index, reps, size, 0);
    KeysAreDistinct(env, e.size, [], size, Contents(env, first.path, first.isReadable));
    KeysAreDistinct(env, size, [], e.size, Contents(env, e.path, e.isReadable));
    assert IsIndexed(env, index, e, j + 1);
    PutKeepsFound(env, index, key, first, e, j + 1);
    if first.id == j + 1 {
      var now := Put(index, key, first)[key];
      assert now[if key in index then 1 else 0].id == j + 1;
    }
  }

  predicate AreDifferent(env: Env, reps: seq<Entry>) {
    forall i, j :: 0 <= i < j < |reps| ==> !Same(env, reps[i], reps[j])
  }

  lemma NewIsDifferent(env: Env, reps: seq<Entry>, e: Entry)
    requires AreDifferent(env, reps) && Find(env, reps, e) == |reps|
    ensures AreDifferent(env, reps + [e])
  {
  }

  /** A record with the same contents among those with the same full fingerprint is the right one. */
  lemma {:induction false} FoundIsSame(env: Env, index: Index, reps: seq<Entry>, e: Entry, i: nat)
    requires Agrees(env, index, reps) && AreDifferent(env, reps)
    requires KeyOf(env, e) in index && i < |index[KeyOf(env, e)]|
    requires var info := index[KeyOf(env, e)][i];
             Contents(env, info.path, info.isReadable) == Contents(env, e.path, e.isReadable)
    ensures Find(env, reps, e) + 1 == index[KeyOf(env, e)][i].id
  {
    hide FullKey, SizeKey;
    hide IsIndexed;
    KeyTells(env, index, reps, e, i);
    assert Same(env, reps[index[KeyOf(env, e)][i].id - 1], e);
  }

  predicate NoneIsSame(env: Env, index: Index, e: Entry) {
    KeyOf(env, e) in index ==>
      forall i :: 0 <= i < |index[KeyOf(env, e)]| ==>
        var info := index[KeyOf(env, e)][i];
        Contents(env, info.path, info.isReadable) != Contents(env, e.path, e.isReadable)
  }

  lemma {:induction false} SizeHasOneRecord(env: Env, index: Index, reps: seq<Entry>, size: nat)
    requires Agrees(env, index, reps) && SizeKey(size) in index
    ensures |index[SizeKey(size)]| == 1
  {
    hide FullKey, SizeKey;
    SizeKeyTells(env, index, reps, size, 0);
    assert IsIndexed(env, index, reps[index[SizeKey(size)][0].id - 1], index[SizeKey(size)][0].id);
  }

  /** If there is no such record, then there is no such file either. */
  lemma {:induction false} NoneIsUnlike(env: Env, index: Index, reps: seq<Entry>, e: Entry)
    requires Agrees(env, index, reps) && SizeKey(e.size) in index && !index[SizeKey(e.size)][0].isPartial
    requires NoneIsSame(env, index, e)
    ensures Find(env, reps, e) == |reps|
  {
    hide FullKey, SizeKey;
    forall j | 0 <= j < |reps| ensures !Same(env, reps[j], e) {
      assert IsIndexed(env, index, reps[j], j + 1);
      var key := KeyOf(env, reps[j]);
      if key in index && Holds(index[key], j + 1) {
        var i :| 0 <= i < |index[key]| && index[key][i].id == j + 1;
        assert IsOfRep(env, key, index[key][i], reps);
      }
    }
  }

  lemma {:induction false} NewIsIndexed(env: Env, index: Index, e: Entry, info: Info)
    requires SizeKey(e.size) in index && |index[SizeKey(e.size)]| == 1
    ensures IsIndexed(env, Put(index, KeyOf(env, e), info), e, info.id)
  {
    hide FullKey, SizeKey;
    KeysAreDistinct(env, e.size, [], e.size, Contents(env, e.path, e.isReadable));
    var now := Put(index, KeyOf(env, e), info)[KeyOf(env, e)];
    assert now[if KeyOf(env, e) in index && index[KeyOf(env, e)] != [] then 1 else 0].id == info.id;
  }

  lemma PutHasNoEmpty(index: Index, key: string, info: Info)
    requires HasNoEmpty(index)
    ensures HasNoEmpty(Put(index, key, info))
  {
  }

  lemma NewIsOfRep(env: Env, reps: seq<Entry>, e: Entry, isPartial: bool)
    ensures IsOfRep(env, KeyOf(env, e), Info(e.path, |reps| + 1, e.isReadable, isPartial), reps + [e])
    ensures IsOfRep(env, SizeKey(e.size), Info(e.path, |reps| + 1, e.isReadable, isPartial), reps + [e])
  {
    assert (reps + [e])[|reps|] == e;
  }

  lemma {:induction false} AddingAgrees(env: Env, index: Index, reps: seq<Entry>, e: Entry)
    requires Agrees(env, index, reps) && SizeKey(e.size) in index
    ensures Agrees(env, Put(index, KeyOf(env, e), Info(e.path, |reps| + 1, e.isReadable, false)), reps + [e])
  {
    hide FullKey, SizeKey, KeyOf, Put, IsOfRep, AreOfReps, IsIndexed, HasNoEmpty;
    var key, info := KeyOf(env, e), Info(e.path, |reps| + 1, e.isReadable, false);
    SizeHasOneRecord(env, index, reps, e.size);
    PutHasNoEmpty(index, key, info);
    NewIsOfRep(env, reps, e, false);
    PutKeepsOfReps(env, index, key, info, reps, reps + [e]);
    NewIsIndexed(env, index, e, info);
    forall j | 0 <= j < |reps| ensures IsIndexed(env, Put(index, key, info), reps[j], j + 1) {
      AddingKeepsFound(env, index, reps, e, info, j);
    }
    MoreAreIndexed(env, Put(index, key, info), reps, e);
  }

  lemma {:induction false} AddingKeepsFound(env: Env, index: Index, reps: seq<Entry>, e: Entry, info: Info, j: nat)
    requires Agrees(env, index, reps) && j < |reps|
    ensures IsIndexed(env, Put(index, KeyOf(env, e), info), reps[j], j + 1)
  {
    hide FullKey, SizeKey;
    KeysAreDistinct(env, reps[j].size, [], e.size, Contents(env, e.path, e.isReadable));
    PutKeepsFound(env, index, KeyOf(env, e), info, reps[j], j + 1);
  }

  lemma {:induction false} MoreAreIndexed(env: Env, index: Index, reps: seq<Entry>, e: Entry)
    requires forall j :: 0 <= j < |reps| ==> IsIndexed(env, index, reps[j], j + 1)
    requires IsIndexed(env, index, e, |reps| + 1)
    ensures AreIndexed(env, index, reps + [e])
  {
    hide IsIndexed;
    forall j, id | 0 <= j < |reps + [e]| && id == j + 1 ensures IsIndexed(env, index, (reps + [e])[j], id) {
      assert j < |reps| ==> IsIndexed(env, index, reps[j], j + 1);
    }
  }

  /** When nothing has such full fingerprint, the record that was found by the size is of a file that differs. */
  lemma {:induction false} FirstIsDifferent(env: Env, index: Index, reps: seq<Entry>, e: Entry)
    requires Agrees(env, index, reps) && SizeKey(e.size) in index && !index[SizeKey(e.size)][0].isPartial
    requires KeyOf(env, e) !in index
    ensures var first := index[SizeKey(e.size)][0];
            Contents(env, first.path, first.isReadable) != Contents(env, e.path, e.isReadable)
  {
    hide FullKey, SizeKey;
    SizeKeyTells(env, index, reps, e.size, 0);
    assert IsIndexed(env, index, reps[index[SizeKey(e.size)][0].id - 1], index[SizeKey(e.size)][0].id);
  }
}
