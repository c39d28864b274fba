/** Assigning of ids to files on comparing them by contents (src/compare.c). */
module Differ {
  import opened ContentIds
  import opened Wrappers

  function Before(info: Info, infos: seq<Info>): seq<Info> {
    [info] + infos
  }

  lemma PutIsSecond(index: Index, key: string, first: Info, infos: seq<Info>, info: Info)
    requires key in index && index[key] == Before(first, infos)
    ensures Put(index, key, info) == index[key := Before(first, Before(info, infos))]
  {
    assert [first, info] + infos == [first] + ([info] + infos);
  }

  lemma BeforeNothing(info: Info, infos: seq<Info>)
    ensures |Before(info, infos)| == 1 ==> infos == []
    ensures Before(info, []) == [info]
  {
  }

  lemma KeysOfPut(index: Index, key: string, info: Info)
    ensures Put(index, key, info).Keys == index.Keys + {key}
  {
  }

  lemma PutKeepsOther(index: Index, key: string, info: Info, other: string)
    requires key != other && other in index
    ensures other in Put(index, key, info) && Put(index, key, info)[other] == index[other]
  {
  }

  lemma PutIsFirst(index: Index, key: string, info: Info)
    requires key !in index
    ensures Put(index, key, info) == index[key := Before(info, [])]
  {
    assert [info] + [] == [info];
  }

  class CompareRecord {
    var next: CompareRecord?   // next record in the list of conflicts
    const path: string
    const id: int
    var isPartial: bool
    const isReadable: bool
    ghost const key: string    // fingerprint of the list
    ghost const isFirst: bool  // whether it's the head of the list
    ghost var rest: seq<Info>  // what follows in the list

    constructor (path: string, id: int, isReadable: bool, isPartial: bool, ghost key: string, ghost isFirst: bool)
      ensures this.path == path && this.id == id && this.isReadable == isReadable && this.isPartial == isPartial
      ensures this.key == key && this.isFirst == isFirst
      ensures this.next == null && this.rest == []
    {
      this.next := null;
      this.path := path;
      this.id := id;
      this.isReadable := isReadable;
      this.isPartial := isPartial;
      this.key := key;
      this.isFirst := isFirst;
      this.rest := [];
    }

    function Data(): Info
      reads this`isPartial
    {
      Info(path, id, isReadable, isPartial)
    }

    /** Data of the list which starts with this record. */
    ghost function List(): seq<Info>
      reads this`isPartial, this`rest
    {
      Before(Data(), rest)
    }

    ghost predicate IsLink()
      reads this, next
    {
      if next == null then rest == [] else !next.isFirst && rest == next.List()
    }
  }

  method GetContentsFingerprint(env: Env, path: string, isReadable: bool, size: nat) returns (fingerprint: string)
    ensures fingerprint == FullKey(env, size, Contents(env, path, isReadable))
  {
    var contents: Bytes := [];
    if isReadable {
      contents := env.contents(path);
      if |contents| > PREFIX_SIZE {
        contents := contents[..PREFIX_SIZE];
      }
    }
    fingerprint := Decimal(size) + "|" + Decimal(env.digest(contents));
  }

  /** Compares files block by block. */
  method FilesAreIdentical(env: Env, a: string, aReadable: bool, b: string, bReadable: bool) returns (same: bool)
    ensures same <==> Contents(env, a, aReadable) == Contents(env, b, bReadable)
  {
    if !aReadable && !bReadable {
      return true;
    }
    if aReadable && !bReadable {
      return |env.contents(a)| == 0;
    }
    if !aReadable && bReadable {
      return |env.contents(b)| == 0;
    }

    var aData, bData := env.contents(a), env.contents(b);
    var aPos, bPos := 0, 0;
    while true
      invariant 0 <= aPos <= |aData| && aPos == bPos <= |bData|
      invariant aData[..aPos] == bData[..bPos]
      decreases |aData| - aPos
    {
      var aRead := Min(BLOCK_SIZE, |aData| - aPos);
      var bRead := Min(BLOCK_SIZE, |bData| - bPos);
      var aBlock, bBlock := aData[aPos..aPos + aRead], bData[bPos..bPos + bRead];
      if aRead == 0 && bRead == 0 {
        return true;
      }
      if aRead == 0 || bRead == 0 || aRead != bRead || aBlock != bBlock {
        DifferentBlocks(aData, bData, aPos, aRead, bRead);
        return false;
      }
      assert aData[..aPos + aRead] == aData[..aPos] + aBlock;
      assert bData[..bPos + bRead] == bData[..bPos] + bBlock;
      aPos, bPos := aPos + aRead, bPos + bRead;
    }
  }

  lemma DifferentBlocks(a: Bytes, b: Bytes, pos: nat, aRead: nat, bRead: nat)
    requires pos + aRead <= |a| && pos + bRead <= |b|
    requires aRead == Min(BLOCK_SIZE, |a| - pos) && bRead == Min(BLOCK_SIZE, |b| - pos)
    requires aRead != bRead || a[pos..pos + aRead] != b[pos..pos + bRead]
    ensures a != b
  {
  }

  /** State of a comparison. */
  class Comparison {
    const env: Env
    var trie: map<string, CompareRecord>
    var nextId: int
    ghost var records: set<CompareRecord>
    ghost var index: Index                 // data of lists that start in the trie
    ghost var reps: seq<Entry>             // a file for each of the ids

    /** Lists of the trie hold the data. */
    ghost predicate IsLinked()
      reads this`trie, this`index, this`records, records
    {
      && trie.Keys == index.Keys
      && HeadsAreOk()
      && LinksAreOk()
    }

    ghost predicate HeadsAreOk()
      reads this`trie, this`index, this`records, records
    {
      forall key :: key in trie && key in index ==> IsHead(key, trie[key]) && index[key] == trie[key].List()
    }

    ghost predicate LinksAreOk()
      reads this`records, records
    {
      forall record :: record in records ==> (record.next != null ==> record.next in records) && record.IsLink()
    }

    ghost predicate IsHead(key: string, record: CompareRecord)
      reads this`records
    {
      record in records && record.key == key && record.isFirst
    }

    ghost predicate Valid()
      reads this, records
    {
      && IsLinked()
      && Agrees(env, index, reps)
      && AreDifferent(env, reps)
      && nextId == |reps| + 1
    }

    constructor (env: Env)
      ensures Valid() && reps == [] && this.env == env && records == {}
    {
      this.env := env;
      trie := map[];
      nextId := 1;
      records := {};
      index := map[];
      reps := [];
    }

    twostate predicate IsInserted(prev: CompareRecord, new record: CompareRecord)
      reads this, records, prev, record
    {
      && old(prev in records && prev.isFirst) && record !in old(records) && !record.isFirst
      && records == old(records) + {record}
      && record.next == old(prev.next) && prev.next == record
      && record.rest == old(prev.rest) && prev.rest == record.List()
      && forall r :: r in old(records) ==>
           r.Data() == old(r.Data()) && (r != prev ==> r.next == old(r.next) && r.rest == old(r.rest))
    }

    twostate lemma InsertKeepsLinks(prev: CompareRecord, new record: CompareRecord)
      requires old(LinksAreOk()) && IsInserted(prev, record)
      ensures LinksAreOk()
    {
      hide Before, CompareRecord.Data;
    }

    twostate lemma InsertKeepsHeads(prev: CompareRecord, new record: CompareRecord)
      requires old(HeadsAreOk()) && IsInserted(prev, record)
      requires trie == old(trie) && trie.Keys == old(index.Keys) && prev.key in trie && trie[prev.key] == prev
      requires index == Put(old(index), prev.key, record.Data())
      ensures HeadsAreOk()
    {
      hide Before, Put, CompareRecord.Data;
      PutIsSecond(old(index), prev.key, prev.Data(), record.rest, record.Data());
    }

    /** Inserts the record after the first one of the list. */
    method Insert(prev: CompareRecord, record: CompareRecord)
      requires IsLinked() && IsHead(prev.key, prev) && prev.key in trie && trie[prev.key] == prev
      requires record !in records && !record.isFirst && record.next == null && record.rest == []
      modifies this`records, this`index, prev`next, prev`rest, record`next, record`rest
      ensures IsLinked()
      ensures index == Put(old(index), prev.key, record.Data())
      ensures records == old(records) + {record}
    {
      hide LinksAreOk, HeadsAreOk, Before, Put, CompareRecord.Data;
      KeysOfPut(index, prev.key, record.Data());
      record.next := prev.next;
      prev.next := record;
      record.rest := prev.rest;
      prev.rest := record.List();
      records := records + {record};
      index := Put(index, prev.key, record.Data());
      InsertKeepsLinks(prev, record);
      InsertKeepsHeads(prev, record);
    }

    twostate lemma AddingKeepsLinks(new record: CompareRecord)
      requires old(LinksAreOk()) && records == old(records) + {record}
      requires record.next == null && record.rest == []
      requires forall r :: r in old(records) ==> unchanged(r)
      ensures LinksAreOk()
    {
      hide Before, CompareRecord.Data;
    }

    /** Starts a new list with the record. */
    method SetFirst(key: string, record: CompareRecord)
      requires IsLinked() && record.key == key && key !in trie
      requires record !in records && record.isFirst && record.next == null && record.rest == []
      modifies this`trie, this`records, this`index
      ensures IsLinked()
      ensures trie == old(trie)[key := record]
      ensures index == Put(old(index), key, record.Data())
      ensures records == old(records) + {record}
    {
      hide Before, Put, CompareRecord.Data, LinksAreOk;
      KeysOfPut(index, key, record.Data());
      PutIsFirst(index, key, record.Data());
      trie := trie[key := record];
      records := records + {record};
      index := Put(index, key, record.Data());
      AddingKeepsLinks(record);
    }

    method PutFileId(path: string, fingerprint: string, id: int, isReadable: bool, isPartial: bool)
      requires IsLinked()
      modifies this`trie, this`records, this`index, records
      ensures IsLinked()
      ensures index == Put(old(index), fingerprint, Info(path, id, isReadable, isPartial))
      ensures fresh(records - old(records)) && old(records) <= records
      ensures forall key :: key in old(trie) ==> key in trie && trie[key] == old(trie[key])
    {
      hide Put, LinksAreOk;
      var prev: CompareRecord? := null;
      if fingerprint in trie {
        prev := trie[fingerprint];
      }
      var record := new CompareRecord(path, id, isReadable, isPartial, fingerprint, prev == null);
      if prev != null {
        Insert(prev, record);
      } else {
        SetFirst(fingerprint, record);
      }
    }

    /** Notes that the full fingerprint of the file is known. */
    method MarkAsFull(ghost key: string, record: CompareRecord)
      requires IsLinked() && key in trie && trie[key] == record && |index[key]| == 1
      modifies this`index, record`isPartial
      ensures IsLinked()
      ensures index == old(index)[key := [old(record.Data()).(isPartial := false)]]
      ensures !record.isPartial
    {
      hide Before;
      BeforeNothing(record.Data(), record.rest);
      record.isPartial := false;
      index := index[key := [record.Data()]];
      BeforeNothing(record.Data(), []);
      assert HeadsAreOk() by {
        forall other | other in trie ensures IsHead(other, trie[other]) && index[other] == trie[other].List() {
          assert old(IsHead(other, trie[other]));
        }
      }
      assert LinksAreOk() by {
        forall r | r in records ensures (r.next != null ==> r.next in records) && r.IsLink() {
          assert old(r.IsLink());
        }
      }
    }

    /** Computes full fingerprint of the file which was known only by its size. */
    method Upgrade(record: CompareRecord, size: nat)
      requires Valid() && SizeKey(size) in trie && trie[SizeKey(size)] == record
      modifies this`trie, this`records, this`index, records
      ensures Valid()
      ensures SizeKey(size) in trie && trie[SizeKey(size)] == record && !record.isPartial
      ensures fresh(records - old(records)) && old(records) <= records
    {
      hide Before, Put, FullKey, SizeKey, LinksAreOk, HasNoEmpty, AreOfReps, AreIndexed, AreDifferent;
      UpgradeAgrees(env, index, reps, size);
      SizeHasOneRecord(env, index, reps, size);
      HeadIsKnown(SizeKey(size));
      KeysAreDistinct(env, size, [], size, Contents(env, record.path, record.isReadable));
      var otherFingerprint := GetContentsFingerprint(env, record.path, record.isReadable, size);
      PutFileId(record.path, otherFingerprint, record.id, record.isReadable, false);
      HeadIsKnown(SizeKey(size));
      PutKeepsOther(old(index), otherFingerprint, old(record.Data()).(isPartial := false), SizeKey(size));
      MarkAsFull(SizeKey(size), record);
    }

    lemma HeadIsKnown(key: string)
      requires IsLinked() && key in trie
      ensures IsHead(key, trie[key])
      ensures key in index && index[key] != [] && index[key][0] == trie[key].Data()
      ensures |index[key]| == 1 ==> index[key] == [trie[key].Data()]
      ensures index[key] == trie[key].List()
    {
    }

    predicate IsLike(info: Info, e: Entry) {
      Contents(env, info.path, info.isReadable) == Contents(env, e.path, e.isReadable)
    }

    /** Looks for a file with identical contents starting with the specified record. */
    method FindIdentical(e: Entry, first: CompareRecord) returns (record: CompareRecord?)
      requires LinksAreOk() && first in records
      ensures record == null ==> forall i :: 0 <= i < |first.List()| ==> !IsLike(first.List()[i], e)
      ensures record != null ==>
                exists i :: 0 <= i < |first.List()| && IsLike(first.List()[i], e) && first.List()[i].id == record.id
    {
      record := first;
      ghost var i, list := 0, first.List();
      while record != null
        invariant 0 <= i <= |list|
        invariant record != null ==> record in records && list[i..] == record.List()
        invariant record == null ==> i == |list|
        invariant forall k :: 0 <= k < i ==> !IsLike(list[k], e)
        decreases |list| - i
      {
        assert record.IsLink();
        assert list[i] == list[i..][0] == record.Data();
        var same := FilesAreIdentical(env, e.path, e.isReadable, record.path, record.isReadable);
        if same {
          break;
        }
        assert list[i + 1..] == list[i..][1..] == record.rest;
        record := record.next;
        i := i + 1;
      }
    }

    /** Looks through files that can have the same contents. */
    method Lookup(e: Entry, fingerprint: string, sizeRecord: CompareRecord) returns (record: CompareRecord?)
      requires Valid() && fingerprint == KeyOf(env, e)
      requires SizeKey(e.size) in trie && trie[SizeKey(e.size)] == sizeRecord && !sizeRecord.isPartial
      ensures record == null ==> Find(env, reps, e) == |reps|
      ensures record != null ==> Find(env, reps, e) < |reps| && record.id == Find(env, reps, e) + 1
    {
      hide LinksAreOk, KeyOf, SizeKey, HasNoEmpty, AreOfReps, AreIndexed, AreDifferent, Before;
      HeadIsKnown(SizeKey(e.size));
      SizeHasOneRecord(env, index, reps, e.size);
      var first := sizeRecord;
      if fingerprint in trie {
        HeadIsKnown(fingerprint);
        first := trie[fingerprint];
      } else {
        FirstIsDifferent(env, index, reps, e);
      }
      ghost var list := first.List();
      record := FindIdentical(e, first);
      if record == null {
        assert fingerprint in index ==> list == index[fingerprint];
        assert first.List() == list;
        NoneIsUnlike(env, index, reps, e);
      } else {
        ghost var i :| 0 <= i < |list| && IsLike(list[i], e) && list[i].id == record.id;
        assert fingerprint in index;
        FoundIsSame(env, index, reps, e, i);
        KeyTells(env, index, reps, e, i);
      }
    }

    /** Returns id of the file or -1 if it should be skipped. */
    method AddFileToDiff(e: Entry, dupsOnly: bool) returns (id: int)
      requires Valid()
      modifies this`trie, this`nextId, this`records, this`index, this`reps, records
      ensures Valid() && fresh(records - old(records))
      ensures id == IdOf(env, old(reps), e, dupsOnly)
      ensures reps == RepsAfter(env, old(reps), e, dupsOnly)
    {
      hide LinksAreOk, HeadsAreOk, FullKey, SizeKey, HasNoEmpty, AreOfReps, AreIndexed, AreDifferent, Before, Put;
      if !env.isAccessible(e.path) {
        return -1;
      }
      var fingerprint := SizeKey(e.size);
      var record: CompareRecord? := null;
      if fingerprint in trie {
        record := trie[fingerprint];
      }
      var isPartial := true;
      if record != null {
        isPartial := false;
        fingerprint := GetContentsFingerprint(env, e.path, e.isReadable, e.size);
        if record.isPartial {
          Upgrade(record, e.size);
        }
        record := Lookup(e, fingerprint, record);
        AddingAgrees(env, index, reps, e);
      } else {
        UnknownSizeIsNew(env, index, reps, e);
      }
      if record != null {
        return record.id;
      }
      if dupsOnly {
        return -1;
      }
      id := AddNew(e, fingerprint, isPartial);
    }

    /** Gives the next id to the file. */
    method AddNew(e: Entry, fingerprint: string, isPartial: bool) returns (id: int)
      requires Valid() && Find(env, reps, e) == |reps|
      requires Agrees(env, Put(index, fingerprint, Info(e.path, |reps| + 1, e.isReadable, isPartial)), reps + [e])
      modifies this`trie, this`nextId, this`records, this`index, this`reps, records
      ensures Valid() && fresh(records - old(records))
      ensures id == |old(reps)| + 1 && reps == old(reps) + [e]
    {
      hide LinksAreOk, HeadsAreOk, HasNoEmpty, AreOfReps, AreIndexed, AreDifferent, Put;
      NewIsDifferent(env, reps, e);
      id := nextId;
      nextId := nextId + 1;
      PutFileId(e.path, fingerprint, id, e.isReadable, isPartial);
      reps := reps + [e];
    }
  }
}
