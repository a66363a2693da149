/** `Record`: a record of the installation's graph. Its identity for `==`
    and hashing is (id, type, title); its relations to other records are kept
    per record type and are the only part that changes after creation. */
module Records {
  import opened RecordTypes
  import opened Sequences

  /** What Swift's `Record ==` compares: id, type and title. Sets and
      dictionaries keyed by records therefore hold one record per key. */
  datatype RecordKey = RecordKey(recordType: RecordType, id: int, title: string)

  /** The immutable fields of a record. */
  datatype RecordInfo = RecordInfo(recordType: RecordType, id: int, title: string, description: string) {
    function Key(): RecordKey {
      RecordKey(recordType, id, title)
    }
  }

  /** `Record ==`: the description (and the dates, coordinate and relations)
      are ignored. */
  predicate SameRecord(a: RecordInfo, b: RecordInfo) {
    a.id == b.id && a.recordType == b.recordType && a.title == b.title
  }

  lemma SameRecordIsSameKey(a: RecordInfo, b: RecordInfo)
    ensures SameRecord(a, b) <==> a.Key() == b.Key()
  {
  }

  /** `hashValue`: `id.hashValue ^ type.hashValue`. The hash functions of the
      Swift runtime are seeded per process, so they are parameters here. */
  function HashValue(r: RecordInfo, intHash: int -> bv64, typeHash: RecordType -> bv64): bv64 {
    intHash(r.id) ^ typeHash(r.recordType)
  }

  /** Equal records hash alike, whatever the runtime's hash functions are. */
  lemma EqualRecordsHashAlike(a: RecordInfo, b: RecordInfo, intHash: int -> bv64, typeHash: RecordType -> bv64)
    requires SameRecord(a, b)
    ensures HashValue(a, intHash, typeHash) == HashValue(b, intHash, typeHash)
  {
  }

  // ---------------------------------------------------------------------
  // Relations

  /** `relatedRecordsForType`: the related records, grouped by their type. */
  type Relations = map<RecordType, set<RecordKey>>

  /** Every related record is filed under its own type. */
  predicate Filed(m: Relations) {
    forall t, k :: t in m && k in m[t] ==> k.recordType == t
  }

  /** The relations after `relate(to:)` a record with key `k`: a union into the
      set for `k`'s type, which is created when absent. */
  function WithRelation(m: Relations, k: RecordKey): (m': Relations)
    ensures k.recordType in m' && k in m'[k.recordType]
    ensures m'[k.recordType] == (if k.recordType in m then m[k.recordType] else {}) + {k}
    ensures forall t :: t != k.recordType ==> (t in m' <==> t in m) && (t in m ==> m'[t] == m[t])
    ensures Filed(m) ==> Filed(m')
  {
    if k.recordType in m then m[k.recordType := m[k.recordType] + {k}]
    else m[k.recordType := {k}]
  }

  /** Relating twice is relating once. */
  lemma RelateIdempotent(m: Relations, k: RecordKey)
    ensures WithRelation(WithRelation(m, k), k) == WithRelation(m, k)
  {
  }

  /** All related records, of every type. */
  function AllRelated(m: Relations): set<RecordKey> {
    set t, k | t in m && k in m[t] :: k
  }

  // ---------------------------------------------------------------------
  // The order of `relatedRecords(sorted: true)`

  /** The sort's `areInIncreasingOrder`: by type ranking, then by ascending id. */
  predicate RankedBefore(a: RecordKey, b: RecordKey) {
    if SortOrder(a.recordType) == SortOrder(b.recordType) then a.id < b.id
    else SortOrder(a.recordType) < SortOrder(b.recordType)
  }

  /** The comparator is a strict order, and it ties only records of the same
      type and id: the conditions under which `sorted(by:)` is specified. */
  lemma RankedBeforeIsStrictOrder(a: RecordKey, b: RecordKey, c: RecordKey)
    ensures !RankedBefore(a, a)
    ensures RankedBefore(a, b) ==> !RankedBefore(b, a)
    ensures RankedBefore(a, b) && RankedBefore(b, c) ==> RankedBefore(a, c)
    ensures !RankedBefore(a, b) && !RankedBefore(b, a) ==> a.recordType == b.recordType && a.id == b.id
  {
    if !RankedBefore(a, b) && !RankedBefore(b, a) {
      SortOrderInjective(a.recordType, b.recordType);
    }
  }

  /** No record is ranked before one that precedes it. */
  predicate Ranked(s: seq<RecordKey>) {
    forall i, j :: 0 <= i < j < |s| ==> !RankedBefore(s[j], s[i])
  }

  /** Insertion of `x` before the first element it is ranked before. */
  function InsertRanked(x: RecordKey, r: seq<RecordKey>): (r': seq<RecordKey>)
    ensures multiset(r') == multiset(r) + multiset{x}
  {
    if r == [] || RankedBefore(x, r[0]) then [x] + r
    else
      assert r == [r[0]] + r[1..];
      [r[0]] + InsertRanked(x, r[1..])
  }

  /** A ranked sequence stays ranked behind a head that none of it precedes. */
  lemma ConsRanked(h: RecordKey, rest: seq<RecordKey>)
    requires Ranked(rest)
    requires forall j :: 0 <= j < |rest| ==> !RankedBefore(rest[j], h)
    ensures Ranked([h] + rest)
  {
    var r := [h] + rest;
    forall i, j | 0 <= i < j < |r|
      ensures !RankedBefore(r[j], r[i])
    {
      assert r[j] == rest[j - 1];
      if i > 0 {
        assert r[i] == rest[i - 1];
      }
    }
  }

  lemma {:induction false} InsertRankedKeepsRanked(x: RecordKey, r: seq<RecordKey>)
    requires Ranked(r)
    ensures Ranked(InsertRanked(x, r))
  {
    if r == [] {
    } else if RankedBefore(x, r[0]) {
      ConsRanked(x, r);
    } else {
      var rest := InsertRanked(x, r[1..]);
      InsertRankedKeepsRanked(x, r[1..]);
      forall j | 0 <= j < |rest|
        ensures !RankedBefore(rest[j], r[0])
      {
        assert rest[j] in multiset(rest);
        if rest[j] != x {
          assert rest[j] in multiset(r[1..]);
          var k :| 0 <= k < |r[1..]| && r[1..][k] == rest[j];
          assert r[k + 1] == rest[j];
        }
      }
      ConsRanked(r[0], rest);
    }
  }

  /** A sequence without repeats has at most one copy of each element. */
  lemma {:induction false} NoDuplicatesCounts(s: seq<RecordKey>, e: RecordKey)
    requires NoDuplicates(s)
    ensures multiset(s)[e] <= 1
    decreases |s|
  {
    if s != [] {
      assert s == [s[0]] + s[1..];
      NoDuplicatesCounts(s[1..], e);
      if e == s[0] {
        assert e !in s[1..];
        assert multiset(s[1..])[e] == 0;
      }
    }
  }

  /** Conversely, at most one copy of each element means no repeats. */
  lemma NoDuplicatesFromCounts(s: seq<RecordKey>)
    requires forall e :: multiset(s)[e] <= 1
    ensures NoDuplicates(s)
  {
    forall i, j | 0 <= i < j < |s|
      ensures s[i] != s[j]
    {
      assert s == s[..i] + [s[i]] + s[i + 1..j] + [s[j]] + s[j + 1..];
      assert multiset(s)[s[i]] >= 1 + multiset([s[j]])[s[i]];
    }
  }

  /** A sort by rank: the Swift standard library's `sorted(by:)` promises a
      ranked permutation, which is what this insertion sort is proved to give. */
  function SortRanked(s: seq<RecordKey>): (r: seq<RecordKey>)
    ensures Ranked(r)
    ensures multiset(r) == multiset(s)
  {
    if s == [] then []
    else
      var rest := SortRanked(s[1..]);
      InsertRankedKeepsRanked(s[0], rest);
      assert s == [s[0]] + s[1..];
      InsertRanked(s[0], rest)
  }

  /** Sorting neither loses nor repeats a record. */
  lemma SortRankedEnumerates(s: seq<RecordKey>, xs: set<RecordKey>)
    requires Enumerates(s, xs)
    ensures Enumerates(SortRanked(s), xs)
  {
    var r := SortRanked(s);
    forall e ensures multiset(r)[e] <= 1 {
      NoDuplicatesCounts(s, e);
    }
    NoDuplicatesFromCounts(r);
    forall n | 0 <= n < |r|
      ensures r[n] in xs
    {
      assert r[n] in multiset(s);
    }
    forall k | k in xs
      ensures k in r
    {
      assert k in multiset(r);
    }
  }

  // ---------------------------------------------------------------------
  // The record object

  class Record {
    const info: RecordInfo
    var relatedRecordsForType: Relations

    ghost predicate Valid()
      reads this
    {
      Filed(relatedRecordsForType)
    }

    /** `init(type:id:title:description:dates:coordinate:)`: no relations yet. */
    constructor (info: RecordInfo)
      ensures this.info == info
      ensures relatedRecordsForType == map[]
      ensures Valid()
    {
      this.info := info;
      relatedRecordsForType := map[];
    }

    function Key(): RecordKey {
      info.Key()
    }

    /** `relate(to:)`. */
    method Relate(record: Record)
      requires Valid()
      modifies this
      ensures Valid()
      ensures relatedRecordsForType == WithRelation(old(relatedRecordsForType), record.Key())
    {
      var key := record.Key();
      if key.recordType in relatedRecordsForType {
        var siblings := relatedRecordsForType[key.recordType];
        relatedRecordsForType := relatedRecordsForType[key.recordType := siblings + {key}];
      } else {
        relatedRecordsForType := relatedRecordsForType[key.recordType := {key}];
      }
    }

    function RelatedSet(): set<RecordKey>
      reads this
    {
      AllRelated(relatedRecordsForType)
    }

    /** `relatedRecords(sorted:)`: the per-type sets concatenated, in the
        dictionary's (unspecified) order; ranked when `sorted`. */
    method RelatedRecords(sorted: bool) returns (rs: seq<RecordKey>)
      requires Valid()
      ensures Enumerates(rs, RelatedSet())
      ensures sorted ==> Ranked(rs)
    {
      var m := relatedRecordsForType;
      var types := Enumerate(m.Keys);
      rs := [];
      var i := 0;
      while i < |types|
        invariant 0 <= i <= |types|
        invariant NoDuplicates(rs)
        invariant forall n :: 0 <= n < |rs| ==> rs[n].recordType in types[..i] && rs[n] in m[rs[n].recordType]
        invariant forall j, k :: 0 <= j < i && k in m[types[j]] ==> k in rs
      {
        var members := Enumerate(m[types[i]]);
        forall n | 0 <= n < |rs|
          ensures rs[n] !in members
        {
          assert rs[n].recordType != types[i];
        }
        rs := rs + members;
        i := i + 1;
      }
      assert Enumerates(rs, RelatedSet()) by {
        forall k | k in RelatedSet()
          ensures k in rs
        {
          var t :| t in m && k in m[t];
          var j :| 0 <= j < |types| && types[j] == t;
        }
      }
      if sorted {
        SortRankedEnumerates(rs, RelatedSet());
        rs := SortRanked(rs);
      }
    }
  }
}
