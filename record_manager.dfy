/** `RecordManager`: the cache of records by type and id, and the related
    levels of every cached record. */
module RecordManagers {
  import opened RecordTypes
  import opened Records
  import opened Sequences
  import opened Layering

  // ---------------------------------------------------------------------
  // The manager

  class RecordManager {
    var relatedLevelsForRecord: map<RecordKey, Levels>
    var recordsForType: map<RecordType, map<int, Record>>

    /** Every record is cached under its own type and id. */
    ghost predicate Valid()
      reads this
    {
      forall t, id :: t in recordsForType && id in recordsForType[t] ==>
        recordsForType[t][id].info.recordType == t && recordsForType[t][id].info.id == id
    }

    /** The record cached under `t` and `id` is of type `t` and has id `id`. */
    lemma CachedUnderOwnKey(t: RecordType, id: int)
      requires Valid() && t in recordsForType && id in recordsForType[t]
      ensures recordsForType[t][id].info.recordType == t && recordsForType[t][id].info.id == id
      ensures recordsForType[t][id] in StoredRecords()
    {
    }

    /** The cached record objects. */
    ghost function StoredRecords(): set<Record>
      reads this
    {
      set t, id | t in recordsForType && id in recordsForType[t] :: recordsForType[t][id]
    }

    /** The keys of the cached records. */
    function StoredKeys(): set<RecordKey>
      reads this
    {
      set t, id | t in recordsForType && id in recordsForType[t] :: recordsForType[t][id].Key()
    }

    /** The relation graph of the cached records: each one's related records. */
    function RelationGraph(): Graph
      requires Valid()
      reads this, StoredRecords()
    {
      map t, id | t in recordsForType && id in recordsForType[t]
        :: recordsForType[t][id].Key() := recordsForType[t][id].RelatedSet()
    }

    /** `init()`: an empty id map for every type, no levels. */
    constructor ()
      ensures Valid()
      ensures forall t :: t in recordsForType && recordsForType[t] == map[]
      ensures relatedLevelsForRecord == map[]
    {
      relatedLevelsForRecord := map[];
      recordsForType := map t: RecordType | t in AllCases :: map[];
      new;
      forall t: RecordType
        ensures t in recordsForType
      {
        AllCasesComplete(t);
      }
    }

    /** The caching step of `initialize`: the record goes under its type and id
      when its type has a map. */
    method Cache(record: Record)
      requires Valid()
      modifies this
      ensures Valid()
      ensures relatedLevelsForRecord == old(relatedLevelsForRecord)
      ensures var t := record.info.recordType;
              recordsForType == if t in old(recordsForType)
                                then old(recordsForType)[t := old(recordsForType)[t][record.info.id := record]]
                                else old(recordsForType)
    {
      var t := record.info.recordType;
      if t in recordsForType {
        recordsForType := recordsForType[t := recordsForType[t][record.info.id := record]];
      }
    }

    /** `records(for:ids:)`: the cached records of type `t` whose ids are listed;
      unknown ids are skipped. */
    method RecordsForIds(t: RecordType, ids: seq<int>) returns (rs: set<Record>)
      requires Valid()
      ensures forall r :: r in rs ==> r in StoredRecords() && r.info.recordType == t && r.info.id in ids
      ensures forall id :: id in ids && t in recordsForType && id in recordsForType[t] ==> recordsForType[t][id] in rs
    {
      rs := {};
      for i := 0 to |ids|
        invariant forall r :: r in rs ==> r in StoredRecords() && r.info.recordType == t && r.info.id in ids
        invariant forall j :: 0 <= j < i && t in recordsForType && ids[j] in recordsForType[t] ==> recordsForType[t][ids[j]] in rs
      {
        if t in recordsForType && ids[i] in recordsForType[t] {
          CachedUnderOwnKey(t, ids[i]);
          rs := rs + {recordsForType[t][ids[i]]};
        }
      }
    }

    /** `records(for:)`: the cached records of type `t`, each once, in the
      dictionary's order; none when the type has no map. */
    method RecordsOfType(t: RecordType) returns (rs: seq<Record>)
      requires Valid()
      ensures NoDuplicates(rs)
      ensures forall n :: 0 <= n < |rs| ==> rs[n] in StoredRecords() && rs[n].info.recordType == t
      ensures forall id :: t in recordsForType && id in recordsForType[t] ==> recordsForType[t][id] in rs
      ensures t !in recordsForType ==> rs == []
    {
      if t !in recordsForType {
        return [];
      }
      var recordsForID := recordsForType[t];
      var ids := Enumerate(recordsForID.Keys);
      rs := [];
      for i := 0 to |ids|
        invariant |rs| == i
        invariant forall n :: 0 <= n < i ==> rs[n] == recordsForID[ids[n]]
        invariant forall n :: 0 <= n < i ==> rs[n] in StoredRecords() && rs[n].info.recordType == t && rs[n].info.id == ids[n]
      {
        CachedUnderOwnKey(t, ids[i]);
        rs := rs + [recordsForID[ids[i]]];
      }
      forall id | id in recordsForID
        ensures recordsForID[id] in rs
      {
        var n :| 0 <= n < |ids| && ids[n] == id;
        assert rs[n] == recordsForID[id];
      }
    }

    /** `createLevelsForRecords()`: the levels of every cached record of every
      type, computed from the relations as they stand. */
    method CreateLevelsForRecords(maxLevels: nat)
      requires Valid() && maxLevels >= 1
      modifies this
      ensures Valid()
      ensures recordsForType == old(recordsForType)
      ensures forall k :: k in relatedLevelsForRecord <==> k in old(relatedLevelsForRecord) || k in old(StoredKeys())
      ensures forall k :: k in old(StoredKeys()) ==>
                relatedLevelsForRecord[k] == RelatedLevels(old(RelationGraph()), k, maxLevels)
      ensures forall k :: k in old(relatedLevelsForRecord) && k !in old(StoredKeys()) ==>
                relatedLevelsForRecord[k] == old(relatedLevelsForRecord)[k]
    {
      var allRecords := AllRecords();
      var g := RelationGraph();
      var recordKeys := KeysOf(allRecords);
      assert g == old(RelationGraph());
      assert forall k :: k in recordKeys <==> k in old(StoredKeys());
      assert recordsForType == old(recordsForType);
      StoreLevels(g, recordKeys, maxLevels);
    }

    /** The keys of a listing of every cached record are the stored keys. */
    method KeysOf(rs: seq<Record>) returns (keys: seq<RecordKey>)
      requires Valid()
      requires forall n :: 0 <= n < |rs| ==> rs[n] in StoredRecords()
      requires forall r :: r in StoredRecords() ==> r in rs
      ensures forall k :: k in keys <==> k in StoredKeys()
    {
      keys := seq(|rs|, n requires 0 <= n < |rs| => rs[n].Key());
      forall n | 0 <= n < |rs|
        ensures keys[n] in StoredKeys()
      {
        KeyOfStored(rs[n]);
      }
      forall k | k in StoredKeys()
        ensures k in keys
      {
        var t, id :| t in recordsForType && id in recordsForType[t] && recordsForType[t][id].Key() == k;
        CachedUnderOwnKey(t, id);
        var m :| 0 <= m < |rs| && rs[m] == recordsForType[t][id];
        assert keys[m] == k;
      }
    }

    /** The loop of `createLevelsForRecords`: the levels of each listed record
      are computed and stored under its key. */
    method StoreLevels(g: Graph, recordKeys: seq<RecordKey>, maxLevels: nat)
      requires maxLevels >= 1
      modifies this
      ensures recordsForType == old(recordsForType)
      ensures forall k :: k in relatedLevelsForRecord <==> k in old(relatedLevelsForRecord) || k in recordKeys
      ensures forall k :: k in recordKeys ==> relatedLevelsForRecord[k] == RelatedLevels(g, k, maxLevels)
      ensures forall k :: k in old(relatedLevelsForRecord) && k !in recordKeys ==>
                relatedLevelsForRecord[k] == old(relatedLevelsForRecord)[k]
    {
      for n := 0 to |recordKeys|
        invariant recordsForType == old(recordsForType)
        invariant forall k :: k in relatedLevelsForRecord <==> k in old(relatedLevelsForRecord) || k in recordKeys[..n]
        invariant forall k :: k in recordKeys[..n] ==> relatedLevelsForRecord[k] == RelatedLevels(g, k, maxLevels)
        invariant forall k :: k in old(relatedLevelsForRecord) && k !in recordKeys[..n] ==>
                    relatedLevelsForRecord[k] == old(relatedLevelsForRecord)[k]
      {
        var key := recordKeys[n];
        var levelsForRecord := LevelsForRecord(g, key, maxLevels);
        relatedLevelsForRecord := relatedLevelsForRecord[key := levelsForRecord];
        assert recordKeys[..n + 1] == recordKeys[..n] + [key];
      }
      assert recordKeys[..|recordKeys|] == recordKeys;
    }

    /** A cached record's key is a stored key. */
    lemma KeyOfStored(r: Record)
      requires r in StoredRecords()
      ensures r.Key() in StoredKeys()
    {
      var t, id :| t in recordsForType && id in recordsForType[t] && recordsForType[t][id] == r;
    }

    /** `RecordType.allCases.reduce([]) { $0 + records(for: $1) }`. */
    method AllRecords() returns (allRecords: seq<Record>)
      requires Valid()
      ensures forall n :: 0 <= n < |allRecords| ==> allRecords[n] in StoredRecords()
      ensures forall r :: r in StoredRecords() ==> r in allRecords
    {
      allRecords := [];
      for i := 0 to |AllCases|
        invariant forall n :: 0 <= n < |allRecords| ==> allRecords[n] in StoredRecords()
        invariant forall t, id :: t in AllCases[..i] && t in recordsForType && id in recordsForType[t]
                    ==> recordsForType[t][id] in allRecords
      {
        var rs := RecordsOfType(AllCases[i]);
        allRecords := allRecords + rs;
      }
      forall r | r in StoredRecords()
        ensures r in allRecords
      {
        var t, id :| t in recordsForType && id in recordsForType[t] && recordsForType[t][id] == r;
        AllCasesComplete(t);
        assert AllCases[..|AllCases|] == AllCases;
      }
    }
  }
}
