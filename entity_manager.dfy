/** `EntityManager`: the scene's record entities, several per record when a
    record is shown in several clusters, kept in a table by record type and
    record id. */
module EntityManagers {
  import opened Wrappers
  import opened RecordTypes
  import opened Records
  import opened Sequences

  /** The states of a record entity's state machine. */
  datatype EntityState = Static | Drift(dx: real) | Selected | SeekLevel(level: int) | SeekEntity | Dragging | Reset | Remove

  /** A cluster of entities around a selected one, known here by its id. */
  class NodeCluster {
    const id: int

    constructor (id: int)
      ensures this.id == id
    {
      this.id := id;
    }
  }

  /** The entity showing one copy of a record: its state and the cluster it
      belongs to, if any. */
  class RecordEntity {
    const record: RecordKey
    var state: EntityState
    var cluster: NodeCluster?

    constructor (record: RecordKey)
      ensures this.record == record && state == Static && cluster == null
    {
      this.record := record;
      state := Static;
      cluster := null;
    }
  }

  /** `entitiesForType`: the entities of each record, by type and id. */
  type Table = map<RecordType, map<int, seq<RecordEntity>>>

  /** `entitiesForType[t]?[id]`. */
  function Lookup(table: Table, t: RecordType, id: int): (r: Option<seq<RecordEntity>>)
    ensures r.Some? <==> t in table && id in table[t]
  {
    if t in table && id in table[t] then Some(table[t][id]) else None
  }

  /** The table after `store`: the entity is appended to the list of its
      record, which is created when absent; when the type itself is absent the
      optional chain makes the store a no-op. */
  function WithAppended(table: Table, t: RecordType, id: int, e: RecordEntity): (r: Table)
    ensures t in table ==> Lookup(r, t, id) == Some(Lookup(table, t, id).GetOr([]) + [e])
    ensures t !in table ==> r == table
    ensures forall u :: u in r <==> u in table
    ensures forall u, j :: (u != t || j != id) ==> Lookup(r, u, j) == Lookup(table, u, j)
  {
    if t !in table then table
    else if id !in table[t] then
      assert [] + [e] == [e];
      table[t := table[t][id := [e]]]
    else table[t := table[t][id := table[t][id] + [e]]]
  }

  /** `l` without the first element identical to `e`. */
  function Without(l: seq<RecordEntity>, e: RecordEntity): (r: seq<RecordEntity>)
    ensures multiset(r) == multiset(l) - multiset{e}
    ensures e !in l ==> r == l
    ensures e in l ==> |r| == |l| - 1
  {
    if l == [] then []
    else if l[0] == e then
      assert l == [l[0]] + l[1..];
      l[1..]
    else
      assert l == [l[0]] + l[1..];
      [l[0]] + Without(l[1..], e)
  }

  /** Cutting out the first occurrence is `Without`. */
  lemma {:induction false} CutFirst(l: seq<RecordEntity>, e: RecordEntity, i: nat)
    requires i < |l| && l[i] == e && e !in l[..i]
    ensures l[..i] + l[i + 1..] == Without(l, e)
    decreases i
  {
    if i == 0 {
      assert l[..0] + l[1..] == l[1..];
    } else {
      var rest := l[1..];
      assert l[0] == l[..i][0];
      assert rest[..i - 1] == l[..i][1..];
      CutFirst(rest, e, i - 1);
      assert l[..i] == [l[0]] + rest[..i - 1];
      assert l[i + 1..] == rest[i..];
      assert l[..i] + l[i + 1..] == [l[0]] + (rest[..i - 1] + rest[i..]);
    }
  }

  /** Storing back the list already stored changes nothing. */
  lemma UpdateWithSame(table: Table, t: RecordType, id: int)
    requires t in table && id in table[t]
    ensures table[t := table[t][id := table[t][id]]] == table
  {
    assert table[t][id := table[t][id]] == table[t];
  }

  /** The order in which `entities(of:)` visits the lists of one type. */
  function Concat(lists: map<int, seq<RecordEntity>>, ids: seq<int>): seq<RecordEntity>
    requires forall n :: 0 <= n < |ids| ==> ids[n] in lists
  {
    if ids == [] then [] else Concat(lists, ids[..|ids| - 1]) + lists[ids[|ids| - 1]]
  }

  /** The concatenation holds exactly the entities of the visited lists. */
  lemma {:induction false} ConcatMembers(lists: map<int, seq<RecordEntity>>, ids: seq<int>, e: RecordEntity)
    requires forall n :: 0 <= n < |ids| ==> ids[n] in lists
    ensures e in Concat(lists, ids) <==> exists n :: 0 <= n < |ids| && e in lists[ids[n]]
    decreases |ids|
  {
    if ids != [] {
      var front := ids[..|ids| - 1];
      ConcatMembers(lists, front, e);
      if e in Concat(lists, ids) && e !in lists[ids[|ids| - 1]] {
        var n :| 0 <= n < |front| && e in lists[front[n]];
        assert ids[n] == front[n];
      }
      if exists n :: 0 <= n < |ids| && e in lists[ids[n]] {
        var n :| 0 <= n < |ids| && e in lists[ids[n]];
        if n < |front| {
          assert front[n] == ids[n];
        }
      }
    }
  }

  /** The state `release` leaves an entity in, given the list stored for its
      record. */
  function StateAfterRelease(current: EntityState, entities: Option<seq<RecordEntity>>, t: RecordType, dx: real): EntityState {
    match entities
    case None => current
    case Some(l) =>
      if |l| > 1 then Remove
      else if t == City then Drift(dx)
      else Reset
  }

  /** A released entity is marked for removal exactly when its record has
      other entities, drifts only when it is a city, and is otherwise reset. */
  lemma ReleaseOutcomes(current: EntityState, l: seq<RecordEntity>, t: RecordType, dx: real)
    ensures StateAfterRelease(current, Some(l), t, dx) == Remove <==> |l| > 1
    ensures StateAfterRelease(current, Some(l), t, dx).Drift? <==> |l| <= 1 && t == City
    ensures StateAfterRelease(current, Some(l), t, dx) == Reset <==> |l| <= 1 && t != City
    ensures StateAfterRelease(current, None, t, dx) == current
  {
  }

  class EntityManager {
    var entitiesForType: Table

    /** `init()`: an empty id map for every type. */
    constructor ()
      ensures forall t :: t in entitiesForType && entitiesForType[t] == map[]
    {
      entitiesForType := map t: RecordType | t in AllCases :: map[];
      new;
      forall t: RecordType
        ensures t in entitiesForType
      {
        AllCasesComplete(t);
      }
    }

    /** `store(_:)`. */
    method Store(entity: RecordEntity)
      modifies this
      ensures entitiesForType == WithAppended(old(entitiesForType), entity.record.recordType, entity.record.id, entity)
    {
      var t := entity.record.recordType;
      var id := entity.record.id;
      if t in entitiesForType {
        if id !in entitiesForType[t] {
          entitiesForType := entitiesForType[t := entitiesForType[t][id := [entity]]];
        } else {
          entitiesForType := entitiesForType[t := entitiesForType[t][id := entitiesForType[t][id] + [entity]]];
        }
      }
    }

    /** `entities(of:)`: every entity of type `t`, list after list in the
      dictionary's order; none when the type has no map. */
    method EntitiesOf(t: RecordType) returns (entities: seq<RecordEntity>)
      ensures t !in entitiesForType ==> entities == []
      ensures t in entitiesForType ==>
                exists ids :: Enumerates(ids, entitiesForType[t].Keys) && entities == Concat(entitiesForType[t], ids)
      ensures forall e :: e in entities <==> exists id :: t in entitiesForType && id in entitiesForType[t] && e in entitiesForType[t][id]
    {
      if t !in entitiesForType {
        return [];
      }
      var lists := entitiesForType[t];
      var ids := Enumerate(lists.Keys);
      entities := [];
      for i := 0 to |ids|
        invariant entities == Concat(lists, ids[..i])
      {
        assert ids[..i + 1][..i] == ids[..i];
        entities := entities + lists[ids[i]];
      }
      assert ids[..|ids|] == ids;
      forall e
        ensures e in entities <==> exists id :: id in lists && e in lists[id]
      {
        ConcatMembers(lists, ids, e);
        if exists id :: id in lists && e in lists[id] {
          var id :| id in lists && e in lists[id];
          var n :| 0 <= n < |ids| && ids[n] == id;
        }
      }
    }

    /** `release(_:)`: `dx` is the random drift chosen for a city. Entering
        the drift state also resets the entity's own properties, which this
        model does not describe, so the cluster is kept only when the entity
        does not start to drift. */
    method Release(entity: RecordEntity, dx: real)
      modifies entity
      ensures entity.state == StateAfterRelease(old(entity.state), Lookup(entitiesForType, entity.record.recordType, entity.record.id), entity.record.recordType, dx)
      ensures var l := Lookup(entitiesForType, entity.record.recordType, entity.record.id);
              !(l.Some? && |l.value| <= 1 && entity.record.recordType == City) ==> entity.cluster == old(entity.cluster)
    {
      var t := entity.record.recordType;
      var id := entity.record.id;
      if t !in entitiesForType || id !in entitiesForType[t] {
        return;
      }
      var entities := entitiesForType[t][id];
      if |entities| > 1 {
        entity.state := Remove;
      } else {
        if t == City {
          entity.state := Drift(dx);
        } else {
          entity.state := Reset;
        }
      }
    }

    /** The index of the first list element identical to `e`. */
    static method IndexOf(l: seq<RecordEntity>, e: RecordEntity) returns (index: Option<nat>)
      ensures index.None? <==> e !in l
      ensures index.Some? ==> index.value < |l| && l[index.value] == e && e !in l[..index.value]
    {
      for i := 0 to |l|
        invariant e !in l[..i]
      {
        if l[i] == e {
          return Some(i);
        }
        assert l[..i + 1] == l[..i] + [l[i]];
      }
      assert l[..|l|] == l;
      return None;
    }

    /** `remove(_:)`: the entity must be marked for removal and its record must
      have a list (otherwise the source stops with a fatal error); the first
      element identical to it leaves the list, and nothing else changes. */
    method RemoveEntity(entity: RecordEntity)
      requires entity.state == Remove
      requires Lookup(entitiesForType, entity.record.recordType, entity.record.id).Some?
      modifies this
      ensures var t := entity.record.recordType;
              var id := entity.record.id;
              entitiesForType == old(entitiesForType)[t := old(entitiesForType)[t][id := Without(old(entitiesForType)[t][id], entity)]]
    {
      var t := entity.record.recordType;
      var id := entity.record.id;
      var entities := entitiesForType[t][id];
      var index := IndexOf(entities, entity);
      if index.Some? {
        var i := index.value;
        CutFirst(entities, entity, i);
        entitiesForType := entitiesForType[t := entitiesForType[t][id := entities[..i] + entities[i + 1..]]];
      } else {
        UpdateWithSame(entitiesForType, t, id);
      }
    }

    /** `getEntity(for:)`: the first entity of the record outside every
      cluster, else the first entity; none when there is no list or it is
      empty. */
    method GetEntity(record: RecordKey) returns (entity: RecordEntity?)
      ensures Lookup(entitiesForType, record.recordType, record.id).None? ==> entity == null
      ensures var l := Lookup(entitiesForType, record.recordType, record.id).GetOr([]);
              && (entity == null <==> l == [])
              && (entity != null ==> entity in l)
              && (entity != null && entity.cluster == null ==>
                    exists i :: 0 <= i < |l| && l[i] == entity && forall j :: 0 <= j < i ==> l[j].cluster != null)
              && (entity != null && entity.cluster != null ==>
                    entity == l[0] && forall j :: 0 <= j < |l| ==> l[j].cluster != null)
    {
      var t := record.recordType;
      var id := record.id;
      if t !in entitiesForType || id !in entitiesForType[t] {
        return null;
      }
      var entities := entitiesForType[t][id];
      for i := 0 to |entities|
        invariant forall j :: 0 <= j < i ==> entities[j].cluster != null
      {
        if entities[i].cluster == null {
          return entities[i];
        }
      }
      if entities == [] {
        return null;
      }
      return entities[0];
    }

    /** `entities(for:from:size:)`: the given entities whose record is in
      `records`, taken in the set's order while fewer than `size` are taken. */
    static method EntitiesFor(records: set<RecordKey>, from: set<RecordEntity>, size: int) returns (result: set<RecordEntity>)
      ensures result <= from
      ensures forall e :: e in result ==> e.record in records
      ensures |result| == if size <= 0 then 0 else Min(size, |set e | e in from && e.record in records|)
    {
      var filtered := set e | e in from && e.record in records;
      var ordered := Enumerate(filtered);
      result := {};
      for index := 0 to |ordered|
        invariant result <= filtered
        invariant forall e :: e in result ==> e in ordered[..index]
        invariant |result| == if size <= 0 then 0 else Min(size, index)
      {
        assert ordered[..index + 1] == ordered[..index] + [ordered[index]];
        if index < size {
          assert ordered[index] !in ordered[..index];
          result := result + {ordered[index]};
        }
      }
    }
  }

  function Min(a: int, b: int): int {
    if a < b then a else b
  }
}
