/** The entity manager: a swap-remove vector with type, chunk and id indexes beside it. */
module Entities {
  import opened Options
  import opened Sequences
  import opened Buckets
  import opened Positions
  import opened EntityIndex

  /** What `found` holds once the chunks in `seen` have been looked at. */
  ghost predicate Found(found: seq<Entity>, es: seq<Entity>, chunkOf: map<nat, Column>, seen: set<Column>,
                        center: Vec3, radius: real) {
    && NoRepeats(found)
    && forall e :: e in found <==> e in es && Within(e, center, radius) && e.id in chunkOf && chunkOf[e.id] in seen
  }

  datatype Op =
    | Spawn(kind: nat, position: Vec3)
    | InsertNew(entity: Entity)
    | Remove(id: nat)
    | Retain(keep: Entity -> bool)
    | Move(id: nat, position: Vec3)
    | Sync(ids: seq<nat>)
    | SyncAll
    | Rebuild

  /** The plain collection the manager stands for: a set of entities and the next id. */
  datatype Collection = Collection(entities: set<Entity>, nextId: nat)

  ghost function Stepped(c: Collection, op: Op): Collection {
    match op
    case Spawn(kind, position) => Collection(c.entities + {Entity(c.nextId, kind, position)}, c.nextId + 1)
    case InsertNew(e) =>
      if exists f :: f in c.entities && f.id == e.id then c
      else Collection(c.entities + {e}, if e.id >= c.nextId then e.id + 1 else c.nextId)
    case Remove(id) => c.(entities := set e | e in c.entities && e.id != id)
    case Retain(keep) => c.(entities := set e | e in c.entities && keep(e))
    case Move(id, position) => c.(entities := set e | e in c.entities :: Repositioned(e, id, position))
    case _ => c
  }

  function Repositioned(e: Entity, id: nat, position: Vec3): Entity {
    if e.id == id then e.(position := position) else e
  }

  ghost function Collected(firstId: nat, ops: seq<Op>): Collection {
    if |ops| == 0 then Collection({}, if firstId < 1 then 1 else firstId)
    else Stepped(Collected(firstId, ops[..|ops| - 1]), ops[|ops| - 1])
  }

  /** What may still lag behind after one more operation. */
  function UnsyncedAfter(before: set<nat>, op: Op): set<nat> {
    match op
    case Move(id, _) => before + {id}
    case Remove(id) => before - {id}
    case Sync(ids) => before - (set id | id in ids)
    case SyncAll => {}
    case Rebuild => {}
    case _ => before
  }

  /** The ids moved and not synced since, over a run of operations. */
  function Unsynced(ops: seq<Op>): set<nat> {
    if |ops| == 0 then {}
    else UnsyncedAfter(Unsynced(ops[..|ops| - 1]), ops[|ops| - 1])
  }

  ghost predicate Moves(op: Op, id: nat) {
    op.Move? && op.id == id
  }

  ghost predicate Settles(op: Op, id: nat) {
    op.SyncAll? || op.Rebuild? || (op.Sync? && id in op.ids) || (op.Remove? && op.id == id)
  }

  ghost predicate IsUnsynced(ops: seq<Op>, id: nat) {
    exists i :: 0 <= i < |ops| && Moves(ops[i], id) && forall j :: i < j < |ops| ==> !Settles(ops[j], id)
  }

  /** An id is unsynced exactly when it was moved and no later operation synced or removed it. */
  lemma {:induction false} UnsyncedIff(ops: seq<Op>, id: nat)
    ensures id in Unsynced(ops) <==> IsUnsynced(ops, id)
    decreases |ops|
  {
    if |ops| > 0 {
      var (init, last) := (ops[..|ops| - 1], ops[|ops| - 1]);
      UnsyncedIff(init, id);
      if Moves(last, id) { assert IsUnsynced(ops, id); }
      if IsUnsynced(init, id) && !Settles(last, id) {
        var i :| 0 <= i < |init| && Moves(init[i], id) && forall j :: i < j < |init| ==> !Settles(init[j], id);
        assert Moves(ops[i], id);
        assert IsUnsynced(ops, id);
      }
      if IsUnsynced(ops, id) && !Moves(last, id) {
        var i :| 0 <= i < |ops| && Moves(ops[i], id) && forall j :: i < j < |ops| ==> !Settles(ops[j], id);
        assert Moves(init[i], id);
      }
    }
  }

  ghost predicate SameBuckets<K(!new)>(b: map<K, seq<nat>>, c: map<K, seq<nat>>) {
    && b.Keys == c.Keys
    && forall k :: k in b ==> (set id | id in b[k]) == (set id | id in c[k])
  }

  /** `retain` at an index: what is before it passed, what is gone failed, and both have been asked about. */
  ghost predicate RetainedSoFar(es: seq<Entity>, was: seq<Entity>, keep: Entity -> bool, index: nat,
                                asked: seq<Entity>) {
    && index <= |es|
    && DistinctIds(es)
    && (forall e :: e in es ==> e in was)
    && (forall e :: e in was && keep(e) ==> e in es)
    && (forall i :: 0 <= i < index ==> keep(es[i]))
    && NoRepeats(asked)
    && (forall e :: e in asked <==> e in was && e !in es[index..])
  }

  lemma RetainStarts(was: seq<Entity>, keep: Entity -> bool)
    requires DistinctIds(was)
    ensures RetainedSoFar(was, was, keep, 0, [])
  {
    assert was[0..] == was;
  }

  lemma RetainKeeps(es: seq<Entity>, was: seq<Entity>, keep: Entity -> bool, index: nat, asked: seq<Entity>)
    requires RetainedSoFar(es, was, keep, index, asked) && index < |es| && keep(es[index])
    ensures RetainedSoFar(es, was, keep, index + 1, asked + [es[index]])
  {
    assert es[index..] == [es[index]] + es[index + 1..];
    assert es[index] !in es[index + 1..];
  }

  lemma RetainDrops(es: seq<Entity>, was: seq<Entity>, keep: Entity -> bool, index: nat, asked: seq<Entity>)
    requires RetainedSoFar(es, was, keep, index, asked) && index < |es| && !keep(es[index])
    ensures RetainedSoFar(SwapRemoved(es, index), was, keep, index, asked + [es[index]])
  {
    hide SwapRemoved;
    var rest := SwapRemoved(es, index);
    SwapRemovedHolds(es, index);
    SwapRemovedPrefix(es, index);
    assert es[index..] == [es[index]] + es[index + 1..];
    assert es[index] in es[index..];
    forall e ensures e in rest[index..] <==> e in es[index..] && e != es[index] {
      SwapRemovedTail(es, index, e);
    }
    var more := asked + [es[index]];
    assert es[index] !in asked;
    assert forall e :: e in more <==> e in asked || e == es[index];
    assert forall e :: e in more <==> e in was && e !in rest[index..];
  }

  lemma SwapRemovedPrefix(es: seq<Entity>, idx: nat)
    requires idx < |es|
    ensures |SwapRemoved(es, idx)| == |es| - 1
    ensures forall i :: 0 <= i < idx ==> SwapRemoved(es, idx)[i] == es[i]
  {
  }

  lemma SwapRemovedTail(es: seq<Entity>, idx: nat, e: Entity)
    requires DistinctIds(es) && idx < |es|
    ensures e in SwapRemoved(es, idx)[idx..] <==> e in es[idx..] && e != es[idx]
  {
    var rest, last := SwapRemoved(es, idx), |es| - 1;
    if e in rest[idx..] {
      var i :| idx <= i < |rest| && rest[i] == e;
      assert e == es[if i == idx then last else i];
    }
    if e in es[idx..] && e != es[idx] {
      var i :| idx <= i < |es| && es[i] == e;
      assert rest[if i == last then idx else i] == e;
    }
  }

  lemma RetainEnds(es: seq<Entity>, was: seq<Entity>, keep: Entity -> bool, index: nat, asked: seq<Entity>)
    requires RetainedSoFar(es, was, keep, index, asked) && index == |es|
    ensures forall e :: e in es <==> e in was && keep(e)
    ensures NoRepeats(asked) && forall e :: e in asked <==> e in was
  {
  }

  /** Two sound sets of indexes of the same entities agree, bucket order apart. */
  lemma IndexesAgree(es: seq<Entity>, x: Indexes, y: Indexes)
    requires Indexed(es, x) && Indexed(es, y)
    ensures x.byId == y.byId
    ensures SameBuckets(x.byType, y.byType)
    ensures x.chunkOf == y.chunkOf ==> SameBuckets(x.byChunk, y.byChunk)
    ensures Stale(es, x.chunkOf) == {} && Stale(es, y.chunkOf) == {} ==> x.chunkOf == y.chunkOf
  {
    hide Match, Tags, Stale;
    forall id | id in x.byId ensures x.byId[id] == y.byId[id] {
      var i :| 0 <= i < |es| && es[i].id == id;
    }
    MatchIsDetermined(x.byType, y.byType, Kinds(es));
    if x.chunkOf == y.chunkOf { MatchIsDetermined(x.byChunk, y.byChunk, x.chunkOf); }
    if Stale(es, x.chunkOf) == {} && Stale(es, y.chunkOf) == {} {
      UnstaleChunksAreTags(es, x.chunkOf);
      UnstaleChunksAreTags(es, y.chunkOf);
    }
  }

  /** What `found` holds when part of one bucket has been looked at as well. */
  ghost predicate FoundInBucket(found: seq<Entity>, es: seq<Entity>, chunkOf: map<nat, Column>, seen: set<Column>,
                                ids: seq<nat>, center: Vec3, radius: real) {
    && NoRepeats(found)
    && forall e :: e in found
         <==> e in es && Within(e, center, radius) && e.id in chunkOf && (chunkOf[e.id] in seen || e.id in ids)
  }

  lemma FoundStarts(found: seq<Entity>, es: seq<Entity>, chunkOf: map<nat, Column>, seen: set<Column>,
                    center: Vec3, radius: real)
    requires Found(found, es, chunkOf, seen, center, radius)
    ensures FoundInBucket(found, es, chunkOf, seen, [], center, radius)
  {
  }

  /** The next id of a bucket names an entity not found before. */
  lemma FoundOneMore(found: seq<Entity>, es: seq<Entity>, x: Indexes, chunk: Column, seen: set<Column>, i: nat,
                     center: Vec3, radius: real)
    requires Indexed(es, x) && chunk !in seen && chunk in x.byChunk && i < |x.byChunk[chunk]|
    requires FoundInBucket(found, es, x.chunkOf, seen, x.byChunk[chunk][..i], center, radius)
    ensures x.byChunk[chunk][i] in Ids(es)
    ensures forall e :: e in es && e.id == x.byChunk[chunk][i]
              ==> FoundInBucket(if Within(e, center, radius) then found + [e] else found, es, x.chunkOf, seen,
                                x.byChunk[chunk][..i + 1], center, radius)
  {
    hide Within, IndexExact, DistinctIds, FoundInBucket;
    var ids := x.byChunk[chunk];
    var id := ids[i];
    assert id in ids && x.chunkOf[id] == chunk && id !in ids[..i];
    forall e | e in es && e.id == id
      ensures FoundInBucket(if Within(e, center, radius) then found + [e] else found, es, x.chunkOf, seen, ids[..i + 1],
                            center, radius)
    {
      FoundOne(found, es, x.chunkOf, seen, ids, i, e, center, radius);
    }
  }

  lemma FoundOne(found: seq<Entity>, es: seq<Entity>, chunkOf: map<nat, Column>, seen: set<Column>,
                 ids: seq<nat>, i: nat, e: Entity, center: Vec3, radius: real)
    requires DistinctIds(es) && i < |ids| && ids[i] !in ids[..i]
    requires ids[i] in chunkOf && chunkOf[ids[i]] !in seen
    requires e in es && e.id == ids[i] && FoundInBucket(found, es, chunkOf, seen, ids[..i], center, radius)
    ensures FoundInBucket(if Within(e, center, radius) then found + [e] else found, es, chunkOf, seen, ids[..i + 1],
                          center, radius)
  {
    hide Within;
    assert ids[..i + 1] == ids[..i] + [ids[i]];
    assert e !in found;
    forall f | f in es && f.id == e.id ensures f == e {
      var j :| 0 <= j < |es| && es[j] == f;
      var k :| 0 <= k < |es| && es[k] == e;
    }
  }

  lemma FoundEnds(found: seq<Entity>, es: seq<Entity>, x: Indexes, chunk: Column, seen: set<Column>,
                  center: Vec3, radius: real)
    requires Indexed(es, x)
    requires FoundInBucket(found, es, x.chunkOf, seen, if chunk in x.byChunk then x.byChunk[chunk] else [], center,
                           radius)
    ensures Found(found, es, x.chunkOf, seen + {chunk}, center, radius)
  {
    hide Indexed, Within;
    BucketHoldsChunk(es, x, chunk);
  }

  lemma BucketHoldsChunk(es: seq<Entity>, x: Indexes, chunk: Column)
    requires Indexed(es, x)
    ensures var ids := if chunk in x.byChunk then x.byChunk[chunk] else [];
      forall id :: id in x.chunkOf ==> (id in ids <==> x.chunkOf[id] == chunk)
  {
  }

  lemma QueryFindsAll(found: seq<Entity>, es: seq<Entity>, x: Indexes, seen: set<Column>, center: Vec3, radius: real)
    requires Indexed(es, x) && Found(found, es, x.chunkOf, seen, center, radius)
    requires forall c :: c in seen <==> InWindow(c, center, radius)
    ensures Stale(es, x.chunkOf) == {} ==> forall e :: e in found <==> e in es && Within(e, center, radius)
  {
    hide InWindow, Within, Match, IndexExact;
    if Stale(es, x.chunkOf) == {} {
      forall e | e in es && Within(e, center, radius) ensures e in found {
        assert e.id in Ids(es) && e.id !in Stale(es, x.chunkOf);
        WindowHoldsTheRadius(e, center, radius);
      }
    }
  }

  ghost function SetOf(es: seq<Entity>): set<Entity> {
    set e | e in es
  }

  lemma HasIdIff(es: seq<Entity>, op: Op)
    ensures op.InsertNew? ==> ((exists f :: f in SetOf(es) && f.id == op.entity.id) <==> op.entity.id in Ids(es))
  {
    if op.InsertNew? && op.entity.id in Ids(es) {
      var f :| f in es && f.id == op.entity.id;
      assert f in SetOf(es);
    }
  }

  lemma PushSteps(es: seq<Entity>, e: Entity)
    ensures SetOf(es + [e]) == SetOf(es) + {e}
  {
  }

  lemma FilterSteps(was: seq<Entity>, es: seq<Entity>, keep: Entity -> bool)
    requires forall e :: e in es <==> e in was && keep(e)
    ensures SetOf(es) == set e | e in SetOf(was) && keep(e)
  {
  }

  lemma RemoveSteps(was: seq<Entity>, es: seq<Entity>, id: nat)
    requires DistinctIds(was)
    requires if id !in Ids(was) then es == was
             else exists gone :: gone in was && gone.id == id && forall e :: e in es <==> e in was && e != gone
    ensures SetOf(es) == set e | e in SetOf(was) && e.id != id
  {
    if id in Ids(was) {
      var gone :| gone in was && gone.id == id && forall e :: e in es <==> e in was && e != gone;
      forall e | e in was && e.id == id ensures e == gone {
        var i :| 0 <= i < |was| && was[i] == e;
        var j :| 0 <= j < |was| && was[j] == gone;
      }
    } else {
      forall e | e in was ensures e.id != id { assert e.id in Ids(was); }
    }
  }

  lemma MoveSteps(was: seq<Entity>, es: seq<Entity>, id: nat, position: Vec3)
    requires |es| == |was| && forall i :: 0 <= i < |es| ==> es[i] == Repositioned(was[i], id, position)
    ensures SetOf(es) == set e | e in SetOf(was) :: Repositioned(e, id, position)
  {
    forall e | e in was ensures Repositioned(e, id, position) in es {
      var i :| 0 <= i < |was| && was[i] == e;
      assert es[i] in es;
    }
    forall f | f in es ensures exists e :: e in SetOf(was) && f == Repositioned(e, id, position) {
      var i :| 0 <= i < |es| && es[i] == f;
      assert was[i] in SetOf(was);
    }
  }

  lemma UnsyncedIsMonotone(before: set<nat>, more: set<nat>, op: Op)
    requires before <= more
    ensures UnsyncedAfter(before, op) <= UnsyncedAfter(more, op)
  {
  }

  class EntityManager {
    var entities: seq<Entity>
    var idToIndex: map<nat, nat>
    var typeBuckets: map<nat, seq<nat>>
    var spatialBuckets: map<Column, seq<nat>>
    var entityChunks: map<nat, Column>
    var nextId: nat

    ghost function Index(): Indexes reads this {
      Indexes(idToIndex, typeBuckets, spatialBuckets, entityChunks)
    }

    ghost predicate Valid() reads this {
      && 1 <= nextId
      && (forall e :: e in entities ==> e.id < nextId)
      && Indexed(entities, Index())
    }

    /** The ids moved to another chunk since their last sync. */
    ghost function Lagging(): set<nat> reads this {
      Stale(entities, entityChunks)
    }

    constructor (firstId: nat)
      ensures Valid() && entities == [] && Lagging() == {}
      ensures nextId == if firstId < 1 then 1 else firstId
    {
      entities := [];
      idToIndex, typeBuckets, spatialBuckets, entityChunks := map[], map[], map[], map[];
      nextId := if firstId < 1 then 1 else firstId;
    }

    /** `push` and the four index updates that `spawn` and the inserts share. */
    method Push(e: Entity)
      requires Valid()
      modifies this
      ensures entities == old(entities) + [e] && nextId == old(nextId)
      ensures Index() == Pushed(old(Index()), |old(entities)|, e)
      ensures Indexed(entities, Index()) <==> e.id !in old(Ids(entities))
      ensures e.id !in old(Ids(entities)) ==> Lagging() == old(Lagging())
    {
      hide Indexed, Stale, AddTo, Ids;
      ghost var before := Index();
      PushedIsIndexed(entities, before, e);
      var idx := |entities|;
      entities := entities + [e];
      idToIndex := idToIndex[e.id := idx];
      typeBuckets := AddTo(typeBuckets, e.kind, e.id);
      spatialBuckets := AddTo(spatialBuckets, ChunkFor(e.position), e.id);
      entityChunks := entityChunks[e.id := ChunkFor(e.position)];
    }

    method Spawn(kind: nat, position: Vec3) returns (id: nat)
      requires Valid()
      modifies this
      ensures Valid() && id == old(nextId) && id !in old(Ids(entities)) && nextId == id + 1
      ensures entities == old(entities) + [Entity(id, kind, position)]
      ensures Lagging() == old(Lagging())
    {
      hide Indexed, Stale;
      id := nextId;
      assert id !in Ids(entities);
      Push(Entity(id, kind, position));
      nextId := id + 1;
    }

    /** An entity with an id chosen by the caller; the manager stays sound exactly when the id is new. */
    method InsertIndexedEntity(e: Entity)
      requires Valid()
      modifies this
      ensures entities == old(entities) + [e]
      ensures nextId == if e.id >= old(nextId) then e.id + 1 else old(nextId)
      ensures Valid() <==> e.id !in old(Ids(entities))
      ensures Valid() ==> Lagging() == old(Lagging())
    {
      hide Indexed, Stale, Ids;
      Push(e);
      if e.id >= nextId { nextId := e.id + 1; }
    }

    method SwapRemove(idx: nat) returns (removed: Entity)
      requires Valid() && idx < |entities|
      modifies this
      ensures Valid() && nextId == old(nextId)
      ensures removed == old(entities[idx]) && entities == old(SwapRemoved(entities, idx))
      ensures forall e :: e in entities <==> e in old(entities) && e != removed
      ensures Lagging() == old(Lagging()) - {removed.id}
    {
      hide Indexed, Stale, RemoveFrom, SwapRemoved;
      ghost var before, was := Index(), entities;
      IndexedIsDistinct(entities, before);
      SwapRemovedHolds(entities, idx);
      DroppedIsIndexed(entities, before, idx);
      removed := entities[idx];
      entities := SwapRemoved(entities, idx);
      idToIndex := idToIndex - {removed.id};
      if idx < |entities| { idToIndex := idToIndex[entities[idx].id := idx]; }
      typeBuckets := RemoveFrom(typeBuckets, removed.kind, removed.id);
      var chunk := if removed.id in entityChunks then entityChunks[removed.id] else ChunkFor(removed.position);
      entityChunks := entityChunks - {removed.id};
      spatialBuckets := RemoveFrom(spatialBuckets, chunk, removed.id);
      assert Index() == Dropped(before, was, idx);
    }

    method RemoveById(id: nat) returns (removed: Option<Entity>)
      requires Valid()
      modifies this
      ensures Valid() && nextId == old(nextId)
      ensures removed.Some? <==> id in old(Ids(entities))
      ensures removed.None? ==> entities == old(entities) && Index() == old(Index())
      ensures removed.Some? ==> removed.value in old(entities) && removed.value.id == id
      ensures removed.Some? ==> forall e :: e in entities <==> e in old(entities) && e != removed.value
      ensures Lagging() == old(Lagging()) - {id}
    {
      hide Indexed, SwapRemoved;
      IndexedIsDistinct(entities, Index());
      if id in idToIndex {
        var e := SwapRemove(idToIndex[id]);
        removed := Some(e);
      } else {
        assert forall e :: e in entities ==> e.id in Ids(entities);
        removed := None;
      }
    }

    /** What passes the test stays; each entity is asked about once. */
    method Retain(keep: Entity -> bool) returns (ghost asked: seq<Entity>)
      requires Valid()
      modifies this
      ensures Valid() && nextId == old(nextId)
      ensures forall e :: e in entities <==> e in old(entities) && keep(e)
      ensures NoRepeats(asked) && forall e :: e in asked <==> e in old(entities)
      ensures Lagging() == old(Lagging()) * Ids(entities)
    {
      hide Indexed, Stale, SwapRemoved, RetainedSoFar, Ids, DistinctIds, NoRepeats, IndexExact;
      ghost var was := entities;
      var index := 0;
      asked := [];
      IndexedIsDistinct(entities, Index());
      RetainStarts(was, keep);
      StaleAreIds(was, entityChunks);
      while index < |entities|
        invariant Valid() && nextId == old(nextId) && index <= |entities|
        invariant RetainedSoFar(entities, was, keep, index, asked)
        invariant Lagging() == old(Lagging()) * Ids(entities)
        decreases |entities| - index
      {
        ghost var es, at := entities, index;
        IndexedIsDistinct(es, Index());
        if keep(entities[index]) {
          RetainKeeps(es, was, keep, index, asked);
          index := index + 1;
        } else {
          RetainDrops(es, was, keep, index, asked);
          SwapRemovedHolds(es, index);
          var _ := SwapRemove(index);
        }
        asked := asked + [es[at]];
      }
      RetainEnds(entities, was, keep, index, asked);
    }

    function GetById(id: nat): (found: Option<Entity>)
      reads this
      requires Valid()
      ensures found.Some? <==> id in Ids(entities)
      ensures found.Some? ==> found.value in entities && found.value.id == id
    {
      IndexedIsDistinct(entities, Index());
      if id in idToIndex then Some(entities[idToIndex[id]]) else None
    }

    /** An entity given a new position through `get_by_id_mut`. */
    method Move(id: nat, position: Vec3)
      requires Valid()
      modifies this`entities
      ensures Valid() && |entities| == |old(entities)|
      ensures forall i :: 0 <= i < |entities|
                ==> entities[i] == Repositioned(old(entities[i]), id, position)
      ensures Lagging() == old(Lagging()) - {id}
                + (if id in entityChunks && entityChunks[id] != ChunkFor(position) then {id} else {})
    {
      hide Indexed, Stale;
      IndexedIsDistinct(entities, Index());
      if id in idToIndex {
        var idx := idToIndex[id];
        MovedIsIndexed(entities, Index(), idx, position);
        entities := entities[idx := entities[idx].(position := position)];
      } else {
        NoneStale(entities, entityChunks, id);
      }
    }

    method SyncEntityPosition(id: nat)
      requires Valid()
      modifies this`spatialBuckets, this`entityChunks
      ensures Valid() && Lagging() == old(Lagging()) - {id}
    {
      hide Indexed, Stale, AddTo, RemoveFrom;
      IndexedIsDistinct(entities, Index());
      if id in idToIndex && idToIndex[id] < |entities| {
        var idx := idToIndex[id];
        var newChunk := ChunkFor(entities[idx].position);
        RechunkedIsIndexed(entities, Index(), idx);
        assert entityChunks[id] == newChunk ==> entityChunks[id := newChunk] == entityChunks;
        if id !in entityChunks || entityChunks[id] != newChunk {
          if id in entityChunks { spatialBuckets := RemoveFrom(spatialBuckets, entityChunks[id], id); }
          spatialBuckets := AddTo(spatialBuckets, newChunk, id);
          entityChunks := entityChunks[id := newChunk];
        }
      } else {
        NoneStale(entities, entityChunks, id);
      }
    }

    method SyncEntityPositions(moved: seq<nat>)
      requires Valid()
      modifies this`spatialBuckets, this`entityChunks
      ensures Valid() && Lagging() == old(Lagging()) - (set id | id in moved)
    {
      hide Indexed, Stale;
      for i := 0 to |moved|
        invariant Valid() && Lagging() == old(Lagging()) - (set id | id in moved[..i])
      {
        SyncEntityPosition(moved[i]);
        assert moved[..i + 1] == moved[..i] + [moved[i]];
      }
      assert moved[..|moved|] == moved;
    }

    method SyncPositions()
      requires Valid()
      modifies this`spatialBuckets, this`entityChunks
      ensures Valid() && Lagging() == {}
    {
      hide Indexed;
      var ids := seq(|entities|, i requires 0 <= i < |entities| reads this => entities[i].id);
      forall e | e in entities ensures e.id in ids {
        var i :| 0 <= i < |entities| && entities[i] == e;
        assert ids[i] == e.id;
      }
      StaleAreIds(entities, entityChunks);
      SyncEntityPositions(ids);
    }

    /** On sound indexes a rebuild changes nothing but the order inside buckets and what lags. */
    method RebuildIndexes()
      modifies this`idToIndex, this`typeBuckets, this`spatialBuckets, this`entityChunks
      ensures DistinctIds(entities) ==> Indexed(entities, Index()) && Lagging() == {}
      ensures old(Valid()) ==> Valid() && idToIndex == old(idToIndex) && SameBuckets(typeBuckets, old(typeBuckets))
      ensures old(Valid() && Lagging() == {})
              ==> entityChunks == old(entityChunks) && SameBuckets(spatialBuckets, old(spatialBuckets))
    {
      hide Indexed, AddTo, Stale, Tags, SameBuckets, DistinctIds;
      ghost var before := Index();
      idToIndex, typeBuckets, spatialBuckets, entityChunks := map[], map[], map[], map[];
      EmptyIsIndexed(entities);
      for i := 0 to |entities|
        invariant DistinctIds(entities) ==> Indexed(entities[..i], Index())
        invariant entityChunks == Chunks(entities[..i])
      {
        var e := entities[i];
        PushedOneMore(entities, Index(), i);
        idToIndex := idToIndex[e.id := i];
        typeBuckets := AddTo(typeBuckets, e.kind, e.id);
        spatialBuckets := AddTo(spatialBuckets, ChunkFor(e.position), e.id);
        entityChunks := entityChunks[e.id := ChunkFor(e.position)];
      }
      assert entities[..|entities|] == entities;
      if old(Valid()) { IndexedIsDistinct(entities, before); }
      if DistinctIds(entities) { TagsAreUnstale(entities); }
      if old(Valid()) { IndexesAgree(entities, Index(), before); }
    }

    /** The entities of one bucket that lie within the radius, added to those found. */
    method QueryBucket(chunk: Column, center: Vec3, radius: real, found: seq<Entity>, ghost seen: set<Column>)
      returns (more: seq<Entity>)
      requires Valid() && chunk !in seen && Found(found, entities, entityChunks, seen, center, radius)
      ensures Found(more, entities, entityChunks, seen + {chunk}, center, radius)
    {
      hide Indexed, Within, Ids;
      more := found;
      FoundStarts(found, entities, entityChunks, seen, center, radius);
      if chunk in spatialBuckets {
        var ids := spatialBuckets[chunk];
        assert ids[..0] == [];
        for i := 0 to |ids|
          invariant FoundInBucket(more, entities, entityChunks, seen, ids[..i], center, radius)
        {
          var e := GetById(ids[i]);
          FoundOneMore(more, entities, Index(), chunk, seen, i, center, radius);
          if e.Some? && Within(e.value, center, radius) { more := more + [e.value]; }
        }
        assert ids[..|ids|] == ids;
      }
      FoundEnds(more, entities, Index(), chunk, seen, center, radius);
    }

    /**
     * Each entity within the radius whose recorded chunk is looked at, once, and no other. With
     * nothing lagging that is each entity within the radius.
     */
    method QueryRadius(center: Vec3, radius: real) returns (found: seq<Entity>)
      requires Valid()
      ensures NoRepeats(found)
      ensures forall e :: e in found
                <==> && e in entities && Within(e, center, radius) && e.id in entityChunks
                     && InWindow(entityChunks[e.id], center, radius)
      ensures Lagging() == {} ==> forall e :: e in found <==> e in entities && Within(e, center, radius)
      ensures Lagging() == {} ==> forall e :: e in found <==> e in entities && InBall(e.position, center, radius)
    {
      hide InBall, Within, Square, DistanceSquared;
      var r := Max(radius, 0.0);
      var minX, maxX := ChunkOf(center.x - r), ChunkOf(center.x + r);
      var minZ, maxZ := ChunkOf(center.z - r), ChunkOf(center.z + r);
      ChunkOfIsMonotone(center.x - r, center.x + r);
      ChunkOfIsMonotone(center.z - r, center.z + r);
      ghost var seen: set<Column> := {};
      found := [];
      for x := minX to maxX + 1
        invariant forall c: Column :: c in seen <==> minX <= c.0 < x && minZ <= c.1 <= maxZ
        invariant Found(found, entities, entityChunks, seen, center, radius)
      {
        for z := minZ to maxZ + 1
          invariant forall c: Column :: c in seen
                      <==> (minX <= c.0 < x && minZ <= c.1 <= maxZ) || (c.0 == x && minZ <= c.1 < z)
          invariant Found(found, entities, entityChunks, seen, center, radius)
        {
          found := QueryBucket((x, z), center, radius, found, seen);
          seen := seen + {(x, z)};
        }
      }
      QueryFindsAll(found, entities, Index(), seen, center, radius);
      forall e: Entity ensures Within(e, center, radius) <==> InBall(e.position, center, radius) {
        WithinIsInBall(e, center, radius);
      }
    }

    ghost function Content(): Collection reads this {
      Collection(SetOf(entities), nextId)
    }

    /** Every operation acts on the manager as it does on the plain collection. */
    method Apply(op: Op)
      requires Valid()
      modifies this
      ensures Valid() && Content() == Stepped(old(Content()), op)
      ensures Lagging() <= UnsyncedAfter(old(Lagging()), op)
    {
      hide Indexed, Stale, SwapRemoved, DistinctIds, Ids, SetOf, IndexExact, Repositioned;
      ghost var was := entities;
      IndexedIsDistinct(was, Index());
      HasIdIff(was, op);
      match op
      case Spawn(kind, position) =>
        PushSteps(was, Entity(nextId, kind, position));
        var _ := Spawn(kind, position);
      case InsertNew(e) =>
        PushSteps(was, e);
        if e.id !in idToIndex { InsertIndexedEntity(e); }
      case Remove(id) =>
        var _ := RemoveById(id);
        RemoveSteps(was, entities, id);
      case Retain(keep) =>
        var _ := Retain(keep);
        FilterSteps(was, entities, keep);
      case Move(id, position) =>
        Move(id, position);
        MoveSteps(was, entities, id, position);
      case Sync(ids) => SyncEntityPositions(ids);
      case SyncAll => SyncPositions();
      case Rebuild => RebuildIndexes();
    }
  }

  /** After any run of operations the manager holds what the plain collection holds, soundly indexed. */
  method Replay(firstId: nat, ops: seq<Op>) returns (m: EntityManager)
    ensures fresh(m) && m.Valid() && m.Content() == Collected(firstId, ops)
    ensures m.Lagging() <= Unsynced(ops)
  {
    hide Indexed, Stale, Stepped, UnsyncedAfter;
    m := new EntityManager(firstId);
    for i := 0 to |ops|
      invariant fresh(m) && m.Valid() && m.Content() == Collected(firstId, ops[..i])
      invariant m.Lagging() <= Unsynced(ops[..i])
    {
      assert ops[..i + 1][..i] == ops[..i];
      UnsyncedIsMonotone(m.Lagging(), Unsynced(ops[..i]), ops[i]);
      m.Apply(ops[i]);
    }
    assert ops[..|ops|] == ops;
  }

  /** With every moved id synced, a radius query after any run is a scan of the plain collection. */
  method ReplayAndQuery(firstId: nat, ops: seq<Op>, center: Vec3, radius: real) returns (found: seq<Entity>)
    requires Unsynced(ops) == {}
    ensures NoRepeats(found)
    ensures forall e :: e in found <==> e in Collected(firstId, ops).entities && Within(e, center, radius)
    ensures forall e :: e in found <==> e in Collected(firstId, ops).entities && InBall(e.position, center, radius)
  {
    hide InBall, Within;
    var m := Replay(firstId, ops);
    found := m.QueryRadius(center, radius);
    assert forall e :: e in m.entities <==> e in m.Content().entities;
  }
}
