/** Entities, the chunk an entity stands in, and what the manager's indexes have to say. */
module EntityIndex {
  import opened Buckets
  import opened Positions

  datatype Entity = Entity(id: nat, kind: nat, position: Vec3)

  /** `as i32` of a float: saturating. */
  function ToI32(n: int): int {
    if n < -0x8000_0000 then -0x8000_0000
    else if n > 0x7FFF_FFFF then 0x7FFF_FFFF
    else n
  }

  function ChunkOf(v: real): int {
    ToI32((v / 16.0).Floor)
  }

  function ChunkFor(p: Vec3): Column {
    (ChunkOf(p.x), ChunkOf(p.z))
  }

  function Square(r: real): real {
    r * r
  }

  function DistanceSquared(p: Vec3, q: Vec3): real {
    Square(p.x - q.x) + Square(p.y - q.y) + Square(p.z - q.z)
  }

  function Max(a: real, b: real): real {
    if a < b then b else a
  }

  predicate Within(e: Entity, center: Vec3, radius: real) {
    DistanceSquared(e.position, center) <= Square(Max(radius, 0.0))
  }

  /** The point lies in the closed ball, which is the centre alone for a negative radius. */
  ghost predicate InBall(p: Vec3, center: Vec3, radius: real) {
    var (dx, dy, dz) := (p.x - center.x, p.y - center.y, p.z - center.z);
    var r := if radius < 0.0 then 0.0 else radius;
    dx * dx + dy * dy + dz * dz <= r * r
  }

  lemma WithinIsInBall(e: Entity, center: Vec3, radius: real)
    ensures Within(e, center, radius) <==> InBall(e.position, center, radius)
  {
  }

  /** A chunk is sixteen blocks wide; beyond 32-bit chunk numbers the first and the last hold the rest. */
  lemma ChunksAreSixteenWide(v: real)
    ensures -34359738368.0 <= v < 34359738368.0 ==> 16.0 * ChunkOf(v) as real <= v < 16.0 * ChunkOf(v) as real + 16.0
    ensures v < -34359738368.0 ==> ChunkOf(v) == -2147483648
    ensures v >= 34359738368.0 ==> ChunkOf(v) == 2147483647
  {
    var n := (v / 16.0).Floor;
    assert n as real <= v / 16.0 < n as real + 1.0;
  }

  /** The chunks a radius query looks at. */
  predicate InWindow(chunk: Column, center: Vec3, radius: real) {
    var r := Max(radius, 0.0);
    && ChunkOf(center.x - r) <= chunk.0 <= ChunkOf(center.x + r)
    && ChunkOf(center.z - r) <= chunk.1 <= ChunkOf(center.z + r)
  }

  lemma SquareIsMonotone(d: real, r: real)
    requires r >= 0.0 && Square(d) <= Square(r)
    ensures -r <= d <= r
  {
    if d > r { LargerSquare(r, d); }
    if -d > r {
      LargerSquare(r, -d);
      SquareOfNegative(d);
    }
  }

  lemma LargerSquare(r: real, d: real)
    requires 0.0 <= r < d
    ensures Square(r) < Square(d)
  {
    LargerProduct(r, d);
  }

  lemma LargerProduct(r: real, d: real)
    requires 0.0 <= r < d
    ensures r * r < d * d
  {
    calc {
      r * r;
    <= { ProductIsMonotone(r, r, d); }
      r * d;
    <  { ProductIsPositive(d - r, d); }
      d * d;
    }
  }

  lemma SquareOfNegative(d: real)
    ensures Square(-d) == Square(d)
  {
    var m := -d;
    assert m * m == (-m) * (-m);
  }

  lemma ProductIsPositive(a: real, b: real)
    requires a > 0.0 && b > 0.0
    ensures a * b > 0.0
  {
  }

  lemma ProductIsMonotone(a: real, b: real, c: real)
    requires a >= 0.0 && b <= c
    ensures a * b <= a * c
  {
  }

  lemma ChunkOfIsMonotone(a: real, b: real)
    requires a <= b
    ensures ChunkOf(a) <= ChunkOf(b)
  {
    assert a / 16.0 <= b / 16.0;
  }

  /** No entity within the radius stands outside the chunks looked at, saturation included. */
  lemma WindowHoldsTheRadius(e: Entity, center: Vec3, radius: real)
    requires Within(e, center, radius)
    ensures InWindow(ChunkFor(e.position), center, radius)
  {
    var r, p := Max(radius, 0.0), e.position;
    SquareIsNotNegative(p.x - center.x);
    SquareIsNotNegative(p.y - center.y);
    SquareIsNotNegative(p.z - center.z);
    SquareIsMonotone(p.x - center.x, r);
    SquareIsMonotone(p.z - center.z, r);
    ChunkOfIsMonotone(center.x - r, p.x);
    ChunkOfIsMonotone(p.x, center.x + r);
    ChunkOfIsMonotone(center.z - r, p.z);
    ChunkOfIsMonotone(p.z, center.z + r);
  }

  lemma SquareIsNotNegative(d: real)
    ensures Square(d) >= 0.0
  {
  }

  // ---------------------------------------------------------------- indexes

  ghost function Ids(es: seq<Entity>): set<nat> {
    set e | e in es :: e.id
  }

  ghost predicate DistinctIds(es: seq<Entity>) {
    forall i, j :: 0 <= i < j < |es| ==> es[i].id != es[j].id
  }

  /** The tag of every entity, under its id. */
  ghost function Tags<K>(es: seq<Entity>, f: Entity -> K): (tags: map<nat, K>)
    ensures tags.Keys == Ids(es)
  {
    if es == [] then map[]
    else
      var init, last := es[..|es| - 1], es[|es| - 1];
      assert es == init + [last];
      Tags(init, f)[last.id := f(last)]
  }

  lemma {:induction false} TagsAt<K>(es: seq<Entity>, f: Entity -> K, i: nat)
    requires DistinctIds(es) && i < |es|
    ensures Tags(es, f)[es[i].id] == f(es[i])
  {
    if i < |es| - 1 { TagsAt(es[..|es| - 1], f, i); }
  }

  ghost predicate IndexExact(es: seq<Entity>, index: map<nat, nat>) {
    && index.Keys == Ids(es)
    && forall i :: 0 <= i < |es| ==> index[es[i].id] == i
  }

  /** `id_to_index` finds the entity of an id and nothing else. */
  lemma IndexFinds(es: seq<Entity>, index: map<nat, nat>, id: nat)
    requires IndexExact(es, index) && id in index
    ensures index[id] < |es| && es[index[id]].id == id
  {
    var i :| 0 <= i < |es| && es[i].id == id;
  }

  // ------------------------------------------------------------ swap_remove

  /** `Vec::swap_remove`: the last element takes the removed one's place. */
  function SwapRemoved(es: seq<Entity>, idx: nat): seq<Entity>
    requires idx < |es|
  {
    var init := es[..|es| - 1];
    if idx < |init| then init[idx := es[|es| - 1]] else init
  }

  lemma SwapRemovedHolds(es: seq<Entity>, idx: nat)
    requires DistinctIds(es) && idx < |es|
    ensures DistinctIds(SwapRemoved(es, idx)) && |SwapRemoved(es, idx)| == |es| - 1
    ensures forall e :: e in SwapRemoved(es, idx) <==> e in es && e != es[idx]
    ensures Ids(SwapRemoved(es, idx)) == Ids(es) - {es[idx].id}
  {
    var rest, last := SwapRemoved(es, idx), |es| - 1;
    forall e ensures e in rest <==> e in es && e != es[idx] {
      if e in rest {
        var i :| 0 <= i < |rest| && rest[i] == e;
        assert e == es[if i == idx then last else i];
      }
      if e in es && e != es[idx] {
        var i :| 0 <= i < |es| && es[i] == e;
        assert rest[if i == last then idx else i] == e;
      }
    }
    forall id ensures id in Ids(rest) <==> id in Ids(es) - {es[idx].id} {
      if id in Ids(rest) {
        var e :| e in rest && e.id == id;
        assert e in es && e != es[idx];
        var i :| 0 <= i < |es| && es[i] == e;
      }
      if id in Ids(es) && id != es[idx].id {
        var e :| e in es && e.id == id;
        assert e in rest;
      }
    }
  }

  /** The tags of what is left are the tags without the removed id. */
  lemma SwapRemovedTags<K>(es: seq<Entity>, idx: nat, f: Entity -> K)
    requires DistinctIds(es) && idx < |es|
    ensures Tags(SwapRemoved(es, idx), f) == Tags(es, f) - {es[idx].id}
  {
    var rest := SwapRemoved(es, idx);
    SwapRemovedHolds(es, idx);
    hide SwapRemoved, Tags;
    forall id | id in Tags(rest, f) ensures Tags(rest, f)[id] == Tags(es, f)[id] {
      SameTag(es, rest, f, id);
    }
  }

  lemma SameTag<K>(es: seq<Entity>, rest: seq<Entity>, f: Entity -> K, id: nat)
    requires DistinctIds(es) && DistinctIds(rest) && id in Tags(rest, f) && forall e :: e in rest ==> e in es
    ensures id in Tags(es, f) && Tags(rest, f)[id] == Tags(es, f)[id]
  {
    hide Tags;
    var i :| 0 <= i < |rest| && rest[i].id == id;
    assert rest[i] in es;
    var j :| 0 <= j < |es| && es[j] == rest[i];
    TagsAt(rest, f, i);
    TagsAt(es, f, j);
  }

  /** `id_to_index` after a swap_remove: the removed id goes, the swapped entity is re-indexed. */
  lemma SwapRemovedIndex(es: seq<Entity>, index: map<nat, nat>, idx: nat)
    requires DistinctIds(es) && idx < |es| && IndexExact(es, index)
    ensures var rest := SwapRemoved(es, idx);
      var left := index - {es[idx].id};
      IndexExact(rest, if idx < |rest| then left[rest[idx].id := idx] else left)
  {
    SwapRemovedHolds(es, idx);
    var rest := SwapRemoved(es, idx);
    if idx < |rest| { assert rest[idx] in rest; assert rest[idx].id in Ids(rest); }
  }

  // -------------------------------------------------------------- staleness

  /** The ids whose recorded chunk is not the chunk they stand in: moved since their last sync. */
  ghost function Stale(es: seq<Entity>, chunks: map<nat, Column>): set<nat> {
    set e | e in es && (e.id !in chunks || chunks[e.id] != ChunkFor(e.position)) :: e.id
  }

  lemma NoneStale(es: seq<Entity>, chunks: map<nat, Column>, id: nat)
    requires id !in Ids(es)
    ensures id !in Stale(es, chunks)
    ensures forall i :: 0 <= i < |es| ==> es[i].id != id
  {
    forall e | e in es ensures e.id != id { assert e.id in Ids(es); }
  }

  lemma StaleAreIds(es: seq<Entity>, chunks: map<nat, Column>)
    ensures Stale(es, chunks) <= Ids(es)
  {
  }

  /** With nothing stale the recorded chunks are those a rebuild would record. */
  lemma UnstaleChunksAreTags(es: seq<Entity>, chunks: map<nat, Column>)
    requires DistinctIds(es) && chunks.Keys == Ids(es) && Stale(es, chunks) == {}
    ensures chunks == Tags(es, (e: Entity) => ChunkFor(e.position))
  {
    var f := (e: Entity) => ChunkFor(e.position);
    forall id | id in chunks ensures chunks[id] == Tags(es, f)[id] {
      var i :| 0 <= i < |es| && es[i].id == id;
      TagsAt(es, f, i);
      assert es[i] in es;
      assert id !in Stale(es, chunks);
    }
  }

  // ------------------------------------------------------ all indexes as one

  ghost function Kinds(es: seq<Entity>): map<nat, nat> {
    Tags(es, (e: Entity) => e.kind)
  }

  ghost function Chunks(es: seq<Entity>): map<nat, Column> {
    Tags(es, (e: Entity) => ChunkFor(e.position))
  }

  datatype Indexes = Indexes(byId: map<nat, nat>, byType: map<nat, seq<nat>>,
                             byChunk: map<Column, seq<nat>>, chunkOf: map<nat, Column>)

  /** Everything the indexes promise; a recorded chunk may lag behind its entity's position. */
  ghost predicate Indexed(es: seq<Entity>, x: Indexes) {
    && DistinctIds(es)
    && IndexExact(es, x.byId)
    && Match(x.byType, Kinds(es))
    && x.chunkOf.Keys == Ids(es)
    && Match(x.byChunk, x.chunkOf)
  }

  lemma IndexedIsDistinct(es: seq<Entity>, x: Indexes)
    requires Indexed(es, x)
    ensures DistinctIds(es) && x.byId.Keys == x.chunkOf.Keys == Ids(es)
    ensures forall id :: id in x.byId ==> x.byId[id] < |es| && es[x.byId[id]].id == id
  {
    forall id | id in x.byId ensures x.byId[id] < |es| && es[x.byId[id]].id == id { IndexFinds(es, x.byId, id); }
  }

  /** The indexes once an entity has been pushed at the end. */
  function Pushed(x: Indexes, count: nat, e: Entity): Indexes {
    Indexes(x.byId[e.id := count],
            AddTo(x.byType, e.kind, e.id),
            AddTo(x.byChunk, ChunkFor(e.position), e.id),
            x.chunkOf[e.id := ChunkFor(e.position)])
  }

  /** Pushing keeps the indexes exactly when the id is new. */
  lemma PushedIsIndexed(es: seq<Entity>, x: Indexes, e: Entity)
    requires Indexed(es, x)
    ensures Indexed(es + [e], Pushed(x, |es|, e)) <==> e.id !in Ids(es)
    ensures e.id !in Ids(es) ==> Stale(es + [e], Pushed(x, |es|, e).chunkOf) == Stale(es, x.chunkOf)
  {
    hide Match, AddTo, Stale, Tags;
    if e.id !in Ids(es) {
      PushedKinds(es, e);
      AddMatches(x.byType, Kinds(es), e.kind, e.id);
      AddMatches(x.byChunk, x.chunkOf, ChunkFor(e.position), e.id);
      PushedStale(es, x.chunkOf, e);
    } else {
      var i :| 0 <= i < |es| && es[i].id == e.id;
      assert (es + [e])[i].id == (es + [e])[|es|].id;
    }
  }

  lemma EmptyIsIndexed(es: seq<Entity>)
    ensures Indexed(es[..0], Indexes(map[], map[], map[], map[])) && Chunks(es[..0]) == map[]
  {
  }

  /** One step of a rebuild. */
  lemma PushedOneMore(es: seq<Entity>, x: Indexes, i: nat)
    requires i < |es| && (DistinctIds(es) ==> Indexed(es[..i], x))
    ensures DistinctIds(es) ==> Indexed(es[..i + 1], Pushed(x, i, es[i]))
    ensures Chunks(es[..i + 1]) == Chunks(es[..i])[es[i].id := ChunkFor(es[i].position)]
  {
    hide Indexed, AddTo;
    assert es[..i + 1] == es[..i] + [es[i]];
    assert es[..i + 1][..i] == es[..i];
    if DistinctIds(es) {
      assert es[i].id !in Ids(es[..i]);
      PushedIsIndexed(es[..i], x, es[i]);
    }
  }

  /** Chunks recorded from the positions never lag. */
  lemma TagsAreUnstale(es: seq<Entity>)
    requires DistinctIds(es)
    ensures Stale(es, Chunks(es)) == {}
  {
    forall e | e in es ensures e.id in Chunks(es) && Chunks(es)[e.id] == ChunkFor(e.position) {
      var i :| 0 <= i < |es| && es[i] == e;
      TagsAt(es, (e: Entity) => ChunkFor(e.position), i);
    }
  }

  lemma PushedKinds(es: seq<Entity>, e: Entity)
    ensures Kinds(es + [e]) == Kinds(es)[e.id := e.kind]
    ensures Ids(es + [e]) == Ids(es) + {e.id}
  {
    assert (es + [e])[..|es|] == es;
  }

  lemma PushedStale(es: seq<Entity>, chunks: map<nat, Column>, e: Entity)
    requires e.id !in Ids(es)
    ensures Stale(es + [e], chunks[e.id := ChunkFor(e.position)]) == Stale(es, chunks)
  {
    forall f | f in es + [e] ensures f in es || f == e {}
    forall f | f in es ensures f.id != e.id { assert f.id in Ids(es); }
  }

  /** The indexes once the entity at `idx` has been swap-removed. */
  function Dropped(x: Indexes, es: seq<Entity>, idx: nat): Indexes
    requires idx < |es|
  {
    var e, rest := es[idx], SwapRemoved(es, idx);
    var left := x.byId - {e.id};
    var chunk := if e.id in x.chunkOf then x.chunkOf[e.id] else ChunkFor(e.position);
    Indexes(if idx < |rest| then left[rest[idx].id := idx] else left,
            RemoveFrom(x.byType, e.kind, e.id),
            RemoveFrom(x.byChunk, chunk, e.id),
            x.chunkOf - {e.id})
  }

  /** Removal leaves exact indexes, also for an entity moved since its last sync. */
  lemma DroppedIsIndexed(es: seq<Entity>, x: Indexes, idx: nat)
    requires Indexed(es, x) && idx < |es|
    ensures Indexed(SwapRemoved(es, idx), Dropped(x, es, idx))
    ensures Stale(SwapRemoved(es, idx), Dropped(x, es, idx).chunkOf) == Stale(es, x.chunkOf) - {es[idx].id}
  {
    hide Match, RemoveFrom, SwapRemoved, Stale, Tags;
    var e, rest := es[idx], SwapRemoved(es, idx);
    SwapRemovedHolds(es, idx);
    SwapRemovedIndex(es, x.byId, idx);
    SwapRemovedTags(es, idx, (e: Entity) => e.kind);
    TagsAt(es, (e: Entity) => e.kind, idx);
    assert e in es && e.id in Ids(es);
    RemoveMatches(x.byType, Kinds(es), e.id);
    RemoveMatches(x.byChunk, x.chunkOf, e.id);
    DroppedStale(es, x.chunkOf, idx);
  }

  lemma DroppedStale(es: seq<Entity>, chunks: map<nat, Column>, idx: nat)
    requires DistinctIds(es) && idx < |es|
    ensures Stale(SwapRemoved(es, idx), chunks - {es[idx].id}) == Stale(es, chunks) - {es[idx].id}
  {
    hide SwapRemoved, Tags;
    SwapRemovedHolds(es, idx);
    var rest, gone := SwapRemoved(es, idx), es[idx].id;
    forall e | e in rest ensures e.id != gone { assert e.id in Ids(rest); }
  }

  /** The indexes once an id has been moved from its recorded chunk to another. */
  function Rechunked(x: Indexes, id: nat, chunk: Column): Indexes
    requires id in x.chunkOf
  {
    x.(byChunk := AddTo(RemoveFrom(x.byChunk, x.chunkOf[id], id), chunk, id), chunkOf := x.chunkOf[id := chunk])
  }

  lemma RechunkedIsIndexed(es: seq<Entity>, x: Indexes, idx: nat)
    requires Indexed(es, x) && idx < |es|
    ensures es[idx].id in x.chunkOf
    ensures Indexed(es, Rechunked(x, es[idx].id, ChunkFor(es[idx].position)))
    ensures Stale(es, x.chunkOf[es[idx].id := ChunkFor(es[idx].position)]) == Stale(es, x.chunkOf) - {es[idx].id}
  {
    hide Match, AddTo, RemoveFrom, Tags;
    assert es[idx] in es && es[idx].id in Ids(es);
    MoveMatches(x.byChunk, x.chunkOf, es[idx].id, ChunkFor(es[idx].position));
    forall e | e in es && e.id == es[idx].id ensures e == es[idx] {
      var i :| 0 <= i < |es| && es[i] == e;
    }
  }

  /** An entity changing place keeps every index; its recorded chunk may then lag. */
  lemma MovedIsIndexed(es: seq<Entity>, x: Indexes, idx: nat, position: Vec3)
    requires Indexed(es, x) && idx < |es|
    ensures var moved := es[idx := es[idx].(position := position)];
      && Indexed(moved, x)
      && es[idx].id in x.chunkOf
      && Stale(moved, x.chunkOf) == Stale(es, x.chunkOf) - {es[idx].id}
                                    + (if x.chunkOf[es[idx].id] == ChunkFor(position) then {} else {es[idx].id})
  {
    hide Match, Stale, Tags;
    var e := es[idx];
    var moved := es[idx := e.(position := position)];
    assert e in es && e.id in Ids(es);
    MovedIds(es, moved);
    MovedStale(es, x.chunkOf, idx, position);
    forall id | id in Kinds(es) ensures id in Kinds(moved) && Kinds(es)[id] == Kinds(moved)[id] {
      var i :| 0 <= i < |es| && es[i].id == id;
      TagsAt(es, (e: Entity) => e.kind, i);
      TagsAt(moved, (e: Entity) => e.kind, i);
    }
    assert Kinds(es) == Kinds(moved);
  }

  lemma MovedIds(es: seq<Entity>, moved: seq<Entity>)
    requires |es| == |moved| && forall i :: 0 <= i < |es| ==> es[i].id == moved[i].id
    ensures Ids(es) == Ids(moved)
  {
    forall id ensures id in Ids(es) <==> id in Ids(moved) {
      if id in Ids(es) { var i :| 0 <= i < |es| && es[i].id == id; assert moved[i] in moved; }
      if id in Ids(moved) { var i :| 0 <= i < |es| && moved[i].id == id; assert es[i] in es; }
    }
  }

  lemma MovedStale(es: seq<Entity>, chunks: map<nat, Column>, idx: nat, position: Vec3)
    requires DistinctIds(es) && idx < |es| && es[idx].id in chunks
    ensures Stale(es[idx := es[idx].(position := position)], chunks)
         == Stale(es, chunks) - {es[idx].id}
            + (if chunks[es[idx].id] == ChunkFor(position) then {} else {es[idx].id})
  {
    var e, id := es[idx].(position := position), es[idx].id;
    var moved := es[idx := e];
    assert moved[idx] == e;
    forall f | f in moved ensures f == e || (f in es && f.id != id) {
      var i :| 0 <= i < |moved| && moved[i] == f;
    }
    forall f | f in es && f.id != id ensures f in moved {
      var i :| 0 <= i < |es| && es[i] == f;
      assert moved[i] == f;
    }
  }
}
