/** The suballocator of `src/chunk_render.rs` and what holds over every run of it. */
module FreeLists {
  import opened Integers
  import opened FreeBlocks
  import opened Allocation
  import opened Compaction

  // ----- What each operation does to the books -----

  ghost predicate FirstFit(free: seq<FreeListBlock>, count: nat, i: int) {
    0 <= i < |free| && count <= free[i].count && forall j :: 0 <= j < i ==> free[j].count < count
  }

  ghost predicate Allocated(b: Books, count: nat, owner: nat, r: Result<AllocationToken>, b': Books) {
    if count == 0 then r == Err(ZeroSizedAllocation) && b' == b
    else if forall i :: 0 <= i < |b.free| ==> b.free[i].count < count then r == Err(OutOfBounds) && b' == b
    else if b.next + 1 >= U64 then r == Err(ArithmeticOverflow) && b' == b
    else exists i ::
      && FirstFit(b.free, count, i)
      && r == Ok(AllocationToken(b.free[i].offset, count, b.next, owner))
      && b'.capacity == b.capacity && b'.next == b.next + 1
      && b'.live == b.live[b.free[i].offset := AllocationRecord(count, b.next, owner)]
  }

  function Validation(live: Live, t: AllocationToken): Result<()> {
    if t.offset !in live then Err(UnknownAllocation)
    else if live[t.offset].count != t.count || live[t.offset].generation != t.generation then Err(StaleGeneration)
    else if live[t.offset].owner != t.owner then Err(WrongOwner)
    else Ok(())
  }

  /** Which answer a token gets, and when. */
  ghost predicate AnswersToken(live: Live, t: AllocationToken, r: Result<()>) {
    && (r == Err(UnknownAllocation) <==> t.offset !in live)
    && (r == Err(StaleGeneration) <==>
          t.offset in live && (live[t.offset].count != t.count || live[t.offset].generation != t.generation))
    && (r == Err(WrongOwner) <==>
          && t.offset in live && live[t.offset].count == t.count && live[t.offset].generation == t.generation
          && live[t.offset].owner != t.owner)
    && (r.Ok? <==> t.offset in live && live[t.offset] == AllocationRecord(t.count, t.generation, t.owner))
  }

  lemma ValidationAnswers(live: Live, t: AllocationToken, r: Result<()>)
    ensures r == Validation(live, t) ==> AnswersToken(live, t, r)
  {
  }

  /** Which answer a range gets, and when: 32-bit ends, within the capacity, and exactly one live record. */
  ghost predicate AnswersRange(b: Books, offset: nat, count: nat, r: Result<()>) {
    var end := offset + count;
    && (r == Err(ZeroSizedAllocation) <==> count == 0)
    && (r == Err(ArithmeticOverflow) <==> count > 0 && end > 4294967295)
    && (r == Err(OutOfBounds) <==> count > 0 && b.capacity < end <= 4294967295)
    && (r == Err(UnknownAllocation) <==> count > 0 && end <= 4294967295 && end <= b.capacity && offset !in b.live)
    && (r == Err(StaleGeneration) <==>
          && count > 0 && end <= 4294967295 && end <= b.capacity && offset in b.live && b.live[offset].count != count)
    && (r.Ok? <==>
          && count > 0 && end <= 4294967295 && end <= b.capacity && offset in b.live && b.live[offset].count == count)
  }

  lemma RangeValidationAnswers(b: Books, offset: nat, count: nat, r: Result<()>)
    ensures r == RangeValidation(b, offset, count) ==> AnswersRange(b, offset, count, r)
  {
  }

  ghost predicate WithoutAllocation(b: Books, o: nat, b': Books) {
    b'.capacity == b.capacity && b'.next == b.next && b'.live == b.live - {o}
  }

  /** Freeing a live token always succeeds; any other token is refused and changes nothing. */
  ghost predicate Released(b: Books, t: AllocationToken, r: Result<()>, b': Books) {
    r == Validation(b.live, t) && if b.Validates(t) then WithoutAllocation(b, t.offset, b') else b' == b
  }

  function RangeValidation(b: Books, offset: nat, count: nat): Result<()> {
    if count == 0 then Err(ZeroSizedAllocation)
    else if offset + count >= U32 then Err(ArithmeticOverflow)
    else if offset + count > b.capacity then Err(OutOfBounds)
    else if offset !in b.live then Err(UnknownAllocation)
    else if b.live[offset].count != count then Err(StaleGeneration)
    else Ok(())
  }

  ghost predicate RangeReleased(b: Books, offset: nat, count: nat, r: Result<()>, b': Books) {
    r == RangeValidation(b, offset, count) && if r.Ok? then WithoutAllocation(b, offset, b') else b' == b
  }

  ghost predicate Resized(b: Books, capacity: nat, b': Books) {
    if capacity <= b.capacity then b' == b
    else b'.capacity == capacity && b'.next == b.next && b'.live == b.live
  }

  ghost predicate Compacted(b: Books, to: map<nat, nat>, total: nat, moves: seq<CompactionMove>, b': Books) {
    && Packs(b.live, to, total) && total <= b.capacity && MovesOf(b.live, to, moves)
    && Relocated(b.live, to, b'.live)
    && b'.capacity == b.capacity && b'.next == b.next && b'.free == Behind(total, b.capacity)
  }

  class FreeList {
    var capacity: nat
    var freeBlocks: seq<FreeListBlock>
    var allocations: Live
    var nextGeneration: nat

    ghost function State(): Books
      reads this
    {
      Books(capacity, freeBlocks, allocations, nextGeneration)
    }

    ghost predicate Valid()
      reads this
    {
      State().Valid()
    }

    constructor (capacity: nat)
      requires capacity < U32
      ensures Valid() && this.capacity == capacity && allocations == map[] && nextGeneration == 1
    {
      this.capacity, allocations, nextGeneration := capacity, map[], 1;
      freeBlocks := if capacity > 0 then [FreeListBlock(0, capacity)] else [];
      new;
      forall a ensures Covers(freeBlocks, a) <==> 0 <= a < capacity {
        if 0 <= a < capacity { assert freeBlocks[0].Holds(a); }
      }
    }

    method FindFit(count: nat) returns (index: nat)
      ensures index <= |freeBlocks|
      ensures forall i :: 0 <= i < index ==> freeBlocks[i].count < count
      ensures index < |freeBlocks| ==> count <= freeBlocks[index].count
    {
      index := 0;
      while index < |freeBlocks| && freeBlocks[index].count < count
        invariant index <= |freeBlocks| && forall i :: 0 <= i < index ==> freeBlocks[i].count < count
      {
        index := index + 1;
      }
    }

    /** First fit. The bounds checks on the chosen block cannot fail. */
    method AllocateOwned(count: nat, owner: nat) returns (r: Result<AllocationToken>)
      requires Valid() && count < U32
      modifies this
      ensures Valid()
      ensures Allocated(old(State()), count, owner, r, State())
      ensures r == Err(ArithmeticOverflow) <==>
        && count > 0 && (exists i :: 0 <= i < |old(freeBlocks)| && count <= old(freeBlocks)[i].count)
        && old(nextGeneration) == 18446744073709551615
    {
      hide Tiles, Covers, Held;
      if count == 0 {
        return Err(ZeroSizedAllocation);
      }
      var index := FindFit(count);
      if index == |freeBlocks| {
        return Err(OutOfBounds);
      }
      BlockIsInside(capacity, freeBlocks, allocations, index);
      var offset := freeBlocks[index].offset;
      assert freeBlocks[index].End() <= capacity && offset + count <= capacity;
      if nextGeneration + 1 >= U64 {
        return Err(ArithmeticOverflow);
      }
      ghost var b := State();
      var record := AllocationRecord(count, nextGeneration, owner);
      AllocateTiles(capacity, freeBlocks, allocations, index, record);
      freeBlocks := Taken(freeBlocks, index, count);
      nextGeneration := nextGeneration + 1;
      allocations := allocations[offset := record];
      assert FirstFit(b.free, count, index);
      return Ok(AllocationToken(offset, count, record.generation, owner));
    }

    method ValidateOwned(t: AllocationToken) returns (r: Result<()>)
      ensures r == Validation(allocations, t) && AnswersToken(allocations, t, r)
      ensures r.Ok? <==> State().Validates(t)
    {
      if t.offset !in allocations {
        return Err(UnknownAllocation);
      }
      var record := allocations[t.offset];
      if record.count != t.count || record.generation != t.generation {
        return Err(StaleGeneration);
      }
      if record.owner != t.owner {
        return Err(WrongOwner);
      }
      return Ok(());
    }

    /** Coalescing release. For a live allocation no check fails and no sum overflows. */
    method ReleaseRecord(offset: nat)
      requires Valid() && offset in allocations
      modifies this
      ensures Valid() && WithoutAllocation(old(State()), offset, State())
    {
      var count := allocations[offset].count;
      ReleaseCheckPasses(State(), offset);
      var check := ReleaseCheck(capacity, freeBlocks, offset, count);
      assert check.Ok?;
      ReleaseStaysOrdered(capacity, freeBlocks, offset, count);
      var i := check.value;
      var inserted := freeBlocks[..i] + [FreeListBlock(offset, count)] + freeBlocks[i..];
      EndsInside(capacity, freeBlocks, allocations, inserted);
      var merged := Coalesce(inserted);
      ReleaseTiles(State(), offset, merged);
      freeBlocks := merged;
      allocations := allocations - {offset};
    }

    lemma EndsInside(capacity: nat, free: seq<FreeListBlock>, live: Live, inserted: seq<FreeListBlock>)
      requires Tiles(capacity, free, live) && capacity < U32
      requires forall b :: b in inserted ==> b in free || b.End() <= capacity
      ensures forall i :: 0 <= i < |inserted| ==> inserted[i].End() < U32
    {
      forall b | b in free ensures b.End() <= capacity {
        var i :| 0 <= i < |free| && free[i] == b;
        BlockIsInside(capacity, free, live, i);
      }
      assert forall i :: 0 <= i < |inserted| ==> inserted[i] in inserted;
    }

    method DeallocateOwned(t: AllocationToken) returns (r: Result<()>)
      requires Valid()
      modifies this
      ensures Valid() && Released(old(State()), t, r, State())
      ensures AnswersToken(old(allocations), t, r)
    {
      r := ValidateOwned(t);
      if r.Ok? {
        ReleaseRecord(t.offset);
      }
    }

    method Deallocate(offset: nat, count: nat) returns (r: Result<()>)
      requires Valid()
      modifies this
      ensures Valid() && RangeReleased(old(State()), offset, count, r, State())
      ensures AnswersRange(old(State()), offset, count, r)
    {
      if count == 0 {
        return Err(ZeroSizedAllocation);
      }
      if offset + count >= U32 {
        return Err(ArithmeticOverflow);
      }
      if offset + count > capacity {
        return Err(OutOfBounds);
      }
      if offset !in allocations {
        return Err(UnknownAllocation);
      }
      if allocations[offset].count != count {
        return Err(StaleGeneration);
      }
      ReleaseRecord(offset);
      return Ok(());
    }

    /** Grows the capacity. The appended block already is the last one, so sorting does nothing. */
    method Resize(newCapacity: nat)
      requires Valid() && newCapacity < U32
      modifies this
      ensures Valid() && Resized(old(State()), newCapacity, State())
    {
      if newCapacity <= capacity {
        return;
      }
      var last := FreeListBlock(capacity, newCapacity - capacity);
      var grown := freeBlocks + [last];
      forall i | 0 <= i < |freeBlocks| ensures freeBlocks[i].End() <= capacity {
        BlockIsInside(capacity, freeBlocks, allocations, i);
      }
      OrderedConcat(freeBlocks, [last]);
      var merged := Coalesce(grown);
      GrowTiles(State(), newCapacity, merged);
      capacity := newCapacity;
      freeBlocks := merged;
    }

    /** Packs the live allocations against address 0 in order of offset. No sum overflows. */
    method Compact() returns (moves: seq<CompactionMove>, ghost to: map<nat, nat>, ghost total: nat)
      requires Valid()
      modifies this
      ensures Valid() && Compacted(old(State()), to, total, moves, State())
    {
      hide PackedSoFar, Packs, Relocated, MovesOf, Tiles, Fresh;
      ghost var b := State();
      var cursor: nat := 0;
      var packed: Live := map[];
      var remaining := allocations.Keys;
      moves, to := [], map[];
      PackingStarts(allocations);
      while remaining != {}
        invariant State() == b
        invariant PackedSoFar(allocations, remaining, to, cursor, packed, moves)
        invariant cursor <= capacity
        decreases remaining
      {
        var from := Least(remaining);
        assert remaining <= allocations.Keys by { RemainingIsLive(allocations, remaining, to, cursor, packed, moves); }
        var record := allocations[from];
        InsideCapacity(b, from);
        PackingGrows(allocations, remaining, to, cursor, packed, moves, from);
        if from != cursor {
          moves := moves + [CompactionMove(from, cursor, record.count, record.generation)];
        }
        to := to[from := cursor];
        packed := packed[cursor := record];
        cursor := cursor + record.count;
        remaining := remaining - {from};
      }
      PackingEnds(allocations, to, cursor, packed, moves);
      total := cursor;
      PackedTiles(b, to, total, packed);
      allocations := packed;
      freeBlocks := Behind(cursor, capacity);
    }
  }

  method Least(s: set<nat>) returns (m: nat)
    requires s != {}
    ensures m in s && forall x :: x in s ==> m <= x
  {
    m :| m in s;
    var rest := s - {m};
    while rest != {}
      invariant m in s && forall x :: x in s ==> x in rest || m <= x
      invariant rest <= s
      decreases rest
    {
      var x :| x in rest;
      if x < m { m := x; }
      rest := rest - {x};
    }
  }

  /** The allocations below every remaining one have been packed into [0, cursor). */
  ghost predicate PackedSoFar(live: Live, remaining: set<nat>, to: map<nat, nat>, cursor: nat, packed: Live,
                              moves: seq<CompactionMove>) {
    && remaining <= live.Keys
    && (forall o, r :: o in live && o !in remaining && r in remaining ==> o < r)
    && (forall r :: r in remaining ==> cursor <= r)
    && Packs(live - remaining, to, cursor)
    && Relocated(live - remaining, to, packed)
    && MovesOf(live - remaining, to, moves)
  }

  lemma RemainingIsLive(live: Live, remaining: set<nat>, to: map<nat, nat>, cursor: nat, packed: Live,
                        moves: seq<CompactionMove>)
    requires PackedSoFar(live, remaining, to, cursor, packed, moves)
    ensures remaining <= live.Keys
  {
  }

  lemma PackingStarts(live: Live)
    ensures PackedSoFar(live, live.Keys, map[], 0, map[], [])
  {
    assert live - live.Keys == map[];
  }

  lemma InsideCapacity(b: Books, o: nat)
    requires b.Valid() && o in b.live
    ensures o + b.live[o].count <= b.capacity < U32
    ensures Apart(b.live) && forall p :: p in b.live ==> b.live[p].count > 0
  {
    assert Held(b.live, o + b.live[o].count - 1);
  }

  lemma PacksMore(done: Live, to: map<nat, nat>, cursor: nat, from: nat, r: AllocationRecord)
    requires Packs(done, to, cursor) && cursor <= from && forall o :: o in done ==> o < from
    ensures Packs(done[from := r], to[from := cursor], cursor + r.count)
  {
    var done', to' := done[from := r], to[from := cursor];
    forall a | 0 <= a < cursor + r.count ensures Filled(done', to', a) {
      if a < cursor {
        assert Filled(done, to, a);
        var o :| o in done && o in to && to[o] <= a < to[o] + done[o].count;
        assert o in done' && to'[o] == to[o];
      } else {
        assert from in done' && to'[from] == cursor;
      }
    }
  }

  lemma PackedBelow(done: Live, to: map<nat, nat>, cursor: nat)
    requires Packs(done, to, cursor) && forall o :: o in done ==> done[o].count > 0
    ensures to.Keys == done.Keys && forall o :: o in done ==> to[o] != cursor
  {
    forall o | o in done ensures to[o] != cursor {
      assert to[o] + done[o].count <= cursor;
    }
  }

  lemma RelocatedMore(done: Live, to: map<nat, nat>, cursor: nat, packed: Live, from: nat, r: AllocationRecord)
    requires to.Keys == done.Keys && Relocated(done, to, packed) && from !in done
    requires forall o :: o in done ==> to[o] != cursor
    ensures Relocated(done[from := r], to[from := cursor], packed[cursor := r])
  {
    var done', to', packed' := done[from := r], to[from := cursor], packed[cursor := r];
    forall o | o in done' ensures to'[o] in packed' && packed'[to'[o]] == done'[o] {
    }
    forall t | t in packed' ensures exists o :: o in done' && to'[o] == t {
      if t == cursor {
        assert to'[from] == t;
      } else {
        var o := SourceOf(done, to, packed, t);
        assert to'[o] == t;
      }
    }
  }

  lemma MovesMore(done: Live, to: map<nat, nat>, cursor: nat, moves: seq<CompactionMove>, from: nat,
                  r: AllocationRecord)
    requires MovesOf(done, to, moves) && forall o :: o in done ==> o < from
    ensures MovesOf(done[from := r], to[from := cursor],
                    if from != cursor then moves + [CompactionMove(from, cursor, r.count, r.generation)] else moves)
  {
    var done', to' := done[from := r], to[from := cursor];
    var moves' := if from != cursor then moves + [CompactionMove(from, cursor, r.count, r.generation)] else moves;
    forall i | 0 <= i < |moves'| ensures IsMove(done', to', moves'[i]) {
      if i < |moves| { assert IsMove(done, to, moves[i]); }
    }
    forall o | o in done' && to'[o] != o ensures exists i :: 0 <= i < |moves'| && moves'[i].from == o {
      if o == from {
        assert moves'[|moves|].from == o;
      } else {
        var i :| 0 <= i < |moves| && moves[i].from == o;
        assert moves'[i].from == o;
      }
    }
  }

  lemma PackingGrows(live: Live, remaining: set<nat>, to: map<nat, nat>, cursor: nat, packed: Live,
                     moves: seq<CompactionMove>, from: nat)
    requires Apart(live) && (forall o :: o in live ==> live[o].count > 0)
    requires PackedSoFar(live, remaining, to, cursor, packed, moves)
    requires from in remaining && forall r :: r in remaining ==> from <= r
    ensures cursor <= from && from in live
    ensures PackedSoFar(live, remaining - {from}, to[from := cursor], cursor + live[from].count,
                        packed[cursor := live[from]],
                        if from == cursor then moves
                        else moves + [CompactionMove(from, cursor, live[from].count, live[from].generation)])
  {
    var done := live - remaining;
    hide Packs, Relocated, MovesOf;
    PackedBelow(done, to, cursor);
    PacksMore(done, to, cursor, from, live[from]);
    RelocatedMore(done, to, cursor, packed, from, live[from]);
    MovesMore(done, to, cursor, moves, from, live[from]);
    assert live - (remaining - {from}) == done[from := live[from]];
  }

  lemma PackingEnds(live: Live, to: map<nat, nat>, cursor: nat, packed: Live, moves: seq<CompactionMove>)
    requires PackedSoFar(live, {}, to, cursor, packed, moves)
    ensures Packs(live, to, cursor) && Relocated(live, to, packed) && MovesOf(live, to, moves)
  {
    hide Packs, Relocated, MovesOf;
    assert live - {} == live;
  }
}
