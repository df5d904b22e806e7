/** The books of the suballocator: the live allocations, the free list they determine, and what
    each operation does to them. */
module Allocation {
  import opened Integers
  import opened FreeBlocks

  datatype AllocationRecord = AllocationRecord(count: nat, generation: nat, owner: nat)

  datatype AllocationToken = AllocationToken(offset: nat, count: nat, generation: nat, owner: nat)

  datatype FreeListError =
    | ZeroSizedAllocation | OutOfBounds | Overlap | UnknownAllocation | StaleGeneration | WrongOwner
    | ArithmeticOverflow

  datatype Result<+T> = Ok(value: T) | Err(error: FreeListError)

  type Live = map<nat, AllocationRecord>

  ghost predicate Held(live: Live, a: int) {
    exists o :: o in live && o <= a < o + live[o].count
  }

  /** No allocation reaches into the next. */
  ghost predicate Apart(live: Live) {
    forall o, p :: o in live && p in live && o < p ==> o + live[o].count <= p
  }

  /** Free blocks and live allocations cover [0, capacity) and nothing twice. */
  ghost predicate Tiles(capacity: nat, free: seq<FreeListBlock>, live: Live) {
    && Coalesced(free)
    && (forall o :: o in live ==> live[o].count > 0)
    && Apart(live)
    && (forall a :: 0 <= a < capacity <==> Covers(free, a) || Held(live, a))
    && (forall a :: !(Covers(free, a) && Held(live, a)))
  }

  /** Live generations are distinct and were all handed out. */
  ghost predicate Fresh(live: Live, next: nat) {
    && (forall o :: o in live ==> 1 <= live[o].generation < next)
    && (forall o, p :: o in live && p in live && o != p ==> live[o].generation != live[p].generation)
  }

  datatype Books = Books(capacity: nat, free: seq<FreeListBlock>, live: Live, next: nat) {
    ghost predicate Valid() {
      capacity < U32 && 1 <= next < U64 && Tiles(capacity, free, live) && Fresh(live, next)
    }

    /** `validate_owned`: the record at the token's offset is the one the token was issued for. */
    predicate Validates(t: AllocationToken) {
      t.offset in live && live[t.offset] == AllocationRecord(t.count, t.generation, t.owner)
    }
  }

  /** The free list is a function of the live allocations: no history shows in it. */
  lemma FreeIsDetermined(capacity: nat, live: Live, free: seq<FreeListBlock>, free': seq<FreeListBlock>)
    requires Tiles(capacity, free, live) && Tiles(capacity, free', live)
    ensures free == free'
  {
    CoalescedIsCanonical(free, free');
  }

  lemma HeldAfter(live: Live, o: nat, r: AllocationRecord, a: int)
    requires o !in live
    ensures Held(live[o := r], a) <==> Held(live, a) || o <= a < o + r.count
  {
    if Held(live, a) {
      var p :| p in live && p <= a < p + live[p].count;
      assert p in live[o := r] && live[o := r][p] == live[p];
    }
    if o <= a < o + r.count { assert o in live[o := r]; }
  }

  lemma HeldWithout(live: Live, o: nat, a: int)
    requires o in live && Apart(live)
    ensures Held(live - {o}, a) <==> Held(live, a) && !(o <= a < o + live[o].count)
  {
    if Held(live, a) && !(o <= a < o + live[o].count) {
      var p :| p in live && p <= a < p + live[p].count;
      assert p in live - {o};
    }
  }

  // ----- Allocation -----

  /** The block at `i` with `count` units taken from its start; gone when nothing is left. */
  function Taken(free: seq<FreeListBlock>, i: nat, count: nat): seq<FreeListBlock>
    requires i < |free| && count <= free[i].count
  {
    if free[i].count == count then free[..i] + free[i + 1..]
    else free[i := FreeListBlock(free[i].offset + count, free[i].count - count)]
  }

  lemma WithoutIsCoalesced(free: seq<FreeListBlock>, i: nat)
    requires Coalesced(free) && i < |free|
    ensures Coalesced(free[..i] + free[i + 1..])
  {
    var t := free[..i] + free[i + 1..];
    assert forall j :: 0 <= j < |t| ==> t[j] == free[if j < i then j else j + 1];
  }

  lemma WithoutCovers(free: seq<FreeListBlock>, i: nat, a: int)
    requires Coalesced(free) && i < |free|
    ensures Coalesced(free[..i] + free[i + 1..])
    ensures Covers(free[..i] + free[i + 1..], a) <==> Covers(free, a) && !free[i].Holds(a)
  {
    hide Coalesced, Ordered;
    WithoutIsCoalesced(free, i);
    var t := free[..i] + free[i + 1..];
    if Covers(t, a) {
      var j :| 0 <= j < |t| && t[j].Holds(a);
      var k := if j < i then j else j + 1;
      assert t[j] == free[k] && k != i && free[k].Holds(a);
      HeldOnce(free, i, k, a);
    }
    if Covers(free, a) && !free[i].Holds(a) {
      var j :| 0 <= j < |free| && free[j].Holds(a);
      assert t[if j < i then j else j - 1] == free[j];
    }
  }

  lemma HeldOnce(free: seq<FreeListBlock>, i: nat, k: nat, a: int)
    requires Coalesced(free) && i < |free| && k < |free| && i != k && free[k].Holds(a)
    ensures !free[i].Holds(a)
  {
  }

  lemma ShrunkIsCoalesced(free: seq<FreeListBlock>, i: nat, count: nat)
    requires Coalesced(free) && i < |free| && 0 < count < free[i].count
    ensures Coalesced(free[i := FreeListBlock(free[i].offset + count, free[i].count - count)])
  {
    var t := free[i := FreeListBlock(free[i].offset + count, free[i].count - count)];
    assert forall j :: 0 <= j < |t| ==> t[j].End() == free[j].End() && free[j].offset <= t[j].offset;
  }

  lemma ShrunkCovers(free: seq<FreeListBlock>, i: nat, count: nat, a: int)
    requires Coalesced(free) && i < |free| && 0 < count < free[i].count
    ensures var t := free[i := FreeListBlock(free[i].offset + count, free[i].count - count)];
            && Coalesced(t)
            && (Covers(t, a) <==> Covers(free, a) && !(free[i].offset <= a < free[i].offset + count))
  {
    ShrunkIsCoalesced(free, i, count);
    var t := free[i := FreeListBlock(free[i].offset + count, free[i].count - count)];
    if Covers(free, a) && !(free[i].offset <= a < free[i].offset + count) {
      var j :| 0 <= j < |free| && free[j].Holds(a);
      assert t[j].Holds(a);
    }
    if Covers(t, a) {
      var j :| 0 <= j < |t| && t[j].Holds(a);
      assert free[j].Holds(a);
    }
  }

  lemma TakenCovers(free: seq<FreeListBlock>, i: nat, count: nat, a: int)
    requires Coalesced(free) && i < |free| && 0 < count <= free[i].count
    ensures Coalesced(Taken(free, i, count))
    ensures Covers(Taken(free, i, count), a)
       <==> Covers(free, a) && !(free[i].offset <= a < free[i].offset + count)
  {
    if free[i].count == count { WithoutCovers(free, i, a); } else { ShrunkCovers(free, i, count, a); }
  }

  lemma BlockIsInside(capacity: nat, free: seq<FreeListBlock>, live: Live, i: nat)
    requires Tiles(capacity, free, live) && i < |free|
    ensures free[i].End() <= capacity && free[i].offset !in live
    ensures forall o :: o in live ==> o + live[o].count <= free[i].offset || free[i].End() <= o
  {
    var last := free[i].End() - 1;
    assert free[i].Holds(last) && Covers(free, last);
    forall o | o in live ensures o + live[o].count <= free[i].offset || free[i].End() <= o {
      if o < free[i].End() && free[i].offset < o + live[o].count {
        var a := if o < free[i].offset then free[i].offset else o;
        assert free[i].Holds(a) && Covers(free, a);
        assert Held(live, a);
        assert false;
      }
    }
  }

  lemma BlockCovers(free: seq<FreeListBlock>, i: nat, a: int)
    requires i < |free| && free[i].Holds(a)
    ensures Covers(free, a)
  {
  }

  lemma AllocateTiles(capacity: nat, free: seq<FreeListBlock>, live: Live, i: nat, r: AllocationRecord)
    requires Tiles(capacity, free, live) && i < |free| && 0 < r.count <= free[i].count
    ensures Tiles(capacity, Taken(free, i, r.count), live[free[i].offset := r])
  {
    hide Covers, Held, Coalesced, Taken, Apart;
    BlockIsInside(capacity, free, live, i);
    forall a
      ensures Covers(Taken(free, i, r.count), a)
         <==> Covers(free, a) && !(free[i].offset <= a < free[i].offset + r.count)
      ensures Held(live[free[i].offset := r], a) <==> Held(live, a) || free[i].offset <= a < free[i].offset + r.count
      ensures free[i].offset <= a < free[i].offset + r.count ==> Covers(free, a)
    {
      TakenCovers(free, i, r.count, a);
      HeldAfter(live, free[i].offset, r, a);
      if free[i].offset <= a < free[i].offset + r.count { BlockCovers(free, i, a); }
    }
    TakenCovers(free, i, r.count, 0);
    TakenIsDisjoint(capacity, free, live, i, r);
  }

  lemma TakenIsDisjoint(capacity: nat, free: seq<FreeListBlock>, live: Live, i: nat, r: AllocationRecord)
    requires Tiles(capacity, free, live) && i < |free| && 0 < r.count <= free[i].count
    ensures Apart(live[free[i].offset := r])
  {
    BlockIsInside(capacity, free, live, i);
  }

  // ----- Release -----

  /** The checks that `deallocate_record` makes before it changes anything. */
  function ReleaseCheck(capacity: nat, free: seq<FreeListBlock>, offset: nat, count: nat): (r: Result<nat>) {
    var i := InsertionPoint(free, offset);
    if offset + count >= U32 then Err(ArithmeticOverflow)
    else if offset + count > capacity then Err(OutOfBounds)
    else if i > 0 && free[i - 1].End() >= U32 then Err(ArithmeticOverflow)
    else if i > 0 && free[i - 1].End() > offset then Err(Overlap)
    else if i < |free| && offset + count > free[i].offset then Err(Overlap)
    else Ok(i)
  }

  /** None of them fails for a live allocation. */
  lemma ReleaseCheckPasses(b: Books, o: nat)
    requires b.Valid() && o in b.live
    ensures ReleaseCheck(b.capacity, b.free, o, b.live[o].count) == Ok(InsertionPoint(b.free, o))
  {
    var i := InsertionPoint(b.free, o);
    assert Held(b.live, o + b.live[o].count - 1);
    if i > 0 { BlockIsInside(b.capacity, b.free, b.live, i - 1); }
    if i < |b.free| { BlockIsInside(b.capacity, b.free, b.live, i); }
  }

  /** What passes the checks can be inserted in order. */
  lemma ReleaseStaysOrdered(capacity: nat, free: seq<FreeListBlock>, offset: nat, count: nat)
    requires Coalesced(free) && count > 0 && ReleaseCheck(capacity, free, offset, count).Ok?
    ensures var i := InsertionPoint(free, offset);
            Ordered(free[..i] + [FreeListBlock(offset, count)] + free[i..])
  {
    var i := InsertionPoint(free, offset);
    forall j | 0 <= j < i ensures free[j].End() <= offset {
      if j < i - 1 { assert free[j].End() <= free[i - 1].offset; }
    }
    forall j | i <= j < |free| ensures offset + count <= free[j].offset {
      if i < j { assert free[i].End() <= free[j].offset; }
    }
    OrderedConcat(free[..i], [FreeListBlock(offset, count)]);
    OrderedConcat(free[..i] + [FreeListBlock(offset, count)], free[i..]);
  }

  lemma OrderedConcat(p: seq<FreeListBlock>, q: seq<FreeListBlock>)
    requires Ordered(p) && Ordered(q)
    requires forall i, j :: 0 <= i < |p| && 0 <= j < |q| ==> p[i].End() <= q[j].offset
    ensures Ordered(p + q)
  {
  }

  lemma ReleaseTiles(b: Books, o: nat, merged: seq<FreeListBlock>)
    requires b.Valid() && o in b.live && Coalesced(merged)
    requires var i := InsertionPoint(b.free, o);
             SameAddresses(merged, b.free[..i] + [FreeListBlock(o, b.live[o].count)] + b.free[i..])
    ensures Tiles(b.capacity, merged, b.live - {o}) && Fresh(b.live - {o}, b.next)
  {
    var r := FreeListBlock(o, b.live[o].count);
    forall a ensures Covers(merged, a) <==> Covers(b.free, a) || r.Holds(a)
      ensures Held(b.live - {o}, a) <==> Held(b.live, a) && !r.Holds(a)
      ensures r.Holds(a) ==> Held(b.live, a)
    {
      Inserted(b.free, InsertionPoint(b.free, o), r, a);
      HeldWithout(b.live, o, a);
    }
  }

  /** Appending free space behind the capacity. */
  lemma GrowTiles(b: Books, capacity: nat, merged: seq<FreeListBlock>)
    requires b.Valid() && b.capacity < capacity && Coalesced(merged)
    requires SameAddresses(merged, b.free + [FreeListBlock(b.capacity, capacity - b.capacity)])
    ensures Tiles(capacity, merged, b.live)
  {
    var r := FreeListBlock(b.capacity, capacity - b.capacity);
    forall a ensures Covers(merged, a) <==> Covers(b.free, a) || r.Holds(a) {
      Inserted(b.free, |b.free|, r, a);
      assert b.free[..|b.free|] + [r] + b.free[|b.free|..] == b.free + [r];
    }
  }
}
