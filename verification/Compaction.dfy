/** Compaction: where each live allocation goes, the moves that take its contents there, and what
    happens to tokens. */
module Compaction {
  import opened Integers
  import opened FreeBlocks
  import opened Allocation

  datatype CompactionMove = CompactionMove(from: nat, to: nat, count: nat, generation: nat)

  /** `to` packs the allocations against address 0, in order, into [0, total). */
  ghost predicate Packs(live: Live, to: map<nat, nat>, total: nat) {
    && to.Keys == live.Keys
    && (forall o :: o in live ==> to[o] <= o && to[o] + live[o].count <= total)
    && (forall o, p :: o in live && p in live && o < p ==> to[o] + live[o].count <= to[p])
    && (forall a :: 0 <= a < total ==> Filled(live, to, a))
  }

  ghost predicate Filled(live: Live, to: map<nat, nat>, a: int) {
    exists o :: o in live && o in to && to[o] <= a < to[o] + live[o].count
  }

  /** The records after the move. */
  ghost predicate Relocated(live: Live, to: map<nat, nat>, live': Live) {
    && to.Keys == live.Keys
    && (forall o :: o in live ==> to[o] in live' && live'[to[o]] == live[o])
    && (forall t :: t in live' ==> exists o :: o in live && to[o] == t)
  }

  /** Exactly the allocations that change place are moved, in ascending order. */
  ghost predicate MovesOf(live: Live, to: map<nat, nat>, moves: seq<CompactionMove>) {
    && to.Keys == live.Keys
    && (forall i, j :: 0 <= i < j < |moves| ==> moves[i].from < moves[j].from)
    && (forall i :: 0 <= i < |moves| ==> IsMove(live, to, moves[i]))
    && (forall o :: o in live && to[o] != o ==> exists i :: 0 <= i < |moves| && moves[i].from == o)
  }

  ghost predicate IsMove(live: Live, to: map<nat, nat>, m: CompactionMove) {
    && m.from in live && m.from in to && to[m.from] != m.from
    && m == CompactionMove(m.from, to[m.from], live[m.from].count, live[m.from].generation)
  }

  /** No destination covers a source that is still to be moved. */
  lemma DestinationsAreClear(live: Live, to: map<nat, nat>, total: nat, moves: seq<CompactionMove>, i: nat, j: nat)
    requires Packs(live, to, total) && MovesOf(live, to, moves) && i < j < |moves|
    ensures moves[i].to + moves[i].count <= moves[j].from
  {
    assert IsMove(live, to, moves[i]) && IsMove(live, to, moves[j]);
  }

  // ----- Contents -----

  /** One move: the source is read, then the destination written. */
  function Copied<T>(buffer: seq<T>, m: CompactionMove): seq<T> {
    if m.from + m.count <= |buffer| && m.to + m.count <= |buffer|
    then buffer[..m.to] + buffer[m.from..m.from + m.count] + buffer[m.to + m.count..]
    else buffer
  }

  /** The moves, applied in order. */
  function AllCopied<T>(buffer: seq<T>, moves: seq<CompactionMove>): seq<T>
    decreases |moves|
  {
    if moves == [] then buffer else Copied(AllCopied(buffer, moves[..|moves| - 1]), moves[|moves| - 1])
  }

  /** Where the contents of the allocation at `o` are once the moves in `done` were applied. */
  ghost function Place(to: map<nat, nat>, done: seq<CompactionMove>, o: nat): nat
    requires o in to
  {
    if exists i :: 0 <= i < |done| && done[i].from == o then to[o] else o
  }

  lemma CopyKeeps<T>(buffer: seq<T>, m: CompactionMove, a: nat)
    requires m.from + m.count <= |buffer| && m.to <= m.from && a < |buffer|
    ensures |Copied(buffer, m)| == |buffer|
    ensures Copied(buffer, m)[a]
         == if m.to <= a < m.to + m.count then buffer[m.from + a - m.to] else buffer[a]
  {
  }

  ghost predicate Within(live: Live, size: nat) {
    forall p :: p in live ==> p + live[p].count <= size
  }

  lemma NothingMoved(to: map<nat, nat>, moves: seq<CompactionMove>, o: nat)
    requires moves == [] && o in to
    ensures Place(to, moves, o) == o
  {
  }

  lemma PlaceStays(to: map<nat, nat>, moves: seq<CompactionMove>, n: nat, o: nat)
    requires 0 < n <= |moves| && o in to
    ensures Place(to, moves[..n], o) == if moves[n - 1].from == o then to[o] else Place(to, moves[..n - 1], o)
  {
    var done := moves[..n - 1];
    assert moves[..n] == done + [moves[n - 1]];
    if moves[n - 1].from == o {
      assert moves[..n][n - 1].from == o;
    } else if i :| 0 <= i < |done| && done[i].from == o {
      assert moves[..n][i].from == o;
    }
  }

  lemma PendingIsUnmoved(live: Live, to: map<nat, nat>, total: nat, moves: seq<CompactionMove>, n: nat)
    requires Packs(live, to, total) && MovesOf(live, to, moves) && 0 < n <= |moves|
    ensures var m := moves[n - 1];
            m.from in live && m.from in to && Place(to, moves[..n - 1], m.from) == m.from
            && m.to == to[m.from] <= m.from && m.count == live[m.from].count
  {
    assert IsMove(live, to, moves[n - 1]);
    var done := moves[..n - 1];
    assert forall i :: 0 <= i < |done| ==> done[i].from < moves[n - 1].from;
  }

  /** After any prefix of the moves every allocation is intact where it is by then. */
  lemma {:induction false} PrefixPreserves<T>(live: Live, to: map<nat, nat>, total: nat, moves: seq<CompactionMove>,
                                              buffer: seq<T>, n: nat, o: nat, k: nat)
    requires Packs(live, to, total) && MovesOf(live, to, moves) && n <= |moves|
    requires Apart(live) && Within(live, |buffer|) && to.Keys == live.Keys
    requires o in live && k < live[o].count
    ensures |AllCopied(buffer, moves[..n])| == |buffer| && Place(to, moves[..n], o) <= o
    ensures AllCopied(buffer, moves[..n])[Place(to, moves[..n], o) + k] == buffer[o + k]
    decreases n
  {
    hide Packs, MovesOf, Place, Copied;
    if n == 0 {
      NothingMoved(to, moves[..0], o);
    } else {
      var m := moves[n - 1];
      assert moves[..n][..n - 1] == moves[..n - 1];
      PrefixPreserves(live, to, total, moves, buffer, n - 1, o, k);
      PendingIsUnmoved(live, to, total, moves, n);
      PlaceStays(to, moves, n, o);
      if m.from != o { PlaceIsClear(live, to, total, moves, n, o); }
      CopyKeeps(AllCopied(buffer, moves[..n - 1]), m, Place(to, moves[..n], o) + k);
    }
  }

  lemma PlaceIsClear(live: Live, to: map<nat, nat>, total: nat, moves: seq<CompactionMove>, n: nat, o: nat)
    requires Packs(live, to, total) && MovesOf(live, to, moves) && 0 < n <= |moves|
    requires o in live && o != moves[n - 1].from
    requires Apart(live)
    ensures var (m, place) := (moves[n - 1], Place(to, moves[..n - 1], o));
            place + live[o].count <= m.to || m.to + m.count <= place
  {
    var m := moves[n - 1];
    assert IsMove(live, to, m);
    if o < m.from {
      assert to[o] + live[o].count <= to[m.from];
      PlacedBefore(live, to, moves, n, o);
    } else {
      assert to[m.from] + live[m.from].count <= to[o] <= o;
    }
  }

  /** What lies before the next move's source has been moved already, if it moves at all. */
  lemma PlacedBefore(live: Live, to: map<nat, nat>, moves: seq<CompactionMove>, n: nat, o: nat)
    requires MovesOf(live, to, moves) && 0 < n <= |moves| && o in live && o < moves[n - 1].from
    ensures Place(to, moves[..n - 1], o) == to[o]
  {
    if to[o] != o {
      var i :| 0 <= i < |moves| && moves[i].from == o;
      assert forall j :: n - 1 <= j < |moves| ==> moves[n - 1].from <= moves[j].from;
      assert moves[..n - 1][i].from == o;
    }
  }

  lemma AllPlaced(live: Live, to: map<nat, nat>, moves: seq<CompactionMove>, o: nat)
    requires MovesOf(live, to, moves) && o in live
    ensures Place(to, moves, o) == to[o]
  {
  }

  /** Applying the returned moves in order leaves the contents of every live allocation intact at
      its new offset. */
  lemma MovesPreserveContents<T>(live: Live, to: map<nat, nat>, total: nat, moves: seq<CompactionMove>,
                                 buffer: seq<T>, o: nat, k: nat)
    requires Packs(live, to, total) && MovesOf(live, to, moves)
    requires Apart(live)
    requires Within(live, |buffer|)
    requires o in live && k < live[o].count
    ensures to[o] + k < |AllCopied(buffer, moves)| == |buffer|
    ensures AllCopied(buffer, moves)[to[o] + k] == buffer[o + k]
  {
    hide MovesOf, Place, Copied, AllCopied, Apart;
    assert moves[..|moves|] == moves;
    PrefixPreserves(live, to, total, moves, buffer, |moves|, o, k);
    AllPlaced(live, to, moves, o);
  }

  // ----- Books -----

  /** The free list after compaction: everything behind the packed allocations. */
  function Behind(cursor: nat, capacity: nat): seq<FreeListBlock>
    requires cursor <= capacity
  {
    if cursor < capacity then [FreeListBlock(cursor, capacity - cursor)] else []
  }

  lemma SourceOf(live: Live, to: map<nat, nat>, live': Live, t: nat) returns (o: nat)
    requires Relocated(live, to, live') && t in live'
    ensures o in live && to[o] == t && live'[t] == live[o]
  {
    o :| o in live && to[o] == t;
  }

  lemma PackedHolds(live: Live, to: map<nat, nat>, total: nat, live': Live, a: int)
    requires Packs(live, to, total) && Relocated(live, to, live')
    ensures Held(live', a) <==> 0 <= a < total
  {
    if 0 <= a < total {
      assert Filled(live, to, a);
      var o :| o in live && o in to && to[o] <= a < to[o] + live[o].count;
      assert to[o] in live';
    }
    if Held(live', a) {
      var t :| t in live' && t <= a < t + live'[t].count;
      var o := SourceOf(live, to, live', t);
    }
  }

  lemma PackedApart(live: Live, to: map<nat, nat>, total: nat, live': Live, s: nat, t: nat)
    requires Packs(live, to, total) && Relocated(live, to, live') && forall o :: o in live ==> live[o].count > 0
    requires s in live' && t in live'
    ensures live'[t].count > 0 && (s < t ==> s + live'[s].count <= t)
  {
    var o := SourceOf(live, to, live', s);
    var p := SourceOf(live, to, live', t);
    hide Relocated;
    if p < o { assert to[p] + live[p].count <= to[o]; }
  }

  lemma PackedFresh(live: Live, to: map<nat, nat>, live': Live, next: nat)
    requires Fresh(live, next) && Relocated(live, to, live')
    ensures Fresh(live', next)
  {
    forall t | t in live' ensures 1 <= live'[t].generation < next {
      var o := SourceOf(live, to, live', t);
    }
    forall s, t | s in live' && t in live' && s != t ensures live'[s].generation != live'[t].generation {
      var o := SourceOf(live, to, live', s);
      var p := SourceOf(live, to, live', t);
      assert o != p;
    }
  }

  lemma PackedTiles(b: Books, to: map<nat, nat>, total: nat, live': Live)
    requires b.Valid() && Packs(b.live, to, total) && Relocated(b.live, to, live') && total <= b.capacity
    ensures Tiles(b.capacity, Behind(total, b.capacity), live') && Fresh(live', b.next)
  {
    hide Packs, Relocated, Fresh;
    forall s, t | s in live' && t in live' ensures live'[t].count > 0 && (s < t ==> s + live'[s].count <= t) {
      PackedApart(b.live, to, total, live', s, t);
    }
    PackedFresh(b.live, to, live', b.next);
    forall a ensures Held(live', a) <==> 0 <= a < total
      ensures Covers(Behind(total, b.capacity), a) <==> total <= a < b.capacity
    {
      PackedHolds(b.live, to, total, live', a);
      if total <= a < b.capacity { assert Behind(total, b.capacity)[0].Holds(a); }
    }
  }

  /** `free_units`: the sizes of the free blocks added up. */
  function Units(free: seq<FreeListBlock>): nat {
    if free == [] then 0 else free[0].count + Units(free[1..])
  }

  predicate Between(low: int, a: int, high: int) {
    low <= a < high
  }

  ghost function Interval(low: int, high: int): set<int> {
    set a | low <= a < high && Between(low, a, high)
  }

  lemma {:induction false} IntervalSize(low: int, high: int)
    requires low <= high
    ensures |Interval(low, high)| == high - low
    decreases high - low
  {
    if low < high {
      IntervalSize(low, high - 1);
      assert Interval(low, high) == Interval(low, high - 1) + {high - 1};
    }
  }

  ghost function CoveredBelow(free: seq<FreeListBlock>, capacity: nat): set<int> {
    set a | 0 <= a < capacity && Covers(free, a)
  }

  ghost function HeldBelow(live: Live, capacity: nat): set<int> {
    set a | 0 <= a < capacity && Held(live, a)
  }

  /** The free units count the covered addresses. */
  lemma {:induction false} UnitsCountAddresses(free: seq<FreeListBlock>, capacity: nat)
    requires Coalesced(free) && forall i :: 0 <= i < |free| ==> free[i].End() <= capacity
    ensures Units(free) == |CoveredBelow(free, capacity)|
  {
    if free != [] {
      TailCovers(free, 0);
      UnitsCountAddresses(free[1..], capacity);
      var first := Interval(free[0].offset, free[0].End());
      forall a ensures a in CoveredBelow(free, capacity) <==> a in first + CoveredBelow(free[1..], capacity)
        ensures !(a in first && a in CoveredBelow(free[1..], capacity))
      {
        TailCovers(free, a);
      }
      assert CoveredBelow(free, capacity) == first + CoveredBelow(free[1..], capacity);
      IntervalSize(free[0].offset, free[0].End());
    }
  }

  /** The packed total counts the held addresses. */
  lemma {:induction false} TotalCountsAddresses(live: Live, to: map<nat, nat>, total: nat, capacity: nat)
    requires Packs(live, to, total) && Apart(live) && Within(live, capacity)
    requires forall o :: o in live ==> live[o].count > 0
    ensures total == |HeldBelow(live, capacity)|
    decreases |live|
  {
    if live == map[] {
      assert HeldBelow(live, capacity) == {};
      assert !Filled(live, to, 0);
    } else {
      var o := Highest(live.Keys);
      PacksLess(live, to, total, o);
      TotalCountsAddresses(live - {o}, to - {o}, to[o], capacity);
      HeldLess(live, o, capacity);
    }
  }

  lemma HeldLess(live: Live, o: nat, capacity: nat)
    requires o in live && Apart(live) && Within(live, capacity)
    ensures |HeldBelow(live, capacity)| == live[o].count + |HeldBelow(live - {o}, capacity)|
  {
    hide HeldBelow, Interval, Apart, Within, Held;
    var last, rest := Interval(o, o + live[o].count), HeldBelow(live - {o}, capacity);
    forall a ensures a in HeldBelow(live, capacity) <==> a in last || a in rest
      ensures !(a in last && a in rest)
    {
      HeldOrLast(live, o, capacity, a);
    }
    assert HeldBelow(live, capacity) == last + rest;
    IntervalSize(o, o + live[o].count);
  }

  lemma HeldOrLast(live: Live, o: nat, capacity: nat, a: int)
    requires o in live && Apart(live) && Within(live, capacity)
    ensures a in HeldBelow(live, capacity)
       <==> a in Interval(o, o + live[o].count) || a in HeldBelow(live - {o}, capacity)
    ensures !(a in Interval(o, o + live[o].count) && a in HeldBelow(live - {o}, capacity))
  {
    HeldWithout(live, o, a);
    if o <= a < o + live[o].count { assert Held(live, a); }
  }

  lemma {:induction false} Highest(s: set<nat>) returns (m: nat)
    requires s != {}
    ensures m in s && forall x :: x in s ==> x <= m
    decreases |s|
  {
    var first :| first in s;
    m := first;
    if s != {first} {
      assert forall x :: x in s ==> x == first || x in s - {first};
      var n := Highest(s - {first});
      if n > m { m := n; }
    }
  }

  lemma PacksLess(live: Live, to: map<nat, nat>, total: nat, o: nat)
    requires Packs(live, to, total) && o in live && (forall p :: p in live ==> p <= o && live[p].count > 0)
    ensures Packs(live - {o}, to - {o}, to[o]) && total == to[o] + live[o].count
  {
    LastEndsIt(live, to, total, o);
    forall a | 0 <= a < to[o] ensures Filled(live - {o}, to - {o}, a) {
      FilledWithout(live, to, total, o, a);
    }
    hide Filled;
    assert forall p :: p in live - {o} <==> p in live && p != o;
    assert forall p :: p in live - {o} ==> (live - {o})[p] == live[p] && (to - {o})[p] == to[p];
  }

  lemma LastEndsIt(live: Live, to: map<nat, nat>, total: nat, o: nat)
    requires Packs(live, to, total) && o in live && (forall p :: p in live ==> p <= o)
    ensures total == to[o] + live[o].count
  {
    forall p | p in live ensures to[p] + live[p].count <= to[o] + live[o].count {
    }
    assert !Filled(live, to, to[o] + live[o].count);
  }

  lemma FilledWithout(live: Live, to: map<nat, nat>, total: nat, o: nat, a: nat)
    requires Packs(live, to, total) && o in live && a < to[o] <= total
    ensures Filled(live - {o}, to - {o}, a)
  {
    assert Filled(live, to, a);
    var p :| p in live && p in to && to[p] <= a < to[p] + live[p].count;
    assert p != o && p in live - {o} && p in to - {o};
  }

  lemma EverythingIsInside(b: Books)
    requires b.Valid()
    ensures Within(b.live, b.capacity) && forall i :: 0 <= i < |b.free| ==> b.free[i].End() <= b.capacity
  {
    forall i | 0 <= i < |b.free| ensures b.free[i].End() <= b.capacity {
      BlockIsInside(b.capacity, b.free, b.live, i);
    }
    forall o | o in b.live ensures o + b.live[o].count <= b.capacity {
      assert Held(b.live, o + b.live[o].count - 1);
    }
  }

  /** Compaction conserves the free units. */
  lemma CompactionConservesUnits(b: Books, to: map<nat, nat>, total: nat)
    requires b.Valid() && Packs(b.live, to, total) && total <= b.capacity
    ensures Units(Behind(total, b.capacity)) == Units(b.free) == b.capacity - total
  {
    FreeAndHeldMakeCapacity(b);
    EverythingIsInside(b);
    TotalCountsAddresses(b.live, to, total, b.capacity);
  }

  /** `checked_free_units`: the sizes added up with every overflow checked. */
  function CheckedFreeUnits(free: seq<FreeListBlock>, capacity: nat, total: nat): Result<nat>
    decreases |free|
  {
    if free == [] then Ok(total)
    else if free[0].End() >= U32 || free[0].End() > capacity || total + free[0].count >= U32 then
      Err(ArithmeticOverflow)
    else CheckedFreeUnits(free[1..], capacity, total + free[0].count)
  }

  lemma {:induction false} CheckedIsUnits(free: seq<FreeListBlock>, capacity: nat, total: nat)
    requires (forall i :: 0 <= i < |free| ==> free[i].End() <= capacity) && capacity < U32
    requires total + Units(free) < U32
    ensures CheckedFreeUnits(free, capacity, total) == Ok(total + Units(free))
  {
    if free != [] { CheckedIsUnits(free[1..], capacity, total + free[0].count); }
  }

  lemma FreeAndHeldMakeCapacity(b: Books)
    requires b.Valid()
    ensures Units(b.free) == b.capacity - |HeldBelow(b.live, b.capacity)|
  {
    EverythingIsInside(b);
    UnitsCountAddresses(b.free, b.capacity);
    IntervalSize(0, b.capacity);
    assert Interval(0, b.capacity) == CoveredBelow(b.free, b.capacity) + HeldBelow(b.live, b.capacity);
    assert CoveredBelow(b.free, b.capacity) !! HeldBelow(b.live, b.capacity);
  }

  /** The counters never overflow: free units are the capacity less the addresses held. */
  lemma CountersAreConsistent(b: Books)
    requires b.Valid()
    ensures CheckedFreeUnits(b.free, b.capacity, 0) == Ok(b.capacity - |HeldBelow(b.live, b.capacity)|)
  {
    FreeAndHeldMakeCapacity(b);
    EverythingIsInside(b);
    hide HeldBelow, Tiles, Fresh;
    CheckedIsUnits(b.free, b.capacity, 0);
  }

  // ----- Tokens -----

  /** A holder of a token applies the move that starts at its offset and carries its generation. */
  function Rebased(t: AllocationToken, moves: seq<CompactionMove>): AllocationToken {
    if moves == [] then t
    else if moves[0].from == t.offset && moves[0].generation == t.generation then t.(offset := moves[0].to)
    else Rebased(t, moves[1..])
  }

  lemma {:induction false} RebasedBy(t: AllocationToken, moves: seq<CompactionMove>, i: nat)
    requires i < |moves| && moves[i].from == t.offset && moves[i].generation == t.generation
    requires forall j :: 0 <= j < i ==> moves[j].from != t.offset
    ensures Rebased(t, moves) == t.(offset := moves[i].to)
    decreases i
  {
    if i > 0 { RebasedBy(t, moves[1..], i - 1); }
  }

  lemma {:induction false} RebasedStays(t: AllocationToken, moves: seq<CompactionMove>)
    requires forall i :: 0 <= i < |moves| ==> !(moves[i].from == t.offset && moves[i].generation == t.generation)
    ensures Rebased(t, moves) == t
  {
    if moves != [] {
      assert !(moves[0].from == t.offset && moves[0].generation == t.generation);
      RebasedStays(t, moves[1..]);
    }
  }

  /** Rebasing keeps exactly the valid tokens valid, for every token that is not below its
      allocation; an issued token never is, since allocations only move down. */
  lemma RebasingKeepsValidity(b: Books, b': Books, to: map<nat, nat>, total: nat, moves: seq<CompactionMove>,
                              t: AllocationToken)
    requires b.Valid() && Packs(b.live, to, total) && Relocated(b.live, to, b'.live) && MovesOf(b.live, to, moves)
    requires forall o :: o in b.live && b.live[o].generation == t.generation ==> o <= t.offset
    ensures b.Validates(t) <==> b'.Validates(Rebased(t, moves))
  {
    if t.offset in b.live && b.live[t.offset].generation == t.generation && to[t.offset] != t.offset {
      var i :| 0 <= i < |moves| && moves[i].from == t.offset;
      assert IsMove(b.live, to, moves[i]);
      RebasedBy(t, moves, i);
    } else {
      forall i | 0 <= i < |moves| ensures !(moves[i].from == t.offset && moves[i].generation == t.generation) {
        assert IsMove(b.live, to, moves[i]);
      }
      RebasedStays(t, moves);
      if b'.Validates(t) {
        var o :| o in b.live && to[o] == t.offset;
        assert o == t.offset;
      }
    }
  }
}
