/** What holds over every run of the suballocator: token freshness, and free lists that show
    nothing of the order in which things happened. */
module AllocatorRuns {
  import opened Integers
  import opened FreeBlocks
  import opened Allocation
  import opened Compaction
  import opened FreeLists

  datatype Op =
    | Allocate(count: nat, owner: nat)
    | Free(token: AllocationToken)
    | FreeRange(offset: nat, count: nat)
    | Grow(capacity: nat)
    | Compact

  /** One operation, as the methods of `FreeList` specify it. */
  ghost predicate Does(op: Op, b: Books, b': Books) {
    && b.Valid() && b'.Valid()
    && match op
       case Allocate(count, owner) => exists r :: Allocated(b, count, owner, r, b')
       case Free(token) => Released(b, token, Validation(b.live, token), b')
       case FreeRange(offset, count) => RangeReleased(b, offset, count, RangeValidation(b, offset, count), b')
       case Grow(capacity) => Resized(b, capacity, b')
       case Compact => exists to, total, moves :: Compacted(b, to, total, moves, b')
  }

  ghost predicate IsRun(ops: seq<Op>, states: seq<Books>) {
    |states| == |ops| + 1 && forall i :: 0 <= i < |ops| ==> Does(ops[i], states[i], states[i + 1])
  }

  ghost predicate HasGeneration(live: Live, g: nat, o: nat) {
    o in live && live[o].generation == g
  }

  /** No operation revives a generation, and none moves an allocation up. */
  lemma GenerationsOnlyLeave(op: Op, b: Books, b': Books, g: nat, o': nat) returns (o: nat)
    requires Does(op, b, b') && g < b.next
    ensures b.next <= b'.next
    ensures HasGeneration(b'.live, g, o') ==> HasGeneration(b.live, g, o) && o' <= o
  {
    o := o';
    if op.Compact? {
      var to, total, moves :| Compacted(b, to, total, moves, b');
      if HasGeneration(b'.live, g, o') {
        o := SourceOf(b.live, to, b'.live, o');
      }
    }
  }

  /** Once no live allocation has a generation that was handed out, none ever has again. */
  lemma {:induction false} GoneStaysGone(ops: seq<Op>, states: seq<Books>, i: nat, j: nat, g: nat)
    requires IsRun(ops, states) && i <= j < |states|
    requires g < states[i].next && forall o :: !HasGeneration(states[i].live, g, o)
    ensures g < states[j].next && forall o :: !HasGeneration(states[j].live, g, o)
    decreases j - i
  {
    hide Does, HasGeneration;
    if i < j {
      GoneStaysGone(ops, states, i, j - 1, g);
      forall o' ensures !HasGeneration(states[j].live, g, o') {
        var o := GenerationsOnlyLeave(ops[j - 1], states[j - 1], states[j], g, o');
      }
      var _ := GenerationsOnlyLeave(ops[j - 1], states[j - 1], states[j], g, 0);
    }
  }

  /** A freed token never validates again, whatever its offset is reused for, and no other token
      with its generation does. */
  lemma FreedNeverReturns(ops: seq<Op>, states: seq<Books>, i: nat, j: nat, t: AllocationToken, t': AllocationToken)
    requires IsRun(ops, states) && i < |ops| && i < j < |states|
    requires ops[i] == Free(t) && states[i].Validates(t) && t'.generation == t.generation
    ensures !states[j].Validates(t')
  {
    var b, b' := states[i], states[i + 1];
    assert Does(ops[i], b, b');
    forall o ensures !HasGeneration(b'.live, t.generation, o) {
      assert o in b.live && o != t.offset ==> b.live[o].generation != b.live[t.offset].generation;
    }
    GoneStaysGone(ops, states, i + 1, j, t.generation);
    assert !HasGeneration(states[j].live, t.generation, t'.offset);
  }

  /** The allocation a token was issued for never lies above the token's offset. This is what
      rebasing needs to keep exactly the valid tokens valid. */
  lemma {:induction false} IssuedIsNeverBelow(ops: seq<Op>, states: seq<Books>, i: nat, j: nat, t: AllocationToken,
                                              o: nat)
    requires IsRun(ops, states) && i <= j < |states| && states[i].Valid() && states[i].Validates(t)
    requires HasGeneration(states[j].live, t.generation, o)
    ensures o <= t.offset
    decreases j - i
  {
    hide Does;
    if i < j {
      NextNeverFalls(ops, states, i, j - 1);
      var was := GenerationsOnlyLeave(ops[j - 1], states[j - 1], states[j], t.generation, o);
      IssuedIsNeverBelow(ops, states, i, j - 1, t, was);
    } else {
      OneHolder(states[i], t, o);
    }
  }

  lemma OneHolder(b: Books, t: AllocationToken, o: nat)
    requires b.Valid() && b.Validates(t) && HasGeneration(b.live, t.generation, o)
    ensures o == t.offset
  {
  }

  lemma {:induction false} NextNeverFalls(ops: seq<Op>, states: seq<Books>, i: nat, j: nat)
    requires IsRun(ops, states) && i <= j < |states|
    ensures states[i].next <= states[j].next
    decreases j - i
  {
    if i < j {
      NextNeverFalls(ops, states, i, j - 1);
      assert Does(ops[j - 1], states[j - 1], states[j]);
      var _ := GenerationsOnlyLeave(ops[j - 1], states[j - 1], states[j], 0, 0);
    }
  }

  /** Allocating and freeing again restores the free list and the live allocations exactly. */
  lemma AllocateThenFree(b: Books, count: nat, owner: nat, t: AllocationToken, b1: Books, b2: Books)
    requires b.Valid() && b2.Valid() && Allocated(b, count, owner, Ok(t), b1) && Does(Free(t), b1, b2)
    ensures b2 == b.(next := b.next + 1)
  {
    hide Tiles, Fresh;
    var i :| FirstFit(b.free, count, i) && t == AllocationToken(b.free[i].offset, count, b.next, owner)
             && b1.live == b.live[b.free[i].offset := AllocationRecord(count, b.next, owner)]
             && b1.capacity == b.capacity && b1.next == b.next + 1;
    BlockIsInside(b.capacity, b.free, b.live, i);
    assert b1.live - {t.offset} == b.live;
    FreeIsDetermined(b.capacity, b.live, b.free, b2.free);
  }

  ghost function Offsets(ops: seq<Op>): set<nat> {
    set i | 0 <= i < |ops| && ops[i].Free? :: ops[i].token.offset
  }

  ghost predicate FreesOnly(ops: seq<Op>, states: seq<Books>) {
    IsRun(ops, states) && forall i :: 0 <= i < |ops| ==> ops[i].Free? && states[i].Validates(ops[i].token)
  }

  lemma {:induction false} FreeingTakes(ops: seq<Op>, states: seq<Books>)
    requires FreesOnly(ops, states) && states[0].Valid()
    ensures states[|ops|].Valid()
    ensures states[|ops|].live == states[0].live - Offsets(ops)
    ensures states[|ops|].capacity == states[0].capacity && states[|ops|].next == states[0].next
    decreases |ops|
  {
    if ops != [] {
      var n := |ops| - 1;
      FreesPrefix(ops, states);
      FreeingTakes(ops[..n], states[..n + 1]);
      assert Does(ops[n], states[n], states[n + 1]);
      assert Offsets(ops) == Offsets(ops[..n]) + {ops[n].token.offset} by {
        assert ops == ops[..n] + [ops[n]];
      }
    }
  }

  lemma FreesPrefix(ops: seq<Op>, states: seq<Books>)
    requires FreesOnly(ops, states) && ops != []
    ensures FreesOnly(ops[..|ops| - 1], states[..|ops|])
  {
    var n := |ops| - 1;
    forall i | 0 <= i < n
      ensures Does(ops[..n][i], states[..n + 1][i], states[..n + 1][i + 1]) && ops[..n][i].Free?
           && states[..n + 1][i].Validates(ops[..n][i].token)
    {
      assert Does(ops[i], states[i], states[i + 1]);
    }
  }

  /** Freeing the same allocations in any two orders ends in identical books. */
  lemma FreeOrderDoesNotShow(ops: seq<Op>, states: seq<Books>, ops': seq<Op>, states': seq<Books>)
    requires FreesOnly(ops, states) && FreesOnly(ops', states') && states[0] == states'[0] && states[0].Valid()
    requires Offsets(ops) == Offsets(ops')
    ensures states[|ops|] == states'[|ops'|]
  {
    FreeingTakes(ops, states);
    FreeingTakes(ops', states');
    FreeIsDetermined(states[0].capacity, states[|ops|].live, states[|ops|].free, states'[|ops'|].free);
  }

  /** After compaction an allocation succeeds exactly when it is not empty, is no larger than the
      free units there were before, and the generation counter is not exhausted. */
  lemma CompactedAllocates(b: Books, to: map<nat, nat>, total: nat, moves: seq<CompactionMove>, b1: Books,
                           count: nat, owner: nat, r: Result<AllocationToken>, b2: Books)
    requires b.Valid() && Compacted(b, to, total, moves, b1) && Allocated(b1, count, owner, r, b2)
    ensures r.Ok? <==> 0 < count <= Units(b.free) && b.next + 1 < U64
  {
    CompactionConservesUnits(b, to, total);
    if total < b.capacity {
      assert b1.free[0].count == b.capacity - total;
      assert FirstFit(b1.free, count, 0) <==> count <= b.capacity - total;
    }
  }

  // ----- Tokens that follow compaction -----

  /** A run whose every compaction returned the given moves. */
  ghost predicate IsRunWith(ops: seq<Op>, states: seq<Books>, moves: seq<seq<CompactionMove>>) {
    && IsRun(ops, states) && |moves| == |ops|
    && forall i :: 0 <= i < |ops| && ops[i].Compact? ==> CompactedBy(states[i], moves[i], states[i + 1])
  }

  ghost predicate CompactedBy(b: Books, moves: seq<CompactionMove>, b': Books) {
    exists to, total :: Compacted(b, to, total, moves, b')
  }

  /** Nobody frees the record of a generation between two steps. */
  ghost predicate NeverFreed(ops: seq<Op>, states: seq<Books>, g: nat, i: nat, j: nat)
    requires i <= j <= |ops| < |states|
  {
    forall k :: i <= k < j ==> !Frees(ops[k], states[k], g)
  }

  ghost predicate NoRecord(b: Books, g: nat) {
    forall o :: !HasGeneration(b.live, g, o)
  }

  lemma NoRecordNoToken(b: Books, u: AllocationToken)
    requires NoRecord(b, u.generation)
    ensures !b.Validates(u)
  {
    assert !HasGeneration(b.live, u.generation, u.offset);
  }

  /** The token a holder has at step `j` who rebases it at every compaction since step `i`. */
  function Followed(ops: seq<Op>, moves: seq<seq<CompactionMove>>, t: AllocationToken, i: nat, j: nat): AllocationToken
    requires i <= j <= |ops| == |moves|
    decreases j - i
  {
    if i == j then t
    else
      var u := Followed(ops, moves, t, i, j - 1);
      if ops[j - 1].Compact? then Rebased(u, moves[j - 1]) else u
  }

  /** The operation frees the live record of a generation. */
  predicate Frees(op: Op, b: Books, g: nat) {
    match op
    case Free(t) => b.Validates(t) && t.generation == g
    case FreeRange(offset, count) => RangeValidation(b, offset, count).Ok? && b.live[offset].generation == g
    case _ => false
  }

  lemma RebasedIsSameRecord(t: AllocationToken, moves: seq<CompactionMove>)
    ensures Rebased(t, moves) == t.(offset := Rebased(t, moves).offset)
  {
  }

  /** One step: a valid token, rebased if the step compacts, stays valid unless the step frees its
      record; and then no token of that generation is valid. */
  lemma StepFollows(op: Op, b: Books, b': Books, moves: seq<CompactionMove>, u: AllocationToken)
    requires Does(op, b, b') && b.Validates(u)
    requires op.Compact? ==> CompactedBy(b, moves, b')
    ensures !Frees(op, b, u.generation) ==> b'.Validates(if op.Compact? then Rebased(u, moves) else u)
    ensures Frees(op, b, u.generation) ==> NoRecord(b', u.generation)
  {
    hide Tiles, Packs, MovesOf, Relocated;
    match op
    case Allocate(count, owner) =>
      var r :| Allocated(b, count, owner, r, b');
      AllocationKeeps(b, count, owner, r, b', u);
    case Compact =>
      var to, total :| Compacted(b, to, total, moves, b');
      forall o | HasGeneration(b.live, u.generation, o) ensures o == u.offset { OneHolder(b, u, o); }
      RebasingKeepsValidity(b, b', to, total, moves, u);
    case Free(token) =>
      if b.Validates(token) { ReleaseFollows(b, b', token.offset, u); }
    case FreeRange(offset, count) =>
      if RangeValidation(b, offset, count).Ok? { ReleaseFollows(b, b', offset, u); }
    case Grow(_) =>
  }

  lemma ReleaseFollows(b: Books, b': Books, offset: nat, u: AllocationToken)
    requires b.Valid() && b.Validates(u) && offset in b.live && WithoutAllocation(b, offset, b')
    ensures if b.live[offset].generation == u.generation then NoRecord(b', u.generation) else b'.Validates(u)
  {
    forall o | HasGeneration(b.live, u.generation, o) ensures o == u.offset { OneHolder(b, u, o); }
  }

  lemma AllocationKeeps(b: Books, count: nat, owner: nat, r: Result<AllocationToken>, b': Books, u: AllocationToken)
    requires b.Valid() && b.Validates(u) && Allocated(b, count, owner, r, b')
    ensures b'.Validates(u)
  {
    if b' != b {
      var i :| FirstFit(b.free, count, i)
          && b'.live == b.live[b.free[i].offset := AllocationRecord(count, b.next, owner)];
      BlockIsInside(b.capacity, b.free, b.live, i);
    }
  }

  /** A token rebased at every compaction is valid exactly as long as nobody frees its record: in
      every run, whatever is allocated, grown and packed meanwhile. */
  lemma {:induction false} FollowedIsValid(ops: seq<Op>, states: seq<Books>, moves: seq<seq<CompactionMove>>,
                                           t: AllocationToken, i: nat, j: nat)
    requires IsRunWith(ops, states, moves) && i <= j <= |ops| && states[i].Valid() && states[i].Validates(t)
    ensures Followed(ops, moves, t, i, j).generation == t.generation < states[j].next
    ensures states[j].Validates(Followed(ops, moves, t, i, j)) <==> NeverFreed(ops, states, t.generation, i, j)
    ensures NeverFreed(ops, states, t.generation, i, j) || NoRecord(states[j], t.generation)
    decreases j - i
  {
    hide Does, CompactedBy, Frees, Rebased;
    if i < j {
      var u, b, b' := Followed(ops, moves, t, i, j - 1), states[j - 1], states[j];
      FollowedIsValid(ops, states, moves, t, i, j - 1);
      RebasedIsSameRecord(u, moves[j - 1]);
      NextNeverFalls(ops, states, j - 1, j);
      assert NeverFreed(ops, states, t.generation, i, j)
        <==> NeverFreed(ops, states, t.generation, i, j - 1) && !Frees(ops[j - 1], b, t.generation);
      if b.Validates(u) {
        StepFollows(ops[j - 1], b, b', moves[j - 1], u);
      } else {
        GoneStaysGone(ops, states, j - 1, j, t.generation);
      }
      if NoRecord(b', t.generation) { NoRecordNoToken(b', Followed(ops, moves, t, i, j)); }
    } else {
      IssuedGeneration(states[i], t);
    }
  }

  lemma IssuedGeneration(b: Books, t: AllocationToken)
    requires b.Valid() && b.Validates(t)
    ensures t.generation < b.next
  {
  }
}
