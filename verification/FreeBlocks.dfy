/** The lists of free ranges that the suballocator of `src/chunk_render.rs` keeps: what they
    cover, and why a coalesced list is determined by the addresses it covers. */
module FreeBlocks {
  import opened Integers

  datatype FreeListBlock = FreeListBlock(offset: nat, count: nat) {
    function End(): nat { offset + count }

    predicate Holds(a: int) { offset <= a < End() }
  }

  ghost predicate Covers(blocks: seq<FreeListBlock>, a: int) {
    exists i :: 0 <= i < |blocks| && blocks[i].Holds(a)
  }

  /** Non-empty blocks in ascending order, none overlapping the next. */
  ghost predicate Ordered(blocks: seq<FreeListBlock>) {
    && (forall i :: 0 <= i < |blocks| ==> blocks[i].count > 0)
    && (forall i, j :: 0 <= i < j < |blocks| ==> blocks[i].End() <= blocks[j].offset)
  }

  /** Ordered blocks, none touching the next. */
  ghost predicate Coalesced(blocks: seq<FreeListBlock>) {
    Ordered(blocks) && forall i, j :: 0 <= i < j < |blocks| ==> blocks[i].End() < blocks[j].offset
  }

  ghost predicate SameAddresses(b: seq<FreeListBlock>, c: seq<FreeListBlock>) {
    forall a :: Covers(b, a) <==> Covers(c, a)
  }

  lemma TailCovers(b: seq<FreeListBlock>, a: int)
    requires Coalesced(b) && b != []
    ensures Covers(b, a) <==> b[0].Holds(a) || Covers(b[1..], a)
    ensures Covers(b[1..], a) ==> a > b[0].End()
    ensures Coalesced(b[1..])
  {
    if Covers(b, a) && !b[0].Holds(a) {
      var i :| 0 <= i < |b| && b[i].Holds(a);
      assert b[1..][i - 1].Holds(a);
    }
    if Covers(b[1..], a) {
      var i :| 0 <= i < |b[1..]| && b[1..][i].Holds(a);
      assert b[i + 1].Holds(a);
    }
  }

  lemma FirstBlock(b: seq<FreeListBlock>, c: seq<FreeListBlock>)
    requires Coalesced(b) && Coalesced(c) && SameAddresses(b, c) && b != [] && c != []
    ensures b[0].offset <= c[0].offset && b[0].End() <= c[0].End()
  {
    assert c[0].Holds(c[0].offset) && Covers(c, c[0].offset);
    var i :| 0 <= i < |b| && b[i].Holds(c[0].offset);
    assert b[0].offset <= b[i].offset;
    if c[0].End() < b[0].End() {
      assert b[0].Holds(b[0].offset) && Covers(b, b[0].offset);
      var k :| 0 <= k < |c| && c[k].Holds(b[0].offset);
      assert c[0].offset <= c[k].offset;
      var edge := c[0].End();
      assert b[0].Holds(edge) && Covers(b, edge);
      TailCovers(c, edge);
      assert false;
    }
  }

  lemma CoversItsStart(b: seq<FreeListBlock>)
    requires Coalesced(b)
    ensures b != [] ==> Covers(b, b[0].offset)
  {
    if b != [] { assert b[0].Holds(b[0].offset); }
  }

  /** A coalesced list is a function of the set of addresses it covers. */
  lemma {:induction false} CoalescedIsCanonical(b: seq<FreeListBlock>, c: seq<FreeListBlock>)
    requires Coalesced(b) && Coalesced(c) && SameAddresses(b, c)
    ensures b == c
  {
    if b == [] || c == [] {
      CoversItsStart(b);
      CoversItsStart(c);
    } else {
      FirstBlock(b, c);
      FirstBlock(c, b);
      assert b[0] == c[0];
      forall a ensures Covers(b[1..], a) <==> Covers(c[1..], a) {
        TailCovers(b, a);
        TailCovers(c, a);
      }
      TailCovers(b, 0);
      TailCovers(c, 0);
      CoalescedIsCanonical(b[1..], c[1..]);
      assert b == [b[0]] + b[1..] && c == [c[0]] + c[1..];
    }
  }

  /** How many blocks start below `offset`: where a binary search puts a new block. */
  function InsertionPoint(blocks: seq<FreeListBlock>, offset: nat): (i: nat)
    ensures i <= |blocks|
    ensures forall j :: 0 <= j < i ==> blocks[j].offset < offset
    ensures i < |blocks| ==> offset <= blocks[i].offset
  {
    if blocks == [] || offset <= blocks[0].offset then 0 else 1 + InsertionPoint(blocks[1..], offset)
  }

  lemma Inserted(blocks: seq<FreeListBlock>, i: nat, b: FreeListBlock, a: int)
    requires i <= |blocks|
    ensures Covers(blocks[..i] + [b] + blocks[i..], a) <==> Covers(blocks, a) || b.Holds(a)
  {
    var c := blocks[..i] + [b] + blocks[i..];
    assert c[i] == b;
    assert forall j :: 0 <= j < i ==> c[j] == blocks[j];
    assert forall j :: i <= j < |blocks| ==> c[j + 1] == blocks[j];
    if Covers(blocks, a) {
      var j :| 0 <= j < |blocks| && blocks[j].Holds(a);
      assert c[if j < i then j else j + 1].Holds(a);
    }
  }

  /** Block `i` joined with the next one, which it touches. */
  function Join(blocks: seq<FreeListBlock>, i: nat): seq<FreeListBlock>
    requires i + 1 < |blocks|
  {
    blocks[..i] + [FreeListBlock(blocks[i].offset, blocks[i].count + blocks[i + 1].count)] + blocks[i + 2..]
  }

  lemma JoinCovers(blocks: seq<FreeListBlock>, i: nat)
    requires i + 1 < |blocks| && blocks[i].End() == blocks[i + 1].offset
    ensures SameAddresses(Join(blocks, i), blocks)
  {
    var c := Join(blocks, i);
    assert forall j :: 0 <= j < i ==> c[j] == blocks[j];
    assert forall j :: i + 2 <= j < |blocks| ==> c[j - 1] == blocks[j];
    forall a ensures Covers(c, a) <==> Covers(blocks, a) {
      if Covers(c, a) {
        var j :| 0 <= j < |c| && c[j].Holds(a);
        assert blocks[if j < i then j else if j > i then j + 1 else if blocks[i].Holds(a) then i else i + 1].Holds(a);
      }
      if Covers(blocks, a) {
        var j :| 0 <= j < |blocks| && blocks[j].Holds(a);
        assert c[if j <= i then j else j - 1].Holds(a);
      }
    }
  }

  lemma JoinStaysOrdered(blocks: seq<FreeListBlock>, i: nat)
    requires Ordered(blocks) && i + 1 < |blocks| && blocks[i].End() == blocks[i + 1].offset
    ensures Ordered(Join(blocks, i))
    ensures forall j :: 0 <= j < i ==> Join(blocks, i)[j] == blocks[j]
    ensures forall j :: i < j < |blocks| - 1 ==> Join(blocks, i)[j] == blocks[j + 1]
    ensures Join(blocks, i)[i].offset == blocks[i].offset && Join(blocks, i)[i].End() == blocks[i + 1].End()
  {
    JoinAt(blocks, i);
    hide Join;
    var c := Join(blocks, i);
    forall j, k | 0 <= j < k < |c| ensures c[j].End() <= c[k].offset {
      assert blocks[if j < i then j else j + 1].End() <= blocks[if k <= i then k else k + 1].offset;
    }
  }

  lemma JoinAt(blocks: seq<FreeListBlock>, i: nat)
    requires i + 1 < |blocks|
    ensures |Join(blocks, i)| == |blocks| - 1
    ensures forall j :: 0 <= j < i ==> Join(blocks, i)[j] == blocks[j]
    ensures forall j :: i < j < |blocks| - 1 ==> Join(blocks, i)[j] == blocks[j + 1]
    ensures Join(blocks, i)[i] == FreeListBlock(blocks[i].offset, blocks[i].count + blocks[i + 1].count)
  {
  }

  /** The loop that joins touching blocks: it turns any ordered list into the coalesced list of
      the same addresses. No sum leaves the range of a u32. */
  method Coalesce(blocks: seq<FreeListBlock>) returns (merged: seq<FreeListBlock>)
    requires Ordered(blocks) && forall i :: 0 <= i < |blocks| ==> blocks[i].End() < U32
    ensures Coalesced(merged) && SameAddresses(merged, blocks)
    ensures forall i :: 0 <= i < |merged| ==> merged[i].End() < U32
  {
    merged := blocks;
    var i := 0;
    while i + 1 < |merged|
      invariant Ordered(merged) && SameAddresses(merged, blocks)
      invariant i <= |merged|
      invariant forall j, k :: 0 <= j < i && j < k < |merged| ==> merged[j].End() < merged[k].offset
      invariant forall j :: 0 <= j < |merged| ==> merged[j].End() < U32
      decreases |merged| - i
    {
      if merged[i].End() == merged[i + 1].offset {
        JoinCovers(merged, i);
        JoinStaysOrdered(merged, i);
        merged := Join(merged, i);
      } else {
        i := i + 1;
      }
    }
  }
}
