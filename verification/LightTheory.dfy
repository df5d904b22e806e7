/** What the two light fixpoints mean: the brightest-path map, and why removing light and
    flooding again gives the map that a recomputation would give. */
module LightTheory {
  import opened Positions
  import opened LightGrid

  // ----- Exact maps and brightest paths -----

  /** Every lit cell is a source at its own level or is fed by a neighbour one level brighter. */
  ghost predicate Supported(g: Grid, sources: LightMap, m: LightMap) {
    forall c {:trigger Fed(g, m, c)} :: c in g.cells && 0 < Read(g, m, c) != Read(g, sources, c) ==> Fed(g, m, c)
  }

  ghost predicate Fed(g: Grid, m: LightMap, c: Cell) {
    exists a :: a in g.cells && Edge(g, a, c) && Read(g, m, a) == Read(g, m, c) + 1
  }

  /** `m` is the light that `sources` give. */
  ghost predicate Exact(g: Grid, sources: LightMap, m: LightMap) {
    && IsLight(g, m)
    && Above(g, m, sources)
    && Closed(g, m)
    && Supported(g, sources, m)
  }

  ghost predicate IsPath(g: Grid, p: seq<Cell>) {
    && p != []
    && p[0] in g.cells
    && forall i :: 0 <= i < |p| - 1 ==> Edge(g, p[i], p[i + 1])
  }

  ghost predicate PathTo(g: Grid, p: seq<Cell>, c: Cell) {
    IsPath(g, p) && p[|p| - 1] == c
  }

  /** The reference definition: a cell's level is the maximum, over all paths that end in it,
      of the level of the source where the path starts less the path's length. */
  ghost predicate IsBrightest(g: Grid, sources: LightMap, m: LightMap) {
    && IsLight(g, m)
    && (forall c, p :: c in g.cells && PathTo(g, p, c) ==> Read(g, sources, p[0]) <= Read(g, m, c) + |p| - 1)
    && (forall c :: c in g.cells && 0 < Read(g, m, c) ==>
          exists p :: PathTo(g, p, c) && Read(g, sources, p[0]) == Read(g, m, c) + |p| - 1)
  }

  lemma {:induction false} PathBound(g: Grid, sources: LightMap, m: LightMap, p: seq<Cell>, c: Cell)
    requires g.Valid() && Above(g, m, sources) && Closed(g, m) && PathTo(g, p, c)
    ensures Read(g, sources, p[0]) <= Read(g, m, c) + |p| - 1
    decreases |p|
  {
    if |p| > 1 {
      var q, a := PathPrefix(g, p, c);
      PathBound(g, sources, m, q, a);
      assert Satisfied(g, m, a);
    }
  }

  lemma {:induction false} BrightPath(g: Grid, sources: LightMap, m: LightMap, c: Cell) returns (p: seq<Cell>)
    requires g.Valid() && Exact(g, sources, m) && c in g.cells && 0 < Read(g, m, c)
    ensures PathTo(g, p, c) && Read(g, sources, p[0]) == Read(g, m, c) + |p| - 1
    decreases MAX_LIGHT - Read(g, m, c)
  {
    if Read(g, m, c) == Read(g, sources, c) {
      p := [c];
    } else {
      assert Fed(g, m, c);
      var a :| a in g.cells && Edge(g, a, c) && Read(g, m, a) == Read(g, m, c) + 1;
      assert Read(g, m, a) <= MAX_LIGHT;
      var q := BrightPath(g, sources, m, a);
      p := q + [c];
      assert forall i :: 0 <= i < |p| - 1 ==> Edge(g, p[i], p[i + 1]);
    }
  }

  lemma {:induction false} ExactIsBrightest(g: Grid, sources: LightMap, m: LightMap)
    requires g.Valid() && Exact(g, sources, m)
    ensures IsBrightest(g, sources, m)
  {
    forall c, p | c in g.cells && PathTo(g, p, c)
      ensures Read(g, sources, p[0]) <= Read(g, m, c) + |p| - 1
    {
      PathBound(g, sources, m, p, c);
    }
    forall c | c in g.cells && 0 < Read(g, m, c)
      ensures exists p :: PathTo(g, p, c) && Read(g, sources, p[0]) == Read(g, m, c) + |p| - 1
    {
      var p := BrightPath(g, sources, m, c);
    }
  }

  lemma ExtendPath(g: Grid, p: seq<Cell>, a: Cell, b: Cell)
    requires PathTo(g, p, a) && Edge(g, a, b)
    ensures PathTo(g, p + [b], b)
  {
  }

  lemma BrightestIsClosed(g: Grid, sources: LightMap, m: LightMap, a: Cell, b: Cell)
    requires g.Valid() && IsBrightest(g, sources, m) && a in g.cells && Edge(g, a, b)
    ensures Read(g, m, a) <= Read(g, m, b) + 1
  {
    if 0 < Read(g, m, a) {
      var p :| PathTo(g, p, a) && Read(g, sources, p[0]) == Read(g, m, a) + |p| - 1;
      ExtendPath(g, p, a, b);
      assert (p + [b])[0] == p[0];
    }
  }

  lemma PathPrefix(g: Grid, p: seq<Cell>, c: Cell) returns (q: seq<Cell>, a: Cell)
    requires PathTo(g, p, c) && |p| > 1
    ensures q == p[..|p| - 1] && q[0] == p[0] && PathTo(g, q, a) && a in g.cells && Edge(g, a, c)
  {
    q, a := p[..|p| - 1], p[|p| - 2];
    assert Edge(g, p[|p| - 2], p[|p| - 1]);
    if |q| > 1 { assert Edge(g, p[|p| - 3], p[|p| - 2]); }
  }

  lemma BrightestIsFed(g: Grid, sources: LightMap, m: LightMap, c: Cell)
    requires g.Valid() && IsBrightest(g, sources, m)
    requires c in g.cells && 0 < Read(g, m, c) != Read(g, sources, c)
    ensures Fed(g, m, c)
  {
    var p :| PathTo(g, p, c) && Read(g, sources, p[0]) == Read(g, m, c) + |p| - 1;
    var q, a := PathPrefix(g, p, c);
    assert Read(g, sources, q[0]) <= Read(g, m, a) + |q| - 1;
    BrightestIsClosed(g, sources, m, a, c);
  }

  lemma BrightestIsExact(g: Grid, sources: LightMap, m: LightMap)
    requires g.Valid() && IsBrightest(g, sources, m)
    ensures Exact(g, sources, m)
  {
    forall c | c in g.cells ensures Read(g, sources, c) <= Read(g, m, c) {
      assert PathTo(g, [c], c);
    }
    forall a, b | a in g.cells && Edge(g, a, b) ensures Read(g, m, a) <= Read(g, m, b) + 1 {
      BrightestIsClosed(g, sources, m, a, b);
    }
    forall c | c in g.cells && 0 < Read(g, m, c) != Read(g, sources, c)
      ensures Fed(g, m, c)
    {
      BrightestIsFed(g, sources, m, c);
    }
  }

  /** Exactness, a local condition, is the brightest-path definition. */
  lemma ExactIffBrightest(g: Grid, sources: LightMap, m: LightMap)
    requires g.Valid()
    ensures Exact(g, sources, m) <==> IsBrightest(g, sources, m)
  {
    if Exact(g, sources, m) { ExactIsBrightest(g, sources, m); }
    if IsBrightest(g, sources, m) { BrightestIsExact(g, sources, m); }
  }

  // ----- The flood -----

  /** The outcome does not depend on the order of the queue or on repeated nodes. */
  lemma FloodIsUnique(g: Grid, m: LightMap, queued: set<Cell>, f: LightMap, f': LightMap)
    requires g.Valid() && IsFlood(g, m, queued, f) && IsFlood(g, m, queued, f')
    ensures f == f'
  {
    assert Above(g, f', f) && Above(g, f, f');
    MapsAgree(g, f, f');
  }

  /** When every cell with something to give is queued, the flood is the least closed map. */
  lemma FloodIsLeastClosed(g: Grid, m: LightMap, queued: set<Cell>, f: LightMap)
    requires g.Valid() && IsFlood(g, m, queued, f)
    requires forall a :: a in queued ==> g.InHeight(a.y)
    requires forall a :: a in g.cells && !Satisfied(g, m, a) ==> a in queued
    ensures Closed(g, f)
    ensures forall n :: IsLight(g, n) && Above(g, n, m) && Closed(g, n) ==> Above(g, n, f)
  {
    forall a | a in g.cells ensures Satisfied(g, f, a) {
      if a !in queued && !Raised(g, m, f, a) {
        assert Satisfied(g, m, a);
      }
    }
    forall n | IsLight(g, n) && Above(g, n, m) && Closed(g, n) ensures Above(g, n, f) {
      assert Flooded(g, m, queued, n);
    }
  }

  /** Lowering a raised cell that nothing feeds would give a smaller flood. */
  lemma FloodIsFed(g: Grid, m: LightMap, queued: set<Cell>, f: LightMap, c: Cell)
    requires g.Valid() && IsFlood(g, m, queued, f) && Raised(g, m, f, c)
    ensures exists a :: (a in queued || Raised(g, m, f, a)) && Edge(g, a, c) && Read(g, f, a) == Read(g, f, c) + 1
  {
    if forall a :: (a in queued || Raised(g, m, f, a)) && Edge(g, a, c) ==> Read(g, f, a) != Read(g, f, c) + 1 {
      var n := f[c := f[c] - 1];
      assert forall x :: x in g.cells && x != c ==> Read(g, n, x) == Read(g, f, x);
      forall a, b | (a in queued || Raised(g, m, n, a)) && Edge(g, a, b)
        ensures Read(g, n, a) <= Read(g, n, b) + 1
      {
        assert a in queued || Raised(g, m, f, a);
        assert Satisfied(g, f, a);
        assert Read(g, f, a) <= Read(g, f, b) + 1;
      }
      assert Flooded(g, m, queued, n);
      assert false;
    }
  }

  /** From any start map the flood is the brightest-path map of that map taken as sources. */
  lemma FloodIsExact(g: Grid, m: LightMap, queued: set<Cell>, f: LightMap)
    requires g.Valid() && IsFlood(g, m, queued, f)
    requires forall a :: a in queued ==> g.InHeight(a.y)
    requires forall a :: a in g.cells && !Satisfied(g, m, a) ==> a in queued
    ensures Exact(g, m, f)
  {
    FloodIsLeastClosed(g, m, queued, f);
    forall c | c in g.cells && 0 < Read(g, f, c) != Read(g, m, c)
      ensures Fed(g, f, c)
    {
      assert Raised(g, m, f, c);
      FloodIsFed(g, m, queued, f, c);
    }
  }

  // ----- Existence -----

  /** Some flood holds the level `level` at `c`. */
  ghost predicate SomeFloodHolds(g: Grid, m: LightMap, queued: set<Cell>, c: Cell, level: nat) {
    exists n :: Flooded(g, m, queued, n) && Read(g, n, c) == level
  }

  lemma FullLightFloods(g: Grid, m: LightMap, queued: set<Cell>)
    requires g.Valid() && IsLight(g, m)
    ensures Flooded(g, m, queued, map c | c in g.cells :: MAX_LIGHT)
  {
  }

  /** The least level any flood holds at `c`. */
  ghost function LeastFlooded(g: Grid, m: LightMap, queued: set<Cell>, c: Cell): (level: nat)
    requires g.Valid() && IsLight(g, m) && c in g.cells
    ensures level <= MAX_LIGHT && SomeFloodHolds(g, m, queued, c, level)
    ensures forall n :: Flooded(g, m, queued, n) ==> level <= Read(g, n, c)
  {
    var full: LightMap := map c | c in g.cells :: MAX_LIGHT;
    FullLightFloods(g, m, queued);
    assert Flooded(g, m, queued, full) && Read(g, full, c) == MAX_LIGHT;
    LeastBelow(g, m, queued, c, MAX_LIGHT)
  }

  ghost function LeastBelow(g: Grid, m: LightMap, queued: set<Cell>, c: Cell, bound: nat): (level: nat)
    requires SomeFloodHolds(g, m, queued, c, bound)
    ensures level <= bound && SomeFloodHolds(g, m, queued, c, level)
    ensures forall n :: Flooded(g, m, queued, n) ==> level <= Read(g, n, c)
  {
    if exists k: nat :: k < bound && SomeFloodHolds(g, m, queued, c, k) then
      var k: nat :| k < bound && SomeFloodHolds(g, m, queued, c, k);
      LeastBelow(g, m, queued, c, k)
    else
      assert forall n :: Flooded(g, m, queued, n) ==> SomeFloodHolds(g, m, queued, c, Read(g, n, c));
      bound
  }

  /** The flood exists: the pointwise least of all that hold enough light. */
  ghost function FloodOf(g: Grid, m: LightMap, queued: set<Cell>): (f: LightMap)
    requires g.Valid() && IsLight(g, m)
    ensures IsFlood(g, m, queued, f)
  {
    LeastIsFlood(g, m, queued);
    map c | c in g.cells :: LeastFlooded(g, m, queued, c)
  }

  lemma LeastIsFlood(g: Grid, m: LightMap, queued: set<Cell>)
    requires g.Valid() && IsLight(g, m)
    ensures IsFlood(g, m, queued, map c | c in g.cells :: LeastFlooded(g, m, queued, c))
  {
    hide SomeFloodHolds, Satisfied, Edge, Read;
    var f: LightMap := map c | c in g.cells :: LeastFlooded(g, m, queued, c);
    forall c | c in g.cells ensures Read(g, f, c) == LeastFlooded(g, m, queued, c) && Read(g, m, c) <= Read(g, f, c) {
      LeastReads(g, m, queued, f, c);
    }
    forall a | a in queued || Raised(g, m, f, a) ensures Satisfied(g, f, a) {
      LeastGives(g, m, queued, f, a);
    }
  }

  lemma LeastReads(g: Grid, m: LightMap, queued: set<Cell>, f: LightMap, c: Cell)
    requires g.Valid() && IsLight(g, m) && f == map c | c in g.cells :: LeastFlooded(g, m, queued, c)
    requires c in g.cells
    ensures Read(g, f, c) == LeastFlooded(g, m, queued, c) && Read(g, m, c) <= Read(g, f, c)
  {
    var n :| Flooded(g, m, queued, n) && Read(g, n, c) == LeastFlooded(g, m, queued, c);
  }

  lemma LeastGives(g: Grid, m: LightMap, queued: set<Cell>, f: LightMap, a: Cell)
    requires g.Valid() && IsLight(g, m) && f == map c | c in g.cells :: LeastFlooded(g, m, queued, c)
    requires a in queued || Raised(g, m, f, a)
    ensures Satisfied(g, f, a)
  {
    forall b | Edge(g, a, b) ensures Read(g, f, a) <= Read(g, f, b) + 1 {
      var n :| Flooded(g, m, queued, n) && Read(g, n, b) == LeastFlooded(g, m, queued, b);
      if a in g.cells { LeastReads(g, m, queued, f, a); }
      assert Read(g, f, a) <= Read(g, n, a);
      assert a in queued || Raised(g, m, n, a);
      assert Satisfied(g, n, a);
    }
  }

  /** The light that `sources` give; what a recomputation from scratch computes. */
  ghost function Brightest(g: Grid, sources: LightMap): (m: LightMap)
    requires g.Valid() && IsLight(g, sources)
    ensures Exact(g, sources, m)
  {
    var m := FloodOf(g, sources, g.cells);
    FloodIsExact(g, sources, g.cells, m);
    m
  }

  // ----- Uniqueness -----

  /** The light of the sources is below every closed map above them. */
  lemma ExactIsLeast(g: Grid, sources: LightMap, m: LightMap, n: LightMap)
    requires g.Valid() && Exact(g, sources, m) && Above(g, n, sources) && Closed(g, n)
    ensures Above(g, n, m)
  {
    forall c | c in g.cells ensures Read(g, m, c) <= Read(g, n, c) {
      if 0 < Read(g, m, c) {
        var p := BrightPath(g, sources, m, c);
        PathBound(g, sources, n, p, c);
      }
    }
  }

  /** A terrain and its sources have one light map. */
  lemma ExactIsUnique(g: Grid, sources: LightMap, m: LightMap, n: LightMap)
    requires g.Valid() && Exact(g, sources, m) && Exact(g, sources, n)
    ensures m == n
  {
    ExactIsLeast(g, sources, m, n);
    ExactIsLeast(g, sources, n, m);
    MapsAgree(g, m, n);
  }

  /** A source shows in the light of the others exactly when a path from one of them reaches it. */
  ghost predicate Reached(g: Grid, sources: LightMap, c: Cell, level: nat) {
    exists p :: PathTo(g, p, c) && level + |p| - 1 <= Read(g, sources, p[0])
  }

  lemma ReachedIffLit(g: Grid, sources: LightMap, m: LightMap, c: Cell, level: nat)
    requires g.Valid() && Exact(g, sources, m) && c in g.cells && 0 < level
    ensures Reached(g, sources, c, level) <==> level <= Read(g, m, c)
  {
    if Reached(g, sources, c, level) {
      var p :| PathTo(g, p, c) && level + |p| - 1 <= Read(g, sources, p[0]);
      PathBound(g, sources, m, p, c);
    }
    if level <= Read(g, m, c) {
      var p := BrightPath(g, sources, m, c);
    }
  }
}
