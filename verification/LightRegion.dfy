/** The 3x3 columns that a flood takes out of the world, and when flooding them alone gives the
    result of flooding the whole world. */
module LightRegion {
  import opened Positions
  import opened LightGrid
  import opened LightTheory
  import opened LightRemoval

  /** `c` lies in one of the nine columns around `o`. */
  predicate InReach(o: Column, c: Cell) {
    -1 <= ColumnOf(c).0 - o.0 <= 1 && -1 <= ColumnOf(c).1 - o.1 <= 1
  }

  /** Blocks between a coordinate and the chunk with index `o`. */
  function Gap(v: int, o: int): nat {
    if v < CHUNK_WIDTH * o then CHUNK_WIDTH * o - v
    else if v >= CHUNK_WIDTH * (o + 1) then v - CHUNK_WIDTH * (o + 1) + 1
    else 0
  }

  function Distance(o: Column, c: Cell): nat {
    if Gap(c.x, o.0) < Gap(c.z, o.1) then Gap(c.z, o.1) else Gap(c.x, o.0)
  }

  lemma ReachIsDistance(o: Column, c: Cell)
    ensures InReach(o, c) <==> Distance(o, c) <= 16
    ensures ColumnOf(c) == o <==> Distance(o, c) == 0
  {
  }

  lemma DistanceSteps(o: Column, a: Cell, b: Cell)
    requires Adjacent(a, b)
    ensures Distance(o, b) <= Distance(o, a) + 1
  {
  }

  /** The part of the world that `LightNeighborhood::take` removes from it. */
  function Near(g: Grid, o: Column): Grid {
    g.(cells := (set c | c in g.cells && InReach(o, c)), blocking := (set c | c in g.blocking && InReach(o, c)))
  }

  function Part(m: LightMap, o: Column): LightMap {
    map c | c in m && InReach(o, c) :: m[c]
  }

  lemma NearReads(g: Grid, m: LightMap, o: Column)
    requires g.Valid() && IsLight(g, m)
    ensures Near(g, o).Valid() && IsLight(Near(g, o), Part(m, o))
    ensures forall c :: Read(Near(g, o), Part(m, o), c)
                     == if g.InHeight(c.y) && !InReach(o, c) then 0 else Read(g, m, c)
    ensures forall a, b :: Edge(Near(g, o), a, b) <==> Edge(g, a, b) && InReach(o, b)
  {
  }

  /** `m` with the nine columns replaced by `f`. */
  lemma PutBackReads(g: Grid, m: LightMap, o: Column, f: LightMap)
    requires g.Valid() && IsLight(g, m) && IsLight(Near(g, o), f)
    ensures IsLight(g, m + f) && Part(m + f, o) == f
    ensures forall c :: Read(g, m + f, c)
                     == if c in g.cells && InReach(o, c) then Read(Near(g, o), f, c) else Read(g, m, c)
  {
    forall c | c in g.cells ensures (m + f)[c] <= MAX_LIGHT {
      assert c in f ==> f[c] <= MAX_LIGHT;
      assert c in m;
    }
  }

  /** The light that a flood started at distance 1 or less may hold at `c`. */
  function Reaching(g: Grid, m: LightMap, o: Column, f: LightMap): LightMap {
    map c | c in f ::
      var cap := if Distance(o, c) <= 16 then 16 - Distance(o, c) else 0;
      if f[c] <= cap then f[c] else if cap <= Read(g, m, c) then Read(g, m, c) else cap
  }

  /** Light fades before it leaves the region: a flood raises no cell further than 15 away. */
  lemma FloodStaysNear(g: Grid, m: LightMap, o: Column, queued: set<Cell>, f: LightMap, c: Cell)
    requires g.Valid() && IsLight(g, m) && IsFlood(g, m, queued, f)
    requires forall a :: a in queued ==> Distance(o, a) <= 1
    requires Raised(g, m, f, c)
    ensures Distance(o, c) <= 15
  {
    var h := Reaching(g, m, o, f);
    forall x | x in g.cells
      ensures Read(g, m, x) <= Read(g, h, x) <= Read(g, f, x)
    {
      assert Read(g, m, x) <= Read(g, f, x);
    }
    forall a, b | (a in queued || Raised(g, m, h, a)) && Edge(g, a, b)
      ensures Read(g, h, a) <= Read(g, h, b) + 1
    {
      DistanceSteps(o, a, b);
      assert Satisfied(g, f, a);
      assert Read(g, f, a) <= Read(g, f, b) + 1;
    }
    assert Flooded(g, m, queued, h);
    assert Read(g, f, c) <= Read(g, h, c);
  }

  /** What floods the world floods each part of it. */
  lemma PartOfFlooded(g: Grid, m: LightMap, o: Column, queued: set<Cell>, n: LightMap)
    requires g.Valid() && IsLight(g, m) && Flooded(g, m, queued, n)
    ensures Flooded(Near(g, o), Part(m, o), queued, Part(n, o))
  {
    NearReads(g, m, o);
    NearReads(g, n, o);
    forall a, b | (a in queued || Raised(Near(g, o), Part(m, o), Part(n, o), a)) && Edge(Near(g, o), a, b)
      ensures Read(Near(g, o), Part(n, o), a) <= Read(Near(g, o), Part(n, o), b) + 1
    {
      assert a in queued || Raised(g, m, n, a);
      assert Satisfied(g, n, a) && Edge(g, a, b);
    }
  }

  /** The flood of a part, put back, is the flood of the world when it never wants to leave. */
  lemma FloodOfPart(g: Grid, m: LightMap, o: Column, queued: set<Cell>, f: LightMap)
    requires g.Valid() && IsLight(g, m) && IsFlood(Near(g, o), Part(m, o), queued, f)
    requires forall a, b ::
      (a in queued || Raised(Near(g, o), Part(m, o), f, a)) && Edge(g, a, b) && !(InReach(o, a) && InReach(o, b))
      ==> Read(g, m + f, a) <= Read(g, m, b) + 1
    ensures IsFlood(g, m, queued, m + f)
  {
    NearReads(g, m, o);
    PutBackReads(g, m, o, f);
    forall a, b | (a in queued || Raised(g, m, m + f, a)) && Edge(g, a, b)
      ensures Read(g, m + f, a) <= Read(g, m + f, b) + 1
    {
      if InReach(o, a) && InReach(o, b) {
        assert Satisfied(Near(g, o), f, a) && Edge(Near(g, o), a, b);
      } else {
        assert Read(g, m + f, a) <= Read(g, m, b) + 1;
      }
    }
    forall n | Flooded(g, m, queued, n) ensures Above(g, n, m + f) {
      PartOfFlooded(g, m, o, queued, n);
      NearReads(g, n, o);
      assert Above(Near(g, o), Part(n, o), f);
    }
  }

  /** Nothing is lost by flooding only nine columns when the queued cells lie in the middle one
      or touch it: the world's flood changes the same cells to the same levels. */
  lemma FloodAroundColumn(g: Grid, m: LightMap, o: Column, queued: set<Cell>, f: LightMap)
    requires g.Valid() && IsLight(g, m) && IsFlood(Near(g, o), Part(m, o), queued, f)
    requires forall a :: a in queued ==> Distance(o, a) <= 1
    ensures IsFlood(g, m, queued, m + f)
    ensures forall c :: Raised(g, m, m + f, c) ==> Distance(o, c) <= 15
  {
    NearReads(g, m, o);
    PutBackReads(g, m, o, f);
    forall a | Raised(Near(g, o), Part(m, o), f, a) ensures Distance(o, a) <= 15 {
      FloodStaysNear(Near(g, o), Part(m, o), o, queued, f, a);
    }
    forall a, b | (a in queued || Raised(Near(g, o), Part(m, o), f, a)) && Edge(g, a, b)
      ensures InReach(o, a) && InReach(o, b)
    {
      DistanceSteps(o, a, b);
      ReachIsDistance(o, a);
      ReachIsDistance(o, b);
    }
    FloodOfPart(g, m, o, queued, f);
    forall c | Raised(g, m, m + f, c) ensures Raised(Near(g, o), Part(m, o), f, c) {
    }
  }

  /** Darkening loses a level with every step, so it ends inside the region too. */
  lemma DarkStaysNear(g: Grid, m: LightMap, o: Column, start: set<Removal>)
    requires forall r :: r in start ==> Distance(o, r.cell) == 0 && r.level <= MAX_LIGHT
    ensures forall c :: c in DarkSet(g, m, start) ==> 0 < Read(g, m, c) <= MAX_LIGHT - Distance(o, c)
  {
    var d := set c | c in g.cells && 0 < Read(g, m, c) <= MAX_LIGHT - Distance(o, c);
    forall r, c | (r in start || (r.cell in d && r.level == Read(g, m, r.cell))) && DarkStep(g, m, r, c)
      ensures c in d
    {
      DistanceSteps(o, r.cell, c);
    }
    assert DarkClosed(g, m, start, d);
  }

  /** Darkening from the middle column in the nine columns alone zeroes the same cells as in the
      whole world, and every cell handed on lies in the region. */
  lemma DarkAroundColumn(g: Grid, m: LightMap, o: Column, start: set<Removal>)
    requires g.Valid() && IsLight(g, m)
    requires forall r :: r in start ==> Distance(o, r.cell) == 0 && r.level <= MAX_LIGHT
    ensures DarkSet(Near(g, o), Part(m, o), start) == DarkSet(g, m, start)
    ensures forall r, c :: r in RemovedNodes(g, m, start) && Adjacent(r.cell, c) ==> InReach(o, c)
  {
    NearReads(g, m, o);
    var dark, near := DarkSet(g, m, start), DarkSet(Near(g, o), Part(m, o), start);
    DarkStaysNear(Near(g, o), Part(m, o), o, start);
    DarkStaysNear(g, m, o, start);
    forall a, c | Distance(o, a) <= 14 && Adjacent(a, c) ensures InReach(o, c) {
      DistanceSteps(o, a, c);
      ReachIsDistance(o, c);
    }
    forall r, c | (r in start || (r.cell in near && r.level == Read(g, m, r.cell))) && DarkStep(g, m, r, c)
      ensures c in near
    {
      DarkSetIsClosed(Near(g, o), Part(m, o), start);
      assert DarkStep(Near(g, o), Part(m, o), r, c);
    }
    assert DarkClosed(g, m, start, near);
    DarkSetIsClosed(g, m, start);
    forall r, c | (r in start || (r.cell in dark && r.level == Read(Near(g, o), Part(m, o), r.cell)))
                  && DarkStep(Near(g, o), Part(m, o), r, c)
      ensures c in dark
    {
      assert DarkStep(g, m, r, c);
    }
    assert DarkClosed(Near(g, o), Part(m, o), start, dark);
  }

  // ----- Columns taken again for what was handed on -----

  /** Within the columns around `o` a neighbour feeds the cell. */
  ghost predicate FedInReach(g: Grid, w: LightMap, o: Column, c: Cell) {
    exists a :: a in g.cells && InReach(o, a) && Edge(g, a, c) && Read(g, w, a) == Read(g, w, c) + 1
  }

  /** Whatever the light `w` of the world raises lies, with a feeder, in the columns around `o`. */
  ghost predicate Retakes(g: Grid, m: LightMap, w: LightMap, o: Column) {
    forall c :: Raised(g, m, w, c) ==> InReach(o, c) && FedInReach(g, w, o, c)
  }

  /** `queued` holds every cell with something to give. */
  ghost predicate AllGiversQueued(g: Grid, m: LightMap, queued: set<Cell>) {
    && (forall a :: a in queued ==> g.InHeight(a.y))
    && (forall a :: a in g.cells && !Satisfied(g, m, a) ==> a in queued)
  }

  lemma WorldIsFlooded(g: Grid, m: LightMap, queued: set<Cell>, w: LightMap)
    requires g.Valid() && IsLight(g, m) && AllGiversQueued(g, m, queued) && Exact(g, m, w)
    ensures Flooded(g, m, queued, w)
  {
    forall a | a in queued ensures Satisfied(g, w, a) {
      if a !in g.cells { assert Read(g, w, a) == 0; }
    }
  }

  lemma PartStaysBelow(g: Grid, m: LightMap, o: Column, queued: set<Cell>, f: LightMap, w: LightMap)
    requires g.Valid() && IsLight(g, m) && IsFlood(Near(g, o), Part(m, o), queued, f)
    requires Flooded(g, m, queued, w)
    ensures IsLight(g, m + f) && Above(g, m + f, m) && Above(g, w, m + f)
  {
    NearReads(g, m, o);
    NearReads(g, w, o);
    PutBackReads(g, m, o, f);
    PartOfFlooded(g, m, o, queued, w);
    assert Above(Near(g, o), Part(w, o), f);
    forall c | c in g.cells ensures Read(g, m, c) <= Read(g, m + f, c) <= Read(g, w, c) {
      assert c in Near(g, o).cells <==> InReach(o, c);
    }
  }

  /** In the columns around `o` the flood raises what the world's flood raises. */
  lemma {:induction false} RetakenRaises(g: Grid, m: LightMap, o: Column, queued: set<Cell>, f: LightMap, w: LightMap,
                                         c: Cell)
    requires g.Valid() && IsLight(g, m) && IsFlood(Near(g, o), Part(m, o), queued, f)
    requires AllGiversQueued(g, m, queued) && Exact(g, m, w) && Retakes(g, m, w, o) && c in g.cells
    ensures Read(g, w, c) <= Read(g, m + f, c)
    decreases MAX_LIGHT - Read(g, w, c)
  {
    NearReads(g, m, o);
    PutBackReads(g, m, o, f);
    if Raised(g, m, w, c) {
      assert FedInReach(g, w, o, c);
      var a :| a in g.cells && InReach(o, a) && Edge(g, a, c) && Read(g, w, a) == Read(g, w, c) + 1;
      assert Read(g, w, a) <= MAX_LIGHT;
      RetakenRaises(g, m, o, queued, f, w, a);
      assert a in queued || Raised(Near(g, o), Part(m, o), f, a) by {
        if !Raised(g, m, w, a) { assert !Satisfied(g, m, a); }
      }
      assert Satisfied(Near(g, o), f, a) && Edge(Near(g, o), a, c);
    } else {
      assert Read(Near(g, o), Part(m, o), c) <= Read(Near(g, o), f, c) || !InReach(o, c);
    }
  }

  /** What the flood of the columns around `o` raises has its feeder there. */
  lemma RaisedIsFedInReach(g: Grid, m: LightMap, o: Column, queued: set<Cell>, f: LightMap, c: Cell)
    requires g.Valid() && IsLight(g, m) && IsFlood(Near(g, o), Part(m, o), queued, f)
    requires (forall a :: a in queued ==> g.InHeight(a.y)) && Raised(g, m, m + f, c)
    ensures InReach(o, c) && FedInReach(g, m + f, o, c)
  {
    NearReads(g, m, o);
    PutBackReads(g, m, o, f);
    assert Raised(Near(g, o), Part(m, o), f, c);
    FloodIsFed(Near(g, o), Part(m, o), queued, f, c);
    var a :| (a in queued || Raised(Near(g, o), Part(m, o), f, a)) && Edge(Near(g, o), a, c)
             && Read(Near(g, o), f, a) == Read(Near(g, o), f, c) + 1;
    assert a in Near(g, o).cells;
  }

  /** Flooding the columns around `o` alone does what flooding the world would do if and only if
      they hold every cell that the world's flood raises, each with a feeder. */
  lemma RetakenRegionIff(g: Grid, m: LightMap, o: Column, queued: set<Cell>, f: LightMap, w: LightMap)
    requires g.Valid() && IsLight(g, m) && IsFlood(Near(g, o), Part(m, o), queued, f)
    requires AllGiversQueued(g, m, queued) && Exact(g, m, w)
    ensures m + f == w <==> Retakes(g, m, w, o)
  {
    WorldIsFlooded(g, m, queued, w);
    PartStaysBelow(g, m, o, queued, f, w);
    if Retakes(g, m, w, o) {
      forall c | c in g.cells ensures Read(g, m + f, c) == Read(g, w, c) {
        RetakenRaises(g, m, o, queued, f, w, c);
      }
      MapsAgree(g, m + f, w);
    }
    if m + f == w {
      forall c | Raised(g, m, w, c) ensures InReach(o, c) && FedInReach(g, w, o, c) {
        RaisedIsFedInReach(g, m, o, queued, f, c);
      }
    }
  }

  /** The light is exact for any sources only where it is the world's. */
  lemma RetakenIsExactIff(g: Grid, m: LightMap, sources: LightMap, o: Column, queued: set<Cell>, f: LightMap,
                          w: LightMap)
    requires g.Valid() && IsLight(g, m) && IsFlood(Near(g, o), Part(m, o), queued, f)
    requires AllGiversQueued(g, m, queued) && Exact(g, m, w)
    ensures Exact(g, sources, m + f) <==> Retakes(g, m, w, o) && Exact(g, sources, w)
  {
    RetakenRegionIff(g, m, o, queued, f, w);
    if Exact(g, sources, m + f) {
      WorldIsFlooded(g, m, queued, w);
      PartStaysBelow(g, m, o, queued, f, w);
      ExactIsLeast(g, m, w, m + f);
      MapsAgree(g, m + f, w);
    }
  }

  /** Columns whose middle one holds or touches every queued cell are enough. */
  lemma QueuedNearbyRetakes(g: Grid, m: LightMap, o: Column, queued: set<Cell>, w: LightMap)
    requires g.Valid() && IsLight(g, m) && AllGiversQueued(g, m, queued) && Exact(g, m, w)
    requires forall a :: a in queued ==> Distance(o, a) <= 1
    ensures Retakes(g, m, w, o)
  {
    NearReads(g, m, o);
    var f := FloodOf(Near(g, o), Part(m, o), queued);
    FloodAroundColumn(g, m, o, queued, f);
    FloodIsExact(g, m, queued, m + f);
    ExactIsUnique(g, m, m + f, w);
    RetakenRegionIff(g, m, o, queued, f, w);
  }

  /** So are columns that hold every lost and every queued cell, when the map was closed. */
  lemma LostInReachRetakes(g: Grid, m: LightMap, start: set<Removal>, o: Column, queued: set<Cell>, w: LightMap)
    requires g.Valid() && IsLight(g, m) && Closed(g, m) && AllGiversQueued(g, AfterRemoval(g, m, start), queued)
    requires Exact(g, AfterRemoval(g, m, start), w)
    requires forall c :: c in Lost(g, m, start) || c in queued ==> InReach(o, c)
    ensures Retakes(g, AfterRemoval(g, m, start), w, o)
  {
    var m1 := AfterRemoval(g, m, start);
    DarkenedIsLight(g, m, Lost(g, m, start));
    ExactIsLeast(g, m1, w, m);
    forall c | Raised(g, m1, w, c) ensures InReach(o, c) && FedInReach(g, w, o, c) {
      ReadDarkened(g, m, Lost(g, m, start), c);
      assert Fed(g, w, c);
      var a :| a in g.cells && Edge(g, a, c) && Read(g, w, a) == Read(g, w, c) + 1;
      ReadDarkened(g, m, Lost(g, m, start), a);
      assert InReach(o, a) by {
        if a !in Lost(g, m, start) { assert !Satisfied(g, m1, a); }
      }
    }
  }
}
