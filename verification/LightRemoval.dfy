/** Removing light: what `remove_light` darkens, why the cells it hands on are enough for the
    following flood, and when the result is the light of the remaining sources. */
module LightRemoval {
  import opened Positions
  import opened LightGrid
  import opened LightTheory

  /** The two terrains differ in the given cells only. */
  ghost predicate SameBut(g: Grid, g': Grid, changed: set<Cell>) {
    && g' == g.(blocking := g'.blocking)
    && forall c :: c !in changed ==> (c in g.blocking <==> c in g'.blocking)
  }

  ghost function CellsOf(start: set<Removal>): set<Cell> {
    set r | r in start :: r.cell
  }

  /** The caller zeroes the removed cells before it starts the flood. */
  ghost function Zeroed(m: LightMap, start: set<Removal>): LightMap {
    Darkened(m, CellsOf(start))
  }

  /** Every cell that a removal zeroes. */
  ghost function Lost(g: Grid, m: LightMap, start: set<Removal>): set<Cell> {
    CellsOf(start) + DarkSet(g, Zeroed(m, start), start)
  }

  /** The map that a removal leaves for the following flood. */
  ghost function AfterRemoval(g: Grid, m: LightMap, start: set<Removal>): LightMap {
    Darkened(m, Lost(g, m, start))
  }

  /** Every node that the darkening flood takes from its queue. */
  ghost function RemovedNodes(g: Grid, m: LightMap, start: set<Removal>): set<Removal> {
    start + set d | d in DarkSet(g, m, start) :: Removal(d, Read(g, m, d))
  }

  lemma DarkSetIsClosed(g: Grid, m: LightMap, start: set<Removal>)
    ensures DarkClosed(g, m, start, DarkSet(g, m, start))
  {
  }

  lemma DarkSetIsBelow(g: Grid, m: LightMap, start: set<Removal>, bound: nat)
    requires forall r :: r in start ==> r.level <= bound
    ensures forall c :: c in DarkSet(g, m, start) ==> 0 < Read(g, m, c) < bound
  {
    var d := set c | c in g.cells && 0 < Read(g, m, c) < bound;
    assert DarkClosed(g, m, start, d);
  }

  lemma DarkSetIsLit(g: Grid, m: LightMap, start: set<Removal>)
    ensures forall c :: c in DarkSet(g, m, start) ==> 0 < Read(g, m, c)
  {
    var d := set c | c in g.cells && 0 < Read(g, m, c);
    assert DarkClosed(g, m, start, d);
  }

  lemma ReadDarkened(g: Grid, m: LightMap, d: set<Cell>, c: Cell)
    ensures Read(g, Darkened(m, d), c) == if c in d && c in m && g.InHeight(c.y) then 0 else Read(g, m, c)
  {
  }

  lemma DarkenedIsLight(g: Grid, m: LightMap, d: set<Cell>)
    requires IsLight(g, m)
    ensures IsLight(g, Darkened(m, d))
  {
  }

  /** Zeroing the cells and then darkening from them is zeroing every lost cell. */
  lemma DarkenedTwice(g: Grid, m: LightMap, start: set<Removal>)
    ensures AfterRemoval(g, m, start) == Darkened(Zeroed(m, start), DarkSet(g, Zeroed(m, start), start))
  {
  }

  /** The darkening flood stops only at cells as bright as the neighbour it came from, save
      around a node queued below its stored level. */
  lemma DarkeningStops(g: Grid, m: LightMap, start: set<Removal>, a: Cell, c: Cell)
    requires g.Valid() && IsLight(g, m)
    requires a in Lost(g, m, start) && c !in Lost(g, m, start) && Adjacent(a, c) && a in g.cells && c in g.cells
    requires 0 < Read(g, m, c) < Read(g, m, a)
    ensures exists r :: r in start && r.cell == a && r.level < Read(g, m, a)
  {
    var m0 := Zeroed(m, start);
    DarkSetIsClosed(g, m0, start);
    assert Read(g, m0, c) == Read(g, m, c);
    if a in CellsOf(start) {
      var r :| r in start && r.cell == a;
      assert !DarkStep(g, m0, r, c);
    } else {
      assert Read(g, m0, a) == Read(g, m, a);
      assert DarkStep(g, m0, Removal(a, Read(g, m0, a)), c);
      assert false;
    }
  }

  /** The hand-off: from a closed map with some cells zeroed, every cell that still has
      something to give once the darkening flood ends is in the propagation queue. */
  lemma HandOffCovers(before: Grid, g: Grid, m: LightMap, start: set<Removal>, queued: set<Cell>, a: Cell)
    requires g.Valid() && IsLight(g, m) && Closed(before, m) && SameBut(before, g, CellsOf(start))
    requires HandedOn(g, AfterRemoval(g, m, start), RemovedNodes(g, Zeroed(m, start), start), queued)
    requires a in g.cells && !Satisfied(g, AfterRemoval(g, m, start), a)
    ensures a in queued
  {
    var m0 := Zeroed(m, start);
    var m1 := AfterRemoval(g, m, start);
    var b :| Edge(g, a, b) && Read(g, m1, a) > Read(g, m1, b) + 1;
    DarkSetIsClosed(g, m0, start);
    assert Adjacent(b, a);
    assert Read(g, m1, a) == Read(g, m0, a) == Read(g, m, a);
    if b in DarkSet(g, m0, start) {
      var r := Removal(b, Read(g, m0, b));
      assert r in RemovedNodes(g, m0, start);
      assert !DarkStep(g, m0, r, a);
    } else if b in CellsOf(start) {
      var r :| r in start && r.cell == b;
      assert r in RemovedNodes(g, m0, start);
      assert !DarkStep(g, m0, r, a);
    } else {
      assert Satisfied(before, m, a) && Edge(before, a, b);
      assert false;
    }
  }

  /** No cell outside `lost` was fed by a lost cell that the flood leaves darker than it was. */
  ghost predicate FeedersRestored(g: Grid, m: LightMap, lost: set<Cell>, f: LightMap) {
    forall a, c ::
      (a in lost && a in g.cells && c in g.cells && c !in lost && Adjacent(a, c) && 0 < Read(g, m, c) < Read(g, m, a))
      ==> Read(g, m, a) <= Read(g, f, a)
  }

  ghost predicate AgreeOutside(g: Grid, m: LightMap, n: LightMap, changed: set<Cell>) {
    forall c :: c in g.cells && c !in changed ==> Read(g, m, c) == Read(g, n, c)
  }

  lemma KeptIsFed(before: Grid, g: Grid, sources: LightMap, m: LightMap, lost: set<Cell>, n: LightMap, f: LightMap,
                  c: Cell)
    requires before.Valid() && g.Valid() && Supported(before, sources, m)
    requires SameBut(before, g, lost) && AgreeOutside(g, m, n, lost) && Above(g, f, n) && Closed(g, f)
    requires FeedersRestored(g, m, lost, f)
    requires c in g.cells && c !in lost && 0 < Read(g, f, c) == Read(g, m, c) != Read(g, sources, c)
    ensures Fed(g, f, c)
  {
    assert Fed(before, m, c);
    var a :| a in before.cells && Edge(before, a, c) && Read(before, m, a) == Read(before, m, c) + 1;
    assert Edge(g, a, c);
    assert Satisfied(g, f, a);
    assert Read(g, m, a) <= Read(g, f, a) by {
      if a !in lost { assert Read(g, n, a) == Read(g, m, a); }
    }
  }

  /** Rewriting the light and the sources of some cells and flooding gives the light of the new
      sources: outside those cells the light stays, and what fed it still does. */
  lemma RewriteStaysExact(before: Grid, g: Grid, sources: LightMap, m: LightMap, changed: set<Cell>,
                          sources': LightMap, n: LightMap, f: LightMap)
    requires before.Valid() && g.Valid() && Exact(before, sources, m) && Exact(g, n, f)
    requires SameBut(before, g, changed) && FeedersRestored(g, m, changed, f)
    requires AgreeOutside(g, m, n, changed) && AgreeOutside(g, sources, sources', changed)
    requires forall c :: c in g.cells && c in changed ==> Read(g, sources', c) == Read(g, n, c)
    ensures Exact(g, sources', f)
  {
    forall c | c in g.cells ensures Read(g, sources', c) <= Read(g, f, c) {
      assert Read(before, sources, c) <= Read(before, m, c);
      assert Read(g, n, c) <= Read(g, f, c);
    }
    forall c | c in g.cells && 0 < Read(g, f, c) != Read(g, sources', c) ensures Fed(g, f, c) {
      if Read(g, f, c) == Read(g, n, c) {
        KeptIsFed(before, g, sources, m, changed, n, f, c);
      }
    }
  }

  /** The flood that follows a removal gives all the light that the removal left can give. */
  lemma RemovalFloodIsExact(before: Grid, g: Grid, m: LightMap, start: set<Removal>, queued: set<Cell>, f: LightMap)
    requires g.Valid() && IsLight(g, m) && Closed(before, m) && SameBut(before, g, CellsOf(start))
    requires forall a :: a in queued ==> g.InHeight(a.y)
    requires HandedOn(g, AfterRemoval(g, m, start), RemovedNodes(g, Zeroed(m, start), start), queued)
    requires IsFlood(g, AfterRemoval(g, m, start), queued, f)
    ensures Exact(g, AfterRemoval(g, m, start), f)
  {
    forall a | a in g.cells && !Satisfied(g, AfterRemoval(g, m, start), a) ensures a in queued {
      HandOffCovers(before, g, m, start, queued, a);
    }
    FloodIsExact(g, AfterRemoval(g, m, start), queued, f);
  }

  /** All the light that a removal left can give is the light of the sources it left lit. A node
      queued below its stored level is allowed when that level is restored. */
  lemma SparedSources(before: Grid, g: Grid, sources: LightMap, m: LightMap, start: set<Removal>, f: LightMap)
    requires before.Valid() && g.Valid() && IsLight(g, sources) && Exact(before, sources, m)
    requires SameBut(before, g, CellsOf(start)) && Exact(g, AfterRemoval(g, m, start), f)
    requires forall r :: r in start ==> Read(g, m, r.cell) <= r.level || Read(g, m, r.cell) <= Read(g, f, r.cell)
    ensures Exact(g, Darkened(sources, Lost(g, m, start)), f)
  {
    var lost := Lost(g, m, start);
    forall a, c | a in lost && a in g.cells && c in g.cells && c !in lost && Adjacent(a, c)
                  && 0 < Read(g, m, c) < Read(g, m, a)
      ensures Read(g, m, a) <= Read(g, f, a)
    {
      DarkeningStops(g, m, start, a, c);
    }
    assert FeedersRestored(g, m, lost, f);
    RewriteStaysExact(before, g, sources, m, lost, Darkened(sources, lost), AfterRemoval(g, m, start), f);
  }

  /** After removal and flood the map is the light of the sources the removal left lit. */
  lemma RemoveThenFlood(before: Grid, g: Grid, sources: LightMap, m: LightMap, start: set<Removal>,
                        queued: set<Cell>, f: LightMap)
    requires before.Valid() && g.Valid() && IsLight(g, sources) && Exact(before, sources, m)
    requires SameBut(before, g, CellsOf(start))
    requires forall a :: a in queued ==> g.InHeight(a.y)
    requires HandedOn(g, AfterRemoval(g, m, start), RemovedNodes(g, Zeroed(m, start), start), queued)
    requires IsFlood(g, AfterRemoval(g, m, start), queued, f)
    requires forall r :: r in start ==> Read(g, m, r.cell) <= r.level || Read(g, m, r.cell) <= Read(g, f, r.cell)
    ensures Exact(g, Darkened(sources, Lost(g, m, start)), f)
  {
    RemovalFloodIsExact(before, g, m, start, queued, f);
    SparedSources(before, g, sources, m, start, f);
  }

  // ----- Which sources survive -----

  lemma LostIsBelow(g: Grid, m: LightMap, start: set<Removal>, bound: nat, c: Cell)
    requires forall r :: r in start ==> r.level <= bound
    requires c in Lost(g, m, start) && c !in CellsOf(start)
    ensures c in DarkSet(g, Zeroed(m, start), start) && 0 < Read(g, m, c) < bound
  {
    DarkSetIsBelow(g, Zeroed(m, start), start, bound);
    ReadDarkened(g, m, CellsOf(start), c);
  }

  // ----- A single removal at any level -----

  /** A neighbour of `z`, open in the changed terrain, is brighter than `z` was. */
  ghost predicate HasBrighterNeighbor(g: Grid, m: LightMap, z: Cell) {
    exists x :: x in g.cells && Edge(g, x, z) && Read(g, m, z) < Read(g, m, x)
  }

  /** Every cell that `z` fed is a source at its own level or has another feeder. */
  ghost predicate FedWithout(g: Grid, sources: LightMap, m: LightMap, z: Cell) {
    forall c :: Edge(g, z, c) && 0 < Read(g, m, c) != Read(g, sources, c) && Read(g, m, c) + 1 == Read(g, m, z)
      ==> OtherFeeder(g, m, z, c)
  }

  ghost predicate OtherFeeder(g: Grid, m: LightMap, z: Cell, c: Cell) {
    exists a :: a in g.cells && a != z && Edge(g, a, c) && Read(g, m, a) == Read(g, m, c) + 1
  }

  lemma LoneLost(g: Grid, m: LightMap, z: Cell, level: nat)
    ensures z in Lost(g, m, {Removal(z, level)})
    ensures forall c :: c in Lost(g, m, {Removal(z, level)}) && c != z ==> 0 < Read(g, m, c) < level
  {
    var start := {Removal(z, level)};
    assert Removal(z, level) in start && CellsOf(start) == {z};
    forall c | c in Lost(g, m, start) && c != z ensures 0 < Read(g, m, c) < level {
      LostIsBelow(g, m, start, level, c);
    }
  }

  lemma BrighterNeighborRestores(g: Grid, m: LightMap, z: Cell, level: nat, w: LightMap)
    requires g.Valid() && IsLight(g, m) && z in g.cells && level < Read(g, m, z) && HasBrighterNeighbor(g, m, z)
    requires Exact(g, AfterRemoval(g, m, {Removal(z, level)}), w)
    ensures Read(g, m, z) <= Read(g, w, z)
  {
    var x :| x in g.cells && Edge(g, x, z) && Read(g, m, z) < Read(g, m, x);
    LoneLost(g, m, z, level);
    ReadDarkened(g, m, Lost(g, m, {Removal(z, level)}), x);
    assert Satisfied(g, w, x);
  }

  /** With no brighter neighbour the flood stays below the old map and leaves `z` darker. */
  lemma NotRestored(before: Grid, g: Grid, m: LightMap, z: Cell, level: nat, w: LightMap)
    requires g.Valid() && IsLight(g, m) && Closed(before, m) && SameBut(before, g, {z}) && z in g.cells
    requires level < Read(g, m, z) && !HasBrighterNeighbor(g, m, z)
    requires Exact(g, AfterRemoval(g, m, {Removal(z, level)}), w)
    ensures Closed(g, m) && Above(g, m, w) && Read(g, w, z) < Read(g, m, z)
  {
    var m1 := AfterRemoval(g, m, {Removal(z, level)});
    forall a, b | a in g.cells && Edge(g, a, b) ensures Read(g, m, a) <= Read(g, m, b) + 1 {
      if b != z { assert Satisfied(before, m, a) && Edge(before, a, b); }
    }
    ExactIsLeast(g, m1, w, m);
    LoneLost(g, m, z, level);
    if 0 < Read(g, w, z) {
      assert Fed(g, w, z);
      var x :| x in g.cells && Edge(g, x, z) && Read(g, w, x) == Read(g, w, z) + 1;
      assert Read(g, w, x) <= Read(g, m, x);
    }
  }

  lemma KeptWithout(before: Grid, g: Grid, sources: LightMap, m: LightMap, z: Cell, level: nat, w: LightMap, c: Cell)
    requires before.Valid() && g.Valid() && Exact(before, sources, m) && SameBut(before, g, {z}) && z in g.cells
    requires level < Read(g, m, z) && FedWithout(g, sources, m, z)
    requires Exact(g, AfterRemoval(g, m, {Removal(z, level)}), w)
    requires c in g.cells && c !in Lost(g, m, {Removal(z, level)})
             && 0 < Read(g, w, c) == Read(g, m, c) != Read(g, sources, c)
    ensures Fed(g, w, c)
  {
    var start := {Removal(z, level)};
    var lost := Lost(g, m, start);
    LoneLost(g, m, z, level);
    hide Lost, Adjacent;
    assert Fed(before, m, c);
    var a :| a in before.cells && Edge(before, a, c) && Read(before, m, a) == Read(before, m, c) + 1;
    if a in lost {
      DarkeningStops(g, m, start, a, c);
      assert a == z;
      assert OtherFeeder(g, m, z, c);
      a :| a in g.cells && a != z && Edge(g, a, c) && Read(g, m, a) == Read(g, m, c) + 1;
    }
    ReadDarkened(g, m, lost, a);
    assert Edge(g, a, c) && Satisfied(g, w, a);
  }

  /** When a single removal, at any level and in any terrain, leaves the light of the sources it
      spared: its level is the stored one or above, or a neighbour restores the cell, or nothing
      that the cell fed depended on it. */
  lemma LoneRemovalIff(before: Grid, g: Grid, sources: LightMap, m: LightMap, z: Cell, level: nat, w: LightMap)
    requires before.Valid() && g.Valid() && IsLight(g, sources) && Exact(before, sources, m)
    requires SameBut(before, g, {z}) && z in g.cells
    requires Exact(g, AfterRemoval(g, m, {Removal(z, level)}), w)
    ensures Exact(g, Darkened(sources, Lost(g, m, {Removal(z, level)})), w)
       <==> Read(g, m, z) <= level || HasBrighterNeighbor(g, m, z) || FedWithout(g, sources, m, z)
  {
    hide Lost, AfterRemoval, FedWithout, DarkSet, Supported;
    var start := {Removal(z, level)};
    assert CellsOf(start) == {z} && forall r :: r in start ==> r == Removal(z, level);
    if Read(g, m, z) <= level {
      SparedSources(before, g, sources, m, start, w);
    } else if HasBrighterNeighbor(g, m, z) {
      BrighterNeighborRestores(g, m, z, level, w);
      SparedSources(before, g, sources, m, start, w);
    } else {
      NotRestored(before, g, m, z, level, w);
      UnrestoredRemovalIff(before, g, sources, m, z, level, w);
    }
  }

  lemma UnrestoredRemovalIff(before: Grid, g: Grid, sources: LightMap, m: LightMap, z: Cell, level: nat, w: LightMap)
    requires before.Valid() && g.Valid() && IsLight(g, sources) && Exact(before, sources, m)
    requires SameBut(before, g, {z}) && z in g.cells && level < Read(g, m, z)
    requires Closed(g, m) && Above(g, m, w) && Read(g, w, z) < Read(g, m, z)
    requires Exact(g, AfterRemoval(g, m, {Removal(z, level)}), w)
    ensures Exact(g, Darkened(sources, Lost(g, m, {Removal(z, level)})), w) <==> FedWithout(g, sources, m, z)
  {
    var lost := Lost(g, m, {Removal(z, level)});
    var kept := Darkened(sources, lost);
    LoneLost(g, m, z, level);
    forall c ensures Read(g, kept, c) == (if c in lost && c in g.cells then 0 else Read(g, sources, c))
      ensures Read(g, Darkened(m, lost), c) == (if c in lost && c in g.cells then 0 else Read(g, m, c))
    {
      ReadDarkened(g, sources, lost, c);
      ReadDarkened(g, m, lost, c);
    }
    if FedWithout(g, sources, m, z) {
      KeptSourcesShow(before, g, sources, m, lost, w);
      forall c | c in g.cells && 0 < Read(g, w, c) != Read(g, kept, c) ensures Fed(g, w, c) {
        if Read(g, w, c) == Read(g, Darkened(m, lost), c) { KeptWithout(before, g, sources, m, z, level, w, c); }
      }
    }
    if Exact(g, kept, w) {
      forall c | Edge(g, z, c) && 0 < Read(g, m, c) != Read(g, sources, c) && Read(g, m, c) + 1 == Read(g, m, z)
        ensures OtherFeeder(g, m, z, c)
      {
        StaleIsFed(g, sources, m, z, level, w, c);
      }
    }
  }

  lemma KeptSourcesShow(before: Grid, g: Grid, sources: LightMap, m: LightMap, lost: set<Cell>, w: LightMap)
    requires before.Valid() && g.Valid() && IsLight(g, sources) && Exact(before, sources, m) && before.cells == g.cells
    requires before.minY == g.minY && before.maxY == g.maxY && before.openSky == g.openSky
    requires Above(g, w, Darkened(m, lost))
    ensures Above(g, w, Darkened(sources, lost))
  {
    forall c | c in g.cells ensures Read(g, Darkened(sources, lost), c) <= Read(g, w, c) {
      assert Read(before, sources, c) <= Read(before, m, c);
      ReadDarkened(g, sources, lost, c);
      ReadDarkened(g, m, lost, c);
    }
  }

  lemma StaleIsFed(g: Grid, sources: LightMap, m: LightMap, z: Cell, level: nat, w: LightMap, c: Cell)
    requires g.Valid() && IsLight(g, sources) && IsLight(g, m) && Closed(g, m) && Above(g, m, w)
    requires Read(g, w, z) < Read(g, m, z) && level < Read(g, m, z) && z in g.cells
    requires Exact(g, Darkened(sources, Lost(g, m, {Removal(z, level)})), w)
             && Above(g, w, AfterRemoval(g, m, {Removal(z, level)}))
    requires Edge(g, z, c) && 0 < Read(g, m, c) != Read(g, sources, c) && Read(g, m, c) + 1 == Read(g, m, z)
    ensures OtherFeeder(g, m, z, c)
  {
    var lost := Lost(g, m, {Removal(z, level)});
    LoneLost(g, m, z, level);
    ReadDarkened(g, sources, lost, c);
    ReadDarkened(g, m, lost, c);
    hide Lost, Darkened, Adjacent;
    assert Read(g, w, c) == Read(g, m, c);
    assert Fed(g, w, c);
    var a :| a in g.cells && Edge(g, a, c) && Read(g, w, a) == Read(g, w, c) + 1;
    assert Satisfied(g, m, a);
  }

  /** No source is darkened when each one left is at least as bright as every removed level. */
  lemma StrongSourcesSurvive(g: Grid, sources: LightMap, m: LightMap, start: set<Removal>)
    requires g.Valid() && IsLight(g, sources) && IsLight(g, m) && Above(g, m, sources)
    requires forall r, c ::
      r in start && c in g.cells && c !in CellsOf(start) && 0 < Read(g, sources, c) ==> r.level <= Read(g, sources, c)
    ensures Darkened(sources, Lost(g, m, start)) == Darkened(sources, CellsOf(start))
  {
    var m0 := Zeroed(m, start);
    var d := set c | c in g.cells && 0 < Read(g, m0, c) && exists r :: r in start && Read(g, m0, c) < r.level;
    assert DarkClosed(g, m0, start, d);
    forall c | c in DarkSet(g, m0, start) ensures Read(g, sources, c) == 0 {
      assert c in d;
      ReadDarkened(g, m, CellsOf(start), c);
    }
  }

  /** Brighter sources that a map already shows change nothing. */
  lemma MoreSourcesShown(g: Grid, fewer: LightMap, more: LightMap, f: LightMap)
    requires Exact(g, fewer, f) && Above(g, more, fewer) && Above(g, f, more)
    ensures Exact(g, more, f)
  {
    forall c | c in g.cells && 0 < Read(g, f, c) != Read(g, more, c) ensures Fed(g, f, c) {
      assert Read(g, f, c) != Read(g, fewer, c);
    }
  }

  /** Restoring some darkened sources does not change the light exactly when it already gives
      each of them its own level. */
  lemma RestoringSources(g: Grid, sources: LightMap, zeroed: set<Cell>, lost: set<Cell>, f: LightMap)
    requires g.Valid() && IsLight(g, sources) && zeroed <= lost && Exact(g, Darkened(sources, lost), f)
    ensures Exact(g, Darkened(sources, zeroed), f)
      <==> forall c :: c in lost && c in g.cells && c !in zeroed ==> Read(g, sources, c) <= Read(g, f, c)
  {
    var kept, all := Darkened(sources, lost), Darkened(sources, zeroed);
    forall c | c in g.cells
      ensures Read(g, kept, c) == if c in lost then 0 else Read(g, sources, c)
      ensures Read(g, all, c) == if c in zeroed then 0 else Read(g, sources, c)
    {
    }
    hide Darkened;
    if forall c :: c in lost && c in g.cells && c !in zeroed ==> Read(g, sources, c) <= Read(g, f, c) {
      MoreSourcesShown(g, kept, all, f);
    }
  }

  /** When the incremental result is the recomputation: exactly when from the sources left lit a
      path reaches every darkened source at its own level. */
  lemma RecomputationAgrees(g: Grid, sources: LightMap, m: LightMap, start: set<Removal>, f: LightMap)
    requires g.Valid() && IsLight(g, sources)
    requires Exact(g, Darkened(sources, Lost(g, m, start)), f)
    ensures Exact(g, Darkened(sources, CellsOf(start)), f) <==> SourcesReached(g, sources, m, start)
  {
    var lost := Lost(g, m, start);
    RestoringSources(g, sources, CellsOf(start), lost, f);
    DarkSetIsLit(g, Zeroed(m, start), start);
    forall c | c in DarkSet(g, Zeroed(m, start), start) ensures c in g.cells && c !in CellsOf(start) {
      ReadDarkened(g, m, CellsOf(start), c);
    }
    forall c | c in DarkSet(g, Zeroed(m, start), start) && 0 < Read(g, sources, c)
      ensures Reached(g, Darkened(sources, lost), c, Read(g, sources, c)) <==> Read(g, sources, c) <= Read(g, f, c)
    {
      ReachedIffLit(g, Darkened(sources, lost), f, c, Read(g, sources, c));
    }
  }

  /** From the sources the removal spares a path reaches every other one at its own level. */
  ghost predicate SourcesReached(g: Grid, sources: LightMap, m: LightMap, start: set<Removal>) {
    forall c :: c in DarkSet(g, Zeroed(m, start), start) && 0 < Read(g, sources, c)
      ==> Reached(g, Darkened(sources, Lost(g, m, start)), c, Read(g, sources, c))
  }
}
