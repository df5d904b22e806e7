/** The world's side of `src/lighting.rs`: taking nine columns out, flooding them, putting them
    back, and the four updates that follow a block edit. Blocks are edited elsewhere, before the
    light is updated, so the terrain is constant here. */
module LightUpdates {
  import opened Positions
  import opened LightGrid
  import opened LightTheory
  import opened LightRemoval
  import opened LightRegion
  import opened LightEdits
  import opened Sunlight
  import opened LightSections
  import opened LightFlares
  import opened Lighting

  /** The nine columns around `o` were flooded and the rest of the world left alone. */
  ghost predicate FloodedPart(g: Grid, m: LightMap, o: Column, queued: set<Cell>, m': LightMap) {
    && IsFlood(Near(g, o), Part(m, o), queued, Part(m', o))
    && m' == m + Part(m', o)
  }

  lemma NothingQueued(g: Grid, m: LightMap, o: Column)
    requires g.Valid() && IsLight(g, m)
    ensures FloodedPart(g, m, o, {}, m) && IsFlood(g, m, {}, m)
  {
    NearReads(g, m, o);
  }

  /** The nine columns around `o` were darkened, and their lit border handed on. */
  ghost predicate DarkenedPart(g: Grid, m: LightMap, o: Column, start: set<Removal>, queued: set<Cell>,
                               m': LightMap, queued': set<Cell>) {
    var (near, part) := (Near(g, o), Part(m, o));
    && m' == m + Darkened(part, DarkSet(near, part, start))
    && HandedOn(near, Darkened(part, DarkSet(near, part, start)), RemovedNodes(near, part, start), queued')
    && OnlyHandsOn(near, part, RemovedNodes(near, part, start), queued, queued')
  }

  lemma NothingRemoved(g: Grid, m: LightMap, o: Column, queued: set<Cell>)
    requires g.Valid() && IsLight(g, m)
    ensures DarkenedPart(g, m, o, {}, queued, m, queued)
  {
    var (near, part) := (Near(g, o), Part(m, o));
    assert DarkClosed(near, part, {}, {});
    assert Darkened(part, DarkSet(near, part, {})) == part;
  }

  lemma SameNodes(g: Grid, m: LightMap, o: Column, start: set<Removal>)
    requires g.Valid() && IsLight(g, m)
    requires forall r :: r in start ==> ColumnOf(r.cell) == o && r.level <= MAX_LIGHT
    ensures DarkSet(Near(g, o), Part(m, o), start) == DarkSet(g, m, start)
    ensures RemovedNodes(Near(g, o), Part(m, o), start) == RemovedNodes(g, m, start)
    ensures forall r, c :: r in RemovedNodes(g, m, start) && Adjacent(r.cell, c) ==> InReach(o, c)
    ensures forall c :: c in DarkSet(g, m, start) ==> c in g.cells && InReach(o, c)
  {
    forall r | r in start ensures Distance(o, r.cell) == 0 { ReachIsDistance(o, r.cell); }
    DarkAroundColumn(g, m, o, start);
    NearReads(g, m, o);
    assert forall c :: c in DarkSet(Near(g, o), Part(m, o), start) ==> c in Near(g, o).cells;
  }

  lemma DarkenedPutBack(g: Grid, m: LightMap, o: Column, dark: set<Cell>)
    requires g.Valid() && IsLight(g, m) && forall c :: c in dark ==> InReach(o, c)
    ensures m + Darkened(Part(m, o), dark) == Darkened(m, dark)
    ensures Part(Darkened(m, dark), o) == Darkened(Part(m, o), dark)
  {
  }

  /** From one column at stored levels, darkening the nine columns darkens the world. */
  lemma DarkenedWorld(g: Grid, m: LightMap, o: Column, start: set<Removal>, m': LightMap, queued': set<Cell>)
    requires g.Valid() && IsLight(g, m) && DarkenedPart(g, m, o, start, {}, m', queued')
    requires forall r :: r in start ==> ColumnOf(r.cell) == o && r.level <= MAX_LIGHT
    ensures m' == Darkened(m, DarkSet(g, m, start))
    ensures HandedOn(g, m', RemovedNodes(g, m, start), queued')
    ensures OnlyHandsOn(g, m, RemovedNodes(g, m, start), {}, queued')
  {
    SameNodes(g, m, o, start);
    DarkenedPutBack(g, m, o, DarkSet(g, m, start));
    DarkenedIsLight(g, m, DarkSet(g, m, start));
    NearReads(g, m, o);
    NearReads(g, m', o);
  }

  /** The outcome of darkening from one column and then flooding nine columns around the first
      cell handed on. */
  ghost predicate Relit(g: Grid, m0: LightMap, start: set<Removal>, handed: seq<Cell>, m': LightMap) {
    var m1 := Darkened(m0, DarkSet(g, m0, start));
    && HandedOn(g, m1, RemovedNodes(g, m0, start), Elements(handed))
    && OnlyHandsOn(g, m0, RemovedNodes(g, m0, start), {}, Elements(handed))
    && if handed == [] then m' == m1 else FloodedPart(g, m1, ColumnOf(handed[0]), Elements(handed), m')
  }

  /** The light that the world's flood gives after the removal. */
  ghost function Recovered(g: Grid, m: LightMap, start: set<Removal>): (w: LightMap)
    requires g.Valid() && IsLight(g, m)
    ensures Exact(g, AfterRemoval(g, m, start), w)
  {
    DarkenedIsLight(g, m, Lost(g, m, start));
    Brightest(g, AfterRemoval(g, m, start))
  }

  /** The columns around `o` hold every cell that recovers light, each with a feeder. */
  ghost predicate Recovers(g: Grid, m: LightMap, start: set<Removal>, o: Column)
    requires g.Valid() && IsLight(g, m)
  {
    Retakes(g, AfterRemoval(g, m, start), Recovered(g, m, start), o)
  }

  /** The columns taken around the first cell handed on do. */
  ghost predicate FrontRecovers(g: Grid, m: LightMap, start: set<Removal>, handed: seq<Cell>)
    requires g.Valid() && IsLight(g, m)
  {
    handed == [] || Recovers(g, m, start, ColumnOf(handed[0]))
  }

  lemma HandedAreGivers(before: Grid, g: Grid, m: LightMap, start: set<Removal>, handed: seq<Cell>, m': LightMap)
    requires g.Valid() && IsLight(g, m) && Closed(before, m) && SameBut(before, g, CellsOf(start))
    requires Relit(g, Zeroed(m, start), start, handed, m')
    ensures AllGiversQueued(g, AfterRemoval(g, m, start), Elements(handed))
  {
    hide DarkSet, Darkened, FloodedPart, Satisfied;
    DarkenedTwice(g, m, start);
    var m1 := AfterRemoval(g, m, start);
    forall a | a in g.cells && !Satisfied(g, m1, a) ensures a in Elements(handed) {
      HandOffCovers(before, g, m, start, Elements(handed), a);
    }
  }

  /** What the update leaves is exact, for any sources, if and only if the re-taken columns recover
      all the light and the world's flood would be exact. */
  lemma RelitIff(before: Grid, g: Grid, m: LightMap, start: set<Removal>, handed: seq<Cell>, m': LightMap,
                 sources: LightMap)
    requires g.Valid() && IsLight(g, m) && Closed(before, m) && SameBut(before, g, CellsOf(start))
    requires Relit(g, Zeroed(m, start), start, handed, m')
    ensures Exact(g, sources, m') <==> FrontRecovers(g, m, start, handed) && Exact(g, sources, Recovered(g, m, start))
  {
    hide DarkSet, Exact, Retakes, HandedOn, OnlyHandsOn;
    HandedAreGivers(before, g, m, start, handed, m');
    DarkenedTwice(g, m, start);
    DarkenedIsLight(g, m, Lost(g, m, start));
    var m1, w, queued := AfterRemoval(g, m, start), Recovered(g, m, start), Elements(handed);
    if handed == [] {
      assert queued == {};
      NothingLeft(g, m1, w);
    } else {
      var o := ColumnOf(handed[0]);
      RetakenIsExactIff(g, m1, sources, o, queued, Part(m', o), w);
    }
  }

  lemma NothingLeft(g: Grid, m: LightMap, w: LightMap)
    requires g.Valid() && IsLight(g, m) && AllGiversQueued(g, m, {}) && Exact(g, m, w)
    ensures m == w
  {
    assert Closed(g, m);
    ExactIsUnique(g, m, m, w);
  }

  // ----- What can be seen before the update -----

  /** Cells the removal may hand on: lit neighbours at the level of a removed cell or above. */
  ghost predicate OnBorder(g: Grid, m: LightMap, start: set<Removal>, c: Cell) {
    exists r :: r in RemovedNodes(g, Zeroed(m, start), start) && Adjacent(r.cell, c) && g.InHeight(c.y)
      && Read(g, Zeroed(m, start), c) >= r.level
  }

  /** When the columns around every border cell recover all the light, no order of the queue matters. */
  lemma BorderRecovers(g: Grid, m: LightMap, start: set<Removal>, handed: seq<Cell>, m': LightMap)
    requires g.Valid() && IsLight(g, m) && Relit(g, Zeroed(m, start), start, handed, m')
    requires forall c :: OnBorder(g, m, start, c) ==> Recovers(g, m, start, ColumnOf(c))
    ensures FrontRecovers(g, m, start, handed)
  {
    hide Recovers, DarkSet, FloodedPart;
    if handed != [] {
      assert handed[0] in Elements(handed);
      assert OnBorder(g, m, start, handed[0]);
    }
  }

  /** They do when the border is narrow: within a block of the column of each of its cells. */
  lemma NarrowBorderRecovers(before: Grid, g: Grid, m: LightMap, start: set<Removal>, handed: seq<Cell>, m': LightMap)
    requires g.Valid() && IsLight(g, m) && Closed(before, m) && SameBut(before, g, CellsOf(start))
    requires Relit(g, Zeroed(m, start), start, handed, m')
    requires forall b, c :: OnBorder(g, m, start, b) && OnBorder(g, m, start, c) ==> Distance(ColumnOf(b), c) <= 1
    ensures FrontRecovers(g, m, start, handed)
  {
    hide DarkSet, FloodedPart, HandedOn, Retakes;
    if handed != [] {
      HandedAreGivers(before, g, m, start, handed, m');
      DarkenedIsLight(g, m, Lost(g, m, start));
      forall a | a in Elements(handed) ensures OnBorder(g, m, start, a) {}
      assert handed[0] in Elements(handed);
      QueuedNearbyRetakes(g, AfterRemoval(g, m, start), ColumnOf(handed[0]), Elements(handed), Recovered(g, m, start));
    }
  }

  /** Or when the map was closed and the columns around each border cell hold every lost cell and
      the border. */
  lemma LostNearBorderRecovers(before: Grid, g: Grid, m: LightMap, start: set<Removal>, handed: seq<Cell>, m': LightMap)
    requires g.Valid() && IsLight(g, m) && Closed(before, m) && Closed(g, m) && SameBut(before, g, CellsOf(start))
    requires Relit(g, Zeroed(m, start), start, handed, m')
    requires forall b, c :: OnBorder(g, m, start, b) && (OnBorder(g, m, start, c) || c in Lost(g, m, start))
               ==> InReach(ColumnOf(b), c)
    ensures FrontRecovers(g, m, start, handed)
  {
    hide DarkSet, FloodedPart, HandedOn, Retakes, Closed, InReach, Lost;
    if handed != [] {
      HandedAreGivers(before, g, m, start, handed, m');
      forall a | a in Elements(handed) ensures OnBorder(g, m, start, a) {}
      assert handed[0] in Elements(handed);
      LostInReachRetakes(g, m, start, ColumnOf(handed[0]), Elements(handed), Recovered(g, m, start));
    }
  }

  // ----- Removal and recomputation -----

  lemma ExactFacts(before: Grid, g: Grid, sources: LightMap, m: LightMap)
    requires before.Valid() && Exact(before, sources, m) && before.cells == g.cells
    ensures IsLight(g, m) && Closed(before, m)
  {
  }

  /** The whole update from removals at the stored levels or above: an exact map becomes the light
      of the sources left lit if and only if the re-taken columns recover all the light. */
  lemma RelightIsExact(before: Grid, g: Grid, sources: LightMap, m: LightMap, start: set<Removal>, handed: seq<Cell>,
                       m': LightMap)
    requires before.Valid() && g.Valid() && IsLight(g, sources) && Exact(before, sources, m)
    requires SameBut(before, g, CellsOf(start)) && Relit(g, Zeroed(m, start), start, handed, m')
    requires forall r :: r in start ==> Read(g, m, r.cell) <= r.level
    ensures Exact(g, Darkened(sources, Lost(g, m, start)), m') <==> FrontRecovers(g, m, start, handed)
  {
    hide Relit, DarkSet, FrontRecovers;
    RelitIff(before, g, m, start, handed, m', Darkened(sources, Lost(g, m, start)));
    SparedSources(before, g, sources, m, start, Recovered(g, m, start));
  }

  /** What a single removal needs, seen before the update: the stored level or more, or a brighter
      neighbour, or nothing fed by the cell alone. */
  ghost predicate Removable(g: Grid, sources: LightMap, m: LightMap, z: Cell, level: nat) {
    Read(g, m, z) <= level || HasBrighterNeighbor(g, m, z) || FedWithout(g, sources, m, z)
  }

  /** The whole update from a single removal at any level, in whatever terrain it leaves. */
  lemma LoneRelightIsExact(before: Grid, g: Grid, sources: LightMap, m: LightMap, z: Cell, level: nat,
                           handed: seq<Cell>, m': LightMap)
    requires before.Valid() && g.Valid() && IsLight(g, sources) && Exact(before, sources, m)
    requires SameBut(before, g, {z}) && z in g.cells && Relit(g, m[z := 0], {Removal(z, level)}, handed, m')
    ensures Exact(g, Darkened(sources, Lost(g, m, {Removal(z, level)})), m')
       <==> FrontRecovers(g, m, {Removal(z, level)}, handed) && Removable(g, sources, m, z, level)
  {
    hide Relit, DarkSet, FrontRecovers, HasBrighterNeighbor, FedWithout;
    var start := {Removal(z, level)};
    LoneZeroed(g, m, z, level);
    RelitIff(before, g, m, start, handed, m', Darkened(sources, Lost(g, m, start)));
    LoneRemovalIff(before, g, sources, m, z, level, Recovered(g, m, start));
  }

  lemma SparedIfAll(g: Grid, sources: LightMap, m: LightMap, start: set<Removal>, w: LightMap)
    requires g.Valid() && IsLight(g, sources) && IsLight(g, m)
    requires Exact(g, AfterRemoval(g, m, start), w) && Exact(g, Darkened(sources, CellsOf(start)), w)
    ensures Exact(g, Darkened(sources, Lost(g, m, start)), w)
  {
    var lost := Lost(g, m, start);
    forall c ensures Read(g, Darkened(sources, lost), c) <= Read(g, Darkened(sources, CellsOf(start)), c)
      ensures c !in lost ==> Read(g, Darkened(sources, lost), c) == Read(g, Darkened(sources, CellsOf(start)), c)
      ensures c in lost && c in g.cells ==> Read(g, AfterRemoval(g, m, start), c) == 0
    {
      ReadDarkened(g, sources, lost, c);
      ReadDarkened(g, sources, CellsOf(start), c);
      ReadDarkened(g, m, lost, c);
    }
    forall c | c in g.cells && 0 < Read(g, w, c) != Read(g, Darkened(sources, lost), c) ensures Fed(g, w, c) {
      if c in lost { assert Read(g, w, c) != Read(g, AfterRemoval(g, m, start), c); }
    }
  }

  /** When the incremental update is the recomputation from scratch, with one source removed: the
      re-taken columns recover all the light, the level removed suits what the cell fed, and a path
      from the sources spared reaches every darkened one at its own level. */
  lemma IncrementalIsRecomputed(before: Grid, g: Grid, sources: LightMap, m: LightMap, z: Cell, level: nat,
                                handed: seq<Cell>, m': LightMap)
    requires before.Valid() && g.Valid() && IsLight(g, sources) && Exact(before, sources, m)
    requires SameBut(before, g, {z}) && z in g.cells && Relit(g, m[z := 0], {Removal(z, level)}, handed, m')
    requires IsLight(g, sources[z := 0])
    ensures m' == Brightest(g, sources[z := 0])
       <==> && FrontRecovers(g, m, {Removal(z, level)}, handed)
            && Removable(g, sources, m, z, level)
            && SourcesReached(g, sources, m, {Removal(z, level)})
  {
    hide Relit, DarkSet, FrontRecovers, HasBrighterNeighbor, FedWithout, Exact, SourcesReached, AfterRemoval;
    ExactFacts(before, g, sources, m);
    var start := {Removal(z, level)};
    var w := Recovered(g, m, start);
    LoneZeroed(g, m, z, level);
    assert Darkened(sources, CellsOf(start)) == sources[z := 0] by { LoneZeroed(g, sources, z, level); }
    RelitIff(before, g, m, start, handed, m', sources[z := 0]);
    LoneRemovalIff(before, g, sources, m, z, level, w);
    if Exact(g, sources[z := 0], w) { SparedIfAll(g, sources, m, start, w); }
    if Exact(g, Darkened(sources, Lost(g, m, start)), w) { RecomputationAgrees(g, sources, m, start, w); }
    if Exact(g, sources[z := 0], m') { ExactIsUnique(g, sources[z := 0], m', Brightest(g, sources[z := 0])); }
  }

  // ----- Every order of the queue -----

  /** Cells in some order, a given one first. */
  lemma {:induction false} InSomeOrder<T>(s: set<T>) returns (order: seq<T>)
    ensures Elements(order) == s
  {
    if s == {} {
      order := [];
    } else {
      var x :| x in s;
      var rest := InSomeOrder(s - {x});
      order := [x] + rest;
      assert Elements(order) == {x} + Elements(rest);
    }
  }

  /** All cells that the removal may hand on. */
  ghost function Border(g: Grid, m: LightMap, start: set<Removal>): set<Cell> {
    set r, dir: nat | r in RemovedNodes(g, Zeroed(m, start), start) && dir < 6
        && OnBorder(g, m, start, Step(r.cell, dir))
      :: Step(r.cell, dir)
  }

  lemma BorderIsOnBorder(g: Grid, m: LightMap, start: set<Removal>, c: Cell)
    ensures c in Border(g, m, start) <==> OnBorder(g, m, start, c)
  {
    if OnBorder(g, m, start, c) {
      var r :| r in RemovedNodes(g, Zeroed(m, start), start) && Adjacent(r.cell, c) && g.InHeight(c.y)
               && Read(g, Zeroed(m, start), c) >= r.level;
      DirectionsAreSteps(r.cell, c);
      assert c == Step(r.cell, DirectionTo(r.cell, c));
    }
  }

  /** The whole border, in any order, can be handed on, and has an outcome. */
  lemma SomeRelit(g: Grid, m: LightMap, start: set<Removal>, handed: seq<Cell>) returns (m': LightMap)
    requires g.Valid() && IsLight(g, m) && Elements(handed) == Border(g, m, start)
    ensures Relit(g, Zeroed(m, start), start, handed, m')
  {
    hide DarkSet, RemovedNodes;
    DarkenedTwice(g, m, start);
    DarkenedIsLight(g, m, Lost(g, m, start));
    forall c ensures c in Elements(handed) <==> OnBorder(g, m, start, c) { BorderIsOnBorder(g, m, start, c); }
    forall c ensures Read(g, AfterRemoval(g, m, start), c) <= Read(g, Zeroed(m, start), c) {}
    var m1 := AfterRemoval(g, m, start);
    m' := m1;
    if handed != [] {
      var o := ColumnOf(handed[0]);
      NearReads(g, m1, o);
      var f := FloodOf(Near(g, o), Part(m1, o), Elements(handed));
      PutBackReads(g, m1, o, f);
      m' := m1 + f;
    }
  }

  /** Every outcome of a removal, in every order of the queue, is the light of the sources. */
  ghost predicate AlwaysExact(g: Grid, m0: LightMap, start: set<Removal>, sources: LightMap) {
    forall handed, m' :: Relit(g, m0, start, handed, m') ==> Exact(g, sources, m')
  }

  /** Every cell of the border is one around which all the light is recovered. */
  ghost predicate BorderAlwaysRecovers(g: Grid, m: LightMap, start: set<Removal>)
    requires g.Valid() && IsLight(g, m)
  {
    forall c :: OnBorder(g, m, start, c) ==> Recovers(g, m, start, ColumnOf(c))
  }

  /** What the update leaves is exact in every order of the queue if and only if the world's flood would
      be exact and the columns around every border cell recover all the light. It speaks of nothing but
      the state before the call. */
  lemma RelitAlwaysIff(before: Grid, g: Grid, m: LightMap, start: set<Removal>, sources: LightMap)
    requires g.Valid() && IsLight(g, m) && Closed(before, m) && SameBut(before, g, CellsOf(start))
    ensures AlwaysExact(g, Zeroed(m, start), start, sources)
       <==> Exact(g, sources, Recovered(g, m, start)) && BorderAlwaysRecovers(g, m, start)
  {
    hide Relit, Exact, Recovers, OnBorder, Border, Recovered;
    if Exact(g, sources, Recovered(g, m, start)) && BorderAlwaysRecovers(g, m, start) {
      forall handed, m' | Relit(g, Zeroed(m, start), start, handed, m') ensures Exact(g, sources, m') {
        RelitIff(before, g, m, start, handed, m', sources);
        BorderRecovers(g, m, start, handed, m');
      }
    }
    if AlwaysExact(g, Zeroed(m, start), start, sources) {
      var order := InSomeOrder(Border(g, m, start));
      var m0 := SomeRelit(g, m, start, order);
      RelitIff(before, g, m, start, order, m0, sources);
      forall c | OnBorder(g, m, start, c) ensures Recovers(g, m, start, ColumnOf(c)) {
        BorderIsOnBorder(g, m, start, c);
        var first := [c] + order;
        assert Elements(first) == Elements(order) + {c};
        var m' := SomeRelit(g, m, start, first);
        RelitIff(before, g, m, start, first, m', sources);
      }
    }
  }

  /** Removals at the stored levels or above, in every order. */
  lemma RelightAlwaysIff(before: Grid, g: Grid, sources: LightMap, m: LightMap, start: set<Removal>)
    requires before.Valid() && g.Valid() && IsLight(g, sources) && Exact(before, sources, m)
    requires SameBut(before, g, CellsOf(start)) && forall r :: r in start ==> Read(g, m, r.cell) <= r.level
    ensures AlwaysExact(g, Zeroed(m, start), start, Darkened(sources, Lost(g, m, start)))
       <==> BorderAlwaysRecovers(g, m, start)
  {
    hide Relit, DarkSet, Recovers, OnBorder;
    RelitAlwaysIff(before, g, m, start, Darkened(sources, Lost(g, m, start)));
    SparedSources(before, g, sources, m, start, Recovered(g, m, start));
  }

  /** A single removal at any level, in every order. */
  lemma LoneRelightAlwaysIff(before: Grid, g: Grid, sources: LightMap, m: LightMap, z: Cell, level: nat)
    requires before.Valid() && g.Valid() && IsLight(g, sources) && Exact(before, sources, m)
    requires SameBut(before, g, {z}) && z in g.cells
    ensures var start := {Removal(z, level)};
      AlwaysExact(g, m[z := 0], start, Darkened(sources, Lost(g, m, start)))
      <==> Removable(g, sources, m, z, level) && BorderAlwaysRecovers(g, m, start)
  {
    hide Relit, DarkSet, Recovers, OnBorder, HasBrighterNeighbor, FedWithout;
    var start := {Removal(z, level)};
    LoneZeroed(g, m, z, level);
    RelitAlwaysIff(before, g, m, start, Darkened(sources, Lost(g, m, start)));
    LoneRemovalIff(before, g, sources, m, z, level, Recovered(g, m, start));
  }

  /** When the incremental update is the recomputation from scratch, the one map exact for the sources
      left, in every order of the queue: by the state before the call alone. */
  lemma AlwaysRecomputedIff(before: Grid, g: Grid, sources: LightMap, m: LightMap, z: Cell, level: nat)
    requires before.Valid() && g.Valid() && IsLight(g, sources) && Exact(before, sources, m)
    requires SameBut(before, g, {z}) && z in g.cells && IsLight(g, sources[z := 0])
    ensures var start := {Removal(z, level)};
      AlwaysExact(g, m[z := 0], start, sources[z := 0])
      <==> && Removable(g, sources, m, z, level) && SourcesReached(g, sources, m, start)
           && BorderAlwaysRecovers(g, m, start)
  {
    hide Relit, DarkSet, Recovers, OnBorder, HasBrighterNeighbor, FedWithout, Exact, SourcesReached, AfterRemoval;
    ExactFacts(before, g, sources, m);
    var start := {Removal(z, level)};
    var w := Recovered(g, m, start);
    LoneZeroed(g, m, z, level);
    assert Darkened(sources, CellsOf(start)) == sources[z := 0] by { LoneZeroed(g, sources, z, level); }
    RelitAlwaysIff(before, g, m, start, sources[z := 0]);
    LoneRemovalIff(before, g, sources, m, z, level, w);
    if Exact(g, sources[z := 0], w) { SparedIfAll(g, sources, m, start, w); }
    if Exact(g, Darkened(sources, Lost(g, m, start)), w) { RecomputationAgrees(g, sources, m, start, w); }
  }

  lemma FloodsFromColumn(g: Grid, m: LightMap, o: Column, queued: set<Cell>, m': LightMap)
    requires g.Valid() && IsLight(g, m) && FloodedPart(g, m, o, queued, m')
    requires forall c :: c in queued ==> ColumnOf(c) == o
    ensures IsFlood(g, m, queued, m')
  {
    forall c | c in queued ensures Distance(o, c) <= 1 { ReachIsDistance(o, c); }
    FloodAroundColumn(g, m, o, queued, Part(m', o));
  }

  lemma LoneZeroed(g: Grid, m: LightMap, z: Cell, level: nat)
    requires z in g.cells && IsLight(g, m)
    ensures CellsOf({Removal(z, level)}) == {z}
    ensures Zeroed(m, {Removal(z, level)}) == m[z := 0]
  {
    assert CellsOf({Removal(z, level)}) == {z};
  }

  /** After an emitter was placed its cell is overwritten and flooded from; after an opaque block
      without emission was placed the light of its cell is removed. */
  ghost predicate BlockPlaced(g: Grid, m: LightMap, z: Cell, emission: nat, handed: seq<Cell>, m': LightMap) {
    if emission > 0 then IsFlood(g, if z in g.cells then m[z := emission] else m, {z}, m')
    else if z in g.blocking && z in m && m[z] > 0 then Relit(g, m[z := 0], {Removal(z, m[z])}, handed, m')
    else m' == m
  }

  /** After an emitter was removed its cell is zeroed and darkened from at its emission; after any
      other block was removed the cell is filled from its neighbours. */
  ghost predicate BlockRemoved(g: Grid, m: LightMap, z: Cell, oldEmission: nat, handed: seq<Cell>, around: nat,
                               m': LightMap) {
    var zeroed := if z in g.cells then m[z := 0] else m;
    if oldEmission > 0 then Relit(g, zeroed, {Removal(z, oldEmission)}, handed, m')
    else Refilled(g, zeroed, z, around, m')
  }

  ghost predicate Refilled(g: Grid, m: LightMap, z: Cell, around: nat, m': LightMap) {
    && BrightestAround(g, m, z, around)
    && IsFlood(g, if z in g.cells && around > 1 then m[z := around - 1] else m, if around > 1 then {z} else {}, m')
  }

  lemma SingleNode<T>(x: T)
    ensures Elements([x]) == {x}
  {
    assert x in [x];
  }

  lemma SingleFlood(g: Grid, m: LightMap, z: Cell, m': LightMap)
    requires g.Valid() && IsLight(g, m) && FloodedPart(g, m, ColumnOf(z), Elements([z]), m')
    ensures IsFlood(g, m, {z}, m')
  {
    SingleNode(z);
    FloodsFromColumn(g, m, ColumnOf(z), {z}, m');
  }

  /** When placing a block leaves block light exact. An emitter joins the sources: no neighbour may
      be able to light it further, and it is no dimmer than the level it overwrites or nothing that
      level fed depended on it. An opaque block shades: the re-taken columns recover all the light. */
  lemma PlacedIsExact(before: Grid, g: Grid, sources: LightMap, m: LightMap, z: Cell, emission: nat, handed: seq<Cell>,
                      m': LightMap)
    requires before.Valid() && g.Valid() && IsLight(g, sources) && Exact(before, sources, m) && z in g.cells
    requires SameBut(before, g, {z}) && emission <= MAX_LIGHT && BlockPlaced(g, m, z, emission, handed, m')
    ensures emission > 0 ==>
      (Exact(g, sources[z := emission], m')
       <==> DimAround(g, m, z, emission) && (m[z] <= emission || FedWithout(g, sources, m, z)))
    ensures emission == 0 && z in g.blocking && m[z] > 0 ==>
      (Exact(g, Darkened(sources, Lost(g, m, {Removal(z, m[z])})), m')
       <==> FrontRecovers(g, m, {Removal(z, m[z])}, handed))
    ensures emission == 0 && (z !in g.blocking || m[z] == 0) ==> (Exact(g, sources, m') <==> DimAround(g, m, z, m[z]))
  {
    hide Relit, DarkSet, FrontRecovers, DimAround, FedWithout, Exact, IsFlood;
    ExactFacts(before, g, sources, m);
    if emission > 0 {
      PlacedEmitterIff(before, g, sources, m, z, emission, m');
    } else if z in g.blocking && m[z] > 0 {
      LoneRelightIsExact(before, g, sources, m, z, m[z], handed, m');
    } else {
      UnlitIff(before, g, sources, m, z);
    }
  }

  /** Where no light is touched the map stays exact unless a brighter neighbour could now enter. */
  lemma UnlitIff(before: Grid, g: Grid, sources: LightMap, m: LightMap, z: Cell)
    requires before.Valid() && g.Valid() && IsLight(g, sources) && Exact(before, sources, m) && z in g.cells
    requires SameBut(before, g, {z}) && (z !in g.blocking || m[z] == 0)
    ensures Exact(g, sources, m) <==> DimAround(g, m, z, m[z])
  {
    if Exact(g, sources, m) {
      forall x | x in g.cells && Edge(g, x, z) ensures Read(g, m, x) <= m[z] + 1 { assert Satisfied(g, m, x); }
    }
    if DimAround(g, m, z, m[z]) {
      forall a, b | a in g.cells && Edge(g, a, b) ensures Read(g, m, a) <= Read(g, m, b) + 1 {
        if b != z { assert Satisfied(before, m, a) && Edge(before, a, b); }
      }
      forall c | c in g.cells && 0 < Read(g, m, c) != Read(g, sources, c) ensures Fed(g, m, c) {
        assert Fed(before, m, c);
        var a :| a in before.cells && Edge(before, a, c) && Read(before, m, a) == Read(before, m, c) + 1;
        assert Edge(g, a, c);
      }
      forall c | c in g.cells ensures Read(g, sources, c) <= Read(g, m, c) {
        assert Read(before, sources, c) <= Read(before, m, c);
      }
    }
  }

  /** A cell that was open and no source is refilled exactly. */
  lemma RefilledIsExact(before: Grid, g: Grid, sources: LightMap, m: LightMap, z: Cell, around: nat, m': LightMap)
    requires before.Valid() && g.Valid() && IsLight(g, sources) && Exact(before, sources, m) && z in g.cells
    requires SameBut(before, g, {z}) && z !in g.blocking && sources[z] == 0 && Refilled(g, m[z := 0], z, around, m')
    ensures Exact(g, sources, m')
  {
    hide Exact, IsFlood;
    ExactFacts(before, g, sources, m);
    ZeroedAround(g, m, z, around);
    OpenedCell(before, g, sources, m, z, around, if around > 1 then {z} else {}, m');
  }

  lemma ZeroedAround(g: Grid, m: LightMap, z: Cell, around: nat)
    requires z in g.cells && IsLight(g, m)
    ensures BrightestAround(g, m[z := 0], z, around) <==> BrightestAround(g, m, z, around)
    ensures (if around > 1 then m[z := 0][z := around - 1] else m[z := 0]) == m[z := LevelFrom(around)]
  {
    assert forall a :: Adjacent(z, a) ==> Read(g, m[z := 0], a) == Read(g, m, a);
    assert m[z := 0][z := LevelFrom(around)] == m[z := LevelFrom(around)];
  }

  /** When removing a block leaves block light exact, whatever it emitted, whatever emission the
      caller names and whatever stays in its place. */
  lemma RemovedIsExact(before: Grid, g: Grid, sources: LightMap, m: LightMap, z: Cell, oldEmission: nat,
                       handed: seq<Cell>, around: nat, m': LightMap)
    requires before.Valid() && g.Valid() && IsLight(g, sources) && Exact(before, sources, m) && z in g.cells
    requires SameBut(before, g, {z}) && BlockRemoved(g, m, z, oldEmission, handed, around, m')
    ensures oldEmission > 0 ==>
      (Exact(g, Darkened(sources, Lost(g, m, {Removal(z, oldEmission)})), m')
       <==> FrontRecovers(g, m, {Removal(z, oldEmission)}, handed) && Removable(g, sources, m, z, oldEmission))
    ensures oldEmission == 0 ==>
      (Exact(g, sources[z := 0], m')
       <==> && (z !in g.blocking || LevelFrom(around) == 0)
            && (m[z] <= LevelFrom(around) || FedWithout(g, sources, m, z)))
  {
    hide Relit, DarkSet, FrontRecovers, Removable, FedWithout, Exact, IsFlood;
    ExactFacts(before, g, sources, m);
    if oldEmission > 0 {
      LoneRelightIsExact(before, g, sources, m, z, oldEmission, handed, m');
    } else {
      ZeroedAround(g, m, z, around);
      RefilledIff(before, g, sources, m, z, around, if around > 1 then {z} else {}, m');
    }
  }

  /** A block that let light in or emitted at least what it names, and leaves its cell open or
      emitted all it shows, is removed exactly when the re-taken columns recover all the light. */
  lemma SimpleRemovals(before: Grid, g: Grid, sources: LightMap, m: LightMap, z: Cell, oldEmission: nat)
    requires before.Valid() && g.Valid() && IsLight(g, sources) && Exact(before, sources, m) && z in g.cells
    requires SameBut(before, g, {z}) && sources[z] <= oldEmission && (z in before.blocking || z !in g.blocking)
    ensures Removable(g, sources, m, z, oldEmission)
  {
    if oldEmission < m[z] {
      assert Fed(before, m, z);
      var w :| w in before.cells && Edge(before, w, z) && Read(before, m, w) == Read(before, m, z) + 1;
      assert Edge(g, w, z);
    }
  }

  ghost function RunNodes(g: Grid, m: LightMap, z: Cell, low: int): set<Removal> {
    set y | low <= y <= z.y :: Removal(Cell(z.x, y, z.z), Read(g, m, Cell(z.x, y, z.z)))
  }

  /** After a block that lets light through was placed its cell is flooded from; after an opaque
      one the sky light it shades is removed. */
  ghost predicate SkyPlaced(g: Grid, m: LightMap, z: Cell, low: int, handed: seq<Cell>, m': LightMap) {
    if z !in g.blocking then IsFlood(g, m, {z}, m')
    else if Read(g, m, z) == 0 then m' == m
    else ZeroedRun(g, m, z, low) && Relit(g, Darkened(m, Run(z, low, z.y)), RunNodes(g, m, z, low), handed, m')
  }

  /** The run has been zeroed and queued down to `low`. */
  ghost predicate ZeroedDownTo(g: Grid, m: LightMap, z: Cell, low: int, m': LightMap, removal: seq<Removal>) {
    && g.minY <= low <= z.y
    && (forall y :: low <= y <= z.y ==> 0 < Read(g, m, Cell(z.x, y, z.z)))
    && m' == Darkened(m, Run(z, low, z.y))
    && removal != [] && Elements(removal) == RunNodes(g, m, z, low)
  }

  lemma RunStarts(g: Grid, m: LightMap, z: Cell)
    requires g.Valid() && IsLight(g, m) && z in g.cells && m[z] > 0
    ensures ZeroedDownTo(g, m, z, z.y, m[z := 0], [Removal(z, m[z])])
  {
    assert z == Cell(z.x, z.y, z.z);
    forall c ensures c in Run(z, z.y, z.y) <==> c == z {
    }
    SingleNode(Removal(z, m[z]));
  }

  lemma RunGrows(g: Grid, m: LightMap, z: Cell, low: int, m': LightMap, removal: seq<Removal>)
    requires g.Valid() && IsLight(g, m) && WholeColumns(g) && z in g.cells && g.minY < low
    requires ZeroedDownTo(g, m, z, low, m', removal)
    ensures var c := Cell(z.x, low - 1, z.z);
            && c in g.cells && Read(g, m', c) == Read(g, m, c)
            && (0 < Read(g, m, c) ==>
                  ZeroedDownTo(g, m, z, low - 1, m'[c := 0], removal + [Removal(c, Read(g, m, c))]))
  {
    var c := Cell(z.x, low - 1, z.z);
    var r := Removal(c, Read(g, m, c));
    assert Run(z, low - 1, z.y) == Run(z, low, z.y) + {c};
    assert c !in Run(z, low, z.y);
    assert RunNodes(g, m, z, low - 1) == RunNodes(g, m, z, low) + {r};
    assert Elements(removal + [r]) == Elements(removal) + {r};
  }

  lemma RunIsOneColumn(g: Grid, m: LightMap, z: Cell, low: int)
    requires IsLight(g, m) && g.Valid() && z in g.cells && g.minY <= low
    ensures forall r :: r in RunNodes(g, m, z, low) ==> ColumnOf(r.cell) == ColumnOf(z) && r.level <= MAX_LIGHT
    ensures CellsOf(RunNodes(g, m, z, low)) == Run(z, low, z.y)
  {
    forall c | c in Run(z, low, z.y) ensures c in CellsOf(RunNodes(g, m, z, low)) {
      assert Removal(c, Read(g, m, c)) in RunNodes(g, m, z, low);
    }
  }

  /** The cells of the run down to `low` are open, and are those queued. */
  ghost predicate OpenDownTo(g: Grid, z: Cell, low: int, queue: seq<Cell>) {
    && (forall y :: low <= y <= z.y ==> Cell(z.x, y, z.z) !in g.blocking)
    && Elements(queue) == Run(z, low, z.y)
  }

  lemma FillStarts(g: Grid, m: LightMap, z: Cell)
    ensures OpenDownTo(g, z, z.y + 1, []) && Brightened(m, Run(z, z.y + 1, z.y)) == m
  {
    assert Run(z, z.y + 1, z.y) == {};
  }

  lemma NoRun(z: Cell)
    ensures Run(z, z.y + 1, z.y) == {}
  {
  }

  lemma FillGrows(g: Grid, z: Cell, low: int, queue: seq<Cell>)
    requires low <= z.y + 1 && OpenDownTo(g, z, low, queue) && Cell(z.x, low - 1, z.z) !in g.blocking
    ensures OpenDownTo(g, z, low - 1, queue + [Cell(z.x, low - 1, z.z)])
  {
    var c := Cell(z.x, low - 1, z.z);
    assert Run(z, low - 1, z.y) == Run(z, low, z.y) + {c};
    assert Elements(queue + [c]) == Elements(queue) + {c};
  }

  lemma BrightenedMore(g: Grid, m: LightMap, z: Cell, low: int)
    requires g.Valid() && IsLight(g, m) && low <= z.y + 1
    ensures var (i1, c) := (Brightened(m, Run(z, low, z.y)), Cell(z.x, low - 1, z.z));
      && IsLight(g, i1) && Brightened(m, Run(z, low - 1, z.y)) == (if c in g.cells then i1[c := MAX_LIGHT] else i1)
      && Above(g, Brightened(m, Run(z, low - 1, z.y)), i1) && Run(z, low - 1, z.y) == Run(z, low, z.y) + {c}
  {
    assert Run(z, low - 1, z.y) == Run(z, low, z.y) + {Cell(z.x, low - 1, z.z)};
  }

  /** Under an open sky the open cells down to the first opaque block are filled and flooded from;
      elsewhere the cell is filled from its neighbours. */
  ghost predicate SkyRemoved(g: Grid, m: LightMap, z: Cell, low: int, around: nat, m': LightMap) {
    if if z.y + 1 >= g.maxY then g.openSky else Read(g, m, Up(z)) == MAX_LIGHT
    then && IsFlood(g, Brightened(m, Run(z, low, z.y)), Run(z, low, z.y), m')
         && (z in g.cells && z !in g.blocking ==> OpenRun(g, z, low))
    else Refilled(g, if z in g.cells then m[z := 0] else m, z, around, m')
  }

  lemma RunInOneColumn(z: Cell, low: int, queue: seq<Cell>)
    requires Elements(queue) == Run(z, low, z.y)
    ensures InOneColumn(queue)
  {
    forall c | c in queue ensures ColumnOf(c) == ColumnOf(z) { assert c in Elements(queue); }
  }

  lemma RunFlood(g: Grid, m: LightMap, z: Cell, low: int, queue: seq<Cell>, m': LightMap)
    requires g.Valid() && IsLight(g, m) && Elements(queue) == Run(z, low, z.y)
    requires if queue == [] then m' == m else FloodedPart(g, m, ColumnOf(queue[0]), Elements(queue), m')
    ensures IsFlood(g, m, Run(z, low, z.y), m')
  {
    if queue == [] {
      assert Elements(queue) == {};
      NothingQueued(g, m, (0, 0));
    } else {
      assert queue[0] in Elements(queue);
      FloodsFromColumn(g, m, ColumnOf(queue[0]), Elements(queue), m');
    }
  }

  /** When placing a block keeps the sky light that of the terrain. What an opaque block shades goes
      if and only if the re-taken columns recover all the light; one that lets light through changes
      nothing, which is right unless light could not enter before. No missing section is written to. */
  lemma SkyPlacedIsExact(before: Grid, g: Grid, m: LightMap, stored: set<Section>, z: Cell, low: int, handed: seq<Cell>,
                         ideal: LightMap, m': LightMap, stored': set<Section>)
    requires before.Valid() && g.Valid() && WholeColumns(g) && Exact(before, SunSources(before), m) && z in g.cells
    requires SameBut(before, g, {z}) && SkyPlaced(g, m, z, low, handed, ideal)
             && Outcome(Sky, g, stored, m, ideal, m', stored')
    ensures z in g.blocking && m[z] > 0 ==>
              (Exact(g, SunSources(g), m') <==> FrontRecovers(g, m, RunNodes(g, m, z, low), handed))
    ensures z in g.blocking && m[z] == 0 ==> Exact(g, SunSources(g), m')
    ensures z !in g.blocking ==>
      (Exact(g, SunSources(g), m') <==> z !in before.blocking || (!Sunlit(g, Up(z)) && DimAround(g, m, z, 0)))
    ensures m' == ideal && Above(g, m, ideal)
  {
    ExactFacts(before, g, SunSources(before), m);
    hide *;
    SkyPlacedStaysBelow(before, g, m, z, low, handed, ideal);
    NothingRaised(g, stored, m, ideal, m', stored');
    ShadedOrCleared(before, g, m, z, low, handed, ideal);
  }

  lemma ShadedOrCleared(before: Grid, g: Grid, m: LightMap, z: Cell, low: int, handed: seq<Cell>, m': LightMap)
    requires before.Valid() && g.Valid() && WholeColumns(g) && Exact(before, SunSources(before), m) && z in g.cells
    requires SameBut(before, g, {z}) && SkyPlaced(g, m, z, low, handed, m') && IsLight(g, m)
    ensures z in g.blocking && m[z] > 0 ==>
              (Exact(g, SunSources(g), m') <==> FrontRecovers(g, m, RunNodes(g, m, z, low), handed))
    ensures z in g.blocking && m[z] == 0 ==> Exact(g, SunSources(g), m')
    ensures z !in g.blocking ==>
      (Exact(g, SunSources(g), m') <==> z !in before.blocking || (!Sunlit(g, Up(z)) && DimAround(g, m, z, 0)))
  {
    hide Relit, DarkSet, FrontRecovers;
    if z !in g.blocking {
      ClearedInPlace(before, g, m, z, m');
    } else if m[z] == 0 {
      BlockingMoreKeepsClosed(before, g, m, {z});
      DarkCellBlocked(before, g, m, z);
    } else {
      ShadedIsExact(before, g, m, z, low, handed, m');
    }
  }

  /** Light that is nowhere raised enters no missing section. */
  lemma NothingRaised(g: Grid, stored: set<Section>, m: LightMap, ideal: LightMap, m': LightMap, stored': set<Section>)
    requires Outcome(Sky, g, stored, m, ideal, m', stored') && Above(g, m, ideal)
    ensures m' == ideal
  {
    assert !EntersBright(g, stored, m, ideal);
  }

  lemma SkyPlacedStaysBelow(before: Grid, g: Grid, m: LightMap, z: Cell, low: int, handed: seq<Cell>, ideal: LightMap)
    requires before.Valid() && g.Valid() && WholeColumns(g) && Exact(before, SunSources(before), m) && z in g.cells
    requires SameBut(before, g, {z}) && SkyPlaced(g, m, z, low, handed, ideal)
    ensures Above(g, m, ideal)
  {
    hide Relit, DarkSet;
    if z !in g.blocking {
      UnmovedFlood(before, g, m, z, ideal);
    } else if Read(g, m, z) > 0 {
      BlockingMoreKeepsClosed(before, g, m, {z});
      RunIsOneColumn(g, m, z, low);
      RunHolds(before, g, z, low);
      RelitStaysBelow(before, g, m, RunNodes(g, m, z, low), handed, ideal);
    }
  }

  /** From a closed map the update raises nothing above what it was. */
  lemma RelitStaysBelow(before: Grid, g: Grid, m: LightMap, start: set<Removal>, handed: seq<Cell>, m': LightMap)
    requires g.Valid() && IsLight(g, m) && Closed(before, m) && Closed(g, m) && SameBut(before, g, CellsOf(start))
    requires Relit(g, Zeroed(m, start), start, handed, m')
    ensures Above(g, m, m')
  {
    hide DarkSet, HandedOn, OnlyHandsOn;
    HandedAreGivers(before, g, m, start, handed, m');
    DarkenedTwice(g, m, start);
    DarkenedIsLight(g, m, Lost(g, m, start));
    var m1, w, queued := AfterRemoval(g, m, start), Recovered(g, m, start), Elements(handed);
    DarkenedIsBelow(g, m, Lost(g, m, start));
    ExactIsLeast(g, m1, w, m);
    if handed != [] {
      var o := ColumnOf(handed[0]);
      WorldIsFlooded(g, m1, queued, w);
      PartStaysBelow(g, m1, o, queued, Part(m', o), w);
    }
  }

  lemma DarkenedIsBelow(g: Grid, m: LightMap, d: set<Cell>)
    ensures Above(g, m, Darkened(m, d))
  {
  }

  lemma ClearedInPlace(before: Grid, g: Grid, m: LightMap, z: Cell, m': LightMap)
    requires before.Valid() && g.Valid() && WholeColumns(g) && Exact(before, SunSources(before), m) && z in g.cells
    requires SameBut(before, g, {z}) && z !in g.blocking && IsFlood(g, m, {z}, m')
    ensures Exact(g, SunSources(g), m') <==> z !in before.blocking || (!Sunlit(g, Up(z)) && DimAround(g, m, z, 0))
  {
    UnmovedFlood(before, g, m, z, m');
    if z !in before.blocking {
      assert before == g;
    } else {
      SunlitIsBrightest(before, m, z);
      assert Sunlit(g, z) <==> Sunlit(g, Up(z));
      if Sunlit(g, Up(z)) {
        assert Read(g, SunSources(g), z) == MAX_LIGHT;
        if Exact(g, SunSources(g), m) { SunlitIsBrightest(g, m, z); }
      } else {
        ShadeKeepsSources(before, g, z);
        UnlitIff(before, g, SunSources(before), m, z);
      }
    }
  }

  lemma UnmovedFlood(before: Grid, g: Grid, m: LightMap, z: Cell, m': LightMap)
    requires before.Valid() && g.Valid() && Exact(before, SunSources(before), m) && z in g.cells
    requires SameBut(before, g, {z}) && z !in g.blocking && IsFlood(g, m, {z}, m')
    ensures m' == m
  {
    SunlitIsBrightest(before, m, z);
    forall b | Edge(g, z, b) ensures Read(g, m, z) <= Read(g, m, b) + 1 {
      assert Edge(before, z, b) && Satisfied(before, m, z);
    }
    assert Flooded(g, m, {z}, m);
    MapsAgree(g, m, m');
  }

  lemma DarkCellBlocked(before: Grid, g: Grid, m: LightMap, z: Cell)
    requires before.Valid() && g.Valid() && Exact(before, SunSources(before), m) && z in g.cells
    requires SameBut(before, g, {z}) && z in g.blocking && Read(g, m, z) == 0 && Closed(g, m)
    ensures Exact(g, SunSources(g), m)
  {
    SunlitIsBrightest(before, m, z);
    forall c | c in g.cells && c != z ensures Sunlit(before, c) <==> Sunlit(g, c) {
      if c.x == z.x && c.z == z.z && c.y <= z.y {
        assert z == Cell(z.x, z.y, z.z) && c == Cell(z.x, c.y, z.z);
        SunlitGoesUp(before, z, c.y, z.y);
        SunlitGoesUp(g, z, c.y, z.y);
      } else {
        SameSky(before, g, z, c);
      }
    }
    RewriteStaysExact(before, g, SunSources(before), m, {z}, SunSources(g), m, m);
  }

  lemma ShadedIsExact(before: Grid, g: Grid, m: LightMap, z: Cell, low: int, handed: seq<Cell>, m': LightMap)
    requires before.Valid() && g.Valid() && WholeColumns(g) && Exact(before, SunSources(before), m) && z in g.cells
    requires SameBut(before, g, {z}) && z in g.blocking && ZeroedRun(g, m, z, low)
    requires Relit(g, Darkened(m, Run(z, low, z.y)), RunNodes(g, m, z, low), handed, m')
    ensures Exact(g, SunSources(g), m') <==> FrontRecovers(g, m, RunNodes(g, m, z, low), handed)
  {
    hide Relit, DarkSet, FrontRecovers, Exact, Lost;
    ExactFacts(before, g, SunSources(before), m);
    RunIsOneColumn(g, m, z, low);
    RunHolds(before, g, z, low);
    RelightIsExact(before, g, SunSources(before), m, RunNodes(g, m, z, low), handed, m');
    SunSurvives(before, g, m, z, low);
  }

  lemma RunHolds(before: Grid, g: Grid, z: Cell, low: int)
    requires g.Valid() && z in g.cells && g.minY <= low <= z.y && WholeColumns(g)
    requires SameBut(before, g, {z})
    ensures SameBut(before, g, Run(z, low, z.y)) && Run(z, low, z.y) <= g.cells
  {
    assert z in Run(z, low, z.y) by { assert z == Cell(z.x, z.y, z.z); }
  }

  lemma SunIsFull(before: Grid, g: Grid)
    requires before.Valid() && g.Valid() && before.cells == g.cells
    ensures IsLight(g, SunSources(before))
    ensures forall c :: c in g.cells && 0 < Read(g, SunSources(before), c)
              ==> Read(g, SunSources(before), c) == MAX_LIGHT
  {
  }

  lemma SunSurvives(before: Grid, g: Grid, m: LightMap, z: Cell, low: int)
    requires before.Valid() && g.Valid() && WholeColumns(g) && Exact(before, SunSources(before), m) && z in g.cells
    requires SameBut(before, g, {z}) && z in g.blocking && ZeroedRun(g, m, z, low)
    ensures Darkened(SunSources(before), Lost(g, m, RunNodes(g, m, z, low))) == SunSources(g)
  {
    var start := RunNodes(g, m, z, low);
    RunIsOneColumn(g, m, z, low);
    SunIsFull(before, g);
    ExactFacts(before, g, SunSources(before), m);
    assert Above(g, m, SunSources(before));
    ShadedSources(before, g, m, z, low);
    hide Exact, SunSources, Lost, Run, ZeroedRun;
    StrongSourcesSurvive(g, SunSources(before), m, start);
  }

  lemma AboveIsSunlit(before: Grid, g: Grid, m: LightMap, z: Cell)
    requires before.Valid() && g.Valid() && WholeColumns(g) && Exact(before, SunSources(before), m) && z in g.cells
    requires SameBut(before, g, {z})
    ensures (if z.y + 1 >= g.maxY then g.openSky else Read(g, m, Up(z)) == MAX_LIGHT) <==> Sunlit(g, Up(z))
  {
    if z.y + 1 < g.maxY {
      assert z == Cell(z.x, z.y, z.z) && Up(z) in g.cells;
      SunlitIsBrightest(before, m, Up(z));
      SameSky(before, g, z, Up(z));
    }
  }

  /** What removing a block ought to reach is the sky light of the opened terrain. */
  lemma OpenedIsExact(before: Grid, g: Grid, m: LightMap, z: Cell, low: int, around: nat, ideal: LightMap)
    requires before.Valid() && g.Valid() && WholeColumns(g) && Exact(before, SunSources(before), m) && z in g.cells
    requires SameBut(before, g, {z}) && z !in g.blocking && SkyRemoved(g, m, z, low, around, ideal)
    ensures Exact(g, SunSources(g), ideal)
  {
    var aboveSky := if z.y + 1 >= g.maxY then g.openSky else Read(g, m, Up(z)) == MAX_LIGHT;
    AboveIsSunlit(before, g, m, z);
    if aboveSky {
      OpenedToSky(before, g, m, z, low, ideal);
    } else {
      ShadeKeepsSources(before, g, z);
      RefilledIsExact(before, g, SunSources(before), m, z, around, ideal);
    }
  }

  /** Removing a block leaves the sky light of the opened terrain if and only if that light enters no
      missing section that starts bright. */
  lemma SkyRemovedIsExact(before: Grid, g: Grid, m: LightMap, stored: set<Section>, z: Cell, low: int, around: nat,
                          ideal: LightMap, m': LightMap, stored': set<Section>)
    requires before.Valid() && g.Valid() && HasWholeColumns(g) && Exact(before, SunSources(before), m) && z in g.cells
    requires SameBut(before, g, {z}) && z !in g.blocking && SkyRemoved(g, m, z, low, around, ideal)
    requires DarkWhereMissing(g, m, stored) && Outcome(Sky, g, stored, m, ideal, m', stored')
    ensures Exact(g, SunSources(g), m') <==> !EntersBright(g, stored, m, ideal)
  {
    hide Exact, SkyRemoved, EntersBright, Flared;
    ColumnsHold(g);
    if Clean(Sky, stored, stored') {
      OpenedIsExact(before, g, m, z, low, around, ideal);
    } else {
      FlaredIsTooBright(before, g, m, stored, z, m');
    }
  }

  lemma ColumnsHold(g: Grid)
    requires HasWholeColumns(g)
    ensures WholeColumns(g)
  {
    forall c, y | c in g.cells && g.InHeight(y) ensures Cell(c.x, y, c.z) in g.cells {
      assert ColumnOf(Cell(c.x, y, c.z)) == ColumnOf(c);
    }
  }

  /** A section created bright lights cells that the sky does not see. */
  lemma FlaredIsTooBright(before: Grid, g: Grid, m: LightMap, stored: set<Section>, z: Cell, m': LightMap)
    requires before.Valid() && g.Valid() && HasWholeColumns(g) && Exact(before, SunSources(before), m) && z in g.cells
    requires SameBut(before, g, {z}) && DarkWhereMissing(g, m, stored) && Flared(g, stored, m')
    ensures !Exact(g, SunSources(g), m')
  {
    var n :| FlaresAt(g, m', n) && SectionOf(n) !in stored && StartsBright(SectionOf(n));
    var e := OtherCell(g, n, z);
    SunlitIsBrightest(before, m, e);
    SameSky(before, g, z, e);
    if Exact(g, SunSources(g), m') { SunlitIsBrightest(g, m', e); }
  }

  lemma PutBack(g: Grid, m: LightMap, o: Column, f: LightMap)
    requires g.Valid() && IsLight(g, m) && IsLight(Near(g, o), f)
    ensures IsLight(g, m + f) && Part(m + f, o) == f
    ensures f == Part(m, o) ==> m + f == m
  {
    PutBackReads(g, m, o, f);
  }

  lemma ChangesPutBack(g: Grid, m: LightMap, o: Column, f: LightMap, changed: seq<Cell>, dirty: set<Column>)
    requires g.Valid() && IsLight(g, m) && IsLight(Near(g, o), f)
    requires ChangesNoted(Near(g, o), Part(m, o), f, changed, dirty)
    ensures ChangesNoted(g, m, m + f, changed, dirty)
  {
    NearReads(g, m, o);
    PutBackReads(g, m, o, f);
  }

  // ----- Outcomes in a world with missing sections -----

  /** What an update does: it reaches the map it ought to, creating the sections that map lights,
      exactly when it writes to no missing section that starts bright; else it creates one of those. */
  ghost predicate Outcome(kind: LightKind, g: Grid, stored: set<Section>, m: LightMap, ideal: LightMap,
                          m': LightMap, stored': set<Section>) {
    && IsLight(g, m') && stored <= stored'
    && (Clean(kind, stored, stored') <==> kind.Block? || !EntersBright(g, stored, m, ideal))
    && if Clean(kind, stored, stored')
       then m' == ideal && stored' == stored + ChangedSections(g, m, ideal)
       else Flared(g, stored, m')
  }

  /** A flood of the nine columns, put back. */
  lemma PutBackOutcome(kind: LightKind, g: Grid, m: LightMap, o: Column, queued: set<Cell>, f: LightMap,
                       stored: set<Section>, more: set<Section>) returns (ideal: LightMap)
    requires g.Valid() && IsLight(g, m) && Near(g, o).Valid() && IsLight(Near(g, o), Part(m, o))
    requires FloodOutcome(kind, Near(g, o), Part(m, o), SectionsNear(stored, o), queued, f, more)
    requires more == SectionsNear(more, o)
    ensures FloodedPart(g, m, o, queued, ideal) && Above(g, ideal, m) && Above(g, m + f, m)
    ensures Outcome(kind, g, stored, m, ideal, m + f, stored + more)
  {
    hide IsFlood, FloodOf, Near, Part;
    var near, part, known := Near(g, o), Part(m, o), SectionsNear(stored, o);
    var F := FloodOf(near, part, queued);
    FloodIsLight(near, part, queued, F);
    ideal := m + F;
    IdealIsFlooded(g, m, o, queued, F);
    PutBackIsAbove(g, m, o, f);
    SectionsPutBack(kind, g, m, o, stored, more);
    EntersPutBack(g, m, o, stored, F);
    if Clean(kind, known, more) {
      FloodIsUnique(near, part, queued, f, F);
      ChangedPutBack(g, m, o, f);
    } else {
      FlaredPutBack(g, m, o, stored, f);
    }
  }

  /** What the flood has carried, put back. */
  lemma CarriedBack(kind: LightKind, g: Grid, m: LightMap, o: Column, start: set<Cell>, f: LightMap,
                    stored: set<Section>, more: set<Section>)
    requires g.Valid() && IsLight(g, m) && IsLight(Near(g, o), f) && DarkWhereMissing(g, m + f, stored + more)
    requires more == SectionsNear(more, o) && SectionsNear(stored, o) <= more && Above(g, m + f, m)
    requires Carries(kind, Near(g, o), Part(m, o), SectionsNear(stored, o), {}, start, f, more)
    ensures CarriesPart(kind, g, o, m, stored, start, m + f, stored + more)
    ensures (forall c :: c in start ==> Distance(o, c) <= 1)
            ==> Carries(kind, g, m, stored, {}, start, m + f, stored + more)
  {
    hide Carries, Distance, DarkWhereMissing;
    PartCarries(kind, g, o, m, stored, start, f, more);
    PutBackReads(g, m, o, f);
    NearOfSum(stored, more, o);
    if forall c :: c in start ==> Distance(o, c) <= 1 {
      CarriesInWorld(kind, g, o, m, stored, start, m + f, stored + more);
    }
  }

  /** What darkening and flooding again comes to: the flood has carried the light of what was handed on as
      far as it goes in the columns taken again. */
  ghost predicate RelightCarries(kind: LightKind, g: Grid, m0: LightMap, start: set<Removal>, stored0: set<Section>,
                                 handed: seq<Cell>, m: LightMap, stored: set<Section>) {
    var m1 := Darkened(m0, DarkSet(g, m0, start));
    if handed == [] then m == m1 && stored == stored0
    else CarriesPart(kind, g, ColumnOf(handed[0]), m1, stored0, Elements(handed), m, stored)
  }

  ghost predicate SkyPlacedCarries(g: Grid, m0: LightMap, stored0: set<Section>, z: Cell, low: int, handed: seq<Cell>,
                                   m: LightMap, stored: set<Section>) {
    if z !in g.blocking then Carries(Sky, g, m0, stored0, {}, {z}, m, stored)
    else if Read(g, m0, z) == 0 then m == m0 && stored == stored0
    else RelightCarries(Sky, g, Darkened(m0, Run(z, low, z.y)), RunNodes(g, m0, z, low), stored0, handed, m, stored)
  }

  /** What refilling a cell comes to. */
  ghost predicate RefillCarries(kind: LightKind, g: Grid, m0: LightMap, stored0: set<Section>, z: Cell, around: nat,
                                m: LightMap, stored: set<Section>) {
    if around <= 1 then m == m0 && stored == stored0
    else Carries(kind, g, if z in g.cells then m0[z := around - 1] else m0, stored0, {z}, {z}, m, stored)
  }

  /** What removing a block comes to: the open run, or the cell, has been given its level, and the flood has
      carried it as far as it goes. */
  ghost predicate SkyRemovedCarries(g: Grid, m0: LightMap, stored0: set<Section>, z: Cell, low: int, around: nat,
                                    m: LightMap, stored: set<Section>) {
    if if z.y + 1 >= g.maxY then g.openSky else Read(g, m0, Up(z)) == MAX_LIGHT
    then Carries(Sky, g, Brightened(m0, Run(z, low, z.y)), stored0, Run(z, low, z.y), Run(z, low, z.y), m, stored)
    else RefillCarries(Sky, g, if z in g.cells then m0[z := 0] else m0, stored0, z, around, m, stored)
  }

  lemma GivenEnough(kind: LightKind, g: Grid, w: LightMap, stored0: set<Section>, z: Cell, m: LightMap,
                    stored: set<Section>)
    requires Carries(kind, g, w, stored0, {} + {z}, {} + {z}, m, stored)
    ensures Carries(kind, g, w, stored0, {z}, {z}, m, stored)
  {
    assert {} + {z} == {z};
  }

  lemma NothingCarriedThere(kind: LightKind, g: Grid, o: Column, m: LightMap, stored: set<Section>)
    requires g.Valid() && IsLight(g, m) && DarkWhereMissing(g, m, stored)
    ensures CarriesPart(kind, g, o, m, stored, {}, m, stored) && Carries(kind, g, m, stored, {}, {}, m, stored)
  {
    NearReads(g, m, o);
    forall c | c in Near(g, o).cells && SectionOf(c) !in SectionsNear(stored, o)
      ensures Read(Near(g, o), Part(m, o), c) == 0
    {
      SectionInReach(o, c, stored);
    }
    NothingCarried(kind, Near(g, o), Part(m, o), SectionsNear(stored, o), {});
    NothingCarried(kind, g, m, stored, {});
  }

  predicate InOneColumn(queue: seq<Cell>) {
    forall c, d :: c in queue && d in queue ==> ColumnOf(c) == ColumnOf(d)
  }

  lemma OneColumnIsNear(queue: seq<Cell>)
    requires queue != [] && InOneColumn(queue)
    ensures forall c :: c in Elements(queue) ==> Distance(ColumnOf(queue[0]), c) <= 1
  {
    forall c | c in Elements(queue) ensures Distance(ColumnOf(queue[0]), c) <= 1 {
      assert queue[0] in queue;
      ReachIsDistance(ColumnOf(queue[0]), c);
    }
  }

  lemma FloodIsLight(g: Grid, m: LightMap, queued: set<Cell>, f: LightMap)
    requires IsFlood(g, m, queued, f)
    ensures IsLight(g, f) && Above(g, f, m)
  {
  }

  lemma IdealIsFlooded(g: Grid, m: LightMap, o: Column, queued: set<Cell>, f: LightMap)
    requires g.Valid() && IsLight(g, m) && IsFlood(Near(g, o), Part(m, o), queued, f)
    ensures FloodedPart(g, m, o, queued, m + f) && Above(g, m + f, m) && IsLight(g, m + f)
  {
    NearReads(g, m, o);
    PutBackReads(g, m, o, f);
    PutBackIsAbove(g, m, o, f);
  }

  lemma PutBackIsAbove(g: Grid, m: LightMap, o: Column, f: LightMap)
    requires g.Valid() && IsLight(g, m) && IsLight(Near(g, o), f) && Above(Near(g, o), f, Part(m, o))
    ensures IsLight(g, m + f) && Above(g, m + f, m)
  {
    NearReads(g, m, o);
    PutBackReads(g, m, o, f);
  }

  lemma SectionsPutBack(kind: LightKind, g: Grid, m: LightMap, o: Column, stored: set<Section>, more: set<Section>)
    requires more == SectionsNear(more, o) && SectionsNear(stored, o) <= more
    ensures Clean(kind, SectionsNear(stored, o), more) <==> Clean(kind, stored, stored + more)
  {
    forall s | s in more && s !in SectionsNear(stored, o) ensures s !in stored { assert s in SectionsNear(more, o); }
    forall s | s in stored + more && s !in stored ensures s in more && s !in SectionsNear(stored, o) {}
  }

  lemma EntersPutBack(g: Grid, m: LightMap, o: Column, stored: set<Section>, f: LightMap)
    requires g.Valid() && IsLight(g, m) && IsLight(Near(g, o), f)
    ensures EntersBright(Near(g, o), SectionsNear(stored, o), Part(m, o), f) <==> EntersBright(g, stored, m, m + f)
  {
    NearReads(g, m, o);
    PutBackReads(g, m, o, f);
    forall c ensures Raised(Near(g, o), Part(m, o), f, c) <==> Raised(g, m, m + f, c)
      ensures Raised(g, m, m + f, c) ==> (SectionOf(c) in SectionsNear(stored, o) <==> SectionOf(c) in stored)
    {
      SectionInReach(o, c, stored);
    }
  }

  lemma ChangedPutBack(g: Grid, m: LightMap, o: Column, f: LightMap)
    requires g.Valid() && IsLight(g, m) && IsLight(Near(g, o), f)
    ensures ChangedSections(Near(g, o), Part(m, o), f) == ChangedSections(g, m, m + f)
  {
    NearReads(g, m, o);
    PutBackReads(g, m, o, f);
    forall c ensures c in Near(g, o).cells && Read(Near(g, o), Part(m, o), c) != Read(Near(g, o), f, c)
                <==> c in g.cells && Read(g, m, c) != Read(g, m + f, c)
    {
    }
  }

  lemma FlaredPutBack(g: Grid, m: LightMap, o: Column, stored: set<Section>, f: LightMap)
    requires g.Valid() && IsLight(g, m) && IsLight(Near(g, o), f) && Flared(Near(g, o), SectionsNear(stored, o), f)
    ensures Flared(g, stored, m + f)
  {
    var n :| FlaresAt(Near(g, o), f, n) && SectionOf(n) !in SectionsNear(stored, o) && StartsBright(SectionOf(n));
    PutBackReads(g, m, o, f);
    SectionInReach(o, n, stored);
    forall e | e in g.cells && SectionOf(e) == SectionOf(n) && e != n ensures Read(g, m + f, e) == MAX_LIGHT {
      assert InReach(o, e) && e in Near(g, o).cells;
    }
    assert FlaresAt(g, m + f, n);
  }

  /** A write, as an outcome. */
  lemma WriteOutcome(kind: LightKind, g: Grid, stored: set<Section>, m: LightMap, c: Cell, level: nat, m': LightMap,
                     stored': set<Section>)
    requires g.Valid() && IsLight(g, m) && DarkWhereMissing(g, m, stored) && level <= MAX_LIGHT
    requires Wrote(kind, g, m, stored, c, level, m', stored')
    ensures Outcome(kind, g, stored, m, if c in g.cells then m[c := level] else m, m', stored')
    ensures c in g.cells && Read(g, m, c) <= level ==> Above(g, m', m)
  {
    CleanWrite(kind, g, m, stored, c, level, m', stored');
    var ideal := if c in g.cells then m[c := level] else m;
    forall x ensures Raised(g, m, ideal, x) ==> x == c {}
    if Clean(kind, stored, stored') {
      assert Raised(g, m, ideal, c) ==> SectionOf(c) in stored';
    } else {
      assert Raised(g, m, ideal, c);
    }
  }

  /** The same outcome, seen from a map that differs in stored sections only. */
  lemma OutcomeFrom(kind: LightKind, g: Grid, stored: set<Section>, m: LightMap, m1: LightMap, ideal: LightMap,
                    m': LightMap, stored': set<Section>)
    requires g.Valid() && DarkWhereMissing(g, m, stored) && DarkWhereMissing(g, m1, stored)
    requires Outcome(kind, g, stored, m1, ideal, m', stored')
    ensures Outcome(kind, g, stored, m, ideal, m', stored')
  {
    forall c | c in g.cells && SectionOf(c) !in stored ensures Read(g, m, c) == Read(g, m1, c) {}
    assert stored + ChangedSections(g, m, ideal) == stored + ChangedSections(g, m1, ideal);
    assert EntersBright(g, stored, m, ideal) <==> EntersBright(g, stored, m1, ideal);
  }

  /** An update that raises light after one that had its own outcome. `late` is what it would reach had
      the first one reached what it ought to. */
  lemma OutcomeTwice(kind: LightKind, g: Grid, s0: set<Section>, m0: LightMap, i1: LightMap, m1: LightMap,
                     s1: set<Section>, i2: LightMap, m2: LightMap, s2: set<Section>, late: LightMap)
    requires g.Valid() && DarkWhereMissing(g, m0, s0) && Outcome(kind, g, s0, m0, i1, m1, s1)
    requires Outcome(kind, g, s1, m1, i2, m2, s2) && Above(g, i2, m1) && Above(g, m2, m1)
    requires Above(g, late, i1) && (Clean(kind, s0, s1) ==> late == i2)
    ensures Outcome(kind, g, s0, m0, late, m2, s2)
  {
    CleanTwice(kind, s0, s1, s2);
    if Clean(kind, s0, s1) {
      EntersTwice(kind, g, s0, m0, i1, s1, i2);
      if Clean(kind, s1, s2) {
        SectionsTwice(g, s0, m0, i1, i2);
      } else {
        FlaredPersists(g, s0, s1, m2, m2);
      }
    } else {
      FlaredPersists(g, s0, s0, m1, m2);
      EntersMore(g, s0, m0, i1, late);
    }
  }

  lemma EntersMore(g: Grid, s0: set<Section>, m0: LightMap, i1: LightMap, late: LightMap)
    requires EntersBright(g, s0, m0, i1) && Above(g, late, i1)
    ensures EntersBright(g, s0, m0, late)
  {
    var c :| Raised(g, m0, i1, c) && SectionOf(c) !in s0 && StartsBright(SectionOf(c));
    assert Raised(g, m0, late, c);
  }

  lemma EntersTwice(kind: LightKind, g: Grid, s0: set<Section>, m0: LightMap, i1: LightMap, s1: set<Section>,
                    i2: LightMap)
    requires g.Valid() && DarkWhereMissing(g, m0, s0) && s1 == s0 + ChangedSections(g, m0, i1) && Above(g, i2, i1)
    requires kind.Sky? ==> NoneBright(s0, s1) && !EntersBright(g, s0, m0, i1)
    ensures kind.Sky? ==> (EntersBright(g, s0, m0, i2) <==> EntersBright(g, s1, i1, i2))
  {
    if kind.Sky? {
      if EntersBright(g, s0, m0, i2) {
        var c :| Raised(g, m0, i2, c) && SectionOf(c) !in s0 && StartsBright(SectionOf(c));
        assert !Raised(g, m0, i1, c);
        assert Raised(g, i1, i2, c) && SectionOf(c) !in s1;
      }
      if EntersBright(g, s1, i1, i2) {
        var c :| Raised(g, i1, i2, c) && SectionOf(c) !in s1 && StartsBright(SectionOf(c));
        assert Read(g, m0, c) == 0 && Raised(g, m0, i2, c);
      }
    }
  }

  lemma SectionsTwice(g: Grid, s0: set<Section>, m0: LightMap, i1: LightMap, i2: LightMap)
    requires g.Valid() && DarkWhereMissing(g, m0, s0) && Above(g, i2, i1)
    ensures s0 + ChangedSections(g, m0, i1) + ChangedSections(g, i1, i2) == s0 + ChangedSections(g, m0, i2)
  {
    forall s | s in ChangedSections(g, m0, i1) + ChangedSections(g, i1, i2) && s !in s0
      ensures s in ChangedSections(g, m0, i2)
    {
      var c :| c in g.cells && SectionOf(c) == s
          && (Read(g, m0, c) != Read(g, i1, c) || Read(g, i1, c) != Read(g, i2, c));
      assert Read(g, m0, c) == 0 && 0 < Read(g, i2, c);
    }
    forall s | s in ChangedSections(g, m0, i2) ensures s in ChangedSections(g, m0, i1) + ChangedSections(g, i1, i2) {
      var c :| c in g.cells && SectionOf(c) == s && Read(g, m0, c) != Read(g, i2, c);
      assert Read(g, m0, c) != Read(g, i1, c) || Read(g, i1, c) != Read(g, i2, c);
    }
  }

  /** A light update of one kind leaves what is seen of sky light alone exactly when it lights no missing
      section that starts bright. */
  lemma SkyKeptIff(g: Grid, sky: LightMap, block: LightMap, stored: set<Section>, block': LightMap,
                   stored': set<Section>)
    requires g.Valid() && IsLight(g, sky) && IsLight(g, block) && AsCreated(sky, block, stored)
    requires stored' == stored + ChangedSections(g, block, block')
    ensures Shown(sky, stored') == Shown(sky, stored) <==> !EntersBright(g, stored, block, block')
  {
    forall c | c in g.cells && SectionOf(c) !in stored ensures Read(g, block, c) == 0 {}
    if EntersBright(g, stored, block, block') {
      var c :| Raised(g, block, block', c) && SectionOf(c) !in stored && StartsBright(SectionOf(c));
      assert SectionOf(c) in stored';
      assert Shown(sky, stored')[c] != Shown(sky, stored)[c];
    } else {
      forall c | c in sky ensures Shown(sky, stored')[c] == Shown(sky, stored)[c] {
        if SectionOf(c) in stored' && SectionOf(c) !in stored {
          var d :| d in g.cells && Read(g, block, d) != Read(g, block', d) && SectionOf(d) == SectionOf(c);
          assert Raised(g, block, block', d);
        }
      }
    }
  }

  /** The cells in which the maps differ are noted for saving, and all but `direct` for meshing. */
  ghost predicate ChangesSeen(g: Grid, m: LightMap, m': LightMap, direct: set<Cell>, saved: set<Column>,
                              dirty: set<Column>) {
    forall c :: c in g.cells && Read(g, m, c) != Read(g, m', c)
      ==> ColumnOf(c) in saved && (c in direct || MeshColumns(c) <= dirty)
  }

  /** The same, save for cells lit with a section created on the way. */
  ghost predicate Seen(kind: LightKind, g: Grid, stored: set<Section>, stored': set<Section>, m: LightMap,
                       m': LightMap, direct: set<Cell>, saved: set<Column>, dirty: set<Column>) {
    forall c :: c in g.cells && Read(g, m, c) != Read(g, m', c)
      ==> || (ColumnOf(c) in saved && (c in direct || MeshColumns(c) <= dirty))
          || LitAtCreation(kind, g, stored, stored', m', c)
  }

  lemma SeenIfClean(kind: LightKind, g: Grid, stored: set<Section>, stored': set<Section>, m: LightMap,
                    m': LightMap, direct: set<Cell>, saved: set<Column>, dirty: set<Column>)
    requires Seen(kind, g, stored, stored', m, m', direct, saved, dirty) && Clean(kind, stored, stored')
    ensures ChangesSeen(g, m, m', direct, saved, dirty)
  {
  }

  lemma SeenAnyhow(kind: LightKind, g: Grid, stored: set<Section>, stored': set<Section>, m: LightMap,
                   m': LightMap, direct: set<Cell>, saved: set<Column>, dirty: set<Column>)
    requires ChangesSeen(g, m, m', direct, saved, dirty)
    ensures Seen(kind, g, stored, stored', m, m', direct, saved, dirty)
  {
  }

  lemma RunIsSeen(g: Grid, m: LightMap, m': LightMap, z: Cell, low: int, saved: set<Column>)
    requires m' == Darkened(m, Run(z, low, z.y)) || m' == Brightened(m, Run(z, low, z.y))
    requires m' != m ==> ColumnOf(z) in saved
    ensures ChangesSeen(g, m, m', Run(z, low, z.y), saved, {})
  {
  }

  lemma SeenAlone(g: Grid, m: LightMap, direct: set<Cell>, saved: set<Column>, dirty: set<Column>)
    ensures ChangesSeen(g, m, m, direct, saved, dirty)
    ensures forall kind, stored :: Seen(kind, g, stored, stored, m, m, direct, saved, dirty)
  {
  }

  lemma SeenWith(kind: LightKind, g: Grid, stored: set<Section>, stored': set<Section>, m: LightMap, m': LightMap,
                 direct: set<Cell>, more: set<Cell>, saved: set<Column>, dirty: set<Column>, dirty': set<Column>)
    requires Seen(kind, g, stored, stored', m, m', direct, saved, dirty) && direct <= more && dirty <= dirty'
    ensures Seen(kind, g, stored, stored', m, m', more, saved, dirty')
  {
  }

  lemma SeenThrough(kind: LightKind, g: Grid, m: LightMap, m1: LightMap, m2: LightMap, direct: set<Cell>,
                    direct2: set<Cell>, s0: set<Section>, s1: set<Section>, s2: set<Section>,
                    saved1: set<Column>, saved2: set<Column>, dirty1: set<Column>, dirty2: set<Column>)
    requires s0 <= s1 <= s2 && saved1 <= saved2 && dirty1 <= dirty2 && direct2 <= direct
    requires Seen(kind, g, s0, s1, m, m1, direct, saved1, dirty1)
    requires Seen(kind, g, s1, s2, m1, m2, direct2, saved2, dirty2)
    ensures Seen(kind, g, s0, s2, m, m2, direct, saved2, dirty2)
  {
  }

  /** A flood after another update. */
  lemma ThenFlooded(kind: LightKind, g: Grid, s0: set<Section>, m0: LightMap, i1: LightMap, m1: LightMap,
                    s1: set<Section>, o: Column, queued: set<Cell>, i2: LightMap, m2: LightMap, s2: set<Section>)
    returns (late: LightMap)
    requires g.Valid() && IsLight(g, i1) && IsLight(g, m1) && DarkWhereMissing(g, m0, s0)
    requires Outcome(kind, g, s0, m0, i1, m1, s1) && Outcome(kind, g, s1, m1, i2, m2, s2)
    requires FloodedPart(g, m1, o, queued, i2) && Above(g, i2, m1) && Above(g, m2, m1)
    ensures FloodedPart(g, i1, o, queued, late) && Outcome(kind, g, s0, m0, late, m2, s2)
  {
    hide Outcome, IsFlood, Near, Part, DarkWhereMissing;
    NearReads(g, i1, o);
    var f := FloodOf(Near(g, o), Part(i1, o), queued);
    late := i1 + f;
    IdealIsFlooded(g, i1, o, queued, f);
    if Clean(kind, s0, s1) {
      CleanReaches(kind, g, s0, m0, i1, m1, s1);
      FloodIsUnique(Near(g, o), Part(i1, o), queued, f, Part(i2, o));
    }
    OutcomeTwice(kind, g, s0, m0, i1, m1, s1, i2, m2, s2, late);
  }

  lemma CleanReaches(kind: LightKind, g: Grid, s0: set<Section>, m0: LightMap, ideal: LightMap, m: LightMap,
                     s: set<Section>)
    requires Outcome(kind, g, s0, m0, ideal, m, s) && Clean(kind, s0, s)
    ensures m == ideal
  {
  }

  lemma NoOutcome(kind: LightKind, g: Grid, m: LightMap, stored: set<Section>)
    requires IsLight(g, m)
    ensures Outcome(kind, g, stored, m, m, m, stored) && Above(g, m, m)
  {
    assert ChangedSections(g, m, m) == {};
  }

  /** What the nine columns' flood noted is noted for the world, with more noted since. */
  lemma NotedInWorld(g: Grid, m: LightMap, o: Column, f: LightMap, changed: seq<Cell>, dirty: set<Column>,
                     changed': seq<Cell>, dirty': set<Column>, saved: set<Column>)
    requires g.Valid() && IsLight(g, m) && IsLight(Near(g, o), f)
    requires ChangesNoted(Near(g, o), Part(m, o), f, changed, dirty) && dirty <= dirty'
    requires forall c :: c in changed ==> c in changed'
    requires forall c :: c in changed' && g.InHeight(c.y) ==> ColumnOf(c) in saved
    ensures ChangesSeen(g, m, m + f, {}, saved, dirty')
  {
    ChangesPutBack(g, m, o, f, changed, dirty);
  }

  lemma SeenInWorld(kind: LightKind, g: Grid, m: LightMap, o: Column, stored: set<Section>, f: LightMap,
                    more: set<Section>, changed: seq<Cell>, dirty: set<Column>, changed': seq<Cell>,
                    dirty': set<Column>, saved: set<Column>)
    requires g.Valid() && IsLight(g, m) && IsLight(Near(g, o), f) && dirty <= dirty'
    requires Noted(kind, Near(g, o), SectionsNear(stored, o), more, Part(m, o), f, changed, dirty)
    requires forall c :: c in changed ==> c in changed'
    requires forall c :: c in changed' && g.InHeight(c.y) ==> ColumnOf(c) in saved
    ensures Seen(kind, g, stored, stored + more, m, m + f, {}, saved, dirty')
  {
    NearReads(g, m, o);
    PutBackReads(g, m, o, f);
    forall c | c in g.cells && Read(g, m, c) != Read(g, m + f, c)
      ensures (ColumnOf(c) in saved && MeshColumns(c) <= dirty')
                || LitAtCreation(kind, g, stored, stored + more, m + f, c)
    {
      SectionInReach(o, c, stored);
    }
  }

  lemma NearIsStored(stored: set<Section>, o: Column)
    ensures stored + SectionsNear(stored, o) == stored
  {
  }

  lemma WriteSeen(kind: LightKind, g: Grid, m: LightMap, stored: set<Section>, c: Cell, level: nat, m': LightMap,
                  stored': set<Section>, saved: set<Column>)
    requires g.Valid() && IsLight(g, m) && level <= MAX_LIGHT && Wrote(kind, g, m, stored, c, level, m', stored')
    requires ColumnOf(c) in saved
    ensures Seen(kind, g, stored, stored', m, m', {c}, saved, {})
  {
    CleanWrite(kind, g, m, stored, c, level, m', stored');
  }

  lemma DarkWrite(kind: LightKind, g: Grid, m: LightMap, stored: set<Section>, c: Cell, m': LightMap,
                  stored': set<Section>)
    requires g.Valid() && IsLight(g, m) && DarkWhereMissing(g, m, stored)
             && Wrote(kind, g, m, stored, c, 0, m', stored')
    ensures m' == (if c in g.cells then m[c := 0] else m) && stored' == stored && Clean(kind, stored, stored')
  {
    if c in g.cells {
      if Read(g, m, c) > 0 { LitWrite(kind, g, m, stored, c, m', stored'); } else { assert m[c := 0] == m; }
    }
  }

  lemma WrittenIsLight(g: Grid, m: LightMap, z: Cell, level: nat)
    requires IsLight(g, m) && level <= MAX_LIGHT
    ensures IsLight(g, if z in g.cells then m[z := level] else m)
  {
  }

  lemma BlockReaches(g: Grid, stored: set<Section>, m: LightMap, ideal: LightMap, m': LightMap, stored': set<Section>)
    requires Outcome(Block, g, stored, m, ideal, m', stored')
    ensures m' == ideal && stored' == stored + ChangedSections(g, m, m')
  {
  }

  lemma FullWriteIsAbove(kind: LightKind, g: Grid, m: LightMap, stored: set<Section>, c: Cell, m': LightMap,
                         stored': set<Section>)
    requires g.Valid() && IsLight(g, m) && Wrote(kind, g, m, stored, c, MAX_LIGHT, m', stored')
    ensures Above(g, m', m) && Above(g, if c in g.cells then m[c := MAX_LIGHT] else m, m)
  {
  }

  lemma BrightenedIsLight(g: Grid, m: LightMap, run: set<Cell>)
    requires IsLight(g, m)
    ensures IsLight(g, Brightened(m, run))
  {
  }

  lemma RunIsOpen(g: Grid, z: Cell, low: int, queue: seq<Cell>)
    requires OpenDownTo(g, z, low, queue)
    ensures Elements(queue) == Run(z, low, z.y) && forall y :: low <= y <= z.y ==> Cell(z.x, y, z.z) !in g.blocking
  {
  }

  /** An update that does nothing after another. */
  lemma NothingThen(kind: LightKind, g: Grid, s0: set<Section>, m0: LightMap, i1: LightMap, m1: LightMap,
                    s1: set<Section>, i2: LightMap, m2: LightMap, s2: set<Section>)
    requires g.Valid() && IsLight(g, m1) && Outcome(kind, g, s0, m0, i1, m1, s1)
    requires Outcome(kind, g, s1, m1, i2, m2, s2) && i2 == m1
    ensures Outcome(kind, g, s0, m0, i1, m2, s2)
  {
    assert !EntersBright(g, s1, m1, m1);
    assert ChangedSections(g, m1, m1) == {};
  }

  lemma PartPutBack(m: LightMap, o: Column)
    ensures m + Part(m, o) == m
  {
  }

  lemma FloodGrows(kind: LightKind, g: Grid, m: LightMap, stored: set<Section>, queued: set<Cell>, m': LightMap,
                   stored': set<Section>)
    requires g.Valid() && IsLight(g, m) && FloodOutcome(kind, g, m, stored, queued, m', stored')
    ensures stored <= stored'
  {
  }

  lemma LightKeys(g: Grid, m: LightMap)
    requires IsLight(g, m)
    ensures m.Keys == g.cells && forall c :: c in m ==> m[c] <= MAX_LIGHT
  {
  }

  lemma WriteKeepsLight(g: Grid, m: LightMap, c: Cell, level: nat)
    requires IsLight(g, m) && c in g.cells && level <= MAX_LIGHT
    ensures IsLight(g, m[c := level])
  {
  }

  lemma NearIsWhole(g: Grid, columns: set<Column>, o: Column)
    requires forall c :: c in g.cells <==> g.InHeight(c.y) && ColumnOf(c) in columns
    ensures forall c :: c in Near(g, o).cells
              <==> && g.InHeight(c.y)
                   && ColumnOf(c) in set k | k in columns && -1 <= k.0 - o.0 <= 1 && -1 <= k.1 - o.1 <= 1
  {
  }

  lemma PartIsCreated(g: Grid, sky: LightMap, block: LightMap, o: Column, stored: set<Section>)
    requires IsLight(g, sky) && AsCreated(sky, block, stored)
    ensures AsCreated(Part(sky, o), Part(block, o), SectionsNear(stored, o))
    ensures Shown(Part(sky, o), SectionsNear(stored, o)) == Part(Shown(sky, stored), o)
  {
    forall c ensures InReach(o, c) ==> (SectionOf(c) in SectionsNear(stored, o) <==> SectionOf(c) in stored) {
      SectionInReach(o, c, stored);
    }
  }

  lemma OpaqueIsNear(opaqueCells: set<Cell>, columns: set<Column>, o: Column, stored: set<Section>)
    requires forall c :: c in opaqueCells ==> SectionOf(c) in stored
    requires forall s :: s in stored ==> s.0 in columns
    ensures forall c :: c in opaqueCells && InReach(o, c) ==> SectionOf(c) in SectionsNear(stored, o)
    ensures forall s :: s in SectionsNear(stored, o)
              ==> s.0 in columns && -1 <= s.0.0 - o.0 <= 1 && -1 <= s.0.1 - o.1 <= 1
  {
    forall c ensures InReach(o, c) ==> (SectionOf(c) in SectionsNear(stored, o) <==> SectionOf(c) in stored) {
      SectionInReach(o, c, stored);
    }
  }

  lemma SectionsStayNear(stored: set<Section>, columns: set<Column>, o: Column)
    requires forall s :: s in stored ==> s.0 in columns
    requires forall k :: k in columns ==> -1 <= k.0 - o.0 <= 1 && -1 <= k.1 - o.1 <= 1
    ensures stored == SectionsNear(stored, o)
  {
  }

  lemma ShownPutBack(g: Grid, m: LightMap, o: Column, f: LightMap, stored: set<Section>, more: set<Section>)
    requires g.Valid() && IsLight(g, m) && IsLight(Near(g, o), f) && more == SectionsNear(more, o)
    requires SectionsNear(stored, o) <= more
    ensures Shown(m + f, stored + more) == Shown(m, stored) + Shown(f, more)
  {
    forall c | c in m + f ensures Shown(m + f, stored + more)[c] == (Shown(m, stored) + Shown(f, more))[c] {
      SectionInReach(o, c, stored);
      SectionInReach(o, c, more);
    }
  }

  lemma CreatedPutBack(g: Grid, h: Grid, sky: LightMap, block: LightMap, o: Column, f: LightMap, b: LightMap,
                       stored: set<Section>, more: set<Section>)
    requires g.Valid() && IsLight(g, sky) && IsLight(Near(g, o), f) && h.Valid() && IsLight(h, block)
             && IsLight(Near(h, o), b)
    requires g.cells == h.cells && AsCreated(sky, block, stored) && AsCreated(f, b, more)
    ensures AsCreated(sky + f, block + b, stored + more)
  {
    forall c | c in sky + f && c in block + b && SectionOf(c) !in stored + more
      ensures (sky + f)[c] == (if StartsBright(SectionOf(c)) then MAX_LIGHT else 0) && (block + b)[c] == 0
    {
      assert c in f <==> c in b;
      assert c in sky && c in block;
    }
  }

  class LightHost {
    const minY: int
    const maxY: int
    const hasSkyLight: bool
    const columns: set<Column>
    const opaqueCells: set<Cell>
    ghost const cells: set<Cell>
    /** The levels, those of missing sections being what they will be created with. */
    var sky: LightMap
    var block: LightMap
    var stored: set<Section>
    /** Columns noted for saving. */
    var savedDirty: set<Column>

    constructor (minY: int, maxY: int, hasSkyLight: bool, columns: set<Column>, opaqueCells: set<Cell>,
                 ghost cells: set<Cell>, sky: LightMap, block: LightMap, stored: set<Section>)
      requires opaqueCells <= cells
      requires forall c :: c in cells <==> minY <= c.y < maxY && ColumnOf(c) in columns
      requires sky.Keys == cells == block.Keys
      requires forall c :: c in cells ==> sky[c] <= MAX_LIGHT && block[c] <= MAX_LIGHT
      requires AsCreated(sky, block, stored) && forall s :: s in stored ==> s.0 in columns
      requires forall c :: c in opaqueCells ==> SectionOf(c) in stored
      ensures Valid() && this.sky == sky && this.block == block && this.stored == stored
      ensures this.columns == columns && this.cells == cells && this.opaqueCells == opaqueCells
      ensures this.minY == minY && this.maxY == maxY && this.hasSkyLight == hasSkyLight
    {
      this.minY, this.maxY, this.hasSkyLight := minY, maxY, hasSkyLight;
      this.columns, this.opaqueCells, this.cells := columns, opaqueCells, cells;
      this.sky, this.block, this.stored, savedDirty := sky, block, stored, {};
    }

    ghost function GridFor(kind: LightKind): Grid {
      Grid(minY, maxY, kind.Sky? && hasSkyLight, cells, opaqueCells)
    }

    /** What reads see. Missing sections are dark, and will hold no block light when they are created. */
    function LightOf(kind: LightKind): LightMap
      reads this
    {
      if kind.Sky? then Shown(sky, stored) else block
    }

    ghost predicate Valid()
      reads this
    {
      && opaqueCells <= cells
      && (forall c :: c in cells <==> minY <= c.y < maxY && ColumnOf(c) in columns)
      && IsLight(GridFor(Sky), sky) && IsLight(GridFor(Block), block)
      && AsCreated(sky, block, stored)
      && (forall s :: s in stored ==> s.0 in columns)
      && (forall c :: c in opaqueCells ==> SectionOf(c) in stored)
    }

    /** What an update of one kind leaves alone: the levels of the other. */
    twostate predicate OnlyLights(kind: LightKind)
      reads this
    {
      && Valid() && old(stored) <= stored
      && (if kind.Sky? then block == old(block) else sky == old(sky))
      && old(savedDirty) <= savedDirty
    }

    lemma LightIsLight(kind: LightKind)
      requires Valid()
      ensures GridFor(kind).Valid() && IsLight(GridFor(kind), LightOf(kind)) && HasWholeColumns(GridFor(kind))
      ensures DarkWhereMissing(GridFor(kind), LightOf(kind), stored)
    {
      ShownIsLight(GridFor(Sky), sky, stored);
    }

    /** The outcome of an update of one kind, given what it ought to reach. */
    twostate predicate Reaches(kind: LightKind, ideal: LightMap)
      reads this
    {
      Outcome(kind, GridFor(kind), old(stored), old(LightOf(kind)), ideal, LightOf(kind), stored)
    }

    /** Every cell whose light changed, other than by the creation of its section, has its column noted for
        saving and, if the caller did not write it directly, the meshes that read it marked dirty. */
    twostate predicate NotedBut(kind: LightKind, direct: set<Cell>, new dirty: set<Column>)
      reads this
    {
      Seen(kind, GridFor(kind), old(stored), stored, old(LightOf(kind)), LightOf(kind), direct, savedDirty, dirty)
    }

    method Take(o: Column) returns (nb: LightNeighborhood)
      requires Valid()
      ensures fresh(nb) && nb.Valid() && nb.changedCells == []
      ensures forall kind :: nb.GridFor(kind) == Near(GridFor(kind), o) && nb.LightOf(kind) == Part(LightOf(kind), o)
      ensures nb.sky == Part(sky, o) && nb.block == Part(block, o) && nb.stored == SectionsNear(stored, o)
      ensures nb.columns == set k | k in columns && -1 <= k.0 - o.0 <= 1 && -1 <= k.1 - o.1 <= 1
    {
      hide AsCreated, Shown, SectionsNear, IsLight, DarkWhereMissing, Part, InReach;
      NearReads(GridFor(Sky), sky, o);
      NearReads(GridFor(Block), block, o);
      PartIsCreated(GridFor(Sky), sky, block, o, stored);
      OpaqueIsNear(opaqueCells, columns, o, stored);
      NearIsWhole(GridFor(Sky), columns, o);
      LightKeys(Near(GridFor(Sky), o), Part(sky, o));
      LightKeys(Near(GridFor(Block), o), Part(block, o));
      nb := new LightNeighborhood(o, minY, maxY, hasSkyLight,
                                  (set k | k in columns && -1 <= k.0 - o.0 <= 1 && -1 <= k.1 - o.1 <= 1),
                                  (set c | c in opaqueCells && InReach(o, c)),
                                  (set c | c in cells && InReach(o, c)),
                                  Part(sky, o), Part(block, o), SectionsNear(stored, o));
    }

    method NoteChanges(changed: seq<Cell>)
      modifies this`savedDirty
      ensures savedDirty == old(savedDirty) + (set c | c in changed && minY <= c.y < maxY :: ColumnOf(c))
    {
      for i := 0 to |changed|
        invariant savedDirty == old(savedDirty) + (set c | c in changed[..i] && minY <= c.y < maxY :: ColumnOf(c))
      {
        assert changed[..i + 1] == changed[..i] + [changed[i]];
        if minY <= changed[i].y < maxY {
          savedDirty := savedDirty + {ColumnOf(changed[i])};
        }
      }
      assert changed[..|changed|] == changed;
    }

    /** Every section of `nb` lies in the columns taken around `o`, with all that were stored there. */
    ghost predicate TookFrom(nb: LightNeighborhood, o: Column)
      reads this, nb
    {
      && nb.Valid() && (forall kind :: nb.GridFor(kind) == Near(GridFor(kind), o))
      && nb.columns == (set k | k in columns && -1 <= k.0 - o.0 <= 1 && -1 <= k.1 - o.1 <= 1)
      && SectionsNear(stored, o) <= nb.stored
    }

    method Restore(nb: LightNeighborhood, ghost o: Column)
      requires Valid() && TookFrom(nb, o)
      modifies this
      ensures Valid() && stored == old(stored) + nb.stored && nb.stored == SectionsNear(nb.stored, o)
      ensures sky == old(sky) + nb.sky && block == old(block) + nb.block
      ensures forall kind :: LightOf(kind) == old(LightOf(kind)) + nb.LightOf(kind)
      ensures savedDirty == old(savedDirty) + (set c | c in nb.changedCells && minY <= c.y < maxY :: ColumnOf(c))
    {
      hide AsCreated, Shown, SectionsNear, Near, Part, SectionOf, ColumnOf, IsLight;
      PutBack(GridFor(Sky), sky, o, nb.sky);
      PutBack(GridFor(Block), block, o, nb.block);
      SectionsStayNear(nb.stored, nb.columns, o);
      ShownPutBack(GridFor(Sky), sky, o, nb.sky, stored, nb.stored);
      CreatedPutBack(GridFor(Sky), GridFor(Block), sky, block, o, nb.sky, nb.block, stored, nb.stored);
      sky, block, stored := sky + nb.sky, block + nb.block, stored + nb.stored;
      NoteChanges(nb.changedCells);
    }

    method RunPropagate(o: Column, kind: LightKind, queue: seq<Cell>, dirty: set<Column>)
      returns (dirty': set<Column>, ghost ideal: LightMap)
      requires Valid()
      modifies this
      ensures OnlyLights(kind) && dirty <= dirty' && NotedBut(kind, {}, dirty')
      ensures FloodedPart(GridFor(kind), old(LightOf(kind)), o, Elements(queue), ideal) && Reaches(kind, ideal)
      ensures CarriesPart(kind, GridFor(kind), o, old(LightOf(kind)), old(stored), Elements(queue), LightOf(kind),
                          stored)
      ensures (forall c :: c in Elements(queue) ==> Distance(o, c) <= 1) ==>
        Carries(kind, GridFor(kind), old(LightOf(kind)), old(stored), {}, Elements(queue), LightOf(kind), stored)
      ensures Above(GridFor(kind), ideal, old(LightOf(kind))) && Above(GridFor(kind), LightOf(kind), old(LightOf(kind)))
    {
      hide FloodOutcome, Outcome, ChangesNoted, Noted, ChangesSeen, Seen, AsCreated, Shown, Clean, Near, Part,
           SectionsNear, SectionOf, ColumnOf, IsFlood, Above, DarkWhereMissing, HasWholeColumns, Carries, CarriesPart,
           Distance;
      ghost var g, m, before := GridFor(kind), LightOf(kind), stored;
      LightIsLight(kind);
      SeenAlone(g, m, {}, savedDirty, dirty);
      if queue == [] {
        ideal := m;
        NothingQueued(g, m, o);
        NoOutcome(kind, g, m, stored);
        NothingCarriedThere(kind, g, o, m, stored);
        assert Elements(queue) == {};
        return dirty, ideal;
      }
      var nb := Take(o);
      ghost var nearBefore := nb.stored;
      dirty' := nb.Propagate(kind, queue, dirty);
      ghost var f := nb.LightOf(kind);
      nb.LightIsLight(kind);
      PartPutBack(sky, o);
      PartPutBack(block, o);
      FloodGrows(kind, Near(g, o), Part(m, o), nearBefore, Elements(queue), f, nb.stored);
      Restore(nb, o);
      ideal := PutBackOutcome(kind, g, m, o, Elements(queue), f, before, nb.stored);
      LightIsLight(kind);
      CarriedBack(kind, g, m, o, Elements(queue), f, before, nb.stored);
      SectionsPutBack(kind, g, m, o, before, nb.stored);
      SeenInWorld(kind, g, m, o, before, f, nb.stored, nb.changedCells, dirty', nb.changedCells, dirty', savedDirty);
    }

    method RunRemove(o: Column, kind: LightKind, removal: seq<Removal>, queue: seq<Cell>, dirty: set<Column>)
      returns (queue': seq<Cell>, dirty': set<Column>)
      requires Valid()
      modifies this
      ensures OnlyLights(kind) && stored == old(stored) && dirty <= dirty'
      ensures ChangesSeen(GridFor(kind), old(LightOf(kind)), LightOf(kind), {}, savedDirty, dirty')
      ensures DarkenedPart(GridFor(kind), old(LightOf(kind)), o, Elements(removal), Elements(queue), LightOf(kind),
                           Elements(queue'))
    {
      hide ChangesNoted, ChangesSeen, Seen, AsCreated, Shown, Near, Part, SectionsNear, SectionOf, ColumnOf,
           DarkWhereMissing, HasWholeColumns, HandedOn, OnlyHandsOn, DarkSet;
      ghost var g, m, before := GridFor(kind), LightOf(kind), stored;
      LightIsLight(kind);
      SeenAlone(g, m, {}, savedDirty, dirty);
      if removal == [] {
        NothingRemoved(g, m, o, Elements(queue));
        assert Elements(removal) == {};
        return queue, dirty;
      }
      var nb := Take(o);
      queue', dirty' := nb.RemoveLight(kind, removal, queue, dirty);
      ghost var f := nb.LightOf(kind);
      nb.LightIsLight(kind);
      PartPutBack(sky, o);
      PartPutBack(block, o);
      NearIsStored(before, o);
      Restore(nb, o);
      NotedInWorld(g, m, o, f, nb.changedCells, dirty', nb.changedCells, dirty', savedDirty);
    }

    /** `propagate_sky_light` and `propagate_block_light`: nine columns around the first node. */
    method PropagateLight(kind: LightKind, queue: seq<Cell>, dirty: set<Column>)
      returns (dirty': set<Column>, ghost ideal: LightMap)
      requires Valid()
      modifies this
      ensures OnlyLights(kind) && dirty <= dirty' && NotedBut(kind, {}, dirty')
      ensures if queue == [] then ideal == old(LightOf(kind))
              else FloodedPart(GridFor(kind), old(LightOf(kind)), ColumnOf(queue[0]), Elements(queue), ideal)
      ensures Reaches(kind, ideal)
      ensures if queue == [] then LightOf(kind) == old(LightOf(kind)) && stored == old(stored)
              else CarriesPart(kind, GridFor(kind), ColumnOf(queue[0]), old(LightOf(kind)), old(stored),
                               Elements(queue), LightOf(kind), stored)
      ensures InOneColumn(queue) ==>
        Carries(kind, GridFor(kind), old(LightOf(kind)), old(stored), {}, Elements(queue), LightOf(kind), stored)
      ensures Above(GridFor(kind), ideal, old(LightOf(kind))) && Above(GridFor(kind), LightOf(kind), old(LightOf(kind)))
    {
      hide Outcome, ChangesSeen, Seen, AsCreated, Shown, Carries, CarriesPart, InOneColumn, Distance;
      if queue == [] {
        ideal := LightOf(kind);
        LightIsLight(kind);
        NothingCarriedThere(kind, GridFor(kind), (0, 0), ideal, stored);
        assert Elements(queue) == {};
        SeenAlone(GridFor(kind), ideal, {}, savedDirty, dirty);
        NoOutcome(kind, GridFor(kind), ideal, stored);
        return dirty, ideal;
      }
      if InOneColumn(queue) { OneColumnIsNear(queue); }
      dirty', ideal := RunPropagate(ColumnOf(queue[0]), kind, queue, dirty);
    }

    /** `remove_sky_light` and `remove_block_light`. */
    method RemoveLight(kind: LightKind, removal: seq<Removal>, queue: seq<Cell>, dirty: set<Column>)
      returns (queue': seq<Cell>, dirty': set<Column>)
      requires Valid()
      modifies this
      ensures OnlyLights(kind) && stored == old(stored) && dirty <= dirty'
      ensures ChangesSeen(GridFor(kind), old(LightOf(kind)), LightOf(kind), {}, savedDirty, dirty')
      ensures if removal == [] then LightOf(kind) == old(LightOf(kind)) && queue' == queue
              else DarkenedPart(GridFor(kind), old(LightOf(kind)), ColumnOf(removal[0].cell), Elements(removal),
                                Elements(queue), LightOf(kind), Elements(queue'))
    {
      if removal == [] {
        return queue, dirty;
      }
      queue', dirty' := RunRemove(ColumnOf(removal[0].cell), kind, removal, queue, dirty);
    }

    function GetLight(kind: LightKind, c: Cell): (level: nat)
      requires Valid()
      reads this
      ensures level == Read(GridFor(kind), LightOf(kind), c)
    {
      if minY <= c.y < maxY && ColumnOf(c) in columns then
        if SectionOf(c) !in stored then 0 else if kind.Sky? then sky[c] else block[c]
      else if c.y >= maxY && kind.Sky? && hasSkyLight then 15
      else 0
    }

    method SetLight(kind: LightKind, c: Cell, level: nat)
      requires Valid() && level <= MAX_LIGHT
      modifies this
      ensures OnlyLights(kind) && NotedBut(kind, {c}, {})
      ensures Wrote(kind, GridFor(kind), old(LightOf(kind)), old(stored), c, level, LightOf(kind), stored)
    {
      hide Wrote, AsCreated, ChangesSeen, Seen, Shown, Clean, DarkWhereMissing, IsLight;
      ghost var g, m, before := GridFor(kind), LightOf(kind), stored;
      LightIsLight(kind);
      if minY <= c.y < maxY && ColumnOf(c) in columns && GetLight(kind, c) != level {
        LightKeys(GridFor(Sky), sky);
        LightKeys(GridFor(Block), block);
        WriteKeepsCreated(sky, block, stored, c, level);
        WriteKeepsLight(GridFor(Sky), sky, c, level);
        WriteKeepsLight(GridFor(Block), block, c, level);
        if kind.Sky? {
          SkyWrite(g, sky, block, stored, c, level);
          sky := sky[c := level];
        } else {
          BlockWrite(g, m, stored, c, level);
          block := block[c := level];
        }
        stored, savedDirty := stored + {SectionOf(c)}, savedDirty + {ColumnOf(c)};
        WriteSeen(kind, g, m, before, c, level, LightOf(kind), stored, savedDirty);
      } else {
        NoWrite(kind, g, m, stored, c, level, [], {});
        SeenAlone(g, m, {c}, savedDirty, {});
      }
    }

    /** A write of 0, which creates no section. */
    method Darken(kind: LightKind, c: Cell)
      requires Valid()
      modifies this
      ensures OnlyLights(kind) && stored == old(stored)
      ensures LightOf(kind) == if c in cells then old(LightOf(kind))[c := 0] else old(LightOf(kind))
      ensures ChangesSeen(GridFor(kind), old(LightOf(kind)), LightOf(kind), {c}, savedDirty, {})
    {
      hide Wrote, AsCreated, ChangesSeen, Seen, Shown;
      ghost var g, m, before := GridFor(kind), LightOf(kind), stored;
      LightIsLight(kind);
      SetLight(kind, c, 0);
      DarkWrite(kind, g, m, before, c, LightOf(kind), stored);
      SeenIfClean(kind, g, before, stored, m, LightOf(kind), {c}, savedDirty, {});
    }

    /** Darkens from nodes of one column and floods from what that hands on. */
    method RemoveAndRelight(kind: LightKind, removal: seq<Removal>, dirty: set<Column>)
      returns (dirty': set<Column>, ghost handed: seq<Cell>, ghost ideal: LightMap)
      requires Valid() && removal != []
      requires forall r :: r in removal ==> ColumnOf(r.cell) == ColumnOf(removal[0].cell) && r.level <= MAX_LIGHT
      modifies this
      ensures OnlyLights(kind) && dirty <= dirty' && NotedBut(kind, {}, dirty')
      ensures Relit(GridFor(kind), old(LightOf(kind)), Elements(removal), handed, ideal) && Reaches(kind, ideal)
      ensures RelightCarries(kind, GridFor(kind), old(LightOf(kind)), Elements(removal), old(stored), handed,
                             LightOf(kind), stored)
    {
      hide Outcome, ChangesSeen, Seen, AsCreated, Shown, DarkSet, HandedOn, OnlyHandsOn, FloodedPart, DarkenedPart,
           Clean, DarkWhereMissing, Carries, CarriesPart;
      ghost var g, m, before := GridFor(kind), LightOf(kind), stored;
      LightIsLight(kind);
      var queue;
      queue, dirty' := RemoveLight(kind, removal, [], dirty);
      handed := queue;
      ghost var m1, saved, seen := LightOf(kind), savedDirty, dirty';
      LightIsLight(kind);
      assert Elements<Cell>([]) == {};
      DarkenedWorld(g, m, ColumnOf(removal[0].cell), Elements(removal), m1, Elements(queue));
      dirty', ideal := PropagateLight(kind, queue, dirty');
      OutcomeFrom(kind, g, before, m, m1, ideal, LightOf(kind), stored);
      SeenAnyhow(kind, g, before, before, m, m1, {}, saved, seen);
      SeenThrough(kind, g, m, m1, LightOf(kind), {}, {}, before, before, stored, saved, savedDirty, seen, dirty');
    }

    /** Writes a level and floods from it. */
    method LightFrom(kind: LightKind, z: Cell, level: nat, dirty: set<Column>)
      returns (dirty': set<Column>, ghost ideal: LightMap)
      requires Valid() && level <= MAX_LIGHT
      modifies this
      ensures OnlyLights(kind) && dirty <= dirty' && NotedBut(kind, {z}, dirty')
      ensures IsFlood(GridFor(kind), if z in cells then old(LightOf(kind))[z := level] else old(LightOf(kind)), {z},
                      ideal)
      ensures Reaches(kind, ideal)
      ensures 0 < level && Read(GridFor(kind), old(LightOf(kind)), z) <= level ==>
        Carries(kind, GridFor(kind), if z in cells then old(LightOf(kind))[z := level] else old(LightOf(kind)),
                old(stored), {z}, {z}, LightOf(kind), stored)
    {
      hide Outcome, ChangesSeen, Seen, AsCreated, Shown, IsFlood, FloodedPart, DarkWhereMissing, Clean, Wrote, Above,
           Carries, CarriesPart, Gives;
      ghost var g, m, before := GridFor(kind), LightOf(kind), stored;
      LightIsLight(kind);
      SetLight(kind, z, level);
      LightIsLight(kind);
      ghost var m1, s1, saved := LightOf(kind), stored, savedDirty;
      ghost var i1 := if z in cells then m[z := level] else m;
      WriteOutcome(kind, g, before, m, z, level, m1, s1);
      WrittenIsLight(g, m, z, level);
      ghost var gives := 0 < level && Read(g, m, z) <= level;
      GivesNothing(kind, g, m, before);
      if gives { WriteGives(kind, g, m, before, {}, m, before, z, level, m1, s1); }
      dirty', ideal := PropagateLight(kind, [z], dirty);
      SingleNode(z);
      if gives {
        assert {} + {z} == Elements([z]);
        GivenCarries(kind, g, i1, before, {z}, m1, s1, LightOf(kind), stored);
      }
      ideal := ThenFlooded(kind, g, before, m, i1, m1, s1, ColumnOf(z), Elements([z]), ideal, LightOf(kind), stored);
      SingleFlood(g, i1, z, ideal);
      SeenThrough(kind, g, m, m1, LightOf(kind), {z}, {}, before, s1, stored, saved, savedDirty, {}, dirty');
    }

    /** Zeroes a cell, darkens from it at the given level, and floods from what that hands on. */
    method DarkenFrom(kind: LightKind, z: Cell, level: nat, dirty: set<Column>)
      returns (dirty': set<Column>, ghost handed: seq<Cell>, ghost ideal: LightMap)
      requires Valid() && level <= MAX_LIGHT
      modifies this
      ensures OnlyLights(kind) && dirty <= dirty' && NotedBut(kind, {z}, dirty')
      ensures Relit(GridFor(kind), if z in cells then old(LightOf(kind))[z := 0] else old(LightOf(kind)),
                    {Removal(z, level)}, handed, ideal)
      ensures Reaches(kind, ideal)
    {
      hide Outcome, ChangesSeen, Seen, AsCreated, Shown, Relit, DarkWhereMissing, Clean;
      ghost var g, m, before := GridFor(kind), LightOf(kind), stored;
      LightIsLight(kind);
      Darken(kind, z);
      LightIsLight(kind);
      ghost var m1, saved := LightOf(kind), savedDirty;
      dirty', handed, ideal := RemoveAndRelight(kind, [Removal(z, level)], dirty);
      SingleNode(Removal(z, level));
      OutcomeFrom(kind, g, before, m, m1, ideal, LightOf(kind), stored);
      SeenAnyhow(kind, g, before, before, m, m1, {z}, saved, {});
      SeenThrough(kind, g, m, m1, LightOf(kind), {z}, {}, before, before, stored, saved, savedDirty, {}, dirty');
    }

    method BrightestNeighbor(kind: LightKind, z: Cell) returns (brightest: nat)
      requires Valid()
      ensures BrightestAround(GridFor(kind), LightOf(kind), z, brightest) && brightest <= MAX_LIGHT
    {
      ghost var g, m := GridFor(kind), LightOf(kind);
      brightest := 0;
      for dir := 0 to 6
        invariant forall a :: Adjacent(z, a) && DirectionTo(z, a) < dir && g.InHeight(a.y)
                    ==> Read(g, m, a) <= brightest
        invariant brightest > 0 ==> exists a :: Adjacent(z, a) && g.InHeight(a.y) && Read(g, m, a) == brightest
        invariant brightest <= MAX_LIGHT
      {
        var n := Step(z, dir);
        forall a ensures DirectionTo(z, a) < dir + 1 <==> DirectionTo(z, a) < dir || a == n {
          DirectionsAreSteps(z, a);
        }
        DirectionsAreSteps(z, n);
        if minY <= n.y < maxY && GetLight(kind, n) > brightest {
          brightest := GetLight(kind, n);
        }
      }
      forall a ensures Adjacent(z, a) <==> DirectionTo(z, a) < 6 { DirectionsAreSteps(z, a); }
    }

    /** The cell, just zeroed, takes its brightest neighbour less one and is flooded from. */
    method FillFromNeighbors(kind: LightKind, z: Cell, dirty: set<Column>)
      returns (dirty': set<Column>, ghost around: nat, ghost ideal: LightMap)
      requires Valid()
      modifies this
      ensures OnlyLights(kind) && dirty <= dirty' && NotedBut(kind, {z}, dirty')
      ensures Refilled(GridFor(kind), old(LightOf(kind)), z, around, ideal) && Reaches(kind, ideal)
      ensures Read(GridFor(kind), old(LightOf(kind)), z) == 0 ==>
        RefillCarries(kind, GridFor(kind), old(LightOf(kind)), old(stored), z, around, LightOf(kind), stored)
    {
      hide Outcome, ChangesSeen, Seen, AsCreated, Shown, IsFlood, Carries;
      ghost var g, m := GridFor(kind), LightOf(kind);
      LightIsLight(kind);
      var brightest := BrightestNeighbor(kind, z);
      around, dirty', ideal := brightest, dirty, m;
      if brightest > 1 {
        dirty', ideal := LightFrom(kind, z, brightest - 1, dirty);
      } else {
        NothingQueued(g, m, (0, 0));
        NoOutcome(kind, g, m, stored);
        SeenAlone(g, m, {z}, savedDirty, dirty);
      }
    }

    /** Block light creates the sections it lights, and what is seen of sky light stays the same exactly
        when none of them starts bright. */
    twostate predicate SkyFollows()
      reads this
    {
      && stored == old(stored) + ChangedSections(GridFor(Block), old(block), block)
      && (LightOf(Sky) == old(LightOf(Sky)) <==> !EntersBright(GridFor(Block), old(stored), old(block), block))
    }

    method UpdateBlockLightAfterPlaced(z: Cell, emission: nat, dirty: set<Column>)
      returns (dirty': set<Column>, ghost handed: seq<Cell>)
      requires Valid() && emission <= MAX_LIGHT
      modifies this
      ensures OnlyLights(Block) && dirty <= dirty' && NotedBut(Block, {z}, dirty')
      ensures BlockPlaced(GridFor(Block), old(block), z, emission, handed, block)
      ensures SkyFollows()
    {
      hide Outcome, ChangesSeen, Seen, AsCreated, Shown, Relit, IsFlood, EntersBright, ChangedSections;
      ghost var g, m, before, ideal := GridFor(Block), block, stored, block;
      LightIsLight(Block);
      SeenAlone(g, m, {z}, savedDirty, dirty);
      NoOutcome(Block, g, m, stored);
      handed, dirty' := [], dirty;
      if emission > 0 {
        dirty', ideal := LightFrom(Block, z, emission, dirty);
      } else if z in opaqueCells {
        var level := GetLight(Block, z);
        if level > 0 { dirty', handed, ideal := DarkenFrom(Block, z, level, dirty); }
      }
      BlockReaches(g, before, m, ideal, block, stored);
      SkyKeptIff(g, sky, m, before, block, stored);
    }

    method UpdateBlockLightAfterRemoved(z: Cell, oldEmission: nat, dirty: set<Column>)
      returns (dirty': set<Column>, ghost handed: seq<Cell>, ghost around: nat)
      requires Valid() && oldEmission <= MAX_LIGHT
      modifies this
      ensures OnlyLights(Block) && dirty <= dirty' && NotedBut(Block, {z}, dirty')
      ensures BlockRemoved(GridFor(Block), old(block), z, oldEmission, handed, around, block)
      ensures SkyFollows()
    {
      hide Outcome, ChangesSeen, Seen, AsCreated, Shown, Relit, Refilled, EntersBright, ChangedSections;
      ghost var g, m, before, ideal := GridFor(Block), block, stored, block;
      LightIsLight(Block);
      handed, around := [], 0;
      if oldEmission > 0 {
        dirty', handed, ideal := DarkenFrom(Block, z, oldEmission, dirty);
      } else {
        dirty', around, ideal := Refill(Block, z, dirty);
      }
      BlockReaches(g, before, m, ideal, block, stored);
      SkyKeptIff(g, sky, m, before, block, stored);
    }

    /** Zeroes a cell and fills it from its neighbours. */
    method Refill(kind: LightKind, z: Cell, dirty: set<Column>)
      returns (dirty': set<Column>, ghost around: nat, ghost ideal: LightMap)
      requires Valid()
      modifies this
      ensures OnlyLights(kind) && dirty <= dirty' && NotedBut(kind, {z}, dirty')
      ensures Refilled(GridFor(kind), if z in cells then old(LightOf(kind))[z := 0] else old(LightOf(kind)), z, around,
                       ideal)
      ensures Reaches(kind, ideal)
      ensures z.y < maxY || !GridFor(kind).openSky ==>
        RefillCarries(kind, GridFor(kind), if z in cells then old(LightOf(kind))[z := 0] else old(LightOf(kind)),
                      old(stored), z, around, LightOf(kind), stored)
    {
      hide Outcome, ChangesSeen, Seen, AsCreated, Shown, Refilled, DarkWhereMissing, Clean, RefillCarries;
      ghost var g, m, before := GridFor(kind), LightOf(kind), stored;
      LightIsLight(kind);
      Darken(kind, z);
      LightIsLight(kind);
      ghost var m1, saved := LightOf(kind), savedDirty;
      dirty', around, ideal := FillFromNeighbors(kind, z, dirty);
      OutcomeFrom(kind, g, before, m, m1, ideal, LightOf(kind), stored);
      SeenAnyhow(kind, g, before, before, m, m1, {z}, saved, {});
      SeenThrough(kind, g, m, m1, LightOf(kind), {z}, {z}, before, before, stored, saved, savedDirty, {}, dirty');
    }

    lemma ColumnsAreWhole(kind: LightKind)
      requires Valid()
      ensures WholeColumns(GridFor(kind))
    {
    }

    /** Zeroes the lit run of sky light at and below `z`, queueing each cell at its level. */
    method ZeroRun(z: Cell) returns (removal: seq<Removal>, low: int)
      requires Valid() && z in cells && LightOf(Sky)[z] > 0
      modifies this
      ensures OnlyLights(Sky) && stored == old(stored) && ColumnOf(z) in savedDirty
      ensures ZeroedRun(GridFor(Sky), old(LightOf(Sky)), z, low)
      ensures ZeroedDownTo(GridFor(Sky), old(LightOf(Sky)), z, low, LightOf(Sky), removal)
    {
      hide AsCreated, Shown, DarkWhereMissing, IsLight;
      ghost var g, m := GridFor(Sky), LightOf(Sky);
      LightIsLight(Sky);
      var level := GetLight(Sky, z);
      Darken(Sky, z);
      LightIsLight(Sky);
      assert Read(g, m, z) != Read(g, LightOf(Sky), z);
      RunStarts(g, m, z);
      removal, low := [Removal(z, level)], z.y;
      if level != 15 {
        return;
      }
      var more := true;
      while more
        invariant OnlyLights(Sky) && stored == old(stored) && ColumnOf(z) in savedDirty
        invariant ZeroedDownTo(g, m, z, low, LightOf(Sky), removal)
        invariant !more ==> low == minY || Read(g, m, Cell(z.x, low - 1, z.z)) == 0
        decreases low - minY, more
      {
        more, removal, low := ZeroBelow(z, removal, m, low);
      }
    }

    /** One turn of the loop down the column: stops at a dark cell or at the bottom. */
    method ZeroBelow(z: Cell, removal: seq<Removal>, ghost m: LightMap, y: int)
      returns (more: bool, removal': seq<Removal>, y': int)
      requires Valid() && z in cells && IsLight(GridFor(Sky), m)
      requires ZeroedDownTo(GridFor(Sky), m, z, y, LightOf(Sky), removal)
      modifies this
      ensures OnlyLights(Sky) && stored == old(stored)
      ensures ZeroedDownTo(GridFor(Sky), m, z, y', LightOf(Sky), removal')
      ensures if more then y' == y - 1 else y' == y && (y == minY || Read(GridFor(Sky), m, Cell(z.x, y - 1, z.z)) == 0)
    {
      hide AsCreated, Shown, ZeroedDownTo;
      more, removal', y' := false, removal, y;
      LightIsLight(Sky);
      if y > minY {
        ColumnsAreWhole(Sky);
        RunGrows(GridFor(Sky), m, z, y, LightOf(Sky), removal);
        var c := Cell(z.x, y - 1, z.z);
        var level := GetLight(Sky, c);
        if level != 0 {
          Darken(Sky, c);
          more, removal', y' := true, removal + [Removal(c, level)], y - 1;
        }
      }
    }

    method UpdateSkyLightAfterPlaced(z: Cell, dirty: set<Column>)
      returns (dirty': set<Column>, ghost low: int, ghost handed: seq<Cell>, ghost ideal: LightMap)
      requires Valid()
      modifies this
      ensures OnlyLights(Sky) && dirty <= dirty' && NotedBut(Sky, Run(z, low, z.y), dirty')
      ensures SkyPlaced(GridFor(Sky), old(LightOf(Sky)), z, low, handed, ideal) && Reaches(Sky, ideal)
      ensures SkyPlacedCarries(GridFor(Sky), old(LightOf(Sky)), old(stored), z, low, handed, LightOf(Sky), stored)
    {
      hide Outcome, ChangesSeen, Seen, AsCreated, Shown, Relit, IsFlood, FloodedPart, ZeroedRun, DarkWhereMissing,
           Clean, RunNodes, Run, Carries, CarriesPart, RelightCarries;
      ghost var g, m, before := GridFor(Sky), LightOf(Sky), stored;
      LightIsLight(Sky);
      low, handed, dirty', ideal := z.y, [], dirty, m;
      SeenAlone(g, m, Run(z, low, z.y), savedDirty, dirty);
      NoOutcome(Sky, g, m, stored);
      if z !in opaqueCells {
        dirty', ideal := PropagateLight(Sky, [z], dirty);
        SingleFlood(g, m, z, ideal);
        SingleNode(z);
        SeenWith(Sky, g, before, stored, m, LightOf(Sky), {}, Run(z, low, z.y), savedDirty, dirty', dirty');
      } else if GetLight(Sky, z) > 0 {
        var removal, bottom := ZeroRun(z);
        low := bottom;
        dirty', handed, ideal := RelightRun(z, low, removal, m, dirty);
      }
    }

    /** Darkens from a zeroed run and floods from what that hands on. */
    method RelightRun(z: Cell, ghost low: int, removal: seq<Removal>, ghost m: LightMap, dirty: set<Column>)
      returns (dirty': set<Column>, ghost handed: seq<Cell>, ghost ideal: LightMap)
      requires Valid() && z in cells && IsLight(GridFor(Sky), m) && DarkWhereMissing(GridFor(Sky), m, stored)
      requires ZeroedDownTo(GridFor(Sky), m, z, low, LightOf(Sky), removal) && ColumnOf(z) in savedDirty
      modifies this
      ensures OnlyLights(Sky) && dirty <= dirty'
      ensures Seen(Sky, GridFor(Sky), old(stored), stored, m, LightOf(Sky), Run(z, low, z.y), savedDirty, dirty')
      ensures Relit(GridFor(Sky), Darkened(m, Run(z, low, z.y)), RunNodes(GridFor(Sky), m, z, low), handed, ideal)
      ensures Outcome(Sky, GridFor(Sky), old(stored), m, ideal, LightOf(Sky), stored)
      ensures RelightCarries(Sky, GridFor(Sky), Darkened(m, Run(z, low, z.y)), RunNodes(GridFor(Sky), m, z, low),
                             old(stored), handed, LightOf(Sky), stored)
    {
      hide Outcome, ChangesSeen, Seen, AsCreated, Shown, Relit, DarkWhereMissing, Clean, RunNodes, Run, ColumnOf,
           RelightCarries;
      ghost var g, m1, before, saved := GridFor(Sky), LightOf(Sky), stored, savedDirty;
      LightIsLight(Sky);
      RunIsOneColumn(g, m, z, low);
      assert forall r :: r in removal <==> r in Elements(removal);
      assert removal[0] in removal;
      dirty', handed, ideal := RemoveAndRelight(Sky, removal, dirty);
      RunIsSeen(g, m, m1, z, low, saved);
      SeenAnyhow(Sky, g, before, before, m, m1, Run(z, low, z.y), saved, {});
      OutcomeFrom(Sky, g, before, m, m1, ideal, LightOf(Sky), stored);
      SeenThrough(Sky, g, m, m1, LightOf(Sky), Run(z, low, z.y), {}, before, before, stored, saved, savedDirty, {},
                  dirty');
    }

    /** Fills the open cells at and below `z` with full sky light and queues them. */
    method FillRun(z: Cell, dirty: set<Column>) returns (queue: seq<Cell>, dirty': set<Column>, ghost low: int)
      requires Valid()
      modifies this
      ensures OnlyLights(Sky) && dirty <= dirty' && NotedBut(Sky, Run(z, low, z.y), {})
      ensures queue != [] ==> ColumnOf(z) in dirty'
      ensures Reaches(Sky, Brightened(old(LightOf(Sky)), Run(z, low, z.y)))
      ensures Gives(Sky, GridFor(Sky), Brightened(old(LightOf(Sky)), Run(z, low, z.y)), old(stored), Run(z, low, z.y),
                    LightOf(Sky), stored)
      ensures OpenDownTo(GridFor(Sky), z, low, queue)
      ensures low <= minY || Cell(z.x, low - 1, z.z) in opaqueCells
      ensures (z.y >= minY ==> low >= minY) && low <= z.y + 1
    {
      hide OpenDownTo, ColumnOf, Outcome, Brightened, Run, ChangesSeen, Seen, AsCreated, Shown, Clean, Gives;
      ghost var g, m, before := GridFor(Sky), LightOf(Sky), stored;
      LightIsLight(Sky);
      queue, dirty' := [], dirty;
      var y := z.y + 1;
      FillStarts(g, m, z);
      GivesNothing(Sky, g, m, stored);
      NoRun(z);
      NoOutcome(Sky, g, m, stored);
      SeenAlone(g, m, Run(z, y, z.y), savedDirty, {});
      while y > minY && Cell(z.x, y - 1, z.z) !in opaqueCells
        invariant OnlyLights(Sky) && dirty <= dirty' && (z.y >= minY ==> y >= minY) && y <= z.y + 1
        invariant Outcome(Sky, g, before, m, Brightened(m, Run(z, y, z.y)), LightOf(Sky), stored)
        invariant Gives(Sky, g, Brightened(m, Run(z, y, z.y)), before, Run(z, y, z.y), LightOf(Sky), stored)
        invariant Seen(Sky, g, before, stored, m, LightOf(Sky), Run(z, y, z.y), savedDirty, {})
        invariant OpenDownTo(g, z, y, queue) && (queue != [] ==> ColumnOf(z) in dirty')
        decreases y - minY
      {
        FillGrows(g, z, y, queue);
        FillCell(z, y, m, before);
        queue, dirty' := queue + [Cell(z.x, y - 1, z.z)], dirty' + {ColumnOf(z)};
        y := y - 1;
      }
      low := y;
    }

    /** One cell of the run; `m` and `before` are the light and the sections when the run began. */
    method FillCell(z: Cell, y: int, ghost m: LightMap, ghost before: set<Section>)
      requires Valid() && IsLight(GridFor(Sky), m) && DarkWhereMissing(GridFor(Sky), m, before) && y <= z.y + 1
      requires before <= stored
      requires Outcome(Sky, GridFor(Sky), before, m, Brightened(m, Run(z, y, z.y)), LightOf(Sky), stored)
      requires Gives(Sky, GridFor(Sky), Brightened(m, Run(z, y, z.y)), before, Run(z, y, z.y), LightOf(Sky), stored)
      requires Seen(Sky, GridFor(Sky), before, stored, m, LightOf(Sky), Run(z, y, z.y), savedDirty, {})
      modifies this
      ensures OnlyLights(Sky)
      ensures Outcome(Sky, GridFor(Sky), before, m, Brightened(m, Run(z, y - 1, z.y)), LightOf(Sky), stored)
      ensures Gives(Sky, GridFor(Sky), Brightened(m, Run(z, y - 1, z.y)), before, Run(z, y - 1, z.y), LightOf(Sky),
                    stored)
      ensures Seen(Sky, GridFor(Sky), before, stored, m, LightOf(Sky), Run(z, y - 1, z.y), savedDirty, {})
    {
      hide Outcome, ChangesSeen, Seen, AsCreated, Shown, Clean, Wrote, DarkWhereMissing, Brightened, Run, Above,
           ColumnOf, Gives;
      ghost var g, m1, s1, saved := GridFor(Sky), LightOf(Sky), stored, savedDirty;
      LightIsLight(Sky);
      ghost var i1, late := Brightened(m, Run(z, y, z.y)), Brightened(m, Run(z, y - 1, z.y));
      ghost var c := Cell(z.x, y - 1, z.z);
      BrightenedMore(g, m, z, y);
      SetLight(Sky, Cell(z.x, y - 1, z.z), 15);
      WriteOutcome(Sky, g, s1, m1, c, 15, LightOf(Sky), stored);
      LightIsLight(Sky);
      assert Read(g, m1, c) <= 15 by { LevelsAreBounded(g, m1, c); }
      WriteGives(Sky, g, i1, before, Run(z, y, z.y), m1, s1, c, 15, LightOf(Sky), stored);
      FullWriteIsAbove(Sky, g, m1, s1, c, LightOf(Sky), stored);
      if Clean(Sky, before, s1) { CleanReaches(Sky, g, before, m, i1, m1, s1); }
      OutcomeTwice(Sky, g, before, m, i1, m1, s1, if c in g.cells then m1[c := 15] else m1, LightOf(Sky), stored, late);
      SeenWith(Sky, g, before, s1, m, m1, Run(z, y, z.y), Run(z, y - 1, z.y), saved, {}, {});
      SeenThrough(Sky, g, m, m1, LightOf(Sky), Run(z, y - 1, z.y), {c}, before, s1, stored, saved, savedDirty, {}, {});
    }

    method UpdateSkyLightAfterRemoved(z: Cell, dirty: set<Column>)
      returns (dirty': set<Column>, ghost low: int, ghost around: nat, ghost ideal: LightMap)
      requires Valid()
      modifies this
      ensures OnlyLights(Sky) && dirty <= dirty' && NotedBut(Sky, {z} + Run(z, low, z.y), dirty')
      ensures SkyRemoved(GridFor(Sky), old(LightOf(Sky)), z, low, around, ideal) && Reaches(Sky, ideal)
      ensures SkyRemovedCarries(GridFor(Sky), old(LightOf(Sky)), old(stored), z, low, around, LightOf(Sky), stored)
    {
      hide Outcome, ChangesSeen, Seen, AsCreated, Shown, IsFlood, Refilled, Brightened, Run, Clean, OpenRun, Carries,
           RefillCarries;
      ghost var g, m, before := GridFor(Sky), LightOf(Sky), stored;
      low, around := z.y + 1, 0;
      var aboveSky := if z.y + 1 >= maxY then hasSkyLight else GetLight(Sky, Cell(z.x, z.y + 1, z.z)) == 15;
      if aboveSky {
        dirty', low, ideal := LightOpenRun(z, dirty);
        SeenWith(Sky, g, before, stored, m, LightOf(Sky), Run(z, low, z.y), {z} + Run(z, low, z.y), savedDirty, dirty',
                 dirty');
      } else {
        dirty', around, ideal := Refill(Sky, z, dirty);
        SeenWith(Sky, g, before, stored, m, LightOf(Sky), {z}, {z} + Run(z, low, z.y), savedDirty, dirty', dirty');
      }
    }

    /** Fills the open run with full sky light and floods from it. */
    method LightOpenRun(z: Cell, dirty: set<Column>)
      returns (dirty': set<Column>, ghost low: int, ghost ideal: LightMap)
      requires Valid()
      modifies this
      ensures OnlyLights(Sky) && dirty <= dirty' && NotedBut(Sky, Run(z, low, z.y), dirty')
      ensures IsFlood(GridFor(Sky), Brightened(old(LightOf(Sky)), Run(z, low, z.y)), Run(z, low, z.y), ideal)
      ensures z in cells && z !in opaqueCells ==> OpenRun(GridFor(Sky), z, low)
      ensures Reaches(Sky, ideal)
      ensures Carries(Sky, GridFor(Sky), Brightened(old(LightOf(Sky)), Run(z, low, z.y)), old(stored), Run(z, low, z.y),
                      Run(z, low, z.y), LightOf(Sky), stored)
    {
      hide Outcome, ChangesSeen, Seen, AsCreated, Shown, IsFlood, Brightened, Run, Clean, FloodedPart, DarkWhereMissing,
           Above, ColumnOf, Carries, CarriesPart, Gives, InOneColumn;
      ghost var g, m, before := GridFor(Sky), LightOf(Sky), stored;
      LightIsLight(Sky);
      var queue;
      queue, dirty', low := FillRun(z, dirty);
      ghost var m1, s1, saved, seen := LightOf(Sky), stored, savedDirty, dirty';
      ghost var run := Run(z, low, z.y);
      ghost var i1 := Brightened(m, run);
      LightIsLight(Sky);
      BrightenedIsLight(g, m, run);
      RunIsOpen(g, z, low, queue);
      dirty', ideal := PropagateLight(Sky, queue, dirty');
      if queue == [] {
        NothingThen(Sky, g, before, m, i1, m1, s1, ideal, LightOf(Sky), stored);
        ideal := i1;
      } else {
        ideal := ThenFlooded(Sky, g, before, m, i1, m1, s1, ColumnOf(queue[0]), Elements(queue), ideal, LightOf(Sky),
                             stored);
      }
      RunFlood(g, i1, z, low, queue, ideal);
      RunInOneColumn(z, low, queue);
      GivenCarries(Sky, g, i1, before, run, m1, s1, LightOf(Sky), stored);
      SeenWith(Sky, g, before, s1, m, m1, run, run, saved, {}, seen);
      SeenThrough(Sky, g, m, m1, LightOf(Sky), run, {}, before, s1, stored, saved, savedDirty, seen, dirty');
    }
  }
}
