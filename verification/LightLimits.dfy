/** Worlds in which the light updates of `src/lighting.rs` do not give the light of the sources. */
module LightLimits {
  import opened Positions
  import opened LightGrid
  import opened LightTheory
  import opened LightRemoval
  import opened LightRegion
  import opened LightSections
  import opened LightEdits
  import opened LightUpdates
  import opened Lighting
  import opened LightCorridor

  // ----- A dimmer emitter beside a removed one -----

  const BRIGHT_AND_DIM: int -> nat := x => if x == 0 then 14 else 7
  const BRIGHT_LIGHT: int -> nat := x => if x == 0 then 14 else 13

  /** Removing the brighter of two neighbouring lamps darkens the other for good, whatever the order
      in which cells are handed on. */
  lemma WeakerEmitterIsLost(handed: seq<Cell>, m': LightMap)
    requires Relit(Corridor(0, 1), Levels(0, 1, BRIGHT_LIGHT)[At(0) := 0], {Removal(At(0), 14)}, handed, m')
    ensures var (g, sources, m) := (Corridor(0, 1), Levels(0, 1, BRIGHT_AND_DIM), Levels(0, 1, BRIGHT_LIGHT));
      && g.Valid() && Exact(g, sources, m) && Read(g, m, At(0)) == 14
      && IsLight(g, sources[At(0) := 0]) && m' != Brightest(g, sources[At(0) := 0])
  {
    hide Corridor, Levels, Relit, Removable, FrontRecovers, DarkSet, Lost, Brightest, IsCorridorLight;
    var g, sources, m := Corridor(0, 1), Levels(0, 1, BRIGHT_AND_DIM), Levels(0, 1, BRIGHT_LIGHT);
    CorridorIsWhole(0, 1);
    PairIsLight();
    CorridorIsExact(0, 1, BRIGHT_AND_DIM, BRIGHT_LIGHT);
    LitReads(0, 1, BRIGHT_LIGHT, At(0));
    BothLost();
    IncrementalIsRecomputed(g, g, sources, m, At(0), 14, handed, m');
  }

  lemma PairIsLight()
    ensures IsCorridorLight(0, 1, BRIGHT_AND_DIM, BRIGHT_LIGHT)
  {
  }

  /** The whole corridor goes dark, and no source is spared. */
  lemma BothLost()
    ensures var (g, sources, m) := (Corridor(0, 1), Levels(0, 1, BRIGHT_AND_DIM), Levels(0, 1, BRIGHT_LIGHT));
      var start := {Removal(At(0), 14)};
      At(0) in g.cells && IsLight(g, sources[At(0) := 0]) && !SourcesReached(g, sources, m, start)
  {
    hide DarkSet, Lost, SourcesReached, Reached;
    var g, sources, m := Corridor(0, 1), Levels(0, 1, BRIGHT_AND_DIM), Levels(0, 1, BRIGHT_LIGHT);
    var start := {Removal(At(0), 14)};
    assert At(0) in g.cells && At(1) in g.cells;
    DimIsDarkened(g, m);
    LitReads(0, 1, BRIGHT_AND_DIM, At(1));
    NoneSpared(g, sources, m, start);
  }

  lemma DimIsDarkened(g: Grid, m: LightMap)
    requires g == Corridor(0, 1) && m == Levels(0, 1, BRIGHT_LIGHT)
    ensures At(1) in DarkSet(g, Zeroed(m, {Removal(At(0), 14)}), {Removal(At(0), 14)})
  {
    hide Corridor, Levels, DarkSet, Darkened;
    var start := {Removal(At(0), 14)};
    LitReads(0, 1, BRIGHT_LIGHT, At(1));
    CorridorEdge(0, 1, At(0), At(1));
    assert CellsOf(start) == {At(0)};
    ReadDarkened(g, m, {At(0)}, At(1));
    DarkSetIsClosed(g, Zeroed(m, start), start);
    assert DarkStep(g, Zeroed(m, start), Removal(At(0), 14), At(1));
  }

  lemma NoneSpared(g: Grid, sources: LightMap, m: LightMap, start: set<Removal>)
    requires g.Valid() && start == {Removal(At(0), 14)} && Read(g, sources, At(1)) == 7 && !g.openSky
    requires At(1) in DarkSet(g, Zeroed(m, start), start)
    requires forall c :: c in sources && c != At(0) && c != At(1) ==> sources[c] == 0
    ensures !SourcesReached(g, sources, m, start)
  {
    var kept := Darkened(sources, Lost(g, m, start));
    assert Removal(At(0), 14) in start && At(0) in CellsOf(start);
    forall c ensures Read(g, kept, c) == 0 {}
    assert !Reached(g, kept, At(1), 7);
  }

  // ----- A dimmer opaque emitter -----

  const LAMP_AT_WEST: int -> nat := x => if x == 0 then 13 else 0
  const WEST_LIGHT: int -> nat := x => if 0 <= x <= 2 then 13 - x else 0

  /** The corridor with its middle cell made opaque. */
  function Blocked(): Grid {
    var g := Corridor(0, 2);
    g.(blocking := g.blocking + {At(1)})
  }

  lemma MiddleIsBlocked()
    ensures var (before, g) := (Corridor(0, 2), Blocked());
      && g.Valid() && SameBut(before, g, {At(1)}) && At(1) in g.cells && At(1) in g.blocking
      && forall a, b :: Edge(g, a, b) <==> Adjacent(a, b) && (b == At(0) || b == At(2))
  {
    forall a, b ensures Edge(Blocked(), a, b) <==> Adjacent(a, b) && (b == At(0) || b == At(2)) {
      CorridorEdge(0, 2, a, b);
      assert b == At(b.x) && 0 <= b.x <= 2 <==> b == At(0) || b == At(1) || b == At(2);
    }
    CorridorIsWhole(0, 2);
    assert At(1) in Cells();
  }

  /** The end of the corridor was lit through the middle cell alone. */
  lemma EndIsFedByMiddle(sources: LightMap)
    requires Read(Blocked(), sources, At(2)) == 0
    ensures var (g, m) := (Blocked(), Levels(0, 2, WEST_LIGHT));
      Read(g, m, At(1)) == 12 && !FedWithout(g, sources, m, At(1)) && !HasBrighterNeighbor(g, m, At(1))
  {
    hide Levels, Blocked, Corridor;
    var g, m := Blocked(), Levels(0, 2, WEST_LIGHT);
    MiddleIsBlocked();
    forall c ensures Read(g, m, c) == if c == At(c.x) && 0 <= c.x <= 2 then WEST_LIGHT(c.x) else 0 {
      BlockedReads(m, c);
      LitReads(0, 2, WEST_LIGHT, c);
    }
    assert Edge(g, At(1), At(2));
    assert !OtherFeeder(g, m, At(1), At(2));
  }

  lemma BlockedReads(m: LightMap, c: Cell)
    ensures Read(Blocked(), m, c) == Read(Corridor(0, 2), m, c)
  {
  }

  lemma CorridorHolds(low: int, high: int, source: int -> nat, level: int -> nat, x: int)
    requires -16 <= low <= x <= high < 32 && IsCorridorLight(low, high, source, level)
    ensures var (g, sources, m) := (Corridor(low, high), Levels(low, high, source), Levels(low, high, level));
      && g.Valid() && IsLight(g, sources) && Exact(g, sources, m)
      && At(x) in g.cells && At(x) in m && At(x) in sources && m[At(x)] == level(x) && sources[At(x)] == source(x)
  {
    CorridorIsWhole(low, high);
    CorridorIsExact(low, high, source, level);
    assert At(x) in Cells();
  }

  /** An enchanting table, opaque and of level 7, placed where the light was 12. */
  lemma DimTableLeavesStaleLight(m': LightMap)
    requires BlockPlaced(Blocked(), Levels(0, 2, WEST_LIGHT), At(1), 7, [], m')
    ensures !Exact(Blocked(), Levels(0, 2, LAMP_AT_WEST)[At(1) := 7], m')
  {
    hide Corridor, Levels, Blocked, FedWithout, BlockPlaced, Exact, IsLight, HasBrighterNeighbor, IsCorridorLight;
    LampIsLight();
    CorridorHolds(0, 2, LAMP_AT_WEST, WEST_LIGHT, 1);
    MiddleIsBlocked();
    SourceAtEnd(LAMP_AT_WEST);
    EndIsFedByMiddle(Levels(0, 2, LAMP_AT_WEST));
    LitIsLight(0, 2, LAMP_AT_WEST, WEST_LIGHT);
    PlacedIsExact(Corridor(0, 2), Blocked(), Levels(0, 2, LAMP_AT_WEST), Levels(0, 2, WEST_LIGHT), At(1), 7, [], m');
  }

  /** Three cells lit from the west end, whatever weaker light the middle one has of its own. */
  lemma CorridorOfThree(source: int -> nat, level: int -> nat)
    requires source(0) == level(0) == 13 && source(1) <= level(1) == 12 && source(2) == 0 && level(2) == 11
    ensures IsCorridorLight(0, 2, source, level)
  {
    forall x | 0 <= x <= 2 ensures source(x) <= level(x) <= MAX_LIGHT {
      assert x == 0 || x == 1 || x == 2;
    }
    forall x | 0 <= x <= 2 && 0 < level(x) != source(x) ensures 0 < x && level(x - 1) == level(x) + 1 {
      assert x == 1 || x == 2;
    }
    forall x | 0 <= x < 2 ensures level(x) <= level(x + 1) + 1 && level(x + 1) <= level(x) + 1 {
      assert x == 0 || x == 1;
    }
  }

  lemma LampIsLight()
    ensures IsCorridorLight(0, 2, LAMP_AT_WEST, WEST_LIGHT)
  {
    CorridorOfThree(LAMP_AT_WEST, WEST_LIGHT);
  }

  lemma SourceAtEnd(source: int -> nat)
    ensures Read(Blocked(), Levels(0, 2, source), At(2)) == source(2)
  {
    BlockedReads(Levels(0, 2, source), At(2));
    LitReads(0, 2, source, At(2));
  }

  lemma LitIsLight(low: int, high: int, source: int -> nat, level: int -> nat)
    requires IsLight(Corridor(0, 2), Levels(low, high, source))
    ensures IsLight(Blocked(), Levels(low, high, source))
  {
  }

  const DIM_IN_MIDDLE: int -> nat := x => if x == 0 then 13 else if x == 1 then 7 else 0

  lemma DimIsLight()
    ensures IsCorridorLight(0, 2, DIM_IN_MIDDLE, WEST_LIGHT)
  {
    CorridorOfThree(DIM_IN_MIDDLE, WEST_LIGHT);
  }

  /** A dim emitter in brighter light, replaced by an opaque block that emits nothing. */
  lemma ReplacedEmitterLeavesStaleLight(handed: seq<Cell>, around: nat, m': LightMap)
    requires BlockRemoved(Blocked(), Levels(0, 2, WEST_LIGHT), At(1), 7, handed, around, m')
    ensures var (g, sources, m) := (Blocked(), Levels(0, 2, DIM_IN_MIDDLE), Levels(0, 2, WEST_LIGHT));
      At(1) in sources && sources[At(1)] == 7 && !Exact(g, Darkened(sources, Lost(g, m, {Removal(At(1), 7)})), m')
  {
    hide Corridor, Levels, Blocked, FedWithout, BlockRemoved, Exact, IsLight, HasBrighterNeighbor, FrontRecovers, Lost,
         IsCorridorLight;
    DimIsLight();
    hide WEST_LIGHT;
    CorridorHolds(0, 2, DIM_IN_MIDDLE, WEST_LIGHT, 1);
    MiddleIsBlocked();
    SourceAtEnd(DIM_IN_MIDDLE);
    EndIsFedByMiddle(Levels(0, 2, DIM_IN_MIDDLE));
    LitIsLight(0, 2, DIM_IN_MIDDLE, WEST_LIGHT);
    RemovedIsExact(Corridor(0, 2), Blocked(), Levels(0, 2, DIM_IN_MIDDLE), Levels(0, 2, WEST_LIGHT), At(1), 7, handed,
                   around, m');
  }

  // ----- Three lamps -----

  const LAMPS: int -> nat := x => if x == -8 || x == 8 || x == 24 then 15 else 0

  const LAMP_LIGHT: int -> nat := x =>
    if -8 <= x <= 0 then 7 - x else if 0 < x <= 8 then 7 + x else if 8 < x <= 16 then 23 - x
    else if x <= 24 && 16 < x then x - 9 else 0

  /** The light of the outer lamps alone. */
  const OUTER_LIGHT: int -> nat := x =>
    if -8 <= x <= 7 then 7 - x else if 9 < x <= 24 then x - 9 else 0

  const LAMP := At(8)
  const START := {Removal(LAMP, 15)}

  function Tunnel(): Grid { Corridor(-8, 24) }

  function TunnelLight(): LightMap { Levels(-8, 24, LAMP_LIGHT) }

  lemma LampsAreLight()
    ensures IsCorridorLight(-8, 24, LAMPS, LAMP_LIGHT)
  {
    hide LAMPS, LAMP_LIGHT;
    forall x | -8 <= x <= 24 ensures LAMPS(x) <= LAMP_LIGHT(x) <= MAX_LIGHT {
      LampLevels(x);
    }
    forall x | -8 <= x < 24
      ensures LAMP_LIGHT(x) <= LAMP_LIGHT(x + 1) + 1 && LAMP_LIGHT(x + 1) <= LAMP_LIGHT(x) + 1
    {
      LampSteps(x);
    }
    forall x | -8 <= x <= 24 && 0 < LAMP_LIGHT(x) != LAMPS(x)
      ensures (-8 < x && LAMP_LIGHT(x - 1) == LAMP_LIGHT(x) + 1) || (x < 24 && LAMP_LIGHT(x + 1) == LAMP_LIGHT(x) + 1)
    {
      LampFeeds(x);
    }
  }

  lemma LampLevels(x: int)
    ensures LAMPS(x) <= LAMP_LIGHT(x) <= MAX_LIGHT
  {
  }

  lemma LampSteps(x: int)
    requires -8 <= x < 24
    ensures LAMP_LIGHT(x) <= LAMP_LIGHT(x + 1) + 1 && LAMP_LIGHT(x + 1) <= LAMP_LIGHT(x) + 1
  {
  }

  lemma LampFeeds(x: int)
    requires -8 <= x <= 24 && 0 < LAMP_LIGHT(x) != LAMPS(x)
    ensures (-8 < x && LAMP_LIGHT(x - 1) == LAMP_LIGHT(x) + 1) || (x < 24 && LAMP_LIGHT(x + 1) == LAMP_LIGHT(x) + 1)
  {
  }

  lemma TunnelIsExact()
    ensures var (g, sources, m) := (Tunnel(), Levels(-8, 24, LAMPS), TunnelLight());
      g.Valid() && IsLight(g, sources) && Exact(g, sources, m) && LAMP in m && m[LAMP] == 15
  {
    hide Corridor, Levels, IsLight, Exact;
    LampsAreLight();
    CorridorHolds(-8, 24, LAMPS, LAMP_LIGHT, 8);
  }

  lemma LampZeroed(c: Cell)
    ensures CellsOf(START) == {LAMP}
    ensures Read(Tunnel(), Zeroed(TunnelLight(), START), c)
         == if c == At(c.x) && -8 <= c.x <= 24 && c.x != 8 then LAMP_LIGHT(c.x) else 0
  {
    hide Corridor, Levels;
    assert Removal(LAMP, 15) in START && CellsOf(START) == {LAMP};
    ReadDarkened(Tunnel(), TunnelLight(), {LAMP}, c);
    LitReads(-8, 24, LAMP_LIGHT, c);
    TunnelIsExact();
  }

  /** Darkness spreads as far as the middle lamp is the nearest. */
  lemma {:induction false} DarknessReaches(d: set<Cell>, k: nat)
    requires DarkClosed(Tunnel(), Zeroed(TunnelLight(), START), START, d) && 1 <= k <= 8
    ensures At(8 - k) in d && At(8 + k) in d
  {
    hide Tunnel, TunnelLight, Zeroed, DarkStep, Read, LAMP_LIGHT;
    var g, m0 := Tunnel(), Zeroed(TunnelLight(), START);
    if k == 1 {
      DarkensNext(8, 7);
      DarkensNext(8, 9);
    } else {
      DarknessReaches(d, k - 1);
      DarkensNext(9 - k, 8 - k);
      DarkensNext(7 + k, 8 + k);
    }
  }

  lemma DarkensNext(x: int, y: int)
    requires 0 <= y <= 16 && (if x <= 8 && y < 8 then y == x - 1 else x >= 8 && y == x + 1)
    ensures var (g, m0) := (Tunnel(), Zeroed(TunnelLight(), START));
      DarkStep(g, m0, Removal(At(x), if x == 8 then 15 else Read(g, m0, At(x))), At(y))
  {
    hide Zeroed, TunnelLight;
    LampZeroed(At(x));
    LampZeroed(At(y));
    CorridorEdge(-8, 24, At(x), At(y));
  }

  ghost function Middle(): set<Cell> {
    set x | 0 <= x <= 16 :: At(x)
  }

  /** Removing the middle lamp darkens the cells nearest to it and no other. */
  lemma MiddleIsLost()
    ensures Lost(Tunnel(), TunnelLight(), START) == Middle()
  {
    hide Tunnel, TunnelLight, Zeroed, LAMP_LIGHT;
    var g, m0 := Tunnel(), Zeroed(TunnelLight(), START);
    LampZeroed(LAMP);
    DarkSetIsClosed(g, m0, START);
    var dark := DarkSet(g, m0, START);
    forall c | c in Middle() ensures c in Lost(g, TunnelLight(), START) {
      if c != LAMP { DarknessReaches(dark, if c.x < 8 then 8 - c.x else c.x - 8); }
    }
    MiddleIsClosed();
  }

  lemma MiddleIsClosed()
    ensures DarkClosed(Tunnel(), Zeroed(TunnelLight(), START), START, Middle() - {LAMP})
  {
    hide Tunnel, TunnelLight, Zeroed;
    var g, m0, d := Tunnel(), Zeroed(TunnelLight(), START), Middle() - {LAMP};
    forall r, c | (r in START || (r.cell in d && r.level == Read(g, m0, r.cell))) && DarkStep(g, m0, r, c)
      ensures c in d
    {
      LampZeroed(c);
      LampZeroed(r.cell);
      CorridorEdge(-8, 24, r.cell, c);
      assert c == At(c.x) && r.cell == At(r.cell.x);
    }
  }

  lemma AfterReads(c: Cell)
    ensures Read(Tunnel(), AfterRemoval(Tunnel(), TunnelLight(), START), c)
         == if c == At(c.x) && (-8 <= c.x < 0 || 16 < c.x <= 24) then LAMP_LIGHT(c.x) else 0
  {
    hide Corridor, Levels, Lost, LAMP_LIGHT;
    MiddleIsLost();
    TunnelIsExact();
    ReadDarkened(Tunnel(), TunnelLight(), Middle(), c);
    LitReads(-8, 24, LAMP_LIGHT, c);
    assert c in Middle() <==> c == At(c.x) && 0 <= c.x <= 16;
  }

  /** The cells next to the darkness recover light from outside, and the next ones less. */
  lemma RecoveredLevels(w: LightMap)
    requires Exact(Tunnel(), AfterRemoval(Tunnel(), TunnelLight(), START), w)
    ensures 7 <= Read(Tunnel(), w, At(0)) && 7 <= Read(Tunnel(), w, At(16))
    ensures forall c :: Read(Tunnel(), w, c) <= if c == At(c.x) then OUTER_LIGHT(c.x) else 0
  {
    hide Tunnel, TunnelLight, AfterRemoval;
    var g, m1 := Tunnel(), AfterRemoval(Tunnel(), TunnelLight(), START);
    OuterIsAbove(w);
    OuterCells();
    AfterReads(At(-1));
    AfterReads(At(17));
    assert Satisfied(g, w, At(-1)) && Satisfied(g, w, At(17));
  }

  lemma OuterCells()
    ensures var g := Tunnel();
      At(-1) in g.cells && At(17) in g.cells && Edge(g, At(-1), At(0)) && Edge(g, At(17), At(16))
  {
    CorridorEdge(-8, 24, At(-1), At(0));
    CorridorEdge(-8, 24, At(17), At(16));
    assert At(-1) in Cells() && At(17) in Cells();
  }

  lemma OuterIsAbove(w: LightMap)
    requires Exact(Tunnel(), AfterRemoval(Tunnel(), TunnelLight(), START), w)
    ensures forall c :: Read(Tunnel(), w, c) <= if c == At(c.x) then OUTER_LIGHT(c.x) else 0
  {
    hide Corridor, Levels, AfterRemoval, Exact, LAMP_LIGHT;
    var g, outer := Tunnel(), Levels(-8, 24, OUTER_LIGHT);
    TunnelIsExact();
    CorridorIsClosed(-8, 24, OUTER_LIGHT);
    forall c | c in g.cells ensures Read(g, AfterRemoval(g, TunnelLight(), START), c) <= Read(g, outer, c) {
      AfterReads(c);
      LitReads(-8, 24, OUTER_LIGHT, c);
      OuterLevels(c.x);
    }
    ExactIsLeast(g, AfterRemoval(g, TunnelLight(), START), w, outer);
    forall c ensures Read(g, w, c) <= if c == At(c.x) then OUTER_LIGHT(c.x) else 0 {
      LitReads(-8, 24, OUTER_LIGHT, c);
      UnloadedIsDark(w, c);
    }
  }

  lemma OuterLevels(x: int)
    ensures -8 <= x < 0 || 16 < x <= 24 ==> LAMP_LIGHT(x) == OUTER_LIGHT(x)
  {
  }

  lemma UnloadedIsDark(w: LightMap, c: Cell)
    requires Exact(Tunnel(), AfterRemoval(Tunnel(), TunnelLight(), START), w)
    ensures c !in Tunnel().cells ==> Read(Tunnel(), w, c) == 0
  {
  }

  /** Columns around the chunk of either border cell miss the other end of the darkness. */
  lemma OneSideIsMissed(o: Column)
    requires o == (1, 0) || o == (-1, 0)
    ensures Tunnel().Valid() && IsLight(Tunnel(), TunnelLight()) && !Recovers(Tunnel(), TunnelLight(), START, o)
  {
    hide Corridor, Levels, AfterRemoval, Exact, OUTER_LIGHT, LAMP_LIGHT;
    var g, m := Tunnel(), TunnelLight();
    TunnelIsExact();
    ExactFacts(g, g, Levels(-8, 24, LAMPS), m);
    var w := Recovered(g, m, START);
    RecoveredLevels(w);
    AfterReads(At(0));
    AfterReads(At(16));
    OuterCells();
    assert Raised(g, AfterRemoval(g, m, START), w, At(0)) && Raised(g, AfterRemoval(g, m, START), w, At(16));
    if o == (-1, 0) {
      assert !InReach(o, At(16));
    } else {
      NoEasternFeeder(w);
    }
  }

  lemma NoEasternFeeder(w: LightMap)
    requires 7 <= Read(Tunnel(), w, At(0))
    requires forall c :: Read(Tunnel(), w, c) <= if c == At(c.x) then OUTER_LIGHT(c.x) else 0
    ensures !FedInReach(Tunnel(), w, (1, 0), At(0))
  {
    hide Tunnel, Read;
    forall a | InReach((1, 0), a) && Adjacent(a, At(0)) ensures Read(Tunnel(), w, a) <= 6 {
      assert a == At(a.x) ==> a == At(1);
      assert OUTER_LIGHT(1) == 6;
    }
  }

  /** The middle one of three equal lamps, 16 blocks apart in a tunnel, is removed at its stored level.
      In whichever order the two ends of the darkness are handed on, one of them stays dark. */
  lemma RetakingCanLoseLight(handed: seq<Cell>, m': LightMap)
    requires Elements(handed) == {At(17), At(-1)}
    requires Relit(Tunnel(), TunnelLight()[LAMP := 0], START, handed, m')
    ensures var (g, sources, m) := (Tunnel(), Levels(-8, 24, LAMPS), TunnelLight());
      && Exact(g, sources, m) && Read(g, m, LAMP) == 15
      && !Exact(g, Darkened(sources, Lost(g, m, START)), m')
  {
    hide Corridor, Levels, Relit, Lost, Exact, Recovers, LAMP_LIGHT, LAMPS;
    var g, sources, m := Tunnel(), Levels(-8, 24, LAMPS), TunnelLight();
    TunnelIsExact();
    ExactFacts(g, g, sources, m);
    LampIsThere(g, m);
    assert handed != [] && handed[0] in {At(17), At(-1)} by {
      assert At(17) in Elements(handed);
      assert handed[0] in Elements(handed);
    }
    OneSideIsMissed(ColumnOf(handed[0]));
    LoneRelightIsExact(g, g, sources, m, LAMP, 15, handed, m');
  }

  lemma LampIsThere(g: Grid, m: LightMap)
    requires g == Tunnel() && IsLight(g, m) && LAMP in m
    ensures LAMP in g.cells && Read(g, m, LAMP) == m[LAMP]
  {
  }

  /** The tunnel is a world the updates can receive: whole loaded columns and their block light. */
  method TunnelHost() returns (host: LightHost)
    ensures host.Valid() && host.GridFor(Block) == Tunnel() && host.block == TunnelLight()
  {
    hide Cells, Levels, Exact, LAMP_LIGHT;
    CorridorIsWhole(-8, 24);
    TunnelIsExact();
    ExactFacts(Tunnel(), Tunnel(), Levels(-8, 24, LAMPS), TunnelLight());
    var dark := map c | c in Cells() :: 0;
    var stored := set k | k in LOADED :: (k, 0);
    AllStored();
    host := new LightHost(0, 1, false, LOADED, Tunnel().blocking, Cells(), dark, TunnelLight(), stored);
  }

  lemma AllStored()
    ensures forall c :: c in Cells() ==> SectionOf(c) in set k | k in LOADED :: (k, 0)
  {
    CorridorIsWhole(-8, 24);
  }

  /** Both orders can be handed on, and have an outcome. */
  lemma TunnelIsRelit(handed: seq<Cell>) returns (m': LightMap)
    requires Elements(handed) == {At(17), At(-1)}
    ensures Relit(Tunnel(), TunnelLight()[LAMP := 0], START, handed, m')
  {
    hide Corridor, Levels, Lost, Exact, DarkSet, RemovedNodes, LAMP_LIGHT;
    var g, m := Tunnel(), TunnelLight();
    TunnelIsExact();
    ExactFacts(g, g, Levels(-8, 24, LAMPS), m);
    LampIsThere(g, m);
    LoneZeroed(g, m, LAMP, 15);
    DarkenedTwice(g, m, START);
    var m1, o := AfterRemoval(g, m, START), ColumnOf(handed[0]);
    DarkenedIsLight(g, m, Lost(g, m, START));
    NearReads(g, m1, o);
    var f := FloodOf(Near(g, o), Part(m1, o), Elements(handed));
    PutBackReads(g, m1, o, f);
    m' := m1 + f;
    EndsAreHandedOn();
  }

  lemma EndsAreHandedOn()
    ensures var (g, m0) := (Tunnel(), Zeroed(TunnelLight(), START));
      && HandedOn(g, AfterRemoval(g, TunnelLight(), START), RemovedNodes(g, m0, START), {At(17), At(-1)})
      && OnlyHandsOn(g, m0, RemovedNodes(g, m0, START), {}, {At(17), At(-1)})
  {
    hide Tunnel, TunnelLight, Zeroed, AfterRemoval, LAMP_LIGHT, RemovedNodes, DarkSet;
    var g, m0 := Tunnel(), Zeroed(TunnelLight(), START);
    var m1, nodes := AfterRemoval(g, TunnelLight(), START), RemovedNodes(g, m0, START);
    forall r, c | r in nodes && Adjacent(r.cell, c) && Read(g, m1, c) > 0 ensures c in {At(17), At(-1)} {
      AfterReads(c);
      NodesAreMiddle(r);
      assert c == At(c.x) && r.cell == At(r.cell.x);
    }
    EndIsHandedOn(0, -1);
    EndIsHandedOn(16, 17);
  }

  lemma NodesAreMiddle(r: Removal)
    requires r in RemovedNodes(Tunnel(), Zeroed(TunnelLight(), START), START)
    ensures r.cell in Middle()
  {
    hide Tunnel, TunnelLight, Zeroed;
    MiddleIsLost();
    LampZeroed(LAMP);
    assert r.cell in Lost(Tunnel(), TunnelLight(), START);
  }

  lemma EndIsHandedOn(x: int, y: int)
    requires (x == 0 && y == -1) || (x == 16 && y == 17)
    ensures var (g, m0) := (Tunnel(), Zeroed(TunnelLight(), START));
      exists r :: r in RemovedNodes(g, m0, START) && Adjacent(r.cell, At(y)) && g.InHeight(0)
          && Read(g, m0, At(y)) >= r.level
  {
    hide TunnelLight, Zeroed, DarkSet, Corridor;
    var g, m0 := Tunnel(), Zeroed(TunnelLight(), START);
    MiddleIsLost();
    LampZeroed(At(x));
    LampZeroed(At(y));
    assert At(x) in Middle();
    var r := Removal(At(x), Read(g, m0, At(x)));
    assert r in RemovedNodes(g, m0, START);
    assert g.InHeight(0) by { TunnelHeight(); }
  }

  lemma TunnelHeight()
    ensures Tunnel().InHeight(0)
  {
  }

  /** The pair of lamps has an outcome too. */
  lemma PairIsRelit() returns (handed: seq<Cell>, m': LightMap)
    ensures Relit(Corridor(0, 1), Levels(0, 1, BRIGHT_LIGHT)[At(0) := 0], {Removal(At(0), 14)}, handed, m')
  {
    hide Corridor, Levels, Exact, Relit, Border;
    var g, m := Corridor(0, 1), Levels(0, 1, BRIGHT_LIGHT);
    CorridorHolds(0, 1, BRIGHT_AND_DIM, BRIGHT_LIGHT, 0);
    ExactFacts(g, g, Levels(0, 1, BRIGHT_AND_DIM), m);
    LoneZeroed(g, m, At(0), 14);
    handed := InSomeOrder(Border(g, m, {Removal(At(0), 14)}));
    m' := SomeRelit(g, m, {Removal(At(0), 14)}, handed);
  }

  /** And so has the replaced emitter. */
  lemma ReplacedEmitterIsRemoved() returns (handed: seq<Cell>, m': LightMap)
    ensures BlockRemoved(Blocked(), Levels(0, 2, WEST_LIGHT), At(1), 7, handed, 0, m')
  {
    hide Corridor, Levels, Blocked, Exact, Relit, Border, IsLight;
    var g, m := Blocked(), Levels(0, 2, WEST_LIGHT);
    DimIsLight();
    CorridorHolds(0, 2, DIM_IN_MIDDLE, WEST_LIGHT, 1);
    ExactFacts(Corridor(0, 2), Corridor(0, 2), Levels(0, 2, DIM_IN_MIDDLE), m);
    MiddleIsBlocked();
    LitIsLight(0, 2, WEST_LIGHT, WEST_LIGHT);
    LoneZeroed(g, m, At(1), 7);
    handed := InSomeOrder(Border(g, m, {Removal(At(1), 7)}));
    m' := SomeRelit(g, m, {Removal(At(1), 7)}, handed);
  }

  // ----- A torch below a missing section -----

  const TORCH := Cell(8, 15, 8)

  function EndCells(): set<Cell> {
    set x, y, z | 0 <= x < 16 && 0 <= y < 32 && 0 <= z < 16 :: Cell(x, y, z)
  }

  /** A column of the End: it has no sky light, its lower section is stored and dark, and the upper one,
      all air, is missing. */
  ghost predicate IsEndColumn(host: LightHost)
    reads host
  {
    && host.Valid() && host.minY == 0 && host.maxY == 32 && !host.hasSkyLight && host.columns == {(0, 0)}
    && host.cells == EndCells() && host.opaqueCells == {} && host.stored == {((0, 0), 0)}
    && (forall c :: c in host.cells ==> host.LightOf(Sky)[c] == 0 && host.block[c] == 0)
  }

  method EndColumn() returns (host: LightHost)
    ensures IsEndColumn(host) && fresh(host)
  {
    forall c ensures c in EndCells() <==> 0 <= c.y < 32 && ColumnOf(c) in {(0, 0)} {
      if 0 <= c.y < 32 && ColumnOf(c) in {(0, 0)} { assert c == Cell(c.x, c.y, c.z); }
    }
    var sky := map c | c in EndCells() :: if c.y < 16 then 0 else 15;
    var block := map c | c in EndCells() :: 0;
    host := new LightHost(0, 32, false, {(0, 0)}, {}, EndCells(), sky, block, {((0, 0), 0)});
  }

  lemma TorchReaches(g: Grid, m: LightMap, f: LightMap)
    requires g == Grid(0, 32, false, EndCells(), {}) && IsLight(g, m) && forall c :: c in m ==> m[c] == 0
    requires IsFlood(g, m[TORCH := 14], {TORCH}, f)
    ensures ((0, 0), 1) in ChangedSections(g, m, f)
  {
    var above := Cell(8, 16, 8);
    assert TORCH in EndCells() && above in EndCells();
    assert Edge(g, TORCH, above) && Satisfied(g, f, TORCH);
    assert 14 == Read(g, m[TORCH := 14], TORCH) <= Read(g, f, TORCH);
    assert Read(g, m, above) != Read(g, f, above) && SectionOf(above) == ((0, 0), 1);
  }

  lemma EndSections(c: Cell)
    requires c in EndCells()
    ensures SectionOf(c) == ((0, 0), if c.y < 16 then 0 else 1)
  {
  }

  /** A torch placed below it lights one cell of the missing section, and so gives all of that section
      full sky light, in a world that has none. */
  method TorchInTheEnd(host: LightHost)
    requires IsEndColumn(host)
    modifies host
    ensures host.Valid() && forall c :: c in host.cells ==> host.LightOf(Sky)[c] == if c.y < 16 then 0 else 15
  {
    hide EndCells, IsFlood, ChangedSections, EntersBright, ChangesSeen, SectionOf, ColumnOf, Relit;
    ghost var g, sky, block := host.GridFor(Block), host.sky, host.block;
    EndLevels(sky, block);
    TorchIsThere();
    var dirty, handed := host.UpdateBlockLightAfterPlaced(TORCH, 14, {});
    TorchReaches(g, block, host.block);
    forall c | c in host.cells ensures host.LightOf(Sky)[c] == if c.y < 16 then 0 else 15 {
      EndSections(c);
    }
  }

  lemma TorchIsThere()
    ensures TORCH in EndCells()
  {
  }

  lemma EndLevels(sky: LightMap, block: LightMap)
    requires sky.Keys == EndCells() == block.Keys && AsCreated(sky, block, {((0, 0), 0)})
    requires forall c :: c in EndCells() ==> Shown(sky, {((0, 0), 0)})[c] == 0
    ensures forall c :: c in EndCells() ==> sky[c] == if c.y < 16 then 0 else 15
  {
    forall c | c in EndCells() ensures sky[c] == if c.y < 16 then 0 else 15 { EndSections(c); }
  }
}
