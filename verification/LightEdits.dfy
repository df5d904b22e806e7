/** Block edits: which light map an exact one becomes when a block is placed or removed. */
module LightEdits {
  import opened Positions
  import opened LightGrid
  import opened LightTheory
  import opened LightRemoval

  /** Blocks were added, none removed, in the changed cells. */
  ghost predicate OnlyBlocksMore(before: Grid, g: Grid, changed: set<Cell>) {
    SameBut(before, g, changed) && before.blocking <= g.blocking
  }

  lemma BlockingMoreKeepsClosed(before: Grid, g: Grid, m: LightMap, changed: set<Cell>)
    requires OnlyBlocksMore(before, g, changed) && Closed(before, m)
    ensures Closed(g, m)
  {
    forall a, b | a in g.cells && Edge(g, a, b) ensures Read(g, m, a) <= Read(g, m, b) + 1 {
      assert Satisfied(before, m, a) && Edge(before, a, b);
    }
  }

  // ----- Emitters -----

  /** The flood from one cell leaves that cell as it was. */
  lemma FloodKeepsItsSource(g: Grid, n: LightMap, z: Cell, f: LightMap)
    requires g.Valid() && IsLight(g, n) && z in g.cells && IsFlood(g, n, {z}, f)
    ensures Read(g, f, z) == Read(g, n, z)
  {
    var level := Read(g, n, z);
    var h := map c | c in f ::
      if f[c] < level then f[c] else if c == z || level <= Read(g, n, c) then Read(g, n, c)
      else if level > 0 then level - 1 else 0;
    forall c | c in g.cells ensures Read(g, n, c) <= Read(g, h, c) <= Read(g, f, c) {
      assert Read(g, n, c) <= Read(g, f, c);
    }
    forall a, b | (a == z || Raised(g, n, h, a)) && Edge(g, a, b) ensures Read(g, h, a) <= Read(g, h, b) + 1 {
      assert a == z || Raised(g, n, f, a);
      assert Satisfied(g, f, a);
    }
    assert Flooded(g, n, {z}, h);
    assert Read(g, f, z) <= Read(g, h, z);
  }

  /** No neighbour, within the open cells' reach of `z`, is more than one level above `level`. */
  ghost predicate DimAround(g: Grid, m: LightMap, z: Cell, level: nat) {
    forall x :: x in g.cells && Edge(g, x, z) ==> Read(g, m, x) <= level + 1
  }

  /** An overwritten cell that got darker gives nothing: the flood from it changes nothing. */
  lemma DarkerOverwriteStays(before: Grid, g: Grid, m: LightMap, z: Cell, level: nat, f: LightMap)
    requires before.Valid() && g.Valid() && IsLight(g, m) && Closed(before, m) && SameBut(before, g, {z})
             && z in g.cells
    requires level < Read(g, m, z) && IsFlood(g, m[z := level], {z}, f)
    ensures f == m[z := level]
  {
    var n := m[z := level];
    forall c | Edge(g, z, c) ensures level <= Read(g, n, c) + 1 {
      assert Edge(before, z, c) && Satisfied(before, m, z);
    }
    assert Flooded(g, n, {z}, n);
    MapsAgree(g, f, n);
  }

  lemma BrighterOverwrite(before: Grid, g: Grid, sources: LightMap, m: LightMap, z: Cell, level: nat, f: LightMap)
    requires before.Valid() && g.Valid() && IsLight(g, sources) && Exact(before, sources, m)
    requires SameBut(before, g, {z}) && z in g.cells && Read(g, m, z) <= level <= MAX_LIGHT
    requires IsFlood(g, m[z := level], {z}, f) && DimAround(g, m, z, level)
    ensures Exact(g, sources[z := level], f)
  {
    var n := m[z := level];
    forall a, b | a in g.cells && a != z && Edge(g, a, b) ensures Read(g, n, a) <= Read(g, n, b) + 1 {
      if b != z { assert Satisfied(before, m, a) && Edge(before, a, b); }
    }
    FloodIsExact(g, n, {z}, f);
    assert Read(g, n, z) <= Read(g, f, z);
    RewriteStaysExact(before, g, sources, m, {z}, sources[z := level], n, f);
  }

  lemma DarkerOverwriteIff(before: Grid, g: Grid, sources: LightMap, m: LightMap, z: Cell, level: nat)
    requires before.Valid() && g.Valid() && IsLight(g, sources) && Exact(before, sources, m)
    requires SameBut(before, g, {z}) && z in g.cells && level < Read(g, m, z)
    ensures Exact(g, sources[z := level], m[z := level])
       <==> DimAround(g, m, z, level) && FedWithout(g, sources, m, z)
  {
    var n, s := m[z := level], sources[z := level];
    if Exact(g, s, n) { ExactOverwriteNeeds(g, sources, m, z, level); }
    if DimAround(g, m, z, level) && FedWithout(g, sources, m, z) {
      OverwriteIsAbove(before, g, sources, m, z, level);
      DarkerOverwriteCloses(before, g, m, z, level);
      forall c | c in g.cells && 0 < Read(g, n, c) != Read(g, s, c) ensures Fed(g, n, c) {
        DarkerOverwriteFeeds(before, g, sources, m, z, level, c);
      }
      hide Fed, Closed, Above, DimAround, FedWithout, SameBut, Read;
    }
  }

  lemma OverwriteIsAbove(before: Grid, g: Grid, sources: LightMap, m: LightMap, z: Cell, level: nat)
    requires before.Valid() && g.Valid() && IsLight(g, sources) && Exact(before, sources, m)
    requires SameBut(before, g, {z}) && z in g.cells && level < Read(g, m, z)
    ensures Above(g, m[z := level], sources[z := level]) && IsLight(g, m[z := level]) && IsLight(g, m)
  {
    hide Supported, Closed;
    forall c | c in g.cells ensures Read(g, sources[z := level], c) <= Read(g, m[z := level], c) {
      assert Read(before, sources, c) <= Read(before, m, c);
    }
  }

  lemma ExactOverwriteNeeds(g: Grid, sources: LightMap, m: LightMap, z: Cell, level: nat)
    requires g.Valid() && IsLight(g, sources) && IsLight(g, m) && z in g.cells && level < Read(g, m, z)
    requires Exact(g, sources[z := level], m[z := level])
    ensures DimAround(g, m, z, level) && FedWithout(g, sources, m, z)
  {
    var n := m[z := level];
    forall x | x in g.cells && Edge(g, x, z) ensures Read(g, m, x) <= level + 1 { assert Satisfied(g, n, x); }
    forall c | Edge(g, z, c) && 0 < Read(g, m, c) != Read(g, sources, c) && Read(g, m, c) + 1 == Read(g, m, z)
      ensures OtherFeeder(g, m, z, c)
    {
      assert Fed(g, n, c);
      var a :| a in g.cells && Edge(g, a, c) && Read(g, n, a) == Read(g, n, c) + 1;
    }
  }

  lemma DarkerOverwriteCloses(before: Grid, g: Grid, m: LightMap, z: Cell, level: nat)
    requires before.Valid() && g.Valid() && IsLight(g, m) && Closed(before, m) && SameBut(before, g, {z})
             && z in g.cells
    requires level < Read(g, m, z) && DimAround(g, m, z, level)
    ensures Closed(g, m[z := level])
  {
    var n := m[z := level];
    forall a, b | a in g.cells && Edge(g, a, b) ensures Read(g, n, a) <= Read(g, n, b) + 1 {
      if b != z { assert Satisfied(before, m, a) && Edge(before, a, b); }
    }
  }

  lemma DarkerOverwriteFeeds(before: Grid, g: Grid, sources: LightMap, m: LightMap, z: Cell, level: nat, c: Cell)
    requires before.Valid() && g.Valid() && IsLight(g, sources) && Exact(before, sources, m)
    requires SameBut(before, g, {z}) && z in g.cells && level < Read(g, m, z) && FedWithout(g, sources, m, z)
    requires c in g.cells && c != z && 0 < Read(g, m, c) != Read(g, sources, c)
    ensures Fed(g, m[z := level], c)
  {
    assert Fed(before, m, c);
    var a :| a in before.cells && Edge(before, a, c) && Read(before, m, a) == Read(before, m, c) + 1;
    if a == z {
      assert OtherFeeder(g, m, z, c);
      a :| a in g.cells && a != z && Edge(g, a, c) && Read(g, m, a) == Read(g, m, c) + 1;
    }
    assert Edge(g, a, c) && Read(g, m[z := level], a) == Read(g, m[z := level], c) + 1;
  }

  /** When overwriting a cell with an emitter's level and flooding from it is exact, whatever stood
      there and whatever is placed: no neighbour could light the cell further, and the emitter is no
      dimmer than the level it overwrites or nothing that level fed depended on it. */
  lemma PlacedEmitterIff(before: Grid, g: Grid, sources: LightMap, m: LightMap, z: Cell, level: nat, f: LightMap)
    requires before.Valid() && g.Valid() && IsLight(g, sources) && Exact(before, sources, m)
    requires SameBut(before, g, {z}) && z in g.cells && level <= MAX_LIGHT
    requires IsFlood(g, m[z := level], {z}, f)
    ensures Exact(g, sources[z := level], f)
       <==> DimAround(g, m, z, level) && (Read(g, m, z) <= level || FedWithout(g, sources, m, z))
  {
    if level < Read(g, m, z) {
      DarkerOverwriteStays(before, g, m, z, level, f);
      DarkerOverwriteIff(before, g, sources, m, z, level);
    } else if DimAround(g, m, z, level) {
      BrighterOverwrite(before, g, sources, m, z, level, f);
    } else {
      var x :| x in g.cells && Edge(g, x, z) && Read(g, m, x) > level + 1;
      FloodKeepsItsSource(g, m[z := level], z, f);
      assert Read(g, m, x) <= Read(g, f, x);
      assert !Satisfied(g, f, x);
    }
  }

  /** Over a cell that was open already, an emitter no dimmer than the level it overwrites is exact;
      a dimmer one that lets light in is not, unless that level was a source's own. */
  lemma OpenEmitter(before: Grid, g: Grid, sources: LightMap, m: LightMap, z: Cell, level: nat, f: LightMap)
    requires before.Valid() && g.Valid() && IsLight(g, sources) && Exact(before, sources, m)
    requires OnlyBlocksMore(before, g, {z}) && z in g.cells && level <= MAX_LIGHT
    requires IsFlood(g, m[z := level], {z}, f)
    ensures Read(g, m, z) <= level ==> Exact(g, sources[z := level], f)
    ensures z !in g.blocking && Read(g, m, z) != Read(g, sources, z) && Exact(g, sources[z := level], f) ==>
              Read(g, m, z) <= level
  {
    PlacedEmitterIff(before, g, sources, m, z, level, f);
    forall x | x in g.cells && Edge(g, x, z) ensures Read(g, m, x) <= Read(g, m, z) + 1 {
      assert Satisfied(before, m, x) && Edge(before, x, z);
    }
    if z !in g.blocking && Read(g, m, z) != Read(g, sources, z) && level < Read(g, m, z) {
      assert Fed(before, m, z);
      var w :| w in before.cells && Edge(before, w, z) && Read(before, m, w) == Read(before, m, z) + 1;
      assert Edge(g, w, z);
    }
  }

  // ----- Opened cells -----

  ghost predicate BrightestAround(g: Grid, m: LightMap, z: Cell, level: nat) {
    && (forall a :: Adjacent(z, a) && g.InHeight(a.y) ==> Read(g, m, a) <= level)
    && (level > 0 ==> exists a :: Adjacent(z, a) && g.InHeight(a.y) && Read(g, m, a) == level)
  }

  /** A source that a neighbour feeds as well, or a dark one, can be dropped. */
  lemma DropSource(g: Grid, sources: LightMap, f: LightMap, z: Cell)
    requires g.Valid() && Exact(g, sources, f) && z in g.cells && z in sources
    requires Read(g, f, z) == 0 || Fed(g, f, z)
    ensures Exact(g, sources[z := 0], f)
  {
    forall c | c in g.cells ensures Read(g, sources[z := 0], c) <= Read(g, f, c) {
      assert Read(g, sources, c) <= Read(g, f, c);
    }
    forall c | c in g.cells && 0 < Read(g, f, c) != Read(g, sources[z := 0], c) ensures Fed(g, f, c) {
      if c != z { assert Read(g, f, c) != Read(g, sources, c); }
    }
  }

  function LevelFrom(around: nat): nat {
    if around > 1 then around - 1 else 0
  }

  lemma BrightestIsALevel(g: Grid, m: LightMap, z: Cell, around: nat)
    requires IsLight(g, m) && BrightestAround(g, m, z, around)
    ensures around <= MAX_LIGHT
  {
  }

  /** When zeroing a cell, refilling it from its brightest neighbour and flooding from it, if it is
      lit at all, gives the light of the sources without that cell: it must not be left with light
      that nothing feeds, and it must be as bright as before or nothing it fed depended on it. */
  lemma RefilledIff(before: Grid, g: Grid, sources: LightMap, m: LightMap, z: Cell, around: nat, queued: set<Cell>,
                    f: LightMap)
    requires before.Valid() && g.Valid() && IsLight(g, sources) && Exact(before, sources, m)
    requires SameBut(before, g, {z}) && z in g.cells && BrightestAround(g, m, z, around)
    requires queued == if around > 1 then {z} else {}
    requires IsFlood(g, m[z := LevelFrom(around)], queued, f)
    ensures Exact(g, sources[z := 0], f)
       <==> && (z !in g.blocking || LevelFrom(around) == 0)
            && (Read(g, m, z) <= LevelFrom(around) || FedWithout(g, sources, m, z))
  {
    var level := LevelFrom(around);
    BrightestIsALevel(g, m, z, around);
    RefilledFromCell(g, m, z, around, queued, f);
    PlacedEmitterIff(before, g, sources, m, z, level, f);
    forall x | x in g.cells && Edge(g, x, z) ensures Read(g, m, x) <= level + 1 { assert Adjacent(z, x); }
    RefilledSources(before, g, sources, m, z, around, f);
  }

  /** A cell that stays dark has nothing to give, whether it is queued or not. */
  lemma RefilledFromCell(g: Grid, m: LightMap, z: Cell, around: nat, queued: set<Cell>, f: LightMap)
    requires g.Valid() && IsLight(g, m) && z in g.cells && queued == if around > 1 then {z} else {}
    requires IsFlood(g, m[z := LevelFrom(around)], queued, f)
    ensures IsFlood(g, m[z := LevelFrom(around)], {z}, f)
  {
    if around <= 1 {
      var n := m[z := LevelFrom(around)];
      assert Read(g, n, z) == 0;
      assert Flooded(g, n, {}, n);
      MapsAgree(g, f, n);
      assert Satisfied(g, f, z);
      forall h | Flooded(g, n, {z}, h) ensures Above(g, h, f) {}
    }
  }

  /** A fed cell needs no source of its own; an opaque one with light and no source is wrong. */
  lemma RefilledSources(before: Grid, g: Grid, sources: LightMap, m: LightMap, z: Cell, around: nat, f: LightMap)
    requires before.Valid() && g.Valid() && IsLight(g, sources) && Exact(before, sources, m) && SameBut(before, g, {z})
    requires z in g.cells && BrightestAround(g, m, z, around)
    requires IsFlood(g, m[z := LevelFrom(around)], {z}, f)
    ensures Exact(g, sources[z := 0], f)
       <==> Exact(g, sources[z := LevelFrom(around)], f) && (z !in g.blocking || LevelFrom(around) == 0)
  {
    hide BrightestAround, Adjacent;
    var level := LevelFrom(around);
    BrightestIsALevel(g, m, z, around);
    FloodKeepsItsSource(g, m[z := level], z, f);
    assert sources[z := level][z := 0] == sources[z := 0];
    if z in g.blocking {
      assert !Fed(g, f, z);
    } else {
      if Exact(g, sources[z := 0], f) { SourceShown(g, sources, z, level, f); }
      if Exact(g, sources[z := level], f) {
        RefilledIsFed(g, m, z, around, f);
        DropSource(g, sources[z := level], f, z);
      }
    }
  }

  /** A source at the level a cell has anyway changes nothing. */
  lemma SourceShown(g: Grid, sources: LightMap, z: Cell, level: nat, f: LightMap)
    requires g.Valid() && Exact(g, sources[z := 0], f) && z in g.cells && Read(g, f, z) == level
    ensures Exact(g, sources[z := level], f)
  {
    forall c | c in g.cells ensures Read(g, sources[z := level], c) <= Read(g, f, c) {
      assert Read(g, sources[z := 0], c) <= Read(g, f, c);
    }
    forall c | c in g.cells && 0 < Read(g, f, c) != Read(g, sources[z := level], c) ensures Fed(g, f, c) {
      assert Read(g, f, c) != Read(g, sources[z := 0], c);
    }
  }

  lemma RefilledIsFed(g: Grid, m: LightMap, z: Cell, around: nat, f: LightMap)
    requires g.Valid() && IsLight(g, m) && z in g.cells && z !in g.blocking && BrightestAround(g, m, z, around)
    requires IsLight(g, f) && Above(g, f, m[z := LevelFrom(around)]) && Closed(g, f)
             && Read(g, f, z) == LevelFrom(around)
    ensures Read(g, f, z) == 0 || Fed(g, f, z)
  {
    if around > 1 {
      var a :| Adjacent(z, a) && g.InHeight(a.y) && Read(g, m, a) == around;
      assert Edge(g, a, z) && Satisfied(g, f, a);
      assert Read(g, m[z := LevelFrom(around)], a) <= Read(g, f, a);
    }
  }

  /** A cell that was open and no source of its own is refilled exactly. */
  lemma OpenedCell(before: Grid, g: Grid, sources: LightMap, m: LightMap, z: Cell, around: nat, queued: set<Cell>,
                   f: LightMap)
    requires before.Valid() && g.Valid() && IsLight(g, sources) && Exact(before, sources, m)
    requires SameBut(before, g, {z}) && z in g.cells && z !in g.blocking && Read(g, sources, z) == 0
    requires BrightestAround(g, m, z, around)
    requires queued == if around > 1 then {z} else {}
    requires IsFlood(g, m[z := LevelFrom(around)], queued, f)
    ensures Exact(g, sources, f)
  {
    hide IsFlood, BrightestAround;
    RefilledIff(before, g, sources, m, z, around, queued, f);
    assert sources[z := 0] == sources;
    hide Exact;
    LitIsRefilled(before, g, sources, m, z, around);
  }

  lemma LitIsRefilled(before: Grid, g: Grid, sources: LightMap, m: LightMap, z: Cell, around: nat)
    requires before.Valid() && Exact(before, sources, m) && SameBut(before, g, {z}) && z in g.cells
    requires Read(g, sources, z) == 0 && BrightestAround(g, m, z, around)
    ensures Read(g, m, z) <= LevelFrom(around)
  {
    if 0 < Read(g, m, z) {
      assert Fed(before, m, z);
      var w :| w in before.cells && Edge(before, w, z) && Read(before, m, w) == Read(before, m, z) + 1;
      assert Adjacent(z, w);
    }
  }
}
