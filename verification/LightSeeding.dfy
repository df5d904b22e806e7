/** `propagate_chunk_lighting`: which cells it queues for a newly loaded column, and why those are
    enough to close the light of the world around it. */
module LightSeeding {
  import opened Positions
  import opened LightGrid
  import opened LightTheory
  import opened LightRemoval
  import opened LightRegion
  import opened LightSections
  import opened LightFlares
  import opened Lighting
  import opened LightUpdates

  /** The 16-high sections a column stores; a missing one reads as dark air. */
  type Sections = map<Column, seq<bool>>

  ghost predicate LitIsStored(cells: set<Cell>, m: LightMap, sections: Sections, minSectionY: int) {
    forall c :: c in cells && c in m && 0 < m[c] ==>
      var i := c.y / SECTION_SIZE - minSectionY;
      ColumnOf(c) in sections && 0 <= i < |sections[ColumnOf(c)]| && sections[ColumnOf(c)][i]
  }

  /** The flags are those of the sections the host stores. */
  ghost predicate SectionsAre(stored: set<Section>, sections: Sections, minSectionY: int) {
    && (forall s :: s in stored ==>
          s.0 in sections && 0 <= s.1 - minSectionY < |sections[s.0]| && sections[s.0][s.1 - minSectionY])
    && (forall k, i :: k in sections && 0 <= i < |sections[k]| && sections[k][i] ==> (k, minSectionY + i) in stored)
  }

  lemma LitSections(host: LightHost, sections: Sections, minSectionY: int)
    requires host.Valid() && SectionsAre(host.stored, sections, minSectionY)
    ensures LitIsStored(host.cells, host.LightOf(Sky), sections, minSectionY)
    ensures LitIsStored(host.cells, host.block, sections, minSectionY)
  {
    host.LightIsLight(Sky);
    host.LightIsLight(Block);
    forall c | c in host.cells && SectionOf(c) !in host.stored ensures host.LightOf(Sky)[c] == 0 && host.block[c] == 0 {
      assert Read(host.GridFor(Sky), host.LightOf(Sky), c) == 0 && Read(host.GridFor(Block), host.block, c) == 0;
    }
  }

  ghost function Box(x0: int, x1: int, z0: int, z1: int, y0: int, y1: int): set<Cell> {
    set x, z, y | x0 <= x < x1 && z0 <= z < z1 && y0 <= y < y1 :: Cell(x, y, z)
  }

  /** `to` adds to `from` exactly the cells of the box that could light a taken neighbour. */
  ghost predicate Seeded(g: Grid, m: LightMap, o: Column, from: seq<Cell>, to: seq<Cell>, box: set<Cell>) {
    && (forall c :: c in from ==> c in to)
    && (forall c :: c in to ==> c in from || (c in box && c in g.cells && !Satisfied(Near(g, o), m, c)))
    && (forall c :: c in box && c in g.cells && !Satisfied(Near(g, o), m, c) ==> c in to)
  }

  lemma SeededTwice(g: Grid, m: LightMap, o: Column, q0: seq<Cell>, q1: seq<Cell>, q2: seq<Cell>, b1: set<Cell>,
                    b2: set<Cell>)
    requires Seeded(g, m, o, q0, q1, b1) && Seeded(g, m, o, q1, q2, b2)
    ensures Seeded(g, m, o, q0, q2, b1 + b2)
  {
  }

  datatype Queues = Queues(sky: seq<Cell>, block: seq<Cell>)

  ghost predicate Seeds(host: LightHost, o: Column, from: Queues, to: Queues, box: set<Cell>)
    reads host
  {
    && Seeded(host.GridFor(Sky), host.LightOf(Sky), o, from.sky, to.sky, box)
    && Seeded(host.GridFor(Block), host.block, o, from.block, to.block, box)
  }

  lemma SeedsCompose(host: LightHost, o: Column, q0: Queues, q1: Queues, q2: Queues, b1: set<Cell>, b2: set<Cell>,
                     box: set<Cell>)
    requires Seeds(host, o, q0, q1, b1) && Seeds(host, o, q1, q2, b2) && box == b1 + b2
    ensures Seeds(host, o, q0, q2, box)
  {
    SeededTwice(host.GridFor(Sky), host.LightOf(Sky), o, q0.sky, q1.sky, q2.sky, b1, b2);
    SeededTwice(host.GridFor(Block), host.block, o, q0.block, q1.block, q2.block, b1, b2);
  }

  lemma SeedsNothing(host: LightHost, o: Column, q: Queues, box: set<Cell>)
    requires host.Valid()
    requires forall c, kind :: c in box && c in host.cells ==> Read(host.GridFor(kind), host.LightOf(kind), c) <= 1
    ensures Seeds(host, o, q, q, box)
  {
    assert host.LightOf(Block) == host.block;
  }

  method NeighborNeedsPropagation(host: LightHost, o: Column, kind: LightKind, c: Cell) returns (needs: bool)
    requires host.Valid() && c in host.cells
    ensures needs <==> !Satisfied(Near(host.GridFor(kind), o), host.LightOf(kind), c)
  {
    ghost var near, m := Near(host.GridFor(kind), o), host.LightOf(kind);
    var light := host.GetLight(kind, c);
    needs := false;
    if light <= 1 {
      return;
    }
    for dir := 0 to 6
      invariant forall b :: Edge(near, c, b) && DirectionTo(c, b) < dir ==> Read(near, m, c) <= Read(near, m, b) + 1
    {
      var n := Step(c, dir);
      forall b ensures DirectionTo(c, b) < dir + 1 <==> DirectionTo(c, b) < dir || b == n { DirectionsAreSteps(c, b); }
      DirectionsAreSteps(c, n);
      if host.minY <= n.y < host.maxY && InReach(o, n) && ColumnOf(n) in host.columns && n !in host.opaqueCells
         && host.GetLight(kind, n) < light - 1 {
        assert Edge(near, c, n);
        return true;
      }
    }
    forall b ensures Adjacent(c, b) <==> DirectionTo(c, b) < 6 { DirectionsAreSteps(c, b); }
  }

  /** Queues one cell, per kind, if a taken neighbour lacks its light. */
  method SeedCell(host: LightHost, o: Column, c: Cell, q: Queues) returns (q': Queues)
    requires host.Valid() && c in host.cells
    ensures Seeds(host, o, q, q', {c})
  {
    var needsSky := NeighborNeedsPropagation(host, o, Sky, c);
    var needsBlock := NeighborNeedsPropagation(host, o, Block, c);
    q' := Queues(if needsSky then q.sky + [c] else q.sky, if needsBlock then q.block + [c] else q.block);
  }

  lemma NoBox(x: int, z: int, y: int)
    ensures Box(x, x + 1, z, z + 1, y, y) == {}
  {
  }

  lemma BoxGrowsY(x: int, z: int, low: int, y: int)
    requires low <= y
    ensures Box(x, x + 1, z, z + 1, low, y + 1) == Box(x, x + 1, z, z + 1, low, y) + {Cell(x, y, z)}
  {
  }

  /** The innermost loop: the cells of one section in one vertical line. With `skipDark`, a cell
      inside the column is passed over unless it is lit. */
  method SeedLine(host: LightHost, o: Column, x: int, z: int, baseY: int, skipDark: bool, q: Queues)
    returns (q': Queues)
    requires host.Valid() && (x / CHUNK_WIDTH, z / CHUNK_WIDTH) in host.columns
    ensures Seeds(host, o, q, q', Box(x, x + 1, z, z + 1, baseY, baseY + SECTION_SIZE))
  {
    hide Seeded, Box, IsLight;
    q' := q;
    NoBox(x, z, baseY);
    SeedsNothing(host, o, q, {});
    for ly := 0 to SECTION_SIZE
      invariant Seeds(host, o, q, q', Box(x, x + 1, z, z + 1, baseY, baseY + ly))
    {
      var c := Cell(x, baseY + ly, z);
      ghost var box := Box(x, x + 1, z, z + 1, baseY, baseY + ly);
      var before := q';
      if host.minY <= c.y < host.maxY && !(skipDark && host.GetLight(Sky, c) <= 1 && host.GetLight(Block, c) <= 1) {
        q' := SeedCell(host, o, c, q');
      } else {
        SeedsNothing(host, o, q', {c});
      }
      BoxGrowsY(x, z, baseY, baseY + ly);
      SeedsCompose(host, o, q, before, q', box, {c}, Box(x, x + 1, z, z + 1, baseY, baseY + ly + 1));
    }
  }

  /** The three loops over a section of a column, from (x0, z0) to (x1, z1) in world cells. */
  method SeedSection(host: LightHost, o: Column, x0: int, x1: int, z0: int, z1: int, baseY: int, skipInterior: bool,
                     q: Queues)
    returns (q': Queues)
    requires host.Valid() && x0 <= x1 && z0 <= z1
    requires forall x, z :: x0 <= x < x1 && z0 <= z < z1 ==> (x / CHUNK_WIDTH, z / CHUNK_WIDTH) in host.columns
    ensures Seeds(host, o, q, q', Box(x0, x1, z0, z1, baseY, baseY + SECTION_SIZE))
  {
    q' := q;
    SeedsNothing(host, o, q, {});
    assert Box(x0, x0, z0, z1, baseY, baseY + SECTION_SIZE) == {};
    for x := x0 to x1
      invariant Seeds(host, o, q, q', Box(x0, x, z0, z1, baseY, baseY + SECTION_SIZE))
    {
      ghost var before := q';
      assert Box(x, x + 1, z0, z0, baseY, baseY + SECTION_SIZE) == {};
      SeedsNothing(host, o, q', {});
      for z := z0 to z1
        invariant Seeds(host, o, before, q', Box(x, x + 1, z0, z, baseY, baseY + SECTION_SIZE))
      {
        ghost var line := q';
        var onFace := x % CHUNK_WIDTH == 0 || x % CHUNK_WIDTH == 15 || z % CHUNK_WIDTH == 0 || z % CHUNK_WIDTH == 15;
        q' := SeedLine(host, o, x, z, baseY, skipInterior && !onFace, q');
        BoxGrowsZ(x, z0, z, baseY);
        SeedsCompose(host, o, before, line, q', Box(x, x + 1, z0, z, baseY, baseY + SECTION_SIZE),
                     Box(x, x + 1, z, z + 1, baseY, baseY + SECTION_SIZE),
                     Box(x, x + 1, z0, z + 1, baseY, baseY + SECTION_SIZE));
      }
      BoxGrowsX(x0, x, z0, z1, baseY);
      SeedsCompose(host, o, q, before, q', Box(x0, x, z0, z1, baseY, baseY + SECTION_SIZE),
                   Box(x, x + 1, z0, z1, baseY, baseY + SECTION_SIZE),
                   Box(x0, x + 1, z0, z1, baseY, baseY + SECTION_SIZE));
    }
  }

  lemma BoxGrowsZ(x: int, z0: int, z: int, y: int)
    requires z0 <= z
    ensures Box(x, x + 1, z0, z + 1, y, y + SECTION_SIZE)
         == Box(x, x + 1, z0, z, y, y + SECTION_SIZE) + Box(x, x + 1, z, z + 1, y, y + SECTION_SIZE)
  {
  }

  lemma BoxGrowsX(x0: int, x: int, z0: int, z1: int, y: int)
    requires x0 <= x
    ensures Box(x0, x + 1, z0, z1, y, y + SECTION_SIZE)
         == Box(x0, x, z0, z1, y, y + SECTION_SIZE) + Box(x, x + 1, z0, z1, y, y + SECTION_SIZE)
  {
  }

  /** The sections of one column, from (x0, z0) to (x1, z1): missing ones are skipped. */
  method SeedSections(host: LightHost, o: Column, x0: int, x1: int, z0: int, z1: int, skipInterior: bool,
                      present: seq<bool>, minSectionY: int, q: Queues, ghost sections: Sections)
    returns (q': Queues)
    requires host.Valid() && x0 < x1 && z0 < z1
    requires LitIsStored(host.cells, host.LightOf(Sky), sections, minSectionY)
             && LitIsStored(host.cells, host.block, sections, minSectionY)
    requires forall x, z :: x0 <= x < x1 && z0 <= z < z1 ==>
      var k := (x / CHUNK_WIDTH, z / CHUNK_WIDTH); k in host.columns && k in sections && sections[k] == present
    ensures Seeds(host, o, q, q', Slab(x0, x1, z0, z1, minSectionY, |present|))
  {
    hide Satisfied, Seeded;
    q' := q;
    SeedsNothing(host, o, q, {});
    assert Slab(x0, x1, z0, z1, minSectionY, 0) == {};
    for i := 0 to |present|
      invariant Seeds(host, o, q, q', Slab(x0, x1, z0, z1, minSectionY, i))
    {
      ghost var before := q';
      var baseY := (minSectionY + i) * SECTION_SIZE;
      ghost var box := Box(x0, x1, z0, z1, baseY, baseY + SECTION_SIZE);
      if present[i] {
        q' := SeedSection(host, o, x0, x1, z0, z1, baseY, skipInterior, q');
      } else {
        forall c, kind | c in box && c in host.cells ensures Read(host.GridFor(kind), host.LightOf(kind), c) <= 1 {
          assert c.y / SECTION_SIZE - minSectionY == i;
          assert host.LightOf(kind) == if kind.Sky? then host.LightOf(Sky) else host.block;
        }
        SeedsNothing(host, o, q', box);
      }
      SlabGrows(x0, x1, z0, z1, minSectionY, i);
      SeedsCompose(host, o, q, before, q', Slab(x0, x1, z0, z1, minSectionY, i), box,
                   Slab(x0, x1, z0, z1, minSectionY, i + 1));
    }
  }

  /** The first `n` sections over a rectangle. */
  ghost function Slab(x0: int, x1: int, z0: int, z1: int, minSectionY: int, n: nat): set<Cell> {
    Box(x0, x1, z0, z1, minSectionY * SECTION_SIZE, (minSectionY + n) * SECTION_SIZE)
  }

  lemma SlabGrows(x0: int, x1: int, z0: int, z1: int, minSectionY: int, i: nat)
    ensures var baseY := (minSectionY + i) * SECTION_SIZE;
            Slab(x0, x1, z0, z1, minSectionY, i + 1)
            == Slab(x0, x1, z0, z1, minSectionY, i) + Box(x0, x1, z0, z1, baseY, baseY + SECTION_SIZE)
  {
  }

  /** The cells of the rectangle, at any height, that could light a taken neighbour are queued. */
  lemma SlabHoldsAll(host: LightHost, o: Column, x0: int, x1: int, z0: int, z1: int, present: seq<bool>,
                     minSectionY: int, q: Queues, q': Queues, sections: Sections, kind: LightKind, c: Cell)
    requires host.Valid() && Seeds(host, o, q, q', Slab(x0, x1, z0, z1, minSectionY, |present|))
    requires LitIsStored(host.cells, host.LightOf(kind), sections, minSectionY)
    requires c in host.cells && x0 <= c.x < x1 && z0 <= c.z < z1
    requires ColumnOf(c) in sections && sections[ColumnOf(c)] == present
    requires !Satisfied(Near(host.GridFor(kind), o), host.LightOf(kind), c)
    ensures c in (if kind.Sky? then q'.sky else q'.block)
  {
    assert 0 < host.LightOf(kind)[c];
    assert c == Cell(c.x, c.y, c.z);
    assert c in Slab(x0, x1, z0, z1, minSectionY, |present|);
  }

  /** The world range, along one axis, of the part of column index `k` that faces index `o`. */
  function FaceStart(k: int, o: int): int {
    if k < o then CHUNK_WIDTH * k + 15 else CHUNK_WIDTH * k
  }

  function FaceEnd(k: int, o: int): int {
    if k > o then CHUNK_WIDTH * k + 1 else CHUNK_WIDTH * k + 16
  }

  predicate OnFace(k: Column, o: Column, c: Cell) {
    ColumnOf(c) == k && FaceStart(k.0, o.0) <= c.x < FaceEnd(k.0, o.0) && FaceStart(k.1, o.1) <= c.z < FaceEnd(k.1, o.1)
  }

  /** Each cell of the face that could light a taken neighbour is queued. */
  ghost predicate FaceQueued(host: LightHost, o: Column, k: Column, q: Queues)
    reads host
  {
    forall c :: c in host.cells && OnFace(k, o, c) ==>
      && (!Satisfied(Near(host.GridFor(Sky), o), host.LightOf(Sky), c) ==> c in q.sky)
      && (!Satisfied(Near(host.GridFor(Block), o), host.block, c) ==> c in q.block)
  }

  /** Only cells of the column and of the blocks touching it are queued, and only those with something to give. */
  ghost predicate QueuedNearby(host: LightHost, o: Column, q: Queues)
    reads host
  {
    OnlyGivers(host.GridFor(Sky), host.LightOf(Sky), o, q.sky)
        && OnlyGivers(host.GridFor(Block), host.block, o, q.block)
  }

  ghost predicate OnlyGivers(g: Grid, m: LightMap, o: Column, queue: seq<Cell>) {
    forall c :: c in queue ==> c in g.cells && Distance(o, c) <= 1 && !Satisfied(Near(g, o), m, c)
  }

  /** Seeds one column: the whole of the middle one (`k == o`), or the face a cardinal neighbour
      shares with it. A column that is not loaded adds nothing. */
  method SeedColumn(host: LightHost, o: Column, k: Column, sections: Sections, minSectionY: int, q: Queues)
    returns (q': Queues)
    requires host.Valid() && sections.Keys == host.columns && QueuedNearby(host, o, q)
    requires LitIsStored(host.cells, host.LightOf(Sky), sections, minSectionY)
             && LitIsStored(host.cells, host.block, sections, minSectionY)
    requires k in {o, (o.0 - 1, o.1), (o.0 + 1, o.1), (o.0, o.1 - 1), (o.0, o.1 + 1)}
    ensures QueuedNearby(host, o, q') && FaceQueued(host, o, k, q')
    ensures forall k' :: FaceQueued(host, o, k', q) ==> FaceQueued(host, o, k', q')
  {
    hide Satisfied, LitIsStored, Near, IsLight, HasWholeColumns, DarkWhereMissing, AsCreated;
    q' := q;
    if k !in host.columns {
      return;
    }
    var x0, x1, z0, z1 := FaceStart(k.0, o.0), FaceEnd(k.0, o.0), FaceStart(k.1, o.1), FaceEnd(k.1, o.1);
    q' := SeedSections(host, o, x0, x1, z0, z1, k == o, sections[k], minSectionY, q, sections);
    forall c | c in Slab(x0, x1, z0, z1, minSectionY, |sections[k]|) ensures Distance(o, c) <= 1 {
    }
    forall c | c in host.cells && OnFace(k, o, c)
      ensures !Satisfied(Near(host.GridFor(Sky), o), host.LightOf(Sky), c) ==> c in q'.sky
      ensures !Satisfied(Near(host.GridFor(Block), o), host.block, c) ==> c in q'.block
    {
      if !Satisfied(Near(host.GridFor(Sky), o), host.LightOf(Sky), c) {
        SlabHoldsAll(host, o, x0, x1, z0, z1, sections[k], minSectionY, q, q', sections, Sky, c);
      }
      if !Satisfied(Near(host.GridFor(Block), o), host.block, c) {
        SlabHoldsAll(host, o, x0, x1, z0, z1, sections[k], minSectionY, q, q', sections, Block, c);
      }
    }
  }

  ghost predicate LacksLight(g: Grid, m: LightMap, a: Cell, b: Cell) {
    Edge(g, a, b) && Read(g, m, a) > Read(g, m, b) + 1
  }

  /** Every edge whose end lacks light and that touches column `o` starts at a queued cell, and
      the queue stays within one block of the column. */
  ghost predicate SeedsSuffice(g: Grid, m: LightMap, o: Column, queue: seq<Cell>) {
    && (forall c :: c in queue ==> c in g.cells && Distance(o, c) <= 1)
    && (forall a, b :: a in g.cells && LacksLight(g, m, a, b) && (ColumnOf(a) == o || ColumnOf(b) == o) ==> a in queue)
  }

  lemma TouchingIsOnFace(o: Column, a: Cell, b: Cell)
    requires Adjacent(a, b) && (ColumnOf(a) == o || ColumnOf(b) == o)
    ensures ColumnOf(a) in {o, (o.0 - 1, o.1), (o.0 + 1, o.1), (o.0, o.1 - 1), (o.0, o.1 + 1)}
    ensures OnFace(ColumnOf(a), o, a) && InReach(o, a) && InReach(o, b)
  {
  }

  lemma FacesSuffice(host: LightHost, o: Column, q: Queues, kind: LightKind)
    requires host.Valid() && QueuedNearby(host, o, q)
    requires forall k :: k in {o, (o.0 - 1, o.1), (o.0 + 1, o.1), (o.0, o.1 - 1), (o.0, o.1 + 1)}
               ==> FaceQueued(host, o, k, q)
    ensures SeedsSuffice(host.GridFor(kind), host.LightOf(kind), o, if kind.Sky? then q.sky else q.block)
  {
    var g, m := host.GridFor(kind), host.LightOf(kind);
    forall a, b | a in g.cells && LacksLight(g, m, a, b) && (ColumnOf(a) == o || ColumnOf(b) == o)
      ensures a in (if kind.Sky? then q.sky else q.block)
    {
      TouchingIsOnFace(o, a, b);
      assert FaceQueued(host, o, ColumnOf(a), q);
      assert Edge(Near(g, o), a, b) && !Satisfied(Near(g, o), m, a);
    }
  }

  /** The cells from which a newly loaded column is lit. */
  method SeedQueues(host: LightHost, o: Column, sections: Sections, minSectionY: int) returns (q: Queues)
    requires host.Valid() && sections.Keys == host.columns
    requires LitIsStored(host.cells, host.LightOf(Sky), sections, minSectionY)
             && LitIsStored(host.cells, host.block, sections, minSectionY)
    ensures SeedsSuffice(host.GridFor(Sky), host.LightOf(Sky), o, q.sky)
    ensures SeedsSuffice(host.GridFor(Block), host.block, o, q.block)
    ensures QueuedNearby(host, o, q)
  {
    hide Satisfied, LitIsStored, SeedsSuffice;
    q := Queues([], []);
    q := SeedColumn(host, o, o, sections, minSectionY, q);
    q := SeedColumn(host, o, (o.0 - 1, o.1), sections, minSectionY, q);
    q := SeedColumn(host, o, (o.0 + 1, o.1), sections, minSectionY, q);
    q := SeedColumn(host, o, (o.0, o.1 - 1), sections, minSectionY, q);
    q := SeedColumn(host, o, (o.0, o.1 + 1), sections, minSectionY, q);
    FacesSuffice(host, o, q, Sky);
    FacesSuffice(host, o, q, Block);
  }

  /** The nine columns' floods, sky light first, in the world's terms: what they ought to reach, and when
      they do. Block light always gets there; sky light does unless one of the floods creates a section
      that starts bright. */
  ghost predicate FloodedBoth(sg: Grid, bg: Grid, stored: set<Section>, sky: LightMap, block: LightMap, q: Queues,
                              ideal: LightMap, sky': LightMap, block': LightMap) {
    && IsFlood(bg, block, Elements(q.block), block')
    && IsFlood(sg, sky, Elements(q.sky), ideal)
    && (sky' == ideal <==> !EntersBright(sg, stored, sky, ideal) && !EntersBright(bg, stored, block, block'))
  }

  /** What the floods come to in either case: `carried` is the sky light after its own flood, with the
      sections `between`; block light then creates the sections it lights, with their sky light. */
  ghost predicate CarriedBoth(sg: Grid, bg: Grid, stored: set<Section>, sky: LightMap, block: LightMap, q: Queues,
                              carried: LightMap, between: set<Section>, sky': LightMap, block': LightMap,
                              stored': set<Section>) {
    && Carries(Sky, sg, sky, stored, {}, Elements(q.sky), carried, between)
    && stored' == between + ChangedSections(bg, block, block')
    && forall c :: c in sg.cells ==>
         Read(sg, sky', c) == if SectionOf(c) in stored' && SectionOf(c) !in between && StartsBright(SectionOf(c))
                              then MAX_LIGHT else Read(sg, carried, c)
  }

  lemma ShownLater(g: Grid, levels: LightMap, block: LightMap, between: set<Section>, stored: set<Section>)
    requires g.Valid() && IsLight(g, levels) && block.Keys == g.cells && AsCreated(levels, block, between)
    requires between <= stored
    ensures forall c :: c in g.cells ==>
      Read(g, Shown(levels, stored), c)
      == if SectionOf(c) in stored && SectionOf(c) !in between && StartsBright(SectionOf(c)) then MAX_LIGHT
         else Read(g, Shown(levels, between), c)
  {
  }

  lemma BlockCreates(bg: Grid, block: LightMap, o: Column, queued: set<Cell>, stored: set<Section>, st1: set<Section>,
                     fb: LightMap, st2: set<Section>)
    requires bg.Valid() && IsLight(bg, block) && Near(bg, o).Valid() && IsLight(Near(bg, o), Part(block, o))
    requires FloodOutcome(Block, Near(bg, o), Part(block, o), st1, queued, fb, st2)
    ensures stored + st2 == stored + st1 + ChangedSections(bg, block, block + fb)
  {
    ChangedPutBack(bg, block, o, fb);
  }

  /** Both floods, put back, in either case. */
  lemma BothCarried(sg: Grid, bg: Grid, stored: set<Section>, levels: LightMap, block: LightMap, o: Column, q: Queues,
                    f1: LightMap, st1: set<Section>, fb: LightMap, st2: set<Section>)
    returns (carried: LightMap, between: set<Section>)
    requires sg.Valid() && bg.Valid() && sg.cells == bg.cells
    requires IsLight(sg, levels) && IsLight(bg, block) && AsCreated(levels, block, stored)
    requires IsLight(Near(sg, o), f1) && AsCreated(f1, Part(block, o), st1)
    requires st1 == SectionsNear(st1, o) && SectionsNear(stored, o) <= st1 <= st2
    requires Near(sg, o).Valid() && Near(bg, o).Valid() && IsLight(Near(bg, o), Part(block, o))
    requires Carries(Sky, Near(sg, o), Part(Shown(levels, stored), o), SectionsNear(stored, o), {}, Elements(q.sky),
                     Shown(f1, st1), st1)
    requires Above(Near(sg, o), Shown(f1, st1), Part(Shown(levels, stored), o))
    requires FloodOutcome(Block, Near(bg, o), Part(block, o), st1, Elements(q.block), fb, st2)
    requires forall c :: c in q.sky ==> Distance(o, c) <= 1
    ensures CarriedBoth(sg, bg, stored, Shown(levels, stored), block, q, carried, between,
                        Shown(levels + f1, stored + st2), block + fb, stored + st2)
    ensures carried == Shown(levels, stored) + Shown(f1, st1) && between == stored + st1
  {
    hide FloodOutcome, Carries, CarriesPart, Shown, AsCreated, SectionsNear, Near, Part, ChangedSections, Distance,
         DarkWhereMissing;
    var sky := Shown(levels, stored);
    ShownIsLight(sg, levels, stored);
    ShownIsLight(Near(sg, o), f1, st1);
    PutBackIsAbove(sg, sky, o, Shown(f1, st1));
    ShownPutBack(sg, levels, o, f1, stored, st1);
    PutBackReads(sg, levels, o, f1);
    carried, between := sky + Shown(f1, st1), stored + st1;
    ShownIsLight(sg, levels + f1, between);
    CarriedBack(Sky, sg, sky, o, Elements(q.sky), Shown(f1, st1), stored, st1);
    BlockCreates(bg, block, o, Elements(q.block), stored, st1, fb, st2);
    CreatedPutBack(sg, bg, levels, block, o, f1, Part(block, o), stored, st1);
    PartPutBack(block, o);
    ShownLater(sg, levels + f1, block, between, stored + st2);
  }

  lemma BrightStaysOut(g: Grid, stored: set<Section>, more: set<Section>, m: LightMap, f: LightMap)
    requires stored <= more && NoneBright(stored, more)
    ensures EntersBright(g, stored, m, f) <==> EntersBright(g, more, m, f)
  {
  }

  lemma MoreIsShown(g: Grid, levels: LightMap, stored: set<Section>, more: set<Section>)
    requires g.Valid() && IsLight(g, levels) && stored <= more
    ensures IsLight(g, Shown(levels, more)) && Above(g, Shown(levels, more), Shown(levels, stored))
  {
  }

  /** How the second flood shows in the sky light the first one left. */
  lemma SkyOfBoth(sg: Grid, bg: Grid, stored: set<Section>, levels: LightMap, sky: LightMap, block: LightMap,
                  queued: set<Cell>, ideal: LightMap, s1: set<Section>, block': LightMap, s2: set<Section>)
    requires sg.Valid() && bg.Valid() && HasWholeColumns(sg) && sg.cells == bg.cells
    requires IsLight(sg, levels) && IsLight(bg, block)
    requires IsLight(sg, sky) && DarkWhereMissing(sg, sky, stored) && AsCreated(levels, block, s1)
    requires sg.minY == bg.minY && sg.maxY == bg.maxY
    requires IsFlood(sg, sky, queued, ideal) && Outcome(Sky, sg, stored, sky, ideal, Shown(levels, s1), s1)
    requires s2 == s1 + ChangedSections(bg, block, block')
    ensures Shown(levels, s2) == ideal
       <==> !EntersBright(sg, stored, sky, ideal) && !EntersBright(bg, stored, block, block')
  {
    hide EntersBright, Flared, IsFlood, AsCreated, Shown, ChangedSections, DarkWhereMissing;
    MoreIsShown(sg, levels, s1, s2);
    if Clean(Sky, stored, s1) {
      SkyKept(sg, bg, levels, block, s1, block', s2);
      BrightStaysOut(bg, stored, s1, block, block');
    } else {
      FlaredPersists(sg, stored, stored, Shown(levels, s1), Shown(levels, s2));
      FlaredIsNoFlood(sg, stored, sky, queued, Shown(levels, s2));
    }
  }

  lemma SkyKept(sg: Grid, bg: Grid, sky: LightMap, block: LightMap, stored: set<Section>, block': LightMap,
                stored': set<Section>)
    requires sg.Valid() && bg.Valid() && sg.cells == bg.cells && IsLight(sg, sky) && IsLight(bg, block)
             && AsCreated(sky, block, stored)
    requires stored' == stored + ChangedSections(bg, block, block')
    ensures Shown(sky, stored') == Shown(sky, stored) <==> !EntersBright(bg, stored, block, block')
  {
    assert IsLight(bg, sky);
    SkyKeptIff(bg, sky, block, stored, block', stored');
  }

  lemma NearAgain(stored: set<Section>, columns: set<Column>, o: Column)
    requires forall s :: s in stored ==> s.0 in columns
    requires columns <= set k | k in columns && -1 <= k.0 - o.0 <= 1 && -1 <= k.1 - o.1 <= 1
    ensures stored == SectionsNear(stored, o)
  {
  }

  lemma NearIsAll(st1: set<Section>, st2: set<Section>, o: Column)
    requires st1 <= st2 && st2 == SectionsNear(st2, o)
    ensures st1 == SectionsNear(st1, o)
  {
    forall s | s in st1 ensures s in SectionsNear(st1, o) { assert s in SectionsNear(st2, o); }
  }

  /** Both floods, put back. */
  lemma BothPutBack(sg: Grid, bg: Grid, stored: set<Section>, levels: LightMap, block: LightMap, o: Column, q: Queues,
                    f1: LightMap, st1: set<Section>, fb: LightMap, st2: set<Section>) returns (ideal: LightMap)
    requires sg.Valid() && bg.Valid() && HasWholeColumns(sg) && sg.cells == bg.cells
    requires sg.minY == bg.minY && sg.maxY == bg.maxY
    requires IsLight(sg, levels) && IsLight(bg, block) && AsCreated(levels, block, stored)
    requires IsLight(Near(sg, o), f1) && AsCreated(f1, Part(block, o), st1)
    requires st1 == SectionsNear(st1, o) && st2 == SectionsNear(st2, o) && SectionsNear(stored, o) <= st1 <= st2
    requires Near(sg, o).Valid() && Near(bg, o).Valid()
    requires IsLight(Near(sg, o), Part(Shown(levels, stored), o)) && IsLight(Near(bg, o), Part(block, o))
    requires FloodOutcome(Sky, Near(sg, o), Part(Shown(levels, stored), o), SectionsNear(stored, o), Elements(q.sky),
                          Shown(f1, st1), st1)
    requires FloodOutcome(Block, Near(bg, o), Part(block, o), st1, Elements(q.block), fb, st2)
    requires forall c :: c in q.sky ==> Distance(o, c) <= 1
    requires forall c :: c in q.block ==> Distance(o, c) <= 1
    ensures FloodedBoth(sg, bg, stored, Shown(levels, stored), block, q, ideal, Shown(levels + f1, stored + st2),
                        block + fb)
    ensures Clean(Sky, SectionsNear(stored, o), st1) ==> ideal == Shown(levels, stored) + Shown(f1, st1)
    ensures !Clean(Sky, SectionsNear(stored, o), st1) ==> EntersBright(sg, stored, Shown(levels, stored), ideal)
  {
    hide FloodOutcome, Outcome, IsFlood, EntersBright, Shown, AsCreated, SectionsNear, Near, Part, Clean,
         ChangedSections, HasWholeColumns, DarkWhereMissing, Distance;
    var sky, s1 := Shown(levels, stored), stored + st1;
    ShownIsLight(sg, levels, stored);
    ideal := PutBackOutcome(Sky, sg, sky, o, Elements(q.sky), Shown(f1, st1), stored, st1);
    ShownPutBack(sg, levels, o, f1, stored, st1);
    NearOfSum(stored, st1, o);
    var idealB := PutBackOutcome(Block, bg, block, o, Elements(q.block), fb, s1, st2);
    BlockReaches(bg, s1, block, idealB, block + fb, s1 + st2);
    assert s1 + st2 == stored + st2;
    FloodAroundColumn(sg, sky, o, Elements(q.sky), Part(ideal, o));
    FloodAroundColumn(bg, block, o, Elements(q.block), Part(idealB, o));
    CreatedPutBack(sg, bg, levels, block, o, f1, Part(block, o), stored, st1);
    PartPutBack(block, o);
    PutBackReads(sg, levels, o, f1);
    SkyOfBoth(sg, bg, stored, levels + f1, sky, block, Elements(q.sky), ideal, s1, block + fb, stored + st2);
    SectionsPutBack(Sky, sg, sky, o, stored, st1);
    if Clean(Sky, stored, s1) {
      CleanReaches(Sky, sg, stored, sky, ideal, sky + Shown(f1, st1), s1);
    } else {
      UncleanEnters(sg, stored, sky, ideal, sky + Shown(f1, st1), s1);
    }
  }

  lemma UncleanEnters(g: Grid, stored: set<Section>, m: LightMap, ideal: LightMap, m': LightMap, stored': set<Section>)
    requires Outcome(Sky, g, stored, m, ideal, m', stored') && !Clean(Sky, stored, stored')
    ensures EntersBright(g, stored, m, ideal)
  {
  }

  lemma CarriedIsAbove(kind: LightKind, g: Grid, m0: LightMap, stored0: set<Section>, start: set<Cell>, m: LightMap,
                       stored: set<Section>)
    requires Carries(kind, g, m0, stored0, {}, start, m, stored)
    ensures Above(g, m, m0)
  {
  }

  /** Both floods on the columns taken; `st1` are the sections after the first. */
  method FloodTaken(nb: LightNeighborhood, q: Queues, dirty: set<Column>)
    returns (dirty': set<Column>, ghost st1: set<Section>, ghost changed: seq<Cell>, ghost noted: set<Column>)
    requires nb.Valid()
    modifies nb
    ensures nb.Valid() && nb.GridFor(Sky).Valid() && nb.GridFor(Block).Valid()
    ensures IsLight(nb.GridFor(Sky), old(nb.LightOf(Sky))) && IsLight(nb.GridFor(Block), old(nb.block))
    ensures old(nb.stored) <= st1 <= nb.stored && AsCreated(nb.sky, old(nb.block), st1)
            && IsLight(nb.GridFor(Sky), nb.sky)
    ensures FloodOutcome(Sky, nb.GridFor(Sky), old(nb.LightOf(Sky)), old(nb.stored), Elements(q.sky),
                         Shown(nb.sky, st1), st1)
    ensures FloodOutcome(Block, nb.GridFor(Block), old(nb.block), st1, Elements(q.block), nb.block, nb.stored)
    ensures Carries(Sky, nb.GridFor(Sky), old(nb.LightOf(Sky)), old(nb.stored), {}, Elements(q.sky), Shown(nb.sky, st1),
                    st1)
    ensures Above(nb.GridFor(Sky), Shown(nb.sky, st1), old(nb.LightOf(Sky)))
    ensures dirty <= noted <= dirty' && forall c :: c in changed ==> c in nb.changedCells
    ensures Noted(Sky, nb.GridFor(Sky), old(nb.stored), st1, old(nb.LightOf(Sky)), Shown(nb.sky, st1), changed, noted)
    ensures ChangesNoted(nb.GridFor(Block), old(nb.block), nb.block, nb.changedCells, dirty')
  {
    hide ChangesNoted, Noted, FloodOutcome, Carries, Shown, NoneBright;
    nb.LightIsLight(Sky);
    nb.LightIsLight(Block);
    ghost var sky0, block0, st0 := nb.LightOf(Sky), nb.block, nb.stored;
    dirty' := nb.Propagate(Sky, q.sky, dirty);
    st1, changed, noted := nb.stored, nb.changedCells, dirty';
    CarriedIsAbove(Sky, nb.GridFor(Sky), sky0, st0, Elements(q.sky), nb.LightOf(Sky), st1);
    ghost var f1 := nb.sky;
    nb.LightIsLight(Block);
    dirty' := nb.Propagate(Block, q.block, dirty');
    NotedIfClean(Block, nb.GridFor(Block), st1, nb.stored, block0, nb.block, nb.changedCells, dirty');
    assert nb.sky == f1;
  }

  /** Floods both kinds on the nine columns around `o`. */
  method FloodBoth(host: LightHost, o: Column, q: Queues, dirty: set<Column>)
    returns (dirty': set<Column>, ghost ideal: LightMap, ghost carried: LightMap, ghost between: set<Section>)
    requires host.Valid() && QueuedNearby(host, o, q)
    modifies host
    ensures host.Valid() && dirty <= dirty' && old(host.stored) <= host.stored
    ensures FloodedBoth(host.GridFor(Sky), host.GridFor(Block), old(host.stored), old(host.LightOf(Sky)),
                        old(host.block), q, ideal, host.LightOf(Sky), host.block)
    ensures CarriedBoth(host.GridFor(Sky), host.GridFor(Block), old(host.stored), old(host.LightOf(Sky)),
                        old(host.block), q, carried, between, host.LightOf(Sky), host.block, host.stored)
    ensures NotedBoth(host, old(host.stored), old(host.LightOf(Sky)), old(host.block), dirty')
  {
    hide ChangesNoted, Noted, ChangesSeen, Seen, IsFlood, Near, Part, ColumnOf, FloodOutcome, AsCreated, Shown,
         SectionsNear, DarkWhereMissing, HasWholeColumns, EntersBright, ChangedSections, NoneBright, FloodedBoth,
         Carries, CarriedBoth, Above;
    ghost var sg, bg, before := host.GridFor(Sky), host.GridFor(Block), host.stored;
    ghost var sky0, levels0, block0 := host.LightOf(Sky), host.sky, host.block;
    host.LightIsLight(Sky);
    host.LightIsLight(Block);
    var nb := host.Take(o);
    ghost var near0, st1, changed, noted := nb.stored, {}, [], {};
    dirty', st1, changed, noted := FloodTaken(nb, q, dirty);
    ghost var f1, fb, st2, changed2 := nb.sky, nb.block, nb.stored, nb.changedCells;
    host.Restore(nb, o);
    NearIsAll(st1, st2, o);
    ideal := BothPutBack(sg, bg, before, levels0, block0, o, q, f1, st1, fb, st2);
    carried, between := BothCarried(sg, bg, before, levels0, block0, o, q, f1, st1, fb, st2);
    ShownIsLight(Near(sg, o), f1, st1);
    BothAreNoted(sg, bg, before, sky0, block0, o, q, carried, between, host.LightOf(Sky), f1, st1, fb, host.stored,
                 changed, noted, changed2, dirty', host.savedDirty);
  }

  /** How the second flood's sections show in what the first one noted. */
  lemma BothAreNoted(sg: Grid, bg: Grid, stored: set<Section>, sky: LightMap, block: LightMap, o: Column, q: Queues,
                     carried: LightMap, between: set<Section>, sky': LightMap, f1: LightMap, st1: set<Section>,
                     fb: LightMap, stored': set<Section>, changed: seq<Cell>, noted: set<Column>,
                     changed2: seq<Cell>, dirty: set<Column>, saved: set<Column>)
    requires sg.Valid() && bg.Valid() && IsLight(sg, sky) && IsLight(bg, block) && IsLight(Near(sg, o), Shown(f1, st1))
    requires IsLight(Near(bg, o), fb) && carried == sky + Shown(f1, st1) && between == stored + st1
    requires CarriedBoth(sg, bg, stored, sky, block, q, carried, between, sky', block + fb, stored')
    requires Noted(Sky, Near(sg, o), SectionsNear(stored, o), st1, Part(sky, o), Shown(f1, st1), changed, noted)
    requires ChangesNoted(Near(bg, o), Part(block, o), fb, changed2, dirty) && noted <= dirty
    requires forall c :: c in changed ==> c in changed2
    requires forall c :: c in changed2 && sg.InHeight(c.y) ==> ColumnOf(c) in saved
    requires sg.minY == bg.minY && sg.maxY == bg.maxY
    ensures Seen(Sky, sg, stored, stored', sky, sky', {}, saved, dirty)
    ensures ChangesSeen(bg, block, block + fb, {}, saved, dirty)
  {
    NotedInWorld(bg, block, o, fb, changed2, dirty, changed2, dirty, saved);
    SeenInWorld(Sky, sg, sky, o, stored, Shown(f1, st1), st1, changed, noted, changed2, dirty, saved);
    SeenLater(sg, bg, stored, sky, block, q, carried, between, sky', block + fb, stored', saved, dirty);
  }

  lemma SeenLater(sg: Grid, bg: Grid, stored: set<Section>, sky: LightMap, block: LightMap, q: Queues,
                  carried: LightMap, between: set<Section>, sky': LightMap, block': LightMap, stored': set<Section>,
                  saved: set<Column>, dirty: set<Column>)
    requires CarriedBoth(sg, bg, stored, sky, block, q, carried, between, sky', block', stored') && stored <= between
    requires Seen(Sky, sg, stored, between, sky, carried, {}, saved, dirty)
    ensures Seen(Sky, sg, stored, stored', sky, sky', {}, saved, dirty)
  {
    hide Carries, ChangedSections;
  }

  /** Whatever changed, of either kind, is noted for saving and for meshing, save for the sky light with
      which sections were created. */
  ghost predicate NotedBoth(host: LightHost, stored: set<Section>, sky: LightMap, block: LightMap, dirty: set<Column>)
    reads host
  {
    && Seen(Sky, host.GridFor(Sky), stored, host.stored, sky, host.LightOf(Sky), {}, host.savedDirty, dirty)
    && ChangesSeen(host.GridFor(Block), block, host.block, {}, host.savedDirty, dirty)
  }

  /** Lights a newly loaded column. The seeds suffice for both kinds; block light becomes the flood from
      them, and sky light does unless one of the floods creates a section that starts bright. */
  method PropagateChunkLighting(host: LightHost, o: Column, sections: Sections, minSectionY: int, dirty: set<Column>)
    returns (dirty': set<Column>, ghost queues: Queues, ghost ideal: LightMap, ghost carried: LightMap,
             ghost between: set<Section>)
    requires host.Valid() && sections.Keys == host.columns && SectionsAre(host.stored, sections, minSectionY)
    modifies host
    ensures host.Valid() && dirty <= dirty'
            && NotedBoth(host, old(host.stored), old(host.LightOf(Sky)), old(host.block), dirty')
    ensures if o in host.columns
            then && SeedsSuffice(host.GridFor(Sky), old(host.LightOf(Sky)), o, queues.sky)
                 && SeedsSuffice(host.GridFor(Block), old(host.block), o, queues.block)
                 && OnlyGivers(host.GridFor(Sky), old(host.LightOf(Sky)), o, queues.sky)
                 && OnlyGivers(host.GridFor(Block), old(host.block), o, queues.block)
                 && FloodedBoth(host.GridFor(Sky), host.GridFor(Block), old(host.stored), old(host.LightOf(Sky)),
                                old(host.block), queues, ideal, host.LightOf(Sky), host.block)
                 && CarriedBoth(host.GridFor(Sky), host.GridFor(Block), old(host.stored), old(host.LightOf(Sky)),
                                old(host.block), queues, carried, between, host.LightOf(Sky), host.block, host.stored)
            else && host.LightOf(Sky) == old(host.LightOf(Sky)) && host.block == old(host.block)
                 && host.stored == old(host.stored)
  {
    hide FloodedBoth, CarriedBoth, SeedsSuffice, OnlyGivers, AsCreated, Shown, LitIsStored;
    queues, dirty', ideal, carried, between := Queues([], []), dirty, host.LightOf(Sky), host.LightOf(Sky), host.stored;
    if o !in host.columns {
      return;
    }
    LitSections(host, sections, minSectionY);
    var q := SeedQueues(host, o, sections, minSectionY);
    queues := q;
    dirty', ideal, carried, between := FloodBoth(host, o, q, dirty);
  }

  /** The seeds are enough: when every edge that lacks light touches the new column, the map that closes
      the light of the whole world, and is the least that does, is the flood from them. */
  lemma SeedingCloses(g: Grid, m: LightMap, o: Column, queue: seq<Cell>, m': LightMap)
    requires g.Valid() && IsLight(g, m) && SeedsSuffice(g, m, o, queue)
    requires forall a, b :: a in g.cells && LacksLight(g, m, a, b) ==> ColumnOf(a) == o || ColumnOf(b) == o
    ensures Exact(g, m, m') <==> IsFlood(g, m, Elements(queue), m')
    ensures IsFlood(g, m, Elements(queue), m') ==> Closed(g, m')
  {
    forall a | a in g.cells && !Satisfied(g, m, a) ensures a in Elements(queue) {
      var b :| Edge(g, a, b) && Read(g, m, a) > Read(g, m, b) + 1;
      assert LacksLight(g, m, a, b);
    }
    var f := FloodOf(g, m, Elements(queue));
    FloodIsExact(g, m, Elements(queue), f);
    if Exact(g, m, m') { ExactIsUnique(g, m, m', f); }
    if IsFlood(g, m, Elements(queue), m') { FloodIsUnique(g, m, Elements(queue), m', f); }
  }

  /** A new column's light: block light is exact and closed afterwards, and sky light if and only if
      neither flood raises a cell of a missing section that starts bright. */
  lemma LoadedLight(sg: Grid, bg: Grid, stored: set<Section>, sky: LightMap, block: LightMap, o: Column, q: Queues,
                    ideal: LightMap, sky': LightMap, block': LightMap)
    requires sg.Valid() && bg.Valid() && IsLight(sg, sky) && IsLight(bg, block)
    requires SeedsSuffice(sg, sky, o, q.sky) && SeedsSuffice(bg, block, o, q.block)
    requires forall a, b :: a in sg.cells && LacksLight(sg, sky, a, b) ==> ColumnOf(a) == o || ColumnOf(b) == o
    requires forall a, b :: a in bg.cells && LacksLight(bg, block, a, b) ==> ColumnOf(a) == o || ColumnOf(b) == o
    requires FloodedBoth(sg, bg, stored, sky, block, q, ideal, sky', block')
    ensures Exact(bg, block, block') && block' == Brightest(bg, block) && ideal == Brightest(sg, sky)
    ensures Exact(sg, sky, sky')
       <==> !EntersBright(sg, stored, sky, Brightest(sg, sky)) && !EntersBright(bg, stored, block, Brightest(bg, block))
  {
    hide SeedsSuffice, Exact, IsFlood, EntersBright, LacksLight;
    SeedingCloses(sg, sky, o, q.sky, ideal);
    SeedingCloses(bg, block, o, q.block, block');
    ExactIsUnique(sg, sky, ideal, Brightest(sg, sky));
    ExactIsUnique(bg, block, block', Brightest(bg, block));
    if Exact(sg, sky, sky') { ExactIsUnique(sg, sky, ideal, sky'); }
  }
}
