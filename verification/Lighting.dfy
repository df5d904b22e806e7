/** The region scratch of `src/lighting.rs` and its two floods, proved against the fixpoints of
    `LightGrid`. */
module Lighting {
  import opened Positions
  import opened LightGrid
  import opened LightTheory
  import opened LightRegion
  import opened LightRemoval
  import opened LightSections
  import opened LightFlares

  /** The columns whose meshes read the light of `c`. */
  function MeshColumns(c: Cell): set<Column> {
    var (cx, cz) := ColumnOf(c);
    {(cx, cz)}
    + (if c.x % CHUNK_WIDTH == 0 then {(cx - 1, cz)} else {})
    + (if c.x % CHUNK_WIDTH == 15 then {(cx + 1, cz)} else {})
    + (if c.z % CHUNK_WIDTH == 0 then {(cx, cz - 1)} else {})
    + (if c.z % CHUNK_WIDTH == 15 then {(cx, cz + 1)} else {})
  }

  /** They are the columns, sixteen blocks wide, of the cell and of its four neighbours at the same height. */
  lemma MeshColumnsTouch(c: Cell, k: Column)
    ensures k in MeshColumns(c) <==> exists a, b :: IsShortStep(a, b) && IsInside(c.x + a, c.z + b, k)
  {
    if k in MeshColumns(c) {
      if IsInside(c.x, c.z, k) { assert IsShortStep(0, 0) && IsInside(c.x + 0, c.z + 0, k); }
      else if IsInside(c.x - 1, c.z, k) { assert IsShortStep(-1, 0) && IsInside(c.x + -1, c.z + 0, k); }
      else if IsInside(c.x + 1, c.z, k) { assert IsShortStep(1, 0) && IsInside(c.x + 1, c.z + 0, k); }
      else if IsInside(c.x, c.z - 1, k) { assert IsShortStep(0, -1) && IsInside(c.x + 0, c.z + -1, k); }
      else { assert IsShortStep(0, 1) && IsInside(c.x + 0, c.z + 1, k); }
    }
  }

  ghost predicate IsShortStep(a: int, b: int) {
    (a == 0 && -1 <= b <= 1) || (b == 0 && -1 <= a <= 1)
  }

  ghost predicate IsInside(x: int, z: int, k: Column) {
    16 * k.0 <= x < 16 * k.0 + 16 && 16 * k.1 <= z < 16 * k.1 + 16
  }

  /** One node gives each darker open neighbour a level below its own. */
  ghost predicate SpreadFrom(g: Grid, m: LightMap, node: Cell, m': LightMap) {
    && IsLight(g, m')
    && forall c :: c in g.cells ==>
         Read(g, m', c) == if Edge(g, node, c) && Read(g, m, c) + 1 < Read(g, m, node) then Read(g, m, node) - 1
                           else Read(g, m, c)
  }

  /** The neighbours a node pushes: also those outside the stored cells, which stay dark. */
  ghost predicate Takes(g: Grid, m: LightMap, node: Cell, c: Cell) {
    && 1 < Read(g, m, node)
    && Adjacent(node, c) && g.InHeight(c.y) && c !in g.blocking
    && Read(g, m, c) + 1 < Read(g, m, node)
  }

  /** The cells that still lack light, level by level. It shrinks with every cell raised. */
  ghost function Missing(g: Grid, m: LightMap): set<(Cell, int)> {
    set c, k | c in g.cells && 0 < k <= MAX_LIGHT && Read(g, m, c) < k :: (c, k)
  }

  /** Queued nodes that may have something to give. */
  ghost function Live(g: Grid, queue: seq<Cell>): nat {
    if queue == [] then 0
    else (if queue[0] in g.cells || !g.InHeight(queue[0].y) then 1 else 0) + Live(g, queue[1..])
  }

  lemma {:induction false} LiveAppend(g: Grid, p: seq<Cell>, q: seq<Cell>)
    ensures Live(g, p + q) == Live(g, p) + Live(g, q)
  {
    if p == [] {
      assert p + q == q;
    } else {
      assert (p + q)[1..] == p[1..] + q;
      LiveAppend(g, p[1..], q);
    }
  }

  lemma {:induction false} LiveNone(g: Grid, q: seq<Cell>)
    requires forall c :: c in q ==> c !in g.cells && g.InHeight(c.y)
    ensures Live(g, q) == 0
  {
    if q != [] {
      assert q[0] in q;
      LiveNone(g, q[1..]);
    }
  }

  ghost predicate FloodInvariant(g: Grid, m0: LightMap, start: set<Cell>, m: LightMap, queue: set<Cell>) {
    && IsLight(g, m)
    && Above(g, m, m0)
    && (forall n :: Flooded(g, m0, start, n) ==> Above(g, n, m))
    && (forall a :: a in start || Raised(g, m0, m, a) ==> Satisfied(g, m, a) || a in queue)
    && (forall a :: a in queue ==> a in start || Raised(g, m0, m, a) || Read(g, m, a) == 0)
  }

  lemma FloodStep(g: Grid, m0: LightMap, start: set<Cell>, m: LightMap, queue: set<Cell>,
                  node: Cell, rest: set<Cell>, pushed: set<Cell>, m': LightMap)
    requires g.Valid() && FloodInvariant(g, m0, start, m, queue) && queue == rest + {node}
    requires SpreadFrom(g, m, node, m') && forall c :: c in pushed <==> Takes(g, m, node, c)
    ensures FloodInvariant(g, m0, start, m', rest + pushed)
  {
    forall n | Flooded(g, m0, start, n) ensures Above(g, n, m') {
      forall c | c in g.cells ensures Read(g, m', c) <= Read(g, n, c) {
        assert Read(g, m, c) <= Read(g, n, c);
        if Read(g, m', c) != Read(g, m, c) {
          assert Edge(g, node, c);
          assert node in start || Raised(g, m0, m, node);
          if node !in start { assert Raised(g, m0, n, node); }
          assert Satisfied(g, n, node);
          assert node in g.cells ==> Read(g, m, node) <= Read(g, n, node);
        }
      }
    }
    forall a | (a in start || Raised(g, m0, m', a)) && a !in rest + pushed ensures Satisfied(g, m', a) {
      assert !Takes(g, m, node, a);
      assert Read(g, m', a) == Read(g, m, a);
      if a != node { assert Satisfied(g, m, a); }
    }
  }

  /** One node has raised light and pushed what it raised, and cells that store nothing. */
  ghost predicate Progress(g: Grid, m: LightMap, m': LightMap, pushed: seq<Cell>) {
    && IsLight(g, m') && Above(g, m', m)
    && forall c :: c in pushed ==> g.InHeight(c.y) && (c in g.cells ==> Read(g, m, c) < Read(g, m', c))
  }

  /** A node that raises nothing can still push up to six unloaded cells, which push nothing. */
  lemma QueueShrinks(g: Grid, m: LightMap, node: Cell, rest: seq<Cell>, pushed: seq<Cell>, m': LightMap)
    requires g.Valid() && IsLight(g, m) && Progress(g, m, m', pushed) && (pushed != [] ==> 1 < Read(g, m, node))
    ensures Missing(g, m') <= Missing(g, m)
    ensures Missing(g, m') < Missing(g, m)
         || Live(g, rest + pushed) < Live(g, [node] + rest)
         || (Live(g, rest + pushed) == Live(g, [node] + rest) && pushed == [])
  {
    if c :| c in pushed && c in g.cells {
      var p := (c, Read(g, m', c));
      assert p in Missing(g, m) && p !in Missing(g, m');
    } else {
      LiveNone(g, pushed);
      LiveAppend(g, rest, pushed);
      LiveAppend(g, [node], rest);
      if pushed != [] { assert Live(g, [node]) == 1; }
    }
  }

  // ----- Floods that create sections -----

  /** No section has been created with sky light of its own: block light starts dark everywhere. */
  ghost predicate Clean(kind: LightKind, before: set<Section>, after: set<Section>) {
    kind.Block? || NoneBright(before, after)
  }

  /** The node has lit a cell of a missing section that starts bright, and so all of that section. */
  ghost predicate Spills(g: Grid, stored: set<Section>, m: LightMap, node: Cell, m': LightMap) {
    exists n ::
      && Edge(g, node, n) && Read(g, m, n) + 1 < Read(g, m, node)
      && SectionOf(n) !in stored && StartsBright(SectionOf(n)) && FlaresAt(g, m', n)
  }

  /** One node has been served, `stored` becoming `stored'` with the sections it wrote to. */
  ghost predicate Served(kind: LightKind, g: Grid, m: LightMap, stored: set<Section>, node: Cell,
                         m': LightMap, stored': set<Section>, pushed: seq<Cell>) {
    && Progress(g, m, m', pushed) && stored <= stored' && (pushed != [] ==> 1 < Read(g, m, node))
    && if Clean(kind, stored, stored')
       then && SpreadFrom(g, m, node, m') && (forall c :: c in pushed <==> Takes(g, m, node, c))
            && stored' == stored + ChangedSections(g, m, m')
       else Spills(g, stored, m, node, m')
  }

  /** A flood under way: exact so far, or a bright section has been created on the way. */
  ghost predicate FloodRun(kind: LightKind, g: Grid, m0: LightMap, stored0: set<Section>, start: set<Cell>,
                           m: LightMap, stored: set<Section>, queue: set<Cell>)
    requires g.Valid() && IsLight(g, m0)
  {
    && IsLight(g, m) && Above(g, m, m0) && stored0 <= stored
    && if Clean(kind, stored0, stored)
       then FloodInvariant(g, m0, start, m, queue) && stored == stored0 + ChangedSections(g, m0, m)
       else Flared(g, stored0, m) && EntersBright(g, stored0, m0, FloodOf(g, m0, start))
  }

  /** The outcome of a flood: the least map with enough light exactly when raising the old map to it
      writes to no missing section that starts bright. */
  ghost predicate FloodOutcome(kind: LightKind, g: Grid, m0: LightMap, stored0: set<Section>, start: set<Cell>,
                               m: LightMap, stored: set<Section>)
    requires g.Valid() && IsLight(g, m0)
  {
    && IsLight(g, m) && Above(g, m, m0) && stored0 <= stored
    && (Clean(kind, stored0, stored) <==> kind.Block? || !EntersBright(g, stored0, m0, FloodOf(g, m0, start)))
    && if Clean(kind, stored0, stored)
       then IsFlood(g, m0, start, m) && stored == stored0 + ChangedSections(g, m0, m)
       else Flared(g, stored0, m)
  }

  lemma ChangedTwice(g: Grid, m: LightMap, m1: LightMap, m2: LightMap)
    requires Above(g, m1, m) && Above(g, m2, m1)
    ensures ChangedSections(g, m, m2) == ChangedSections(g, m, m1) + ChangedSections(g, m1, m2)
  {
    forall s | s in ChangedSections(g, m, m1) + ChangedSections(g, m1, m2) ensures s in ChangedSections(g, m, m2) {
      var c :| c in g.cells && SectionOf(c) == s
          && (Read(g, m, c) != Read(g, m1, c) || Read(g, m1, c) != Read(g, m2, c));
      assert Read(g, m, c) < Read(g, m2, c);
    }
    forall s | s in ChangedSections(g, m, m2) ensures s in ChangedSections(g, m, m1) + ChangedSections(g, m1, m2) {
      var c :| c in g.cells && SectionOf(c) == s && Read(g, m, c) != Read(g, m2, c);
      assert Read(g, m, c) != Read(g, m1, c) || Read(g, m1, c) != Read(g, m2, c);
    }
  }

  /** A node that spills does what the flood of the old map would do there. */
  lemma SpillEnters(g: Grid, m0: LightMap, stored0: set<Section>, start: set<Cell>, m: LightMap, stored: set<Section>,
                    queue: set<Cell>, node: Cell, m': LightMap)
    requires g.Valid() && IsLight(g, m0) && FloodInvariant(g, m0, start, m, queue) && node in queue
    requires stored0 <= stored && Spills(g, stored, m, node, m')
    ensures EntersBright(g, stored0, m0, FloodOf(g, m0, start))
  {
    var f := FloodOf(g, m0, start);
    var n :| Edge(g, node, n) && Read(g, m, n) + 1 < Read(g, m, node)
             && SectionOf(n) !in stored && StartsBright(SectionOf(n)) && FlaresAt(g, m', n);
    assert Flooded(g, m0, start, f) && Above(g, f, m);
    assert node in start || Raised(g, m0, m, node);
    assert node in start || Raised(g, m0, f, node);
    assert Satisfied(g, f, node);
    assert Read(g, m0, n) <= Read(g, m, n) && Read(g, m, node) <= Read(g, f, node) <= Read(g, f, n) + 1;
    assert Raised(g, m0, f, n);
  }

  lemma FloodRunStep(kind: LightKind, g: Grid, m0: LightMap, stored0: set<Section>, start: set<Cell>, m: LightMap,
                     stored: set<Section>, queue: seq<Cell>, pushed: seq<Cell>, m': LightMap, stored': set<Section>)
    requires g.Valid() && IsLight(g, m0) && queue != []
    requires FloodRun(kind, g, m0, stored0, start, m, stored, Elements(queue))
    requires Served(kind, g, m, stored, queue[0], m', stored', pushed)
    ensures FloodRun(kind, g, m0, stored0, start, m', stored', Elements(queue[1..] + pushed))
  {
    hide FloodInvariant, SpreadFrom, Takes, ChangedSections, Spills, Flared, EntersBright, Clean;
    CleanTwice(kind, stored0, stored, stored');
    AboveTwice(g, m0, m, m');
    if Clean(kind, stored0, stored) {
      if Clean(kind, stored, stored') {
        ServedStep(g, m0, start, m, queue, pushed, m');
        ChangedTwice(g, m0, m, m');
      } else {
        SpillEnters(g, m0, stored0, start, m, stored, Elements(queue), queue[0], m');
        SpillFlares(g, stored0, stored, m, queue[0], m');
      }
    } else {
      FlaredPersists(g, stored0, stored0, m, m');
    }
  }

  lemma CleanTwice(kind: LightKind, s0: set<Section>, s1: set<Section>, s2: set<Section>)
    requires s0 <= s1 <= s2
    ensures Clean(kind, s0, s2) <==> Clean(kind, s0, s1) && Clean(kind, s1, s2)
  {
  }

  lemma AboveTwice(g: Grid, m: LightMap, m1: LightMap, m2: LightMap)
    ensures Above(g, m1, m) && Above(g, m2, m1) ==> Above(g, m2, m)
  {
  }

  lemma SpillFlares(g: Grid, stored0: set<Section>, stored: set<Section>, m: LightMap, node: Cell, m': LightMap)
    requires stored0 <= stored && Spills(g, stored, m, node, m')
    ensures Flared(g, stored0, m')
  {
  }

  lemma ServedStep(g: Grid, m0: LightMap, start: set<Cell>, m: LightMap, queue: seq<Cell>, pushed: seq<Cell>,
                   m': LightMap)
    requires g.Valid() && queue != [] && FloodInvariant(g, m0, start, m, Elements(queue))
    requires SpreadFrom(g, m, queue[0], m') && forall c :: c in pushed <==> Takes(g, m, queue[0], c)
    ensures FloodInvariant(g, m0, start, m', Elements(queue[1..] + pushed))
  {
    var rest := queue[1..];
    assert queue == [queue[0]] + rest;
    assert Elements(queue) == Elements(rest) + {queue[0]};
    assert Elements(rest + pushed) == Elements(rest) + Elements(pushed);
    FloodStep(g, m0, start, m, Elements(queue), queue[0], Elements(rest), Elements(pushed), m');
  }

  lemma FloodRunEnds(kind: LightKind, g: Grid, m0: LightMap, stored0: set<Section>, start: set<Cell>, m: LightMap,
                     stored: set<Section>)
    requires g.Valid() && IsLight(g, m0) && FloodRun(kind, g, m0, stored0, start, m, stored, Elements([]))
    ensures FloodOutcome(kind, g, m0, stored0, start, m, stored)
  {
    if Clean(kind, stored0, stored) {
      FloodEnds(g, m0, start, m);
      FloodIsUnique(g, m0, start, m, FloodOf(g, m0, start));
      assert forall c :: Raised(g, m0, m, c) ==> SectionOf(c) in ChangedSections(g, m0, m);
    }
  }

  lemma FloodRunStarts(kind: LightKind, g: Grid, m: LightMap, stored: set<Section>, queue: seq<Cell>)
    requires g.Valid() && IsLight(g, m)
    ensures FloodRun(kind, g, m, stored, Elements(queue), m, stored, Elements(queue))
  {
    assert ChangedSections(g, m, m) == {};
  }

  lemma FloodStarts(g: Grid, m: LightMap, queue: seq<Cell>)
    requires IsLight(g, m)
    ensures FloodInvariant(g, m, Elements(queue), m, Elements(queue))
  {
  }

  lemma FloodEnds(g: Grid, m0: LightMap, start: set<Cell>, m: LightMap)
    requires FloodInvariant(g, m0, start, m, Elements([]))
    ensures IsFlood(g, m0, start, m)
  {
  }

  /** The neighbours that one removed node zeroes. */
  ghost predicate DarkenFrom(g: Grid, m: LightMap, r: Removal, m': LightMap) {
    && IsLight(g, m')
    && forall c :: c in g.cells ==> Read(g, m', c) == if DarkStep(g, m, r, c) then 0 else Read(g, m, c)
  }

  /** The neighbours that one removed node hands to the propagation queue. */
  ghost predicate Keeps(g: Grid, m: LightMap, r: Removal, c: Cell) {
    Adjacent(r.cell, c) && g.InHeight(c.y) && Read(g, m, c) >= r.level
  }

  ghost function Lit(g: Grid, m: LightMap): set<Cell> {
    set c | c in g.cells && 0 < Read(g, m, c)
  }

  /** The removals that the flood owes or has done: the initial ones and the darkened cells. */
  ghost predicate IsNode(g: Grid, m0: LightMap, start: set<Removal>, m: LightMap, r: Removal) {
    r in start || (r.cell in g.cells && Read(g, m, r.cell) != Read(g, m0, r.cell) == r.level)
  }

  /** A removal that is no longer queued has darkened and handed on all its neighbours. */
  ghost predicate Done(g: Grid, m0: LightMap, m: LightMap, r: Removal, handed: set<Cell>) {
    && (forall c :: DarkStep(g, m0, r, c) ==> Read(g, m, c) == 0)
    && (forall c :: Keeps(g, m, r, c) && 0 < Read(g, m, c) ==> c in handed)
  }

  ghost predicate RemovalInvariant(g: Grid, m0: LightMap, start: set<Removal>, handed0: set<Cell>,
                                   m: LightMap, queue: set<Removal>, handed: set<Cell>) {
    && IsLight(g, m)
    && (forall c :: c in g.cells && Read(g, m, c) != Read(g, m0, c) ==>
         Read(g, m, c) == 0 && c in DarkSet(g, m0, start))
    && (forall r :: r in queue ==> IsNode(g, m0, start, m, r))
    && (forall r :: IsNode(g, m0, start, m, r) ==> r in queue || Done(g, m0, m, r, handed))
    && OnlyHandsOn(g, m0, RemovedNodes(g, m0, start), handed0, handed)
  }

  /** The neighbours in the first `dir` directions have been examined. */
  ghost predicate DarkenUpTo(g: Grid, m: LightMap, r: Removal, dir: nat, m': LightMap) {
    && IsLight(g, m')
    && forall c :: c in g.cells ==>
         Read(g, m', c) == if DirectionTo(r.cell, c) < dir && DarkStep(g, m, r, c) then 0 else Read(g, m, c)
  }

  /** The removals and the handed-on cells that the first `dir` directions add. */
  ghost predicate PushesUpTo(g: Grid, m: LightMap, r: Removal, dir: nat, darkened: seq<Removal>, kept: seq<Cell>) {
    && (forall x: Removal ::
          x in darkened
          <==> (DirectionTo(r.cell, x.cell) < dir && DarkStep(g, m, r, x.cell) && x.level == Read(g, m, x.cell)))
    && (forall c :: c in kept <==> DirectionTo(r.cell, c) < dir && Keeps(g, m, r, c))
  }

  ghost predicate Pushes(g: Grid, m: LightMap, r: Removal, darkened: seq<Removal>, kept: seq<Cell>) {
    && (forall x: Removal :: x in darkened <==> DarkStep(g, m, r, x.cell) && x.level == Read(g, m, x.cell))
    && (forall c :: c in kept <==> Keeps(g, m, r, c))
  }

  lemma DarkenNone(g: Grid, m: LightMap, r: Removal)
    requires IsLight(g, m)
    ensures DarkenUpTo(g, m, r, 0, m) && PushesUpTo(g, m, r, 0, [], [])
  {
  }

  lemma DarkenOne(g: Grid, m: LightMap, r: Removal, dir: nat, m1: LightMap, darkened: seq<Removal>, kept: seq<Cell>,
                  m2: LightMap, darkened': seq<Removal>, kept': seq<Cell>)
    requires g.Valid() && IsLight(g, m) && dir < 6
    requires DarkenUpTo(g, m, r, dir, m1) && PushesUpTo(g, m, r, dir, darkened, kept)
    requires var n := Step(r.cell, dir);
             && m2 == (if DarkStep(g, m1, r, n) then m1[n := 0] else m1)
             && darkened' == (if DarkStep(g, m1, r, n) then darkened + [Removal(n, Read(g, m1, n))] else darkened)
             && kept' == (if Keeps(g, m1, r, n) then kept + [n] else kept)
    ensures DarkenUpTo(g, m, r, dir + 1, m2) && PushesUpTo(g, m, r, dir + 1, darkened', kept')
  {
    var n := Step(r.cell, dir);
    DirectionsAreSteps(r.cell, n);
    DarkenLevels(g, m, r, dir, m1, m2);
    assert DarkStep(g, m1, r, n) <==> DarkStep(g, m, r, n);
    assert Read(g, m1, n) == Read(g, m, n) && (Keeps(g, m1, r, n) <==> Keeps(g, m, r, n));
    hide DarkenUpTo, DarkStep, Keeps, Read, Step, DirectionTo;
    forall x: Removal
      ensures x in darkened' <==>
                DirectionTo(r.cell, x.cell) < dir + 1 && DarkStep(g, m, r, x.cell) && x.level == Read(g, m, x.cell)
    {
      NextDirection(r.cell, dir, x.cell);
    }
    forall c ensures c in kept' <==> DirectionTo(r.cell, c) < dir + 1 && Keeps(g, m, r, c) {
      NextDirection(r.cell, dir, c);
    }
  }

  lemma NextDirection(a: Cell, dir: nat, c: Cell)
    requires dir < 6
    ensures DirectionTo(a, c) < dir + 1 <==> DirectionTo(a, c) < dir || c == Step(a, dir)
    ensures !(DirectionTo(a, c) < dir && c == Step(a, dir))
  {
    DirectionsAreSteps(a, c);
  }

  lemma DarkenLevels(g: Grid, m: LightMap, r: Removal, dir: nat, m1: LightMap, m2: LightMap)
    requires g.Valid() && IsLight(g, m) && dir < 6 && DarkenUpTo(g, m, r, dir, m1)
    requires var n := Step(r.cell, dir); m2 == if DarkStep(g, m1, r, n) then m1[n := 0] else m1
    ensures DarkenUpTo(g, m, r, dir + 1, m2)
    ensures Read(g, m1, Step(r.cell, dir)) == Read(g, m, Step(r.cell, dir))
  {
    var n := Step(r.cell, dir);
    NextDirection(r.cell, dir, n);
    forall c | c in g.cells
      ensures Read(g, m2, c) == if DirectionTo(r.cell, c) < dir + 1 && DarkStep(g, m, r, c) then 0 else Read(g, m, c)
    {
      NextDirection(r.cell, dir, c);
    }
  }

  lemma DarkenAll(g: Grid, m: LightMap, r: Removal, m': LightMap, darkened: seq<Removal>, kept: seq<Cell>)
    requires g.Valid() && IsLight(g, m)
    requires DarkenUpTo(g, m, r, 6, m') && PushesUpTo(g, m, r, 6, darkened, kept)
    ensures DarkenFrom(g, m, r, m') && Pushes(g, m, r, darkened, kept)
  {
    forall c ensures Adjacent(r.cell, c) <==> DirectionTo(r.cell, c) < 6 { DirectionsAreSteps(r.cell, c); }
  }

  lemma NodesAreRemoved(g: Grid, m0: LightMap, start: set<Removal>, m: LightMap, r: Removal, c: Cell)
    requires forall c :: c in g.cells && Read(g, m, c) != Read(g, m0, c) ==> c in DarkSet(g, m0, start)
    requires IsNode(g, m0, start, m, r)
    ensures r in RemovedNodes(g, m0, start)
    ensures DarkStep(g, m0, r, c) ==> c in DarkSet(g, m0, start)
  {
    DarkSetIsClosed(g, m0, start);
  }

  lemma RemovalStep(g: Grid, m0: LightMap, start: set<Removal>, handed0: set<Cell>, m: LightMap,
                    queue: set<Removal>, handed: set<Cell>, r: Removal, rest: set<Removal>,
                    darkened: set<Removal>, kept: set<Cell>, m': LightMap)
    requires g.Valid() && IsLight(g, m0) && queue == rest + {r}
    requires RemovalInvariant(g, m0, start, handed0, m, queue, handed)
    requires DarkenFrom(g, m, r, m')
    requires forall x: Removal :: x in darkened <==> DarkStep(g, m, r, x.cell) && x.level == Read(g, m, x.cell)
    requires forall c :: c in kept <==> Keeps(g, m, r, c)
    ensures RemovalInvariant(g, m0, start, handed0, m', rest + darkened, handed + kept)
  {
    assert IsNode(g, m0, start, m, r);
    forall c | c in g.cells && Read(g, m', c) != Read(g, m0, c)
      ensures Read(g, m', c) == 0 && c in DarkSet(g, m0, start)
    {
      if Read(g, m, c) == Read(g, m0, c) {
        assert DarkStep(g, m0, r, c);
        NodesAreRemoved(g, m0, start, m, r, c);
      }
    }
    forall x | IsNode(g, m0, start, m', x) && x !in rest + darkened ensures Done(g, m0, m', x, handed + kept) {
      assert !(DarkStep(g, m, r, x.cell) && x.level == Read(g, m, x.cell));
      assert IsNode(g, m0, start, m, x);
      if x != r { assert Done(g, m0, m, x, handed); }
    }
    forall c | c in kept && c !in handed0
      ensures exists y :: && y in RemovedNodes(g, m0, start) && Adjacent(y.cell, c) && g.InHeight(c.y)
                          && Read(g, m0, c) >= y.level
    {
      NodesAreRemoved(g, m0, start, m, r, c);
      assert Keeps(g, m, r, c);
    }
  }

  lemma RemoveStep(g: Grid, m0: LightMap, start: set<Removal>, handed0: set<Cell>, m: LightMap, queue: seq<Removal>,
                   handed: seq<Cell>, darkened: seq<Removal>, kept: seq<Cell>, m': LightMap)
    requires g.Valid() && IsLight(g, m0) && queue != []
    requires RemovalInvariant(g, m0, start, handed0, m, Elements(queue), Elements(handed))
    requires DarkenFrom(g, m, queue[0], m') && Pushes(g, m, queue[0], darkened, kept)
    ensures RemovalInvariant(g, m0, start, handed0, m', Elements(queue[1..] + darkened), Elements(handed + kept))
    ensures Lit(g, m') < Lit(g, m) || (Lit(g, m') == Lit(g, m) && darkened == [])
  {
    var r, rest := queue[0], queue[1..];
    assert queue == [r] + rest;
    assert Elements(queue) == Elements(rest) + {r};
    assert Elements(rest + darkened) == Elements(rest) + Elements(darkened);
    assert Elements(handed + kept) == Elements(handed) + Elements(kept);
    RemovalStep(g, m0, start, handed0, m, Elements(queue), Elements(handed), r, Elements(rest),
                Elements(darkened), Elements(kept), m');
    if darkened != [] {
      assert darkened[0] in darkened;
      assert darkened[0].cell in Lit(g, m) && darkened[0].cell !in Lit(g, m');
    }
    assert Lit(g, m') <= Lit(g, m);
  }

  lemma RemovalEnds(g: Grid, m0: LightMap, start: set<Removal>, handed0: set<Cell>, m: LightMap, handed: set<Cell>)
    requires g.Valid() && IsLight(g, m0) && RemovalInvariant(g, m0, start, handed0, m, {}, handed)
    ensures m == Darkened(m0, DarkSet(g, m0, start))
    ensures HandedOn(g, m, RemovedNodes(g, m0, start), handed)
    ensures OnlyHandsOn(g, m0, RemovedNodes(g, m0, start), handed0, handed)
  {
    var dark := DarkSet(g, m0, start);
    var d := set c | c in g.cells && Read(g, m, c) != Read(g, m0, c);
    forall r, c | (r in start || (r.cell in d && r.level == Read(g, m0, r.cell))) && DarkStep(g, m0, r, c)
      ensures c in d
    {
      assert IsNode(g, m0, start, m, r);
    }
    assert DarkClosed(g, m0, start, d);
    assert dark == d;
    DarkenedIsLight(g, m0, dark);
    MapsAgree(g, m, Darkened(m0, dark));
    forall r | r in RemovedNodes(g, m0, start) ensures Done(g, m0, m, r, handed) {
      assert IsNode(g, m0, start, m, r);
    }
  }

  /** Every cell whose light differs is recorded, and the meshes that read it are dirty. */
  ghost predicate ChangesNoted(g: Grid, m: LightMap, m': LightMap, changed: seq<Cell>, dirty: set<Column>) {
    forall c :: c in g.cells && Read(g, m, c) != Read(g, m', c) ==> c in changed && MeshColumns(c) <= dirty
  }

  /** Every cell whose light differs is noted so, or was lit with a section created on the way. */
  ghost predicate Noted(kind: LightKind, g: Grid, stored: set<Section>, stored': set<Section>, m: LightMap,
                        m': LightMap, changed: seq<Cell>, dirty: set<Column>) {
    forall c :: c in g.cells && Read(g, m, c) != Read(g, m', c)
      ==> (c in changed && MeshColumns(c) <= dirty) || LitAtCreation(kind, g, stored, stored', m', c)
  }

  /** Nothing is lit so when no bright section was created. */
  lemma NotedIfClean(kind: LightKind, g: Grid, stored: set<Section>, stored': set<Section>, m: LightMap,
                     m': LightMap, changed: seq<Cell>, dirty: set<Column>)
    requires Noted(kind, g, stored, stored', m, m', changed, dirty) && Clean(kind, stored, stored')
    ensures ChangesNoted(g, m, m', changed, dirty)
  {
  }

  lemma ChangesCompose(g: Grid, m: LightMap, m1: LightMap, m2: LightMap, changed1: seq<Cell>, changed2: seq<Cell>,
                       dirty1: set<Column>, dirty2: set<Column>)
    requires ChangesNoted(g, m, m1, changed1, dirty1) && ChangesNoted(g, m1, m2, changed2, dirty2)
    requires dirty1 <= dirty2 && forall c :: c in changed1 ==> c in changed2
    ensures ChangesNoted(g, m, m2, changed2, dirty2)
  {
  }

  /** The neighbours in the first `dir` directions have been lit and pushed. */
  ghost predicate SpreadUpTo(g: Grid, m: LightMap, node: Cell, dir: nat, m': LightMap, pushed: seq<Cell>) {
    && IsLight(g, m')
    && (forall c :: c in g.cells ==>
         Read(g, m', c) == if TakesUpTo(g, m, node, dir, c) then Read(g, m, node) - 1 else Read(g, m, c))
    && (forall c :: c in pushed <==> TakesUpTo(g, m, node, dir, c))
  }

  ghost predicate TakesUpTo(g: Grid, m: LightMap, node: Cell, dir: nat, c: Cell) {
    DirectionTo(node, c) < dir && Takes(g, m, node, c)
  }

  lemma TakesOneMore(g: Grid, m: LightMap, node: Cell, dir: nat, c: Cell)
    requires dir < 6
    ensures TakesUpTo(g, m, node, dir + 1, c)
       <==> TakesUpTo(g, m, node, dir, c) || (c == Step(node, dir) && Takes(g, m, node, c))
    ensures !TakesUpTo(g, m, node, dir, Step(node, dir)) && Adjacent(node, Step(node, dir))
  {
    DirectionsAreSteps(node, c);
    DirectionsAreSteps(node, Step(node, dir));
  }

  /** A neighbour `n` of a node at `level` has been lit, unless it is blocked or bright enough. */
  ghost predicate LitOne(g: Grid, m: LightMap, n: Cell, level: nat, m': LightMap, pushed: seq<Cell>) {
    if g.InHeight(n.y) && n !in g.blocking && Read(g, m, n) + 1 < level
    then m' == (if n in g.cells then m[n := level - 1] else m) && pushed == [n]
    else m' == m && pushed == []
  }

  lemma SpreadOne(g: Grid, m: LightMap, node: Cell, dir: nat, m1: LightMap, pushed: seq<Cell>,
                  m2: LightMap, more: seq<Cell>)
    requires g.Valid() && IsLight(g, m) && dir < 6 && 1 < Read(g, m, node) <= MAX_LIGHT
    requires SpreadUpTo(g, m, node, dir, m1, pushed)
    requires LitOne(g, m1, Step(node, dir), Read(g, m, node), m2, more)
    ensures SpreadUpTo(g, m, node, dir + 1, m2, pushed + more)
  {
    var n := Step(node, dir);
    TakesOneMore(g, m, node, dir, n);
    assert Read(g, m1, n) == Read(g, m, n);
    forall c
      ensures c in g.cells ==>
        Read(g, m2, c) == if TakesUpTo(g, m, node, dir + 1, c) then Read(g, m, node) - 1 else Read(g, m, c)
      ensures c in pushed + more <==> TakesUpTo(g, m, node, dir + 1, c)
    {
      TakesOneMore(g, m, node, dir, c);
    }
  }

  lemma SpreadAll(g: Grid, m: LightMap, node: Cell, m': LightMap, pushed: seq<Cell>)
    requires g.Valid() && IsLight(g, m) && SpreadUpTo(g, m, node, 6, m', pushed)
    ensures SpreadFrom(g, m, node, m') && forall c :: c in pushed <==> Takes(g, m, node, c)
  {
    forall c ensures Adjacent(node, c) <==> DirectionTo(node, c) < 6 { DirectionsAreSteps(node, c); }
  }

  // ----- Writes -----

  ghost function Filled(m: LightMap, s: Section): LightMap {
    map c | c in m :: if SectionOf(c) == s then MAX_LIGHT else m[c]
  }

  /** One write. It does nothing to a cell that is not loaded or holds the level already. To a missing
      section it creates the section first. */
  ghost predicate Wrote(kind: LightKind, g: Grid, m: LightMap, stored: set<Section>, c: Cell, level: nat,
                        m': LightMap, stored': set<Section>) {
    if c !in g.cells || Read(g, m, c) == level then m' == m && stored' == stored
    else
      && stored' == stored + {SectionOf(c)}
      && if kind.Sky? && SectionOf(c) !in stored && StartsBright(SectionOf(c))
         then m' == Filled(m, SectionOf(c))[c := level]
         else m' == m[c := level]
  }

  lemma CleanWrite(kind: LightKind, g: Grid, m: LightMap, stored: set<Section>, c: Cell, level: nat, m': LightMap,
                   stored': set<Section>)
    requires g.Valid() && IsLight(g, m) && level <= MAX_LIGHT && Wrote(kind, g, m, stored, c, level, m', stored')
    ensures IsLight(g, m') && stored <= stored'
    ensures Clean(kind, stored, stored') ==>
      m' == (if c in g.cells then m[c := level] else m) && stored' == stored + ChangedSections(g, m, m')
    ensures !Clean(kind, stored, stored') ==>
      SectionOf(c) !in stored && StartsBright(SectionOf(c)) && FlaresAt(g, m', c) && c in g.cells
    ensures SectionOf(c) in stored ==> stored' == stored
  {
    if c !in g.cells || Read(g, m, c) == level {
      assert c in g.cells ==> m[c := level] == m;
      assert ChangedSections(g, m, m) == {};
    } else if Clean(kind, stored, stored') {
      OneChangedSection(g, m, c, level);
    }
  }

  lemma OneChangedSection(g: Grid, m: LightMap, c: Cell, level: nat)
    requires g.Valid() && IsLight(g, m) && c in g.cells && Read(g, m, c) != level
    ensures ChangedSections(g, m, m[c := level]) == {SectionOf(c)}
  {
    assert Read(g, m, c) != Read(g, m[c := level], c);
    forall x | x in g.cells && x != c ensures Read(g, m[c := level], x) == Read(g, m, x) {}
  }

  /** What a write to the raw levels shows. */
  lemma WriteShows(g: Grid, levels: LightMap, stored: set<Section>, c: Cell, level: nat)
    requires g.Valid() && IsLight(g, levels) && c in g.cells && Read(g, Shown(levels, stored), c) != level
    requires forall x :: x in levels && SectionOf(x) !in stored
               ==> levels[x] == if StartsBright(SectionOf(x)) then MAX_LIGHT else 0
    ensures Wrote(Sky, g, Shown(levels, stored), stored, c, level, Shown(levels[c := level], stored + {SectionOf(c)}),
                  stored + {SectionOf(c)})
  {
    var m, m' := Shown(levels, stored), Shown(levels[c := level], stored + {SectionOf(c)});
    if SectionOf(c) !in stored && StartsBright(SectionOf(c)) {
      assert m' == Filled(m, SectionOf(c))[c := level];
    } else {
      assert m' == m[c := level];
    }
  }

  lemma NoWrite(kind: LightKind, g: Grid, m: LightMap, stored: set<Section>, c: Cell, level: nat, changed: seq<Cell>,
                dirty: set<Column>)
    requires c !in g.cells || Read(g, m, c) == level
    ensures Wrote(kind, g, m, stored, c, level, m, stored) && Noted(kind, g, stored, stored, m, m, changed, dirty)
  {
  }

  lemma SkyWrite(g: Grid, sky: LightMap, block: LightMap, stored: set<Section>, c: Cell, level: nat)
    requires g.Valid() && IsLight(g, sky) && block.Keys == g.cells && AsCreated(sky, block, stored)
    requires c in g.cells && Read(g, Shown(sky, stored), c) != level
    ensures Wrote(Sky, g, Shown(sky, stored), stored, c, level, Shown(sky[c := level], stored + {SectionOf(c)}),
                  stored + {SectionOf(c)})
  {
    WriteShows(g, sky, stored, c, level);
  }

  lemma BlockWrite(g: Grid, block: LightMap, stored: set<Section>, c: Cell, level: nat)
    requires c in g.cells && Read(g, block, c) != level
    ensures Wrote(Block, g, block, stored, c, level, block[c := level], stored + {SectionOf(c)})
  {
  }

  lemma WriteKeepsCreated(sky: LightMap, block: LightMap, stored: set<Section>, c: Cell, level: nat)
    requires AsCreated(sky, block, stored) && c in sky && c in block
    ensures AsCreated(sky[c := level], block, stored + {SectionOf(c)})
            && AsCreated(sky, block[c := level], stored + {SectionOf(c)})
  {
  }

  lemma WriteNoted(kind: LightKind, g: Grid, m: LightMap, stored: set<Section>, c: Cell, level: nat, m': LightMap,
                   stored': set<Section>, changed: seq<Cell>, dirty: set<Column>)
    requires g.Valid() && IsLight(g, m) && level <= MAX_LIGHT && Wrote(kind, g, m, stored, c, level, m', stored')
    requires c in changed && MeshColumns(c) <= dirty
    ensures Noted(kind, g, stored, stored', m, m', changed, dirty)
  {
    CleanWrite(kind, g, m, stored, c, level, m', stored');
  }

  /** One neighbour has been lit, or a bright section created for it. */
  ghost predicate LitNeighbor(kind: LightKind, g: Grid, m: LightMap, stored: set<Section>, n: Cell, level: nat,
                              m': LightMap, stored': set<Section>, pushed: seq<Cell>) {
    && Progress(g, m, m', pushed) && stored <= stored'
    && if Clean(kind, stored, stored')
       then LitOne(g, m, n, level, m', pushed) && stored' == stored + ChangedSections(g, m, m')
       else n in g.cells && n !in g.blocking && Read(g, m, n) + 1 < level
            && SectionOf(n) !in stored && StartsBright(SectionOf(n)) && FlaresAt(g, m', n)
  }

  /** The first `dir` neighbours of a node have been served. */
  ghost predicate Serving(kind: LightKind, g: Grid, m: LightMap, stored: set<Section>, node: Cell, dir: nat,
                          m': LightMap, stored': set<Section>, pushed: seq<Cell>) {
    && Progress(g, m, m', pushed) && stored <= stored'
    && if Clean(kind, stored, stored')
       then SpreadUpTo(g, m, node, dir, m', pushed) && stored' == stored + ChangedSections(g, m, m')
       else Spills(g, stored, m, node, m')
  }

  lemma ProgressTwice(g: Grid, m: LightMap, m1: LightMap, m2: LightMap, pushed: seq<Cell>, more: seq<Cell>)
    requires Progress(g, m, m1, pushed) && Progress(g, m1, m2, more)
    ensures Progress(g, m, m2, pushed + more)
  {
    forall c | c in pushed + more ensures g.InHeight(c.y) && (c in g.cells ==> Read(g, m, c) < Read(g, m2, c)) {
      assert c in pushed || c in more;
    }
  }

  lemma ServingOne(kind: LightKind, g: Grid, m: LightMap, stored: set<Section>, node: Cell, dir: nat, m1: LightMap,
                   stored1: set<Section>, pushed: seq<Cell>, m2: LightMap, stored2: set<Section>, more: seq<Cell>)
    requires g.Valid() && IsLight(g, m) && dir < 6 && 1 < Read(g, m, node) <= MAX_LIGHT
    requires Serving(kind, g, m, stored, node, dir, m1, stored1, pushed)
    requires LitNeighbor(kind, g, m1, stored1, Step(node, dir), Read(g, m, node), m2, stored2, more)
    ensures Serving(kind, g, m, stored, node, dir + 1, m2, stored2, pushed + more)
  {
    hide SpreadUpTo, LitOne, ChangedSections, Spills, Clean, Progress, FlaresAt;
    var n := Step(node, dir);
    CleanTwice(kind, stored, stored1, stored2);
    ProgressTwice(g, m, m1, m2, pushed, more);
    ProgressIsAbove(g, m, m1, pushed);
    ProgressIsAbove(g, m1, m2, more);
    if Clean(kind, stored, stored1) {
      if Clean(kind, stored1, stored2) {
        SpreadOne(g, m, node, dir, m1, pushed, m2, more);
        ChangedTwice(g, m, m1, m2);
      } else {
        UnservedReads(g, m, node, dir, m1, pushed);
        SpillsAt(g, stored, stored1, m, node, n, m2);
      }
    } else {
      SpillStays(g, stored, m, node, m1, m2);
    }
  }

  lemma ProgressIsAbove(g: Grid, m: LightMap, m': LightMap, pushed: seq<Cell>)
    requires Progress(g, m, m', pushed)
    ensures IsLight(g, m') && Above(g, m', m)
  {
  }

  lemma UnservedReads(g: Grid, m: LightMap, node: Cell, dir: nat, m1: LightMap, pushed: seq<Cell>)
    requires g.Valid() && IsLight(g, m) && dir < 6 && SpreadUpTo(g, m, node, dir, m1, pushed)
    ensures Adjacent(node, Step(node, dir)) && Read(g, m1, Step(node, dir)) == Read(g, m, Step(node, dir))
  {
    TakesOneMore(g, m, node, dir, Step(node, dir));
  }

  lemma SpillsAt(g: Grid, stored: set<Section>, stored1: set<Section>, m: LightMap, node: Cell, n: Cell, m': LightMap)
    requires stored <= stored1 && SectionOf(n) !in stored1 && StartsBright(SectionOf(n)) && FlaresAt(g, m', n)
    requires n in g.cells && n !in g.blocking && Adjacent(node, n) && Read(g, m, n) + 1 < Read(g, m, node)
    ensures Spills(g, stored, m, node, m')
  {
    assert Edge(g, node, n);
  }

  lemma SpillStays(g: Grid, stored: set<Section>, m: LightMap, node: Cell, m1: LightMap, m2: LightMap)
    requires g.Valid() && Spills(g, stored, m, node, m1) && Above(g, m2, m1) && IsLight(g, m2)
    ensures Spills(g, stored, m, node, m2)
  {
    var n :| Edge(g, node, n) && Read(g, m, n) + 1 < Read(g, m, node)
             && SectionOf(n) !in stored && StartsBright(SectionOf(n)) && FlaresAt(g, m1, n);
    forall e | e in g.cells && SectionOf(e) == SectionOf(n) && e != n ensures Read(g, m2, e) == MAX_LIGHT {
      assert Read(g, m1, e) <= Read(g, m2, e) <= MAX_LIGHT;
    }
    assert FlaresAt(g, m2, n);
  }

  lemma ServingAll(kind: LightKind, g: Grid, m: LightMap, stored: set<Section>, node: Cell, m': LightMap,
                   stored': set<Section>, pushed: seq<Cell>)
    requires g.Valid() && IsLight(g, m) && 1 < Read(g, m, node)
             && Serving(kind, g, m, stored, node, 6, m', stored', pushed)
    ensures Served(kind, g, m, stored, node, m', stored', pushed)
  {
    if Clean(kind, stored, stored') { SpreadAll(g, m, node, m', pushed); }
  }

  lemma LitByWrite(kind: LightKind, g: Grid, m: LightMap, stored: set<Section>, n: Cell, level: nat, m': LightMap,
                   stored': set<Section>)
    requires g.Valid() && IsLight(g, m) && 1 < level <= MAX_LIGHT && g.InHeight(n.y) && n !in g.blocking
    requires Read(g, m, n) + 1 < level && Wrote(kind, g, m, stored, n, level - 1, m', stored')
    ensures LitNeighbor(kind, g, m, stored, n, level, m', stored', [n])
  {
    CleanWrite(kind, g, m, stored, n, level - 1, m', stored');
    forall c | c in g.cells ensures Read(g, m, c) <= Read(g, m', c) {}
  }

  lemma NotLit(kind: LightKind, g: Grid, m: LightMap, stored: set<Section>, n: Cell, level: nat, changed: seq<Cell>,
               dirty: set<Column>)
    requires IsLight(g, m) && !(g.InHeight(n.y) && n !in g.blocking && Read(g, m, n) + 1 < level)
    ensures LitNeighbor(kind, g, m, stored, n, level, m, stored, [])
            && Noted(kind, g, stored, stored, m, m, changed, dirty)
  {
    assert ChangedSections(g, m, m) == {};
  }

  lemma WriteServes(kind: LightKind, g: Grid, m: LightMap, stored: set<Section>, n: Cell, level: nat, m': LightMap,
                    stored': set<Section>)
    requires g.Valid() && IsLight(g, m) && 1 < level <= MAX_LIGHT && g.InHeight(n.y) && n !in g.blocking
    requires Read(g, m, n) + 1 < level && Wrote(kind, g, m, stored, n, level - 1, m', stored')
    requires DarkWhereMissing(g, m, stored) && DarkWhereMissing(g, m', stored')
    ensures ServesNeighbor(kind, g, m, stored, n, level, m', stored', [n])
  {
    hide Wrote, CreatedAt, LitAtCreation, DarkWhereMissing, Above;
    WriteIsAbove(kind, g, m, stored, n, level - 1, m', stored');
    WriteCreates(kind, g, m, stored, n, level - 1, m', stored');
    forall c | Raised(g, m, m', c) && c != n ensures LitAtCreation(kind, g, stored, stored', m', c) {
      WriteRaises(kind, g, m, stored, n, level - 1, m', stored', c);
    }
  }

  /** A write among those that come before a flood. */
  ghost predicate GivesNext(kind: LightKind, g: Grid, w: LightMap, stored0: set<Section>, given: set<Cell>,
                            m1: LightMap, stored1: set<Section>, c: Cell, level: nat, m2: LightMap,
                            stored2: set<Section>) {
    && g.Valid() && Gives(kind, g, w, stored0, given, m1, stored1)
    && Wrote(kind, g, m1, stored1, c, level, m2, stored2) && DarkWhereMissing(g, m2, stored2)
    && 0 < level <= MAX_LIGHT && Read(g, m1, c) <= level
  }

  lemma WriteGives(kind: LightKind, g: Grid, w: LightMap, stored0: set<Section>, given: set<Cell>, m1: LightMap,
                   stored1: set<Section>, c: Cell, level: nat, m2: LightMap, stored2: set<Section>)
    requires GivesNext(kind, g, w, stored0, given, m1, stored1, c, level, m2, stored2)
    ensures Gives(kind, g, if c in g.cells then w[c := level] else w, stored0, given + {c}, m2, stored2)
  {
    var v := if c in g.cells then w[c := level] else w;
    forall x | x in given + {c} && x in g.cells ensures 0 < Read(g, v, x) == Read(g, m2, x) {
      WriteGivesLevel(kind, g, w, stored0, given, m1, stored1, c, level, m2, stored2, x);
    }
    forall x | Raised(g, v, m2, x) ensures LitAtCreation(kind, g, stored0, stored2, m2, x) {
      WriteGivesMore(kind, g, w, stored0, given, m1, stored1, c, level, m2, stored2, x);
    }
    forall s | s in stored2 && s !in stored0 ensures exists n :: n in given + {c} && CreatedAt(kind, g, m2, n, s) {
      var n := WriteGivesSection(kind, g, w, stored0, given, m1, stored1, c, level, m2, stored2, s);
    }
    hide Wrote, LitAtCreation, CreatedAt, DarkWhereMissing;
    WriteIsAbove(kind, g, m1, stored1, c, level, m2, stored2);
    WriteCreates(kind, g, m1, stored1, c, level, m2, stored2);
    GivenIsAbove(g, w, m1, c, level, m2);
    hide Raised, Above, Read;
  }

  lemma WriteGivesLevel(kind: LightKind, g: Grid, w: LightMap, stored0: set<Section>, given: set<Cell>, m1: LightMap,
                        stored1: set<Section>, c: Cell, level: nat, m2: LightMap, stored2: set<Section>, x: Cell)
    requires GivesNext(kind, g, w, stored0, given, m1, stored1, c, level, m2, stored2)
    requires x in given + {c} && x in g.cells
    ensures var v := if c in g.cells then w[c := level] else w; 0 < Read(g, v, x) == Read(g, m2, x)
  {
    WriteIsAbove(kind, g, m1, stored1, c, level, m2, stored2);
    WriteCreates(kind, g, m1, stored1, c, level, m2, stored2);
    hide Wrote, LitAtCreation, CreatedAt;
    if x != c {
      assert SectionOf(x) in stored1;
      NotFilled(kind, g, m1, stored1, c, level, m2, stored2, x);
    }
  }

  lemma NotFilled(kind: LightKind, g: Grid, m: LightMap, stored: set<Section>, n: Cell, level: nat, m': LightMap,
                  stored': set<Section>, x: Cell)
    requires g.Valid() && IsLight(g, m) && Wrote(kind, g, m, stored, n, level, m', stored')
    requires SectionOf(x) in stored && x != n
    ensures Read(g, m', x) == Read(g, m, x)
  {
  }

  lemma WriteGivesMore(kind: LightKind, g: Grid, w: LightMap, stored0: set<Section>, given: set<Cell>, m1: LightMap,
                       stored1: set<Section>, c: Cell, level: nat, m2: LightMap, stored2: set<Section>, x: Cell)
    requires GivesNext(kind, g, w, stored0, given, m1, stored1, c, level, m2, stored2)
    requires Raised(g, if c in g.cells then w[c := level] else w, m2, x)
    ensures LitAtCreation(kind, g, stored0, stored2, m2, x)
  {
    WriteIsAbove(kind, g, m1, stored1, c, level, m2, stored2);
    WriteCreates(kind, g, m1, stored1, c, level, m2, stored2);
    GivenIsAbove(g, w, m1, c, level, m2);
    hide Wrote, LitAtCreation, CreatedAt, DarkWhereMissing;
    assert x != c;
    if Raised(g, m1, m2, x) {
      WriteRaises(kind, g, m1, stored1, c, level, m2, stored2, x);
      LitLater(kind, g, stored0, stored1, stored2, m2, x);
    } else {
      LitStays(kind, g, stored0, stored1, stored2, m1, m2, x);
    }
  }

  lemma WriteGivesSection(kind: LightKind, g: Grid, w: LightMap, stored0: set<Section>, given: set<Cell>, m1: LightMap,
                          stored1: set<Section>, c: Cell, level: nat, m2: LightMap, stored2: set<Section>, s: Section)
    returns (n: Cell)
    requires GivesNext(kind, g, w, stored0, given, m1, stored1, c, level, m2, stored2)
    requires s in stored2 && s !in stored0
    ensures n in given + {c} && CreatedAt(kind, g, m2, n, s)
  {
    WriteIsAbove(kind, g, m1, stored1, c, level, m2, stored2);
    WriteCreates(kind, g, m1, stored1, c, level, m2, stored2);
    hide Wrote, LitAtCreation, CreatedAt, DarkWhereMissing;
    if s in stored1 {
      n :| n in given && CreatedAt(kind, g, m1, n, s);
      CreationStays(kind, g, m1, m2, n, s);
    } else {
      n := c;
    }
  }

  lemma GivenIsAbove(g: Grid, w: LightMap, m1: LightMap, c: Cell, level: nat, m2: LightMap)
    requires g.Valid() && IsLight(g, w) && IsLight(g, m2) && Above(g, m1, w) && Above(g, m2, m1) && level <= MAX_LIGHT
    requires c in g.cells ==> Read(g, m2, c) == level
    ensures var v := if c in g.cells then w[c := level] else w;
      && IsLight(g, v) && Above(g, m2, v) && forall x :: x != c ==> Read(g, v, x) == Read(g, w, x)
  {
    forall x | x in g.cells ensures Read(g, if c in g.cells then w[c := level] else w, x) <= Read(g, m2, x) {
      assert Read(g, w, x) <= Read(g, m1, x) <= Read(g, m2, x);
    }
  }

  lemma WriteIsAbove(kind: LightKind, g: Grid, m: LightMap, stored: set<Section>, n: Cell, level: nat, m': LightMap,
                     stored': set<Section>)
    requires g.Valid() && IsLight(g, m) && Wrote(kind, g, m, stored, n, level, m', stored')
    requires Read(g, m, n) <= level <= MAX_LIGHT
    ensures IsLight(g, m') && Above(g, m', m)
  {
  }

  /** What a write raises besides its cell came with the section. */
  lemma WriteRaises(kind: LightKind, g: Grid, m: LightMap, stored: set<Section>, n: Cell, level: nat, m': LightMap,
                    stored': set<Section>, c: Cell)
    requires g.Valid() && IsLight(g, m) && Wrote(kind, g, m, stored, n, level, m', stored') && IsLight(g, m')
    requires Raised(g, m, m', c) && c != n
    ensures LitAtCreation(kind, g, stored, stored', m', c)
  {
  }

  lemma WriteCreates(kind: LightKind, g: Grid, m: LightMap, stored: set<Section>, n: Cell, level: nat, m': LightMap,
                     stored': set<Section>)
    requires g.Valid() && IsLight(g, m) && Wrote(kind, g, m, stored, n, level, m', stored') && IsLight(g, m')
    ensures n in g.cells ==> Read(g, m', n) == level
    ensures n !in g.cells ==> m' == m && stored' == stored
    ensures stored <= stored'
    ensures forall s :: s in stored' && s !in stored ==> CreatedAt(kind, g, m', n, s) && n in g.cells
  {
  }

  lemma NoWriteServes(kind: LightKind, g: Grid, m: LightMap, stored: set<Section>, n: Cell, level: nat)
    requires g.Valid() && IsLight(g, m) && !(g.InHeight(n.y) && n !in g.blocking && Read(g, m, n) + 1 < level)
    requires DarkWhereMissing(g, m, stored)
    ensures ServesNeighbor(kind, g, m, stored, n, level, m, stored, [])
  {
  }

  /** A lit cell lies in a section that is there already. */
  lemma LitWrite(kind: LightKind, g: Grid, m: LightMap, stored: set<Section>, n: Cell, m': LightMap,
                 stored': set<Section>)
    requires g.Valid() && IsLight(g, m) && DarkWhereMissing(g, m, stored) && n in g.cells && 0 < Read(g, m, n)
    requires Wrote(kind, g, m, stored, n, 0, m', stored')
    ensures stored' == stored && Clean(kind, stored, stored') && m' == m[n := 0]
  {
    assert SectionOf(n) in stored;
  }

  lemma NothingNoted(g: Grid, m: LightMap, changed: seq<Cell>, dirty: set<Column>)
    ensures ChangesNoted(g, m, m, changed, dirty)
    ensures forall kind, stored :: Noted(kind, g, stored, stored, m, m, changed, dirty)
  {
  }

  lemma NothingServed(kind: LightKind, g: Grid, m: LightMap, stored: set<Section>, node: Cell)
    requires IsLight(g, m) && Read(g, m, node) <= 1
    ensures Served(kind, g, m, stored, node, m, stored, [])
  {
    assert ChangedSections(g, m, m) == {};
  }

  lemma LevelInRange(g: Grid, m: LightMap, c: Cell)
    requires IsLight(g, m)
    ensures Read(g, m, c) <= MAX_LIGHT
  {
  }

  lemma ServingStarts(kind: LightKind, g: Grid, m: LightMap, stored: set<Section>, node: Cell)
    requires IsLight(g, m)
    ensures Serving(kind, g, m, stored, node, 0, m, stored, [])
  {
    assert ChangedSections(g, m, m) == {};
  }

  lemma ServingGrows(kind: LightKind, g: Grid, m: LightMap, stored: set<Section>, node: Cell, dir: nat, m': LightMap,
                     stored': set<Section>, pushed: seq<Cell>)
    requires Serving(kind, g, m, stored, node, dir, m', stored', pushed)
    ensures stored <= stored'
  {
  }

  lemma FloodRunGrows(kind: LightKind, g: Grid, m0: LightMap, stored0: set<Section>, start: set<Cell>, m: LightMap,
                      stored: set<Section>, queue: set<Cell>)
    requires g.Valid() && IsLight(g, m0) && FloodRun(kind, g, m0, stored0, start, m, stored, queue)
    ensures stored0 <= stored
  {
  }

  lemma ServedShrinks(kind: LightKind, g: Grid, m: LightMap, stored: set<Section>, queue: seq<Cell>, m': LightMap,
                      stored': set<Section>, pushed: seq<Cell>)
    requires g.Valid() && IsLight(g, m) && queue != [] && Served(kind, g, m, stored, queue[0], m', stored', pushed)
    ensures stored <= stored' && Missing(g, m') <= Missing(g, m)
    ensures Missing(g, m') < Missing(g, m)
         || Live(g, queue[1..] + pushed) < Live(g, queue)
         || (Live(g, queue[1..] + pushed) == Live(g, queue) && pushed == [])
  {
    assert queue == [queue[0]] + queue[1..];
    QueueShrinks(g, m, queue[0], queue[1..], pushed, m');
  }

  lemma NotedTwice(kind: LightKind, g: Grid, s0: set<Section>, s1: set<Section>, s2: set<Section>, m: LightMap,
                   m1: LightMap, m2: LightMap, changed1: seq<Cell>, changed2: seq<Cell>, dirty1: set<Column>,
                   dirty2: set<Column>)
    requires s0 <= s1 <= s2 && dirty1 <= dirty2 && forall c :: c in changed1 ==> c in changed2
    requires Noted(kind, g, s0, s1, m, m1, changed1, dirty1) && Noted(kind, g, s1, s2, m1, m2, changed2, dirty2)
    ensures Noted(kind, g, s0, s2, m, m2, changed2, dirty2)
  {
  }

  class LightNeighborhood {
    const origin: Column
    const minY: int
    const maxY: int
    const hasSkyLight: bool
    /** The columns that were loaded when the nine were taken. */
    const columns: set<Column>
    const opaqueCells: set<Cell>
    ghost const cells: set<Cell>
    /** The levels, those of missing sections being what they will be created with. */
    var sky: LightMap
    var block: LightMap
    var stored: set<Section>
    /** World cells whose light was written, for the host to note after the columns return. */
    var changedCells: seq<Cell>

    ghost function GridFor(kind: LightKind): Grid {
      Grid(minY, maxY, kind.Sky? && hasSkyLight, cells, opaqueCells)
    }

    /** What reads see. Missing sections are dark, and will hold no block light when they are created. */
    function LightOf(kind: LightKind): LightMap
      reads this
    {
      if kind.Sky? then Shown(sky, stored) else block
    }

    ghost predicate Valid()
      reads this
    {
      && opaqueCells <= cells
      && (forall c :: c in cells <==> minY <= c.y < maxY && ColumnOf(c) in columns)
      && IsLight(GridFor(Sky), sky) && IsLight(GridFor(Block), block)
      && AsCreated(sky, block, stored)
      && (forall s :: s in stored ==> s.0 in columns)
      && (forall c :: c in opaqueCells ==> SectionOf(c) in stored)
    }

    /** What a flood of one kind leaves alone: the levels of the other. */
    twostate predicate OnlyLights(kind: LightKind)
      reads this
    {
      && Valid() && old(stored) <= stored
      && (if kind.Sky? then block == old(block) else sky == old(sky))
      && forall c :: c in old(changedCells) ==> c in changedCells
    }

    constructor (origin: Column, minY: int, maxY: int, hasSkyLight: bool, columns: set<Column>, opaqueCells: set<Cell>,
                 ghost cells: set<Cell>, sky: LightMap, block: LightMap, stored: set<Section>)
      requires opaqueCells <= cells
      requires forall c :: c in cells <==> minY <= c.y < maxY && ColumnOf(c) in columns
      requires sky.Keys == cells == block.Keys
      requires forall c :: c in cells ==> sky[c] <= MAX_LIGHT && block[c] <= MAX_LIGHT
      requires AsCreated(sky, block, stored) && forall s :: s in stored ==> s.0 in columns
      requires forall c :: c in opaqueCells ==> SectionOf(c) in stored
      ensures Valid() && this.sky == sky && this.block == block && this.stored == stored && changedCells == []
      ensures this.columns == columns && this.cells == cells
      ensures GridFor(Sky) == Grid(minY, maxY, hasSkyLight, cells, opaqueCells)
      ensures GridFor(Block) == Grid(minY, maxY, false, cells, opaqueCells)
    {
      this.origin, this.minY, this.maxY, this.hasSkyLight := origin, minY, maxY, hasSkyLight;
      this.columns, this.opaqueCells, this.cells := columns, opaqueCells, cells;
      this.sky, this.block, this.stored, changedCells := sky, block, stored, [];
    }

    lemma LightIsLight(kind: LightKind)
      requires Valid()
      ensures GridFor(kind).Valid() && IsLight(GridFor(kind), LightOf(kind))
      ensures DarkWhereMissing(GridFor(kind), LightOf(kind), stored)
    {
      ShownIsLight(GridFor(Sky), sky, stored);
    }

    predicate ContainsY(y: int) { minY <= y < maxY }

    function GetLight(kind: LightKind, c: Cell): (level: nat)
      requires Valid()
      reads this
      ensures level == Read(GridFor(kind), LightOf(kind), c)
    {
      if !ContainsY(c.y) then
        if kind.Sky? && c.y >= maxY && hasSkyLight then 15 else 0
      else if ColumnOf(c) !in columns then 0
      else if SectionOf(c) !in stored then 0
      else if kind.Sky? then sky[c]
      else block[c]
    }

    /** Writes to a cell whose column was not taken, or lies outside the height, do nothing; a write to
        a missing section creates it. */
    method SetLight(kind: LightKind, c: Cell, level: nat, dirty: set<Column>) returns (dirty': set<Column>)
      requires Valid() && level <= MAX_LIGHT
      modifies this
      ensures OnlyLights(kind)
      ensures Wrote(kind, GridFor(kind), old(LightOf(kind)), old(stored), c, level, LightOf(kind), stored)
      ensures dirty <= dirty'
      ensures Noted(kind, GridFor(kind), old(stored), stored, old(LightOf(kind)), LightOf(kind), changedCells, dirty')
    {
      hide Wrote, AsCreated, Noted, Shown, Clean, MeshColumns, DarkWhereMissing;
      ghost var g, m, before := GridFor(kind), LightOf(kind), stored;
      LightIsLight(kind);
      dirty' := dirty;
      if !ContainsY(c.y) || ColumnOf(c) !in columns || GetLight(kind, c) == level {
        NoWrite(kind, g, m, stored, c, level, changedCells, dirty);
        return;
      }
      WriteKeepsCreated(sky, block, stored, c, level);
      if kind.Sky? {
        SkyWrite(g, sky, block, stored, c, level);
        sky := sky[c := level];
      } else {
        BlockWrite(g, m, stored, c, level);
        block := block[c := level];
      }
      stored := stored + {SectionOf(c)};
      changedCells := changedCells + [c];
      dirty' := dirty' + MeshColumns(c);
      WriteNoted(kind, g, m, before, c, level, LightOf(kind), stored, changedCells, dirty');
    }

    /** Lights one neighbour of a node that holds `level`. */
    method LightNeighbor(kind: LightKind, n: Cell, level: nat, dirty: set<Column>)
      returns (pushed: seq<Cell>, dirty': set<Column>)
      requires Valid() && 1 < level <= MAX_LIGHT
      modifies this
      ensures OnlyLights(kind) && dirty <= dirty'
      ensures LitNeighbor(kind, GridFor(kind), old(LightOf(kind)), old(stored), n, level, LightOf(kind), stored, pushed)
      ensures ServesNeighbor(kind, GridFor(kind), old(LightOf(kind)), old(stored), n, level, LightOf(kind), stored,
                             pushed)
      ensures Noted(kind, GridFor(kind), old(stored), stored, old(LightOf(kind)), LightOf(kind), changedCells, dirty')
    {
      hide Wrote, LitNeighbor, ServesNeighbor, ChangesNoted, Noted, AsCreated, Shown, Clean;
      ghost var g, m, before := GridFor(kind), LightOf(kind), stored;
      LightIsLight(kind);
      pushed, dirty' := [], dirty;
      if ContainsY(n.y) && n !in opaqueCells && GetLight(kind, n) < level - 1 {
        dirty' := SetLight(kind, n, level - 1, dirty);
        pushed := [n];
        LitByWrite(kind, g, m, before, n, level, LightOf(kind), stored);
        LightIsLight(kind);
        WriteServes(kind, g, m, before, n, level, LightOf(kind), stored);
      } else {
        NoWriteServes(kind, g, m, before, n, level);
        NotLit(kind, g, m, before, n, level, changedCells, dirty);
      }
    }

    /** One turn of the inner loop; `m` is the light when the node was taken from the queue. */
    method SpreadToward(kind: LightKind, node: Cell, dir: nat, level: nat, pushed: seq<Cell>, dirty: set<Column>,
                        ghost m: LightMap, ghost before: set<Section>)
      returns (pushed': seq<Cell>, dirty': set<Column>)
      requires Valid() && dir < 6 && IsLight(GridFor(kind), m) && 1 < level == Read(GridFor(kind), m, node) <= MAX_LIGHT
      requires Serving(kind, GridFor(kind), m, before, node, dir, LightOf(kind), stored, pushed)
      requires ServesUpTo(kind, GridFor(kind), m, before, node, dir, LightOf(kind), stored, pushed)
      requires Noted(kind, GridFor(kind), before, stored, m, LightOf(kind), changedCells, dirty)
      modifies this
      ensures OnlyLights(kind) && dirty <= dirty'
      ensures Serving(kind, GridFor(kind), m, before, node, dir + 1, LightOf(kind), stored, pushed')
      ensures ServesUpTo(kind, GridFor(kind), m, before, node, dir + 1, LightOf(kind), stored, pushed')
      ensures Noted(kind, GridFor(kind), before, stored, m, LightOf(kind), changedCells, dirty')
    {
      hide Serving, LitNeighbor, ServesUpTo, ServesNeighbor, ChangesNoted, Noted, AsCreated, Shown, Clean;
      ghost var g, m1, stored1, changed1 := GridFor(kind), LightOf(kind), stored, changedCells;
      LightIsLight(kind);
      var more;
      more, dirty' := LightNeighbor(kind, Step(node, dir), level, dirty);
      ServingGrows(kind, g, m, before, node, dir, m1, stored1, pushed);
      ServingOne(kind, g, m, before, node, dir, m1, stored1, pushed, LightOf(kind), stored, more);
      ServesMore(kind, g, m, before, node, dir, m1, stored1, pushed, LightOf(kind), stored, more);
      CleanTwice(kind, before, stored1, stored);
      NotedTwice(kind, g, before, stored1, stored, m, m1, LightOf(kind), changed1, changedCells, dirty, dirty');
      pushed' := pushed + more;
    }

    /** The inner loop of `propagate`: one node lights its six neighbours. */
    method Spread(kind: LightKind, node: Cell, dirty: set<Column>) returns (pushed: seq<Cell>, dirty': set<Column>)
      requires Valid()
      modifies this
      ensures OnlyLights(kind) && dirty <= dirty'
      ensures Served(kind, GridFor(kind), old(LightOf(kind)), old(stored), node, LightOf(kind), stored, pushed)
      ensures ServesNode(kind, GridFor(kind), old(LightOf(kind)), old(stored), node, LightOf(kind), stored, pushed)
      ensures Noted(kind, GridFor(kind), old(stored), stored, old(LightOf(kind)), LightOf(kind), changedCells, dirty')
    {
      hide Serving, Served, ServesUpTo, ServesNode, ChangesNoted, Noted, AsCreated, Shown, Clean;
      ghost var g, m, before := GridFor(kind), LightOf(kind), stored;
      LightIsLight(kind);
      var level := GetLight(kind, node);
      pushed, dirty' := [], dirty;
      NothingNoted(g, m, changedCells, dirty);
      ServesNothing(kind, g, m, before, node);
      if level <= 1 {
        NothingServed(kind, g, m, before, node);
        return;
      }
      LevelInRange(g, m, node);
      ServingStarts(kind, g, m, before, node);
      for dir := 0 to 6
        invariant OnlyLights(kind) && dirty <= dirty'
        invariant Serving(kind, g, m, before, node, dir, LightOf(kind), stored, pushed)
        invariant ServesUpTo(kind, g, m, before, node, dir, LightOf(kind), stored, pushed)
        invariant Noted(kind, g, before, stored, m, LightOf(kind), changedCells, dirty')
      {
        pushed, dirty' := SpreadToward(kind, node, dir, level, pushed, dirty', m, before);
      }
      ServingAll(kind, g, m, before, node, LightOf(kind), stored, pushed);
      ServesAll(kind, g, m, before, node, LightOf(kind), stored, pushed);
    }

    /** Breadth-first flood. For every queue it computes the least map above the stored one in which no
        queued and no raised cell has anything left to give; for sky light exactly when that map writes
        to no missing section that starts bright. In either case it has carried the light of the queue as
        far as it goes. */
    method Propagate(kind: LightKind, queue: seq<Cell>, dirty: set<Column>) returns (dirty': set<Column>)
      requires Valid()
      modifies this
      ensures OnlyLights(kind) && dirty <= dirty'
      ensures GridFor(kind).Valid() && IsLight(GridFor(kind), old(LightOf(kind)))
      ensures FloodOutcome(kind, GridFor(kind), old(LightOf(kind)), old(stored), Elements(queue), LightOf(kind), stored)
      ensures Carries(kind, GridFor(kind), old(LightOf(kind)), old(stored), {}, Elements(queue), LightOf(kind), stored)
      ensures Noted(kind, GridFor(kind), old(stored), stored, old(LightOf(kind)), LightOf(kind), changedCells, dirty')
    {
      hide FloodRun, FloodOutcome, Served, ServesNode, Flooding, Carries, ChangesNoted, Noted, AsCreated, Shown, Clean;
      ghost var g, m, before, start := GridFor(kind), LightOf(kind), stored, Elements(queue);
      LightIsLight(kind);
      var q := queue;
      dirty' := dirty;
      NothingNoted(g, m, changedCells, dirty);
      FloodRunStarts(kind, g, m, before, queue);
      FloodingStarts(kind, g, m, before, queue);
      while q != []
        invariant OnlyLights(kind) && dirty <= dirty'
        invariant FloodRun(kind, g, m, before, start, LightOf(kind), stored, Elements(q))
        invariant Flooding(kind, g, m, before, start, LightOf(kind), stored, Elements(q))
        invariant Noted(kind, g, before, stored, m, LightOf(kind), changedCells, dirty')
        decreases Missing(g, LightOf(kind)), Live(g, q), |q|
      {
        ghost var was, stored1, q0, changed, wasDirty := LightOf(kind), stored, q, changedCells, dirty';
        LightIsLight(kind);
        var node := q[0];
        var pushed;
        pushed, dirty' := Spread(kind, node, dirty');
        q := q[1..] + pushed;
        FloodRunStep(kind, g, m, before, start, was, stored1, q0, pushed, LightOf(kind), stored);
        FloodingStep(kind, g, m, before, start, was, stored1, q0, LightOf(kind), stored, pushed);
        ServedShrinks(kind, g, was, stored1, q0, LightOf(kind), stored, pushed);
        FloodRunGrows(kind, g, m, before, start, was, stored1, Elements(q0));
        CleanTwice(kind, before, stored1, stored);
        NotedTwice(kind, g, before, stored1, stored, m, was, LightOf(kind), changed, changedCells, wasDirty, dirty');
      }
      FloodRunEnds(kind, g, m, before, start, LightOf(kind), stored);
      FloodingEnds(kind, g, m, before, start, LightOf(kind), stored);
    }

    /** Darkens one neighbour of a removed cell, or hands it on. */
    method DarkenNeighbor(kind: LightKind, r: Removal, n: Cell, dirty: set<Column>)
      returns (darkened: seq<Removal>, kept: seq<Cell>, dirty': set<Column>)
      requires Valid() && Adjacent(r.cell, n)
      modifies this
      ensures OnlyLights(kind) && stored == old(stored)
      ensures var (g, m) := (GridFor(kind), old(LightOf(kind)));
              && LightOf(kind) == (if DarkStep(g, m, r, n) then m[n := 0] else m)
              && darkened == (if DarkStep(g, m, r, n) then [Removal(n, Read(g, m, n))] else [])
              && kept == (if Keeps(g, m, r, n) then [n] else [])
      ensures dirty <= dirty'
      ensures ChangesNoted(GridFor(kind), old(LightOf(kind)), LightOf(kind), changedCells, dirty')
    {
      hide Wrote, AsCreated, Shown, Clean;
      ghost var g, m, before := GridFor(kind), LightOf(kind), stored;
      LightIsLight(kind);
      darkened, kept, dirty' := [], [], dirty;
      if !ContainsY(n.y) {
        return;
      }
      var level := GetLight(kind, n);
      if level != 0 && level < r.level {
        dirty' := SetLight(kind, n, 0, dirty);
        LitWrite(kind, g, m, before, n, LightOf(kind), stored);
        darkened := [Removal(n, level)];
      } else if level >= r.level {
        kept := [n];
      }
    }

    /** The inner loop of `remove_light`: one removed cell examines its six neighbours. */
    method DarkenAround(kind: LightKind, r: Removal, dirty: set<Column>)
      returns (darkened: seq<Removal>, kept: seq<Cell>, dirty': set<Column>)
      requires Valid()
      modifies this
      ensures OnlyLights(kind) && stored == old(stored)
      ensures DarkenFrom(GridFor(kind), old(LightOf(kind)), r, LightOf(kind))
      ensures Pushes(GridFor(kind), old(LightOf(kind)), r, darkened, kept)
      ensures dirty <= dirty'
      ensures ChangesNoted(GridFor(kind), old(LightOf(kind)), LightOf(kind), changedCells, dirty')
    {
      hide AsCreated, Shown, DarkWhereMissing, DirectionTo, DarkStep, Keeps, DarkenUpTo, PushesUpTo, ChangesNoted;
      ghost var g, m := GridFor(kind), LightOf(kind);
      LightIsLight(kind);
      DarkenNone(g, m, r);
      NothingNoted(g, m, changedCells, dirty);
      darkened, kept, dirty' := [], [], dirty;
      for dir := 0 to 6
        invariant OnlyLights(kind) && stored == old(stored)
        invariant DarkenUpTo(g, m, r, dir, LightOf(kind)) && PushesUpTo(g, m, r, dir, darkened, kept)
        invariant dirty <= dirty'
        invariant ChangesNoted(g, m, LightOf(kind), changedCells, dirty')
      {
        ghost var was, changed, wasDirty := LightOf(kind), changedCells, dirty';
        ghost var darkened0, kept0 := darkened, kept;
        DirectionsAreSteps(r.cell, Step(r.cell, dir));
        var more, handed;
        more, handed, dirty' := DarkenNeighbor(kind, r, Step(r.cell, dir), dirty');
        darkened, kept := darkened + more, kept + handed;
        DarkenOne(g, m, r, dir, was, darkened0, kept0, LightOf(kind), darkened, kept);
        ChangesCompose(g, m, was, LightOf(kind), changed, changedCells, wasDirty, dirty');
      }
      DarkenAll(g, m, r, LightOf(kind), darkened, kept);
    }

    /** The darkening flood. It zeroes exactly the cells reached along falling levels and hands
        every lit neighbour at or above the level of a removed cell to the propagation queue. */
    method RemoveLight(kind: LightKind, removal: seq<Removal>, queue: seq<Cell>, dirty: set<Column>)
      returns (queue': seq<Cell>, dirty': set<Column>)
      requires Valid()
      modifies this
      ensures OnlyLights(kind) && stored == old(stored)
      ensures LightOf(kind) == Darkened(old(LightOf(kind)),
                                        DarkSet(GridFor(kind), old(LightOf(kind)), Elements(removal)))
      ensures HandedOn(GridFor(kind), LightOf(kind),
                       RemovedNodes(GridFor(kind), old(LightOf(kind)), Elements(removal)), Elements(queue'))
      ensures OnlyHandsOn(GridFor(kind), old(LightOf(kind)),
                          RemovedNodes(GridFor(kind), old(LightOf(kind)), Elements(removal)), Elements(queue),
                          Elements(queue'))
      ensures dirty <= dirty'
      ensures ChangesNoted(GridFor(kind), old(LightOf(kind)), LightOf(kind), changedCells, dirty')
    {
      hide AsCreated, Shown;
      ghost var g, m, start, handed0 := GridFor(kind), LightOf(kind), Elements(removal), Elements(queue);
      LightIsLight(kind);
      var q := removal;
      queue', dirty' := queue, dirty;
      while q != []
        invariant OnlyLights(kind) && stored == old(stored)
        invariant RemovalInvariant(g, m, start, handed0, LightOf(kind), Elements(q), Elements(queue'))
        invariant dirty <= dirty'
        invariant ChangesNoted(g, m, LightOf(kind), changedCells, dirty')
        decreases Lit(g, LightOf(kind)), |q|
      {
        ghost var was, q0, handed, changed, wasDirty := LightOf(kind), q, queue', changedCells, dirty';
        var darkened, kept;
        darkened, kept, dirty' := DarkenAround(kind, q[0], dirty');
        q, queue' := q[1..] + darkened, queue' + kept;
        RemoveStep(g, m, start, handed0, was, q0, handed, darkened, kept, LightOf(kind));
        ChangesCompose(g, m, was, LightOf(kind), changed, changedCells, wasDirty, dirty');
      }
      RemovalEnds(g, m, start, handed0, LightOf(kind), Elements(queue'));
    }
  }
}
