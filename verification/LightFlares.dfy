/** Floods whose writes create bright sections on the way. Such a flood is no longer the least map, but
    every cell it had to serve is served, and every level it raised has a feeder or came with a section. */
module LightFlares {
  import opened Positions
  import opened LightGrid
  import opened LightTheory
  import opened LightRemoval
  import opened LightRegion
  import opened LightSections

  /** The cell holds the sky light with which its section, missing before, was created. */
  ghost predicate LitAtCreation(kind: LightKind, g: Grid, stored: set<Section>, stored': set<Section>, m: LightMap,
                                c: Cell) {
    && kind.Sky? && c in g.cells && SectionOf(c) in stored' && SectionOf(c) !in stored && StartsBright(SectionOf(c))
    && Read(g, m, c) == MAX_LIGHT
  }

  // ----- One node -----

  /** A neighbour of a node at `level` has been served: it is lit and pushed, or was bright enough. */
  ghost predicate ServesNeighbor(kind: LightKind, g: Grid, m: LightMap, stored: set<Section>, n: Cell, level: nat,
                                 m': LightMap, stored': set<Section>, pushed: seq<Cell>) {
    && IsLight(g, m') && Above(g, m', m) && stored <= stored' && DarkWhereMissing(g, m', stored')
    && (n in g.cells && n !in g.blocking ==> level <= Read(g, m', n) + 1)
    && (forall c :: c in pushed ==> c == n && g.InHeight(c.y) && c !in g.blocking)
    && (forall c :: Raised(g, m, m', c)
          ==> || (c == n && c in pushed && Read(g, m', c) + 1 == level)
              || LitAtCreation(kind, g, stored, stored', m', c))
    && (forall c :: c in pushed && c in g.cells ==> Raised(g, m, m', c) && Read(g, m', c) + 1 == level)
    && (forall s :: s in stored' && s !in stored ==> CreatedAt(kind, g, m', n, s) && n in pushed && n in g.cells)
  }

  /** The section was created by the write to `n`. */
  ghost predicate CreatedAt(kind: LightKind, g: Grid, m: LightMap, n: Cell, s: Section) {
    SectionOf(n) == s && n in g.cells && (kind.Sky? && StartsBright(s) ==> FlaresAt(g, m, n))
  }

  /** The cell was lit and pushed by the node. */
  ghost predicate IsPush(g: Grid, m: LightMap, node: Cell, m': LightMap, pushed: seq<Cell>, c: Cell) {
    c in pushed && Edge(g, node, c) && Raised(g, m, m', c) && Read(g, m', c) + 1 == Read(g, m, node)
  }

  /** The node's neighbours in the first `dir` directions have been served. */
  ghost predicate ServesUpTo(kind: LightKind, g: Grid, m: LightMap, stored: set<Section>, node: Cell, dir: nat,
                             m': LightMap, stored': set<Section>, pushed: seq<Cell>) {
    && IsLight(g, m') && Above(g, m', m) && stored <= stored' && DarkWhereMissing(g, m', stored')
    && Read(g, m', node) == Read(g, m, node)
    && (forall n :: DirectionTo(node, n) < dir && Edge(g, node, n) ==> Read(g, m, node) <= Read(g, m', n) + 1)
    && (forall c :: c in pushed ==>
          DirectionTo(node, c) < dir && g.InHeight(c.y) && (c in g.cells ==> IsPush(g, m, node, m', pushed, c)))
    && (forall c :: Raised(g, m, m', c)
          ==> IsPush(g, m, node, m', pushed, c) || LitAtCreation(kind, g, stored, stored', m', c))
    && (forall s :: s in stored' && s !in stored ==>
          exists n :: n in pushed && CreatedAt(kind, g, m', n, s))
  }

  ghost predicate ServesNode(kind: LightKind, g: Grid, m: LightMap, stored: set<Section>, node: Cell, m': LightMap,
                             stored': set<Section>, pushed: seq<Cell>) {
    ServesUpTo(kind, g, m, stored, node, 6, m', stored', pushed) && Satisfied(g, m', node)
  }

  lemma ServesNothing(kind: LightKind, g: Grid, m: LightMap, stored: set<Section>, node: Cell)
    requires IsLight(g, m) && DarkWhereMissing(g, m, stored)
    ensures ServesUpTo(kind, g, m, stored, node, 0, m, stored, [])
    ensures Read(g, m, node) <= 1 ==> ServesNode(kind, g, m, stored, node, m, stored, [])
  {
  }

  lemma ServesAll(kind: LightKind, g: Grid, m: LightMap, stored: set<Section>, node: Cell, m': LightMap,
                  stored': set<Section>, pushed: seq<Cell>)
    requires ServesUpTo(kind, g, m, stored, node, 6, m', stored', pushed)
    ensures ServesNode(kind, g, m, stored, node, m', stored', pushed)
  {
    forall c ensures Adjacent(node, c) <==> DirectionTo(node, c) < 6 { DirectionsAreSteps(node, c); }
  }

  /** The cells served before `n` keep what they were given. */
  lemma PushStays(kind: LightKind, g: Grid, m: LightMap, node: Cell, m1: LightMap, stored1: set<Section>,
                  pushed: seq<Cell>, n: Cell, m2: LightMap, stored2: set<Section>, more: seq<Cell>, c: Cell)
    requires DarkWhereMissing(g, m1, stored1)
             && ServesNeighbor(kind, g, m1, stored1, n, Read(g, m, node), m2, stored2, more)
    requires IsPush(g, m, node, m1, pushed, c) && c != n
    ensures IsPush(g, m, node, m2, pushed + more, c)
  {
    assert 0 < Read(g, m1, c);
    assert SectionOf(c) in stored1;
  }

  lemma LevelStays(kind: LightKind, g: Grid, m1: LightMap, stored1: set<Section>, n: Cell, level: nat, m2: LightMap,
                   stored2: set<Section>, more: seq<Cell>, c: Cell)
    requires g.Valid() && IsLight(g, m1) && DarkWhereMissing(g, m1, stored1) && 0 < Read(g, m1, c) && c != n
    requires ServesNeighbor(kind, g, m1, stored1, n, level, m2, stored2, more)
    ensures Read(g, m2, c) == Read(g, m1, c)
  {
    if c in g.cells { assert !Raised(g, m1, m2, c); }
  }

  lemma CreationStays(kind: LightKind, g: Grid, m1: LightMap, m2: LightMap, n: Cell, s: Section)
    requires CreatedAt(kind, g, m1, n, s) && Above(g, m2, m1) && IsLight(g, m2) && g.Valid()
    ensures CreatedAt(kind, g, m2, n, s)
  {
    if FlaresAt(g, m1, n) {
      forall e | e in g.cells && SectionOf(e) == SectionOf(n) && e != n ensures Read(g, m2, e) == MAX_LIGHT {
        assert Read(g, m1, e) <= Read(g, m2, e) <= MAX_LIGHT;
      }
    }
  }

  lemma LitStays(kind: LightKind, g: Grid, stored: set<Section>, stored1: set<Section>, stored2: set<Section>,
                 m1: LightMap, m2: LightMap, c: Cell)
    requires LitAtCreation(kind, g, stored, stored1, m1, c) && stored1 <= stored2
    requires Above(g, m2, m1) && IsLight(g, m2) && g.Valid()
    ensures LitAtCreation(kind, g, stored, stored2, m2, c)
  {
    assert Read(g, m1, c) <= Read(g, m2, c) <= MAX_LIGHT;
  }

  lemma LitLater(kind: LightKind, g: Grid, stored: set<Section>, stored1: set<Section>, stored2: set<Section>,
                 m2: LightMap, c: Cell)
    requires stored <= stored1 && LitAtCreation(kind, g, stored1, stored2, m2, c)
    ensures LitAtCreation(kind, g, stored, stored2, m2, c)
  {
  }

  lemma RaisesTwice(g: Grid, m: LightMap, m1: LightMap, m2: LightMap)
    requires Above(g, m1, m) && Above(g, m2, m1)
    ensures Above(g, m2, m)
    ensures forall c :: Raised(g, m, m2, c) <==> Raised(g, m, m1, c) || Raised(g, m1, m2, c)
  {
    forall c ensures Raised(g, m, m2, c) <==> Raised(g, m, m1, c) || Raised(g, m1, m2, c) {
      if c in g.cells { assert Read(g, m, c) <= Read(g, m1, c) <= Read(g, m2, c); }
    }
  }

  /** The state before and after one more neighbour has been served. */
  ghost predicate OneMore(kind: LightKind, g: Grid, m: LightMap, stored: set<Section>, node: Cell, dir: nat,
                          m1: LightMap, stored1: set<Section>, pushed: seq<Cell>, m2: LightMap, stored2: set<Section>,
                          more: seq<Cell>) {
    && g.Valid() && IsLight(g, m) && dir < 6 && 1 < Read(g, m, node)
    && ServesUpTo(kind, g, m, stored, node, dir, m1, stored1, pushed)
    && ServesNeighbor(kind, g, m1, stored1, Step(node, dir), Read(g, m, node), m2, stored2, more)
  }

  lemma PushesMore(kind: LightKind, g: Grid, m: LightMap, stored: set<Section>, node: Cell, dir: nat, m1: LightMap,
                   stored1: set<Section>, pushed: seq<Cell>, m2: LightMap, stored2: set<Section>, more: seq<Cell>,
                   c: Cell)
    requires OneMore(kind, g, m, stored, node, dir, m1, stored1, pushed, m2, stored2, more)
    requires c in pushed + more
    ensures DirectionTo(node, c) <= dir && g.InHeight(c.y)
    ensures c in g.cells ==> IsPush(g, m, node, m2, pushed + more, c)
  {
    var n := Step(node, dir);
    DirectionsAreSteps(node, n);
    DirectionsAreSteps(node, c);
    hide Step, DirectionTo, DarkWhereMissing, LitAtCreation, CreatedAt, IsPush;
    if c in more {
      if c in g.cells { PushOne(kind, g, m, node, m1, stored1, pushed, n, m2, stored2, more); }
    } else if c in g.cells {
      PushStays(kind, g, m, node, m1, stored1, pushed, n, m2, stored2, more, c);
    }
  }

  lemma RaisesMore(kind: LightKind, g: Grid, m: LightMap, stored: set<Section>, node: Cell, dir: nat, m1: LightMap,
                   stored1: set<Section>, pushed: seq<Cell>, m2: LightMap, stored2: set<Section>, more: seq<Cell>,
                   c: Cell)
    requires OneMore(kind, g, m, stored, node, dir, m1, stored1, pushed, m2, stored2, more)
    requires Raised(g, m, m2, c)
    ensures IsPush(g, m, node, m2, pushed + more, c) || LitAtCreation(kind, g, stored, stored2, m2, c)
  {
    var n := Step(node, dir);
    DirectionsAreSteps(node, n);
    RaisesTwice(g, m, m1, m2);
    hide Step, DirectionTo, DarkWhereMissing, LitAtCreation, CreatedAt, IsPush;
    if Raised(g, m1, m2, c) {
      if c == n && c in more {
        PushOne(kind, g, m, node, m1, stored1, pushed, n, m2, stored2, more);
      } else {
        LitLater(kind, g, stored, stored1, stored2, m2, c);
      }
    } else if IsPush(g, m, node, m1, pushed, c) {
      PushedIsPushed(g, m, node, m1, pushed, c);
      PushesMore(kind, g, m, stored, node, dir, m1, stored1, pushed, m2, stored2, more, c);
    } else {
      LitStays(kind, g, stored, stored1, stored2, m1, m2, c);
    }
  }

  lemma CreatesMore(kind: LightKind, g: Grid, m: LightMap, stored: set<Section>, node: Cell, dir: nat, m1: LightMap,
                    stored1: set<Section>, pushed: seq<Cell>, m2: LightMap, stored2: set<Section>, more: seq<Cell>,
                    s: Section) returns (x: Cell)
    requires OneMore(kind, g, m, stored, node, dir, m1, stored1, pushed, m2, stored2, more)
    requires s in stored2 && s !in stored
    ensures x in pushed + more && CreatedAt(kind, g, m2, x, s)
  {
    hide Step, DirectionTo, DarkWhereMissing, LitAtCreation, CreatedAt, IsPush;
    if s in stored1 {
      x :| x in pushed && CreatedAt(kind, g, m1, x, s);
      CreationStays(kind, g, m1, m2, x, s);
    } else {
      x := Step(node, dir);
    }
  }

  lemma ServesNext(kind: LightKind, g: Grid, m: LightMap, stored: set<Section>, node: Cell, dir: nat, m1: LightMap,
                   stored1: set<Section>, pushed: seq<Cell>, m2: LightMap, stored2: set<Section>, more: seq<Cell>)
    requires OneMore(kind, g, m, stored, node, dir, m1, stored1, pushed, m2, stored2, more)
    ensures Read(g, m2, node) == Read(g, m, node) && Above(g, m2, m)
    ensures forall n :: DirectionTo(node, n) <= dir && Edge(g, node, n) ==> Read(g, m, node) <= Read(g, m2, n) + 1
  {
    var n := Step(node, dir);
    DirectionsAreSteps(node, n);
    RaisesTwice(g, m, m1, m2);
    hide Step, DarkWhereMissing, LitAtCreation, CreatedAt, IsPush;
    assert node != n;
    LevelStays(kind, g, m1, stored1, n, Read(g, m, node), m2, stored2, more, node);
    forall x | DirectionTo(node, x) <= dir && Edge(g, node, x) ensures Read(g, m, node) <= Read(g, m2, x) + 1 {
      DirectionsAreSteps(node, x);
      if x != n { assert Read(g, m1, x) <= Read(g, m2, x); }
    }
  }

  /** One neighbour more. */
  lemma ServesMore(kind: LightKind, g: Grid, m: LightMap, stored: set<Section>, node: Cell, dir: nat, m1: LightMap,
                   stored1: set<Section>, pushed: seq<Cell>, m2: LightMap, stored2: set<Section>, more: seq<Cell>)
    requires OneMore(kind, g, m, stored, node, dir, m1, stored1, pushed, m2, stored2, more)
    ensures ServesUpTo(kind, g, m, stored, node, dir + 1, m2, stored2, pushed + more)
  {
    ServesNext(kind, g, m, stored, node, dir, m1, stored1, pushed, m2, stored2, more);
    forall c | c in pushed + more
      ensures DirectionTo(node, c) <= dir && g.InHeight(c.y)
      ensures c in g.cells ==> IsPush(g, m, node, m2, pushed + more, c)
    {
      PushesMore(kind, g, m, stored, node, dir, m1, stored1, pushed, m2, stored2, more, c);
    }
    forall c | Raised(g, m, m2, c)
      ensures IsPush(g, m, node, m2, pushed + more, c) || LitAtCreation(kind, g, stored, stored2, m2, c)
    {
      RaisesMore(kind, g, m, stored, node, dir, m1, stored1, pushed, m2, stored2, more, c);
    }
    forall s | s in stored2 && s !in stored ensures exists x :: x in pushed + more && CreatedAt(kind, g, m2, x, s) {
      var x := CreatesMore(kind, g, m, stored, node, dir, m1, stored1, pushed, m2, stored2, more, s);
    }
    hide Step, DirectionTo, DarkWhereMissing, LitAtCreation, CreatedAt, IsPush, Above, Raised, Read;
  }

  lemma PushedIsPushed(g: Grid, m: LightMap, node: Cell, m': LightMap, pushed: seq<Cell>, c: Cell)
    requires IsPush(g, m, node, m', pushed, c)
    ensures c in pushed
  {
  }

  /** The neighbour just lit was pushed by the node. */
  lemma PushOne(kind: LightKind, g: Grid, m: LightMap, node: Cell, m1: LightMap, stored1: set<Section>,
                pushed: seq<Cell>, n: Cell, m2: LightMap, stored2: set<Section>, more: seq<Cell>)
    requires Above(g, m1, m) && ServesNeighbor(kind, g, m1, stored1, n, Read(g, m, node), m2, stored2, more)
    requires Adjacent(node, n) && n in more && n in g.cells
    ensures IsPush(g, m, node, m2, pushed + more, n)
  {
    assert Raised(g, m1, m2, n);
  }

  // ----- A whole flood -----

  /** The cells a flood serves: those queued at first, and those it has lit one below another. */
  ghost predicate IsServed(g: Grid, m0: LightMap, start: set<Cell>, m: LightMap, a: Cell) {
    a in start || (Raised(g, m0, m, a) && Read(g, m, a) < MAX_LIGHT)
  }

  /** Those that have nothing left to give. A queued cell that got its level with its section is not one. */
  ghost predicate MustAnswer(g: Grid, m0: LightMap, start: set<Cell>, m: LightMap, a: Cell) {
    (a in start && !Raised(g, m0, m, a)) || (Raised(g, m0, m, a) && Read(g, m, a) < MAX_LIGHT)
  }

  ghost predicate IsFed(g: Grid, m0: LightMap, start: set<Cell>, m: LightMap, c: Cell) {
    exists a :: Edge(g, a, c) && Read(g, m, a) == Read(g, m, c) + 1 && IsServed(g, m0, start, m, a)
  }

  /** What a flood comes to, whether or not it created bright sections: it lit a cell of each section it
      created, or was given one, every cell it served has nothing left to give, and every cell it raised
      has a neighbour one brighter that it served, or was lit with its section. */
  ghost predicate Carries(kind: LightKind, g: Grid, m0: LightMap, stored0: set<Section>, given: set<Cell>,
                          start: set<Cell>, m: LightMap, stored: set<Section>) {
    && IsLight(g, m) && Above(g, m, m0) && stored0 <= stored && DarkWhereMissing(g, m, stored)
    && (forall a :: MustAnswer(g, m0, start, m, a) ==> Satisfied(g, m, a))
    && (forall c :: Raised(g, m0, m, c) ==> IsFed(g, m0, start, m, c) || LitAtCreation(kind, g, stored0, stored, m, c))
    && Creates(kind, g, m0, stored0, given, m, stored)
  }

  ghost predicate Creates(kind: LightKind, g: Grid, m0: LightMap, stored0: set<Section>, given: set<Cell>, m: LightMap,
                          stored: set<Section>) {
    forall s :: s in stored && s !in stored0 ==>
      exists n :: IsWritten(g, m0, given, m, n) && CreatedAt(kind, g, m, n, s)
  }

  ghost predicate IsWritten(g: Grid, m0: LightMap, given: set<Cell>, m: LightMap, n: Cell) {
    n in given || (Raised(g, m0, m, n) && Read(g, m, n) < MAX_LIGHT)
  }

  /** Queued cells, and raised cells, are served when they lie in sections that were stored already. */
  lemma StoredAreServed(kind: LightKind, g: Grid, m0: LightMap, stored0: set<Section>, given: set<Cell>,
                        start: set<Cell>, m: LightMap, stored: set<Section>, a: Cell)
    requires g.Valid() && IsLight(g, m0) && Carries(kind, g, m0, stored0, given, start, m, stored)
    requires a in start || Raised(g, m0, m, a)
    requires SectionOf(a) in stored0 || !g.InHeight(a.y)
    ensures Satisfied(g, m, a)
  {
    if Raised(g, m0, m, a) {
      assert !LitAtCreation(kind, g, stored0, stored, m, a);
      var b :| Edge(g, b, a) && Read(g, m, b) == Read(g, m, a) + 1 && IsServed(g, m0, start, m, b);
      LevelsAreBounded(g, m, b);
    }
  }

  lemma LevelsAreBounded(g: Grid, m: LightMap, c: Cell)
    requires IsLight(g, m)
    ensures Read(g, m, c) <= MAX_LIGHT
  {
  }

  /** A feeder that is queued or has nothing left to give. */
  ghost predicate HasFeeder(g: Grid, m0: LightMap, start: set<Cell>, m: LightMap, queue: set<Cell>, c: Cell) {
    exists a :: IsFeeder(g, m0, start, m, queue, a, c)
  }

  ghost predicate IsFeeder(g: Grid, m0: LightMap, start: set<Cell>, m: LightMap, queue: set<Cell>, a: Cell, c: Cell) {
    Edge(g, a, c) && Read(g, m, a) > Read(g, m, c) && IsServed(g, m0, start, m, a) && (a in queue || Satisfied(g, m, a))
  }

  ghost predicate IsOutside(g: Grid, a: Cell) {
    a !in g.cells && g.InHeight(a.y)
  }

  /** A flood under way. */
  ghost predicate Flooding(kind: LightKind, g: Grid, m0: LightMap, stored0: set<Section>, start: set<Cell>,
                           m: LightMap, stored: set<Section>, queue: set<Cell>) {
    && IsLight(g, m) && Above(g, m, m0) && stored0 <= stored && DarkWhereMissing(g, m, stored)
    && (forall a :: MustAnswer(g, m0, start, m, a) ==> a in queue || Satisfied(g, m, a))
    && (forall c :: Raised(g, m0, m, c)
          ==> HasFeeder(g, m0, start, m, queue, c) || LitAtCreation(kind, g, stored0, stored, m, c))
    && (forall a :: a in queue ==> IsServed(g, m0, start, m, a) || IsOutside(g, a))
    && Creates(kind, g, m0, stored0, {}, m, stored)
  }

  /** One node of a flood under way, and the queue without it. */
  ghost predicate OneNode(kind: LightKind, g: Grid, m0: LightMap, stored0: set<Section>, start: set<Cell>, m: LightMap,
                          stored: set<Section>, node: Cell, rest: set<Cell>, m': LightMap, stored': set<Section>,
                          pushed: seq<Cell>) {
    && g.Valid() && IsLight(g, m0) && IsLight(g, m) && DarkWhereMissing(g, m, stored)
    && Flooding(kind, g, m0, stored0, start, m, stored, rest + {node})
    && ServesNode(kind, g, m, stored, node, m', stored', pushed)
  }

  /** What changes in one step: a cell keeps its level, is pushed, or is lit with its section. */
  lemma StepCases(kind: LightKind, g: Grid, m0: LightMap, stored0: set<Section>, start: set<Cell>, m: LightMap,
                  stored: set<Section>, node: Cell, rest: set<Cell>, m': LightMap, stored': set<Section>,
                  pushed: seq<Cell>, c: Cell)
    requires OneNode(kind, g, m0, stored0, start, m, stored, node, rest, m', stored', pushed)
    ensures Read(g, m, c) <= Read(g, m', c) <= MAX_LIGHT
    ensures Raised(g, m0, m, c) ==> Raised(g, m0, m', c)
    ensures Read(g, m, c) == Read(g, m', c) ==> (Raised(g, m0, m, c) <==> Raised(g, m0, m', c))
    ensures Read(g, m, c) != Read(g, m', c) ==>
      Raised(g, m, m', c) && Raised(g, m0, m', c)
      && (IsPush(g, m, node, m', pushed, c) || LitAtCreation(kind, g, stored, stored', m', c))
    ensures IsPush(g, m, node, m', pushed, c) ==> c in pushed && Read(g, m', c) + 1 == Read(g, m, node) <= MAX_LIGHT
    ensures LitAtCreation(kind, g, stored, stored', m', c) ==> Read(g, m, c) == 0 && Read(g, m', c) == MAX_LIGHT
  {
    hide Flooding, CreatedAt;
    LevelsAreBounded(g, m, node);
    LevelsAreBounded(g, m', c);
    if c in g.cells {
      UnderWayIsAbove(kind, g, m0, stored0, start, m, stored, rest + {node});
      assert Read(g, m0, c) <= Read(g, m, c);
    }
  }

  lemma UnderWayIsAbove(kind: LightKind, g: Grid, m0: LightMap, stored0: set<Section>, start: set<Cell>,
                        m: LightMap, stored: set<Section>, queue: set<Cell>)
    requires Flooding(kind, g, m0, stored0, start, m, stored, queue)
    ensures Above(g, m, m0)
  {
  }

  lemma ServedStays(kind: LightKind, g: Grid, m0: LightMap, stored0: set<Section>, start: set<Cell>, m: LightMap,
                    stored: set<Section>, node: Cell, rest: set<Cell>, m': LightMap, stored': set<Section>,
                    pushed: seq<Cell>, a: Cell)
    requires OneNode(kind, g, m0, stored0, start, m, stored, node, rest, m', stored', pushed)
    requires IsServed(g, m0, start, m, a)
    ensures IsServed(g, m0, start, m', a)
    ensures a !in start ==> Raised(g, m0, m', a) && Read(g, m', a) < MAX_LIGHT
  {
    StepCases(kind, g, m0, stored0, start, m, stored, node, rest, m', stored', pushed, a);
  }

  lemma SatisfiedStays(g: Grid, m: LightMap, m': LightMap, a: Cell)
    requires Satisfied(g, m, a) && Above(g, m', m) && Read(g, m', a) == Read(g, m, a)
    ensures Satisfied(g, m', a)
  {
    forall b | Edge(g, a, b) ensures Read(g, m', a) <= Read(g, m', b) + 1 {
      assert Read(g, m, b) <= Read(g, m', b);
    }
  }

  lemma StepAnswers(kind: LightKind, g: Grid, m0: LightMap, stored0: set<Section>, start: set<Cell>, m: LightMap,
                    stored: set<Section>, node: Cell, rest: set<Cell>, m': LightMap, stored': set<Section>,
                    pushed: seq<Cell>, a: Cell)
    requires OneNode(kind, g, m0, stored0, start, m, stored, node, rest, m', stored', pushed)
    requires MustAnswer(g, m0, start, m', a)
    ensures a in rest || a in pushed || Satisfied(g, m', a)
  {
    StepCases(kind, g, m0, stored0, start, m, stored, node, rest, m', stored', pushed, a);
    hide Read, Raised, IsPush, LitAtCreation, Satisfied;
    if Read(g, m, a) == Read(g, m', a) && a !in rest && a != node {
      SatisfiedStays(g, m, m', a);
    }
  }

  lemma StepFeeds(kind: LightKind, g: Grid, m0: LightMap, stored0: set<Section>, start: set<Cell>, m: LightMap,
                  stored: set<Section>, node: Cell, rest: set<Cell>, m': LightMap, stored': set<Section>,
                  pushed: seq<Cell>, c: Cell)
    requires OneNode(kind, g, m0, stored0, start, m, stored, node, rest, m', stored', pushed)
    requires Raised(g, m0, m', c)
    ensures HasFeeder(g, m0, start, m', rest + Elements(pushed), c) || LitAtCreation(kind, g, stored0, stored', m', c)
  {
    StepCases(kind, g, m0, stored0, start, m, stored, node, rest, m', stored', pushed, c);
    if IsPush(g, m, node, m', pushed, c) {
      NodeIsServed(kind, g, m0, stored0, start, m, stored, node, rest, m', stored', pushed);
      assert IsFeeder(g, m0, start, m', rest + Elements(pushed), node, c);
    } else if Read(g, m, c) != Read(g, m', c) {
      LitLater(kind, g, stored0, stored, stored', m', c);
    } else if LitAtCreation(kind, g, stored0, stored, m, c) {
      LitStays(kind, g, stored0, stored, stored', m, m', c);
    } else {
      var a :| IsFeeder(g, m0, start, m, rest + {node}, a, c);
      FeederStays(kind, g, m0, stored0, start, m, stored, node, rest, m', stored', pushed, a, c);
    }
  }

  lemma NodeIsServed(kind: LightKind, g: Grid, m0: LightMap, stored0: set<Section>, start: set<Cell>, m: LightMap,
                     stored: set<Section>, node: Cell, rest: set<Cell>, m': LightMap, stored': set<Section>,
                     pushed: seq<Cell>)
    requires OneNode(kind, g, m0, stored0, start, m, stored, node, rest, m', stored', pushed)
    requires 1 < Read(g, m, node)
    ensures IsServed(g, m0, start, m', node) && Read(g, m', node) == Read(g, m, node) && Satisfied(g, m', node)
  {
    assert node in rest + {node};
    assert IsServed(g, m0, start, m, node);
    ServedStays(kind, g, m0, stored0, start, m, stored, node, rest, m', stored', pushed, node);
  }

  lemma FeederStays(kind: LightKind, g: Grid, m0: LightMap, stored0: set<Section>, start: set<Cell>, m: LightMap,
                    stored: set<Section>, node: Cell, rest: set<Cell>, m': LightMap, stored': set<Section>,
                    pushed: seq<Cell>, a: Cell, c: Cell)
    requires OneNode(kind, g, m0, stored0, start, m, stored, node, rest, m', stored', pushed)
    requires IsFeeder(g, m0, start, m, rest + {node}, a, c) && 0 < Read(g, m, c) == Read(g, m', c)
    ensures IsFeeder(g, m0, start, m', rest + Elements(pushed), a, c)
  {
    StepCases(kind, g, m0, stored0, start, m, stored, node, rest, m', stored', pushed, a);
    ServedStays(kind, g, m0, stored0, start, m, stored, node, rest, m', stored', pushed, a);
    hide Read, Raised, IsPush, LitAtCreation, Satisfied, IsServed;
    if a !in rest + Elements(pushed) {
      assert a !in pushed && Read(g, m, a) > 0;
      if a == node {
        NodeIsServed(kind, g, m0, stored0, start, m, stored, node, rest, m', stored', pushed);
      } else {
        SatisfiedStays(g, m, m', a);
      }
    }
  }

  lemma StepQueues(kind: LightKind, g: Grid, m0: LightMap, stored0: set<Section>, start: set<Cell>, m: LightMap,
                   stored: set<Section>, node: Cell, rest: set<Cell>, m': LightMap, stored': set<Section>,
                   pushed: seq<Cell>, a: Cell)
    requires OneNode(kind, g, m0, stored0, start, m, stored, node, rest, m', stored', pushed)
    requires a in rest || a in pushed
    ensures IsServed(g, m0, start, m', a) || IsOutside(g, a)
  {
    StepCases(kind, g, m0, stored0, start, m, stored, node, rest, m', stored', pushed, a);
    if a in rest && !IsOutside(g, a) {
      assert a in rest + {node};
      ServedStays(kind, g, m0, stored0, start, m, stored, node, rest, m', stored', pushed, a);
    }
  }

  lemma StepCreates(kind: LightKind, g: Grid, m0: LightMap, stored0: set<Section>, start: set<Cell>, m: LightMap,
                    stored: set<Section>, node: Cell, rest: set<Cell>, m': LightMap, stored': set<Section>,
                    pushed: seq<Cell>, s: Section) returns (n: Cell)
    requires OneNode(kind, g, m0, stored0, start, m, stored, node, rest, m', stored', pushed)
    requires s in stored' && s !in stored0
    ensures IsWritten(g, m0, {}, m', n) && CreatedAt(kind, g, m', n, s)
  {
    if s in stored {
      n :| IsWritten(g, m0, {}, m, n) && CreatedAt(kind, g, m, n, s);
      CreationStays(kind, g, m, m', n, s);
      StepCases(kind, g, m0, stored0, start, m, stored, node, rest, m', stored', pushed, n);
    } else {
      n :| n in pushed && CreatedAt(kind, g, m', n, s);
      assert n in g.cells && IsPush(g, m, node, m', pushed, n);
      StepCases(kind, g, m0, stored0, start, m, stored, node, rest, m', stored', pushed, n);
    }
  }

  /** Each node keeps all of it. */
  lemma FloodingStep(kind: LightKind, g: Grid, m0: LightMap, stored0: set<Section>, start: set<Cell>, m: LightMap,
                     stored: set<Section>, queue: seq<Cell>, m': LightMap, stored': set<Section>, pushed: seq<Cell>)
    requires g.Valid() && IsLight(g, m0) && queue != []
    requires Flooding(kind, g, m0, stored0, start, m, stored, Elements(queue))
    requires ServesNode(kind, g, m, stored, queue[0], m', stored', pushed)
    ensures Flooding(kind, g, m0, stored0, start, m', stored', Elements(queue[1..] + pushed))
  {
    var node, rest := queue[0], Elements(queue[1..]);
    assert queue == [node] + queue[1..];
    assert Elements(queue) == rest + {node};
    assert Elements(queue[1..] + pushed) == rest + Elements(pushed);
    assert OneNode(kind, g, m0, stored0, start, m, stored, node, rest, m', stored', pushed);
    RaisesTwice(g, m0, m, m');
    forall a | MustAnswer(g, m0, start, m', a) ensures a in rest + Elements(pushed) || Satisfied(g, m', a) {
      StepAnswers(kind, g, m0, stored0, start, m, stored, node, rest, m', stored', pushed, a);
    }
    forall c | Raised(g, m0, m', c)
      ensures HasFeeder(g, m0, start, m', rest + Elements(pushed), c) || LitAtCreation(kind, g, stored0, stored', m', c)
    {
      StepFeeds(kind, g, m0, stored0, start, m, stored, node, rest, m', stored', pushed, c);
    }
    forall a | a in rest + Elements(pushed) ensures IsServed(g, m0, start, m', a) || IsOutside(g, a) {
      StepQueues(kind, g, m0, stored0, start, m, stored, node, rest, m', stored', pushed, a);
    }
    forall s | s in stored' && s !in stored0
      ensures exists n :: IsWritten(g, m0, {}, m', n) && CreatedAt(kind, g, m', n, s)
    {
      var n := StepCreates(kind, g, m0, stored0, start, m, stored, node, rest, m', stored', pushed, s);
    }
    hide Satisfied, MustAnswer, HasFeeder, LitAtCreation, IsServed, IsOutside, IsWritten, CreatedAt, OneNode, Raised,
         Above, Read;
  }

  lemma FloodingStarts(kind: LightKind, g: Grid, m: LightMap, stored: set<Section>, queue: seq<Cell>)
    requires IsLight(g, m) && DarkWhereMissing(g, m, stored)
    ensures Flooding(kind, g, m, stored, Elements(queue), m, stored, Elements(queue))
  {
  }

  lemma FloodingEnds(kind: LightKind, g: Grid, m0: LightMap, stored0: set<Section>, start: set<Cell>, m: LightMap,
                     stored: set<Section>)
    requires Flooding(kind, g, m0, stored0, start, m, stored, Elements([]))
    ensures Carries(kind, g, m0, stored0, {}, start, m, stored)
  {
    hide IsServed, LitAtCreation, IsWritten, CreatedAt;
    forall c | Raised(g, m0, m, c) && !LitAtCreation(kind, g, stored0, stored, m, c) ensures IsFed(g, m0, start, m, c) {
      var a :| IsFeeder(g, m0, start, m, Elements([]), a, c);
      assert Read(g, m, a) <= Read(g, m, c) + 1;
    }
  }

  // ----- The nine columns -----

  /** What a flood of the nine columns around `o` comes to there. */
  ghost predicate CarriesPart(kind: LightKind, g: Grid, o: Column, m0: LightMap, stored0: set<Section>,
                              start: set<Cell>, m: LightMap, stored: set<Section>) {
    Carries(kind, Near(g, o), Part(m0, o), SectionsNear(stored0, o), {}, start, Part(m, o), SectionsNear(stored, o))
  }

  lemma PartCarries(kind: LightKind, g: Grid, o: Column, m0: LightMap, stored0: set<Section>, start: set<Cell>,
                    f: LightMap, more: set<Section>)
    requires g.Valid() && IsLight(g, m0) && IsLight(Near(g, o), f)
    requires more == SectionsNear(more, o) && SectionsNear(stored0, o) <= more
    requires Carries(kind, Near(g, o), Part(m0, o), SectionsNear(stored0, o), {}, start, f, more)
    ensures CarriesPart(kind, g, o, m0, stored0, start, m0 + f, stored0 + more)
  {
    PutBackReads(g, m0, o, f);
    NearOfSum(stored0, more, o);
  }

  /** Levels fall with each step away from the queued cells. */
  lemma {:induction false} ServedFades(kind: LightKind, g: Grid, o: Column, m0: LightMap, stored0: set<Section>,
                                       given: set<Cell>, start: set<Cell>, m: LightMap, stored: set<Section>, c: Cell)
    requires g.Valid() && IsLight(g, m0) && Carries(kind, g, m0, stored0, given, start, m, stored)
    requires forall a :: a in start ==> Distance(o, a) <= 1
    requires IsServed(g, m0, start, m, c)
    ensures Distance(o, c) + Read(g, m, c) <= 16
    decreases MAX_LIGHT - Read(g, m, c)
  {
    hide Distance;
    LevelsAreBounded(g, m, c);
    if c !in start {
      assert !LitAtCreation(kind, g, stored0, stored, m, c);
      var a :| Edge(g, a, c) && Read(g, m, a) == Read(g, m, c) + 1 && IsServed(g, m0, start, m, a);
      LevelsAreBounded(g, m, a);
      ServedFades(kind, g, o, m0, stored0, given, start, m, stored, a);
      DistanceSteps(o, a, c);
    }
  }

  /** A flood of nine columns has nothing left to give to the columns outside. */
  lemma PartAnswers(kind: LightKind, g: Grid, o: Column, m0: LightMap, stored0: set<Section>, start: set<Cell>,
                    m: LightMap, stored: set<Section>, a: Cell)
    requires g.Valid() && IsLight(g, m0) && IsLight(g, m) && CarriesPart(kind, g, o, m0, stored0, start, m, stored)
    requires forall c :: c in start ==> Distance(o, c) <= 1
    requires MustAnswer(Near(g, o), Part(m0, o), start, Part(m, o), a)
    ensures Satisfied(g, m, a)
  {
    hide Distance, Near, Part, InReach;
    var h := Near(g, o);
    NearReads(g, m0, o);
    NearReads(g, m, o);
    ServedFades(kind, h, o, Part(m0, o), SectionsNear(stored0, o), {}, start, Part(m, o), SectionsNear(stored, o), a);
    ReachIsDistance(o, a);
    assert Satisfied(h, Part(m, o), a);
    forall b | Edge(g, a, b) ensures Read(g, m, a) <= Read(g, m, b) + 1 {
      ReachIsDistance(o, b);
      DistanceSteps(o, a, b);
      if InReach(o, b) { assert Edge(h, a, b); }
    }
  }

  lemma RaisedPart(g: Grid, o: Column, m0: LightMap, m: LightMap, c: Cell)
    requires g.Valid() && IsLight(g, m0) && IsLight(g, m) && (!InReach(o, c) ==> Read(g, m, c) == Read(g, m0, c))
    ensures Raised(Near(g, o), Part(m0, o), Part(m, o), c) <==> Raised(g, m0, m, c)
    ensures Raised(g, m0, m, c) ==> InReach(o, c) && Read(Near(g, o), Part(m, o), c) == Read(g, m, c)
  {
    NearReads(g, m0, o);
    NearReads(g, m, o);
  }

  lemma ServedPart(g: Grid, o: Column, m0: LightMap, m: LightMap, start: set<Cell>, a: Cell)
    requires g.Valid() && IsLight(g, m0) && IsLight(g, m) && (!InReach(o, a) ==> Read(g, m, a) == Read(g, m0, a))
    requires a in start ==> InReach(o, a)
    ensures IsServed(Near(g, o), Part(m0, o), start, Part(m, o), a) <==> IsServed(g, m0, start, m, a)
    ensures MustAnswer(Near(g, o), Part(m0, o), start, Part(m, o), a) <==> MustAnswer(g, m0, start, m, a)
  {
    RaisedPart(g, o, m0, m, a);
  }

  lemma FedPart(g: Grid, o: Column, m0: LightMap, m: LightMap, start: set<Cell>, c: Cell)
    requires g.Valid() && IsLight(g, m0) && IsLight(g, m) && forall a :: a in start ==> InReach(o, a)
    requires forall a :: !InReach(o, a) ==> Read(g, m, a) == Read(g, m0, a)
    requires IsFed(Near(g, o), Part(m0, o), start, Part(m, o), c)
    ensures IsFed(g, m0, start, m, c)
  {
    hide Near, Part, InReach;
    NearReads(g, m, o);
    var h := Near(g, o);
    var a :| Edge(h, a, c) && Read(h, Part(m, o), a) == Read(h, Part(m, o), c) + 1
             && IsServed(h, Part(m0, o), start, Part(m, o), a);
    ServedPart(g, o, m0, m, start, a);
    assert Edge(g, a, c);
  }

  lemma CreatedPart(kind: LightKind, g: Grid, o: Column, m: LightMap, n: Cell, s: Section)
    requires g.Valid() && IsLight(g, m) && CreatedAt(kind, Near(g, o), Part(m, o), n, s)
    ensures CreatedAt(kind, g, m, n, s)
  {
    NearReads(g, m, o);
    if FlaresAt(Near(g, o), Part(m, o), n) {
      forall e | e in g.cells && SectionOf(e) == SectionOf(n) && e != n ensures Read(g, m, e) == MAX_LIGHT {
        assert InReach(o, e) && e in Near(g, o).cells;
      }
    }
  }

  /** From a column or the blocks touching it, a flood of the nine columns does what one of the world does. */
  lemma CarriesInWorld(kind: LightKind, g: Grid, o: Column, m0: LightMap, stored0: set<Section>, start: set<Cell>,
                       m: LightMap, stored: set<Section>)
    requires g.Valid() && IsLight(g, m0) && IsLight(g, m) && DarkWhereMissing(g, m, stored) && Above(g, m, m0)
    requires CarriesPart(kind, g, o, m0, stored0, start, m, stored)
    requires stored0 <= stored && forall s :: s in stored && s !in stored0 ==> s in SectionsNear(stored, o)
    requires forall a :: !InReach(o, a) ==> Read(g, m, a) == Read(g, m0, a)
    requires forall c :: c in start ==> Distance(o, c) <= 1
    ensures Carries(kind, g, m0, stored0, {}, start, m, stored)
  {
    forall a | a in start ensures InReach(o, a) { ReachIsDistance(o, a); }
    forall a | MustAnswer(g, m0, start, m, a) ensures Satisfied(g, m, a) {
      ServedPart(g, o, m0, m, start, a);
      PartAnswers(kind, g, o, m0, stored0, start, m, stored, a);
    }
    forall c | Raised(g, m0, m, c)
      ensures IsFed(g, m0, start, m, c) || LitAtCreation(kind, g, stored0, stored, m, c)
    {
      RaisedPart(g, o, m0, m, c);
      SectionInReach(o, c, stored0);
      SectionInReach(o, c, stored);
      if IsFed(Near(g, o), Part(m0, o), start, Part(m, o), c) { FedPart(g, o, m0, m, start, c); }
    }
    forall s | s in stored && s !in stored0
      ensures exists n :: IsWritten(g, m0, {}, m, n) && CreatedAt(kind, g, m, n, s)
    {
      var n := CreatedInWorld(kind, g, o, m0, stored0, start, m, stored, s);
    }
  }

  lemma CreatedInWorld(kind: LightKind, g: Grid, o: Column, m0: LightMap, stored0: set<Section>, start: set<Cell>,
                       m: LightMap, stored: set<Section>, s: Section) returns (n: Cell)
    requires g.Valid() && IsLight(g, m0) && IsLight(g, m) && CarriesPart(kind, g, o, m0, stored0, start, m, stored)
    requires s in SectionsNear(stored, o) && s !in stored0
    requires forall a :: !InReach(o, a) ==> Read(g, m, a) == Read(g, m0, a)
    ensures IsWritten(g, m0, {}, m, n) && CreatedAt(kind, g, m, n, s)
  {
    assert s !in SectionsNear(stored0, o);
    n :| IsWritten(Near(g, o), Part(m0, o), {}, Part(m, o), n) && CreatedAt(kind, Near(g, o), Part(m, o), n, s);
    RaisedPart(g, o, m0, m, n);
    CreatedPart(kind, g, o, m, n, s);
  }

  lemma NothingCarried(kind: LightKind, g: Grid, m: LightMap, stored: set<Section>, given: set<Cell>)
    requires IsLight(g, m) && DarkWhereMissing(g, m, stored)
    ensures Carries(kind, g, m, stored, given, {}, m, stored)
  {
  }

  // ----- Writes before a flood -----

  /** Some cells have been given the levels of `w`; what else has been raised came with a section. */
  ghost predicate Gives(kind: LightKind, g: Grid, w: LightMap, stored0: set<Section>, given: set<Cell>, m: LightMap,
                        stored: set<Section>) {
    && IsLight(g, w) && IsLight(g, m) && Above(g, m, w) && stored0 <= stored && DarkWhereMissing(g, m, stored)
    && (forall c :: c in given && c in g.cells ==> 0 < Read(g, w, c) == Read(g, m, c))
    && (forall c :: Raised(g, w, m, c) ==> LitAtCreation(kind, g, stored0, stored, m, c))
    && (forall s :: s in stored && s !in stored0 ==> exists n :: n in given && CreatedAt(kind, g, m, n, s))
  }

  lemma GivesNothing(kind: LightKind, g: Grid, m: LightMap, stored: set<Section>)
    requires IsLight(g, m) && DarkWhereMissing(g, m, stored)
    ensures Gives(kind, g, m, stored, {}, m, stored)
  {
  }

  /** Giving levels and flooding from those cells. */
  lemma GivenCarries(kind: LightKind, g: Grid, w: LightMap, stored0: set<Section>, given: set<Cell>, m1: LightMap,
                     stored1: set<Section>, m2: LightMap, stored2: set<Section>)
    requires g.Valid() && Gives(kind, g, w, stored0, given, m1, stored1)
    requires Carries(kind, g, m1, stored1, {}, given, m2, stored2)
    ensures Carries(kind, g, w, stored0, given, given, m2, stored2)
  {
    RaisesTwice(g, w, m1, m2);
    forall a | MustAnswer(g, w, given, m2, a) ensures Satisfied(g, m2, a) {
      GivenAnswers(kind, g, w, stored0, given, m1, stored1, m2, stored2, a);
    }
    forall c | Raised(g, w, m2, c)
      ensures IsFed(g, w, given, m2, c) || LitAtCreation(kind, g, stored0, stored2, m2, c)
    {
      GivenFeeds(kind, g, w, stored0, given, m1, stored1, m2, stored2, c);
    }
    forall s | s in stored2 && s !in stored0
      ensures exists n :: IsWritten(g, w, given, m2, n) && CreatedAt(kind, g, m2, n, s)
    {
      var n := GivenCreates(kind, g, w, stored0, given, m1, stored1, m2, stored2, s);
    }
    hide Satisfied, IsFed, LitAtCreation, IsWritten, CreatedAt, Raised, MustAnswer, IsServed;
  }

  lemma GivenAnswers(kind: LightKind, g: Grid, w: LightMap, stored0: set<Section>, given: set<Cell>, m1: LightMap,
                     stored1: set<Section>, m2: LightMap, stored2: set<Section>, a: Cell)
    requires g.Valid() && Gives(kind, g, w, stored0, given, m1, stored1)
    requires Carries(kind, g, m1, stored1, {}, given, m2, stored2) && MustAnswer(g, w, given, m2, a)
    ensures Satisfied(g, m2, a)
  {
    hide IsFed, CreatedAt, DarkWhereMissing;
    RaisesTwice(g, w, m1, m2);
    if Raised(g, w, m1, a) {
      LitStays(kind, g, stored0, stored1, stored2, m1, m2, a);
    }
    assert MustAnswer(g, m1, given, m2, a);
  }

  lemma GivenFeeds(kind: LightKind, g: Grid, w: LightMap, stored0: set<Section>, given: set<Cell>, m1: LightMap,
                   stored1: set<Section>, m2: LightMap, stored2: set<Section>, c: Cell)
    requires g.Valid() && Gives(kind, g, w, stored0, given, m1, stored1)
    requires Carries(kind, g, m1, stored1, {}, given, m2, stored2) && Raised(g, w, m2, c)
    ensures IsFed(g, w, given, m2, c) || LitAtCreation(kind, g, stored0, stored2, m2, c)
  {
    hide CreatedAt, DarkWhereMissing, Satisfied;
    RaisesTwice(g, w, m1, m2);
    if Raised(g, w, m1, c) {
      LitStays(kind, g, stored0, stored1, stored2, m1, m2, c);
    } else if LitAtCreation(kind, g, stored1, stored2, m2, c) {
      LitLater(kind, g, stored0, stored1, stored2, m2, c);
    } else {
      var a :| Edge(g, a, c) && Read(g, m2, a) == Read(g, m2, c) + 1 && IsServed(g, m1, given, m2, a);
      assert IsServed(g, w, given, m2, a);
    }
  }

  lemma GivenCreates(kind: LightKind, g: Grid, w: LightMap, stored0: set<Section>, given: set<Cell>, m1: LightMap,
                     stored1: set<Section>, m2: LightMap, stored2: set<Section>, s: Section) returns (n: Cell)
    requires g.Valid() && Gives(kind, g, w, stored0, given, m1, stored1)
    requires Carries(kind, g, m1, stored1, {}, given, m2, stored2) && s in stored2 && s !in stored0
    ensures IsWritten(g, w, given, m2, n) && CreatedAt(kind, g, m2, n, s)
  {
    hide DarkWhereMissing, Satisfied, LitAtCreation;
    RaisesTwice(g, w, m1, m2);
    if s in stored1 {
      n :| n in given && CreatedAt(kind, g, m1, n, s);
      CreationStays(kind, g, m1, m2, n, s);
    } else {
      n :| IsWritten(g, m1, {}, m2, n) && CreatedAt(kind, g, m2, n, s);
    }
  }
}
