/** The 16-high sections in which a column stores light. A missing section reads as dark air; the first
    write to it creates it, and one at height 0 or above is created with full sky light. */
module LightSections {
  import opened Positions
  import opened LightGrid
  import opened LightTheory
  import opened LightRegion

  datatype LightKind = Sky | Block

  const SECTION_SIZE := 16

  type Section = (Column, int)

  function SectionOf(c: Cell): Section {
    (ColumnOf(c), c.y / SECTION_SIZE)
  }

  /** Created with sky light 15 in every cell. */
  predicate StartsBright(s: Section) {
    s.1 >= 0
  }

  /** Sections are cubes of sixteen blocks counted from height 0, and those at height 0 or above start bright. */
  lemma SectionsAreCubes(c: Cell, d: Cell)
    ensures SectionOf(c) == SectionOf(d) <==> exists i, j, k :: InCube(c, i, j, k) && InCube(d, i, j, k)
    ensures StartsBright(SectionOf(c)) <==> c.y >= 0
  {
    var (i, j, k) := (c.x / 16, c.y / 16, c.z / 16);
    assert InCube(c, i, j, k);
    if SectionOf(c) == SectionOf(d) { assert InCube(d, i, j, k); }
  }

  ghost predicate InCube(c: Cell, i: int, j: int, k: int) {
    16 * i <= c.x < 16 * i + 16 && 16 * j <= c.y < 16 * j + 16 && 16 * k <= c.z < 16 * k + 16
  }

  /** The levels that reads see: a missing section is dark. */
  function Shown(levels: LightMap, stored: set<Section>): LightMap {
    map c | c in levels :: if SectionOf(c) in stored then levels[c] else 0
  }

  /** The levels of missing sections are those they will be created with. */
  ghost predicate AsCreated(sky: LightMap, block: LightMap, stored: set<Section>) {
    forall c :: c in sky && c in block && SectionOf(c) !in stored ==>
      sky[c] == (if StartsBright(SectionOf(c)) then MAX_LIGHT else 0) && block[c] == 0
  }

  /** No section that starts bright has been created. */
  ghost predicate NoneBright(before: set<Section>, after: set<Section>) {
    forall s :: s in after && s !in before ==> !StartsBright(s)
  }

  /** What reads as dark in every missing section. */
  ghost predicate DarkWhereMissing(g: Grid, m: LightMap, stored: set<Section>) {
    forall c :: c in g.cells && SectionOf(c) !in stored ==> Read(g, m, c) == 0
  }

  /** Raising `m` to `f` writes to a missing section that starts bright. */
  ghost predicate EntersBright(g: Grid, stored: set<Section>, m: LightMap, f: LightMap) {
    exists c :: Raised(g, m, f, c) && SectionOf(c) !in stored && StartsBright(SectionOf(c))
  }

  /** The sections of the cells whose light differs. */
  ghost function ChangedSections(g: Grid, m: LightMap, m': LightMap): set<Section> {
    set c | c in g.cells && Read(g, m, c) != Read(g, m', c) :: SectionOf(c)
  }

  /** All of a section has full sky light, save perhaps one cell. */
  ghost predicate FlaresAt(g: Grid, m: LightMap, n: Cell) {
    n in g.cells && forall e :: e in g.cells && SectionOf(e) == SectionOf(n) && e != n ==> Read(g, m, e) == MAX_LIGHT
  }

  /** A section that was missing has been created bright. */
  ghost predicate Flared(g: Grid, stored: set<Section>, m: LightMap) {
    exists n :: FlaresAt(g, m, n) && SectionOf(n) !in stored && StartsBright(SectionOf(n))
  }

  ghost predicate HasWholeColumns(g: Grid) {
    forall c, d {:trigger c in g.cells, d in g.cells} ::
      c in g.cells && ColumnOf(d) == ColumnOf(c) && g.InHeight(d.y) ==> d in g.cells
  }

  lemma ShownIsLight(g: Grid, levels: LightMap, stored: set<Section>)
    requires g.Valid() && IsLight(g, levels)
    ensures IsLight(g, Shown(levels, stored)) && DarkWhereMissing(g, Shown(levels, stored), stored)
  {
  }

  lemma FlaredPersists(g: Grid, stored: set<Section>, later: set<Section>, m: LightMap, m': LightMap)
    requires IsLight(g, m') && g.Valid() && Above(g, m', m) && stored <= later && Flared(g, later, m)
    ensures Flared(g, stored, m')
  {
    var n :| FlaresAt(g, m, n) && SectionOf(n) !in later && StartsBright(SectionOf(n));
    forall e | e in g.cells && SectionOf(e) == SectionOf(n) && e != n ensures Read(g, m', e) == MAX_LIGHT {
      assert Read(g, m, e) <= Read(g, m', e) <= MAX_LIGHT;
    }
    assert FlaresAt(g, m', n);
  }

  /** The stored sections of the columns around `o`. */
  function SectionsNear(stored: set<Section>, o: Column): set<Section> {
    set s | s in stored && -1 <= s.0.0 - o.0 <= 1 && -1 <= s.0.1 - o.1 <= 1
  }

  lemma SectionInReach(o: Column, c: Cell, stored: set<Section>)
    ensures InReach(o, c) ==> (SectionOf(c) in SectionsNear(stored, o) <==> SectionOf(c) in stored)
    ensures !InReach(o, c) ==> SectionOf(c) !in SectionsNear(stored, o)
  {
  }

  lemma NearOfSum(stored: set<Section>, st1: set<Section>, o: Column)
    requires SectionsNear(stored, o) <= st1 && st1 == SectionsNear(st1, o)
    ensures SectionsNear(stored + st1, o) == st1
  {
    forall s ensures s in SectionsNear(stored + st1, o) <==> s in st1 {
      if s in st1 { assert s in SectionsNear(st1, o); }
    }
  }

  /** Another cell of the same section and height, away from one vertical line. */
  lemma OtherCell(g: Grid, n: Cell, z: Cell) returns (e: Cell)
    requires HasWholeColumns(g) && n in g.cells && g.Valid()
    ensures e in g.cells && e != n && SectionOf(e) == SectionOf(n) && (e.x != z.x || e.z != z.z)
  {
    var x := CHUNK_WIDTH * (n.x / CHUNK_WIDTH);
    e := if x != n.x && x != z.x then Cell(x, n.y, n.z)
         else if x + 1 != n.x && x + 1 != z.x then Cell(x + 1, n.y, n.z)
         else Cell(x + 2, n.y, n.z);
    assert n in g.cells && ColumnOf(e) == ColumnOf(n);
  }

  /** Light has faded where a flood raises it. */
  lemma RaisedBelowFull(g: Grid, m: LightMap, queued: set<Cell>, f: LightMap, e: Cell)
    requires g.Valid() && IsFlood(g, m, queued, f) && Raised(g, m, f, e)
    ensures Read(g, f, e) < MAX_LIGHT
  {
    FloodIsFed(g, m, queued, f, e);
    var a :| (a in queued || Raised(g, m, f, a)) && Edge(g, a, e) && Read(g, f, a) == Read(g, f, e) + 1;
  }

  /** Creating a bright section is no flood. */
  lemma FlaredIsNoFlood(g: Grid, stored: set<Section>, m: LightMap, queued: set<Cell>, f: LightMap)
    requires g.Valid() && HasWholeColumns(g) && IsLight(g, m) && DarkWhereMissing(g, m, stored) && Flared(g, stored, f)
    ensures !IsFlood(g, m, queued, f)
  {
    var n :| FlaresAt(g, f, n) && SectionOf(n) !in stored && StartsBright(SectionOf(n));
    var e := OtherCell(g, n, n);
    assert Raised(g, m, f, e);
    if IsFlood(g, m, queued, f) { RaisedBelowFull(g, m, queued, f, e); }
  }
}
