/** Cells, stored light and the two fixpoints that `src/lighting.rs` computes.

    A `Grid` is one loaded region: the cells whose column is loaded and whose height the
    dimension covers, and those of them that hold an opaque block. A `LightMap` stores one
    level per cell. Reading outside the region follows `get_light`: 15 above an open sky,
    otherwise 0. */
module LightGrid {
  import opened Positions

  const MAX_LIGHT: nat := 15

  type LightMap = map<Cell, nat>

  /** The six face neighbours, in the order of LIGHT_DIRS. */
  function Step(c: Cell, dir: nat): Cell
    requires dir < 6
  {
    match dir
    case 0 => Cell(c.x + 1, c.y, c.z)
    case 1 => Cell(c.x - 1, c.y, c.z)
    case 2 => Cell(c.x, c.y + 1, c.z)
    case 3 => Cell(c.x, c.y - 1, c.z)
    case 4 => Cell(c.x, c.y, c.z + 1)
    case 5 => Cell(c.x, c.y, c.z - 1)
  }

  ghost predicate Adjacent(a: Cell, b: Cell) {
    || (a.y == b.y && a.z == b.z && (b.x == a.x + 1 || b.x == a.x - 1))
    || (a.x == b.x && a.z == b.z && (b.y == a.y + 1 || b.y == a.y - 1))
    || (a.x == b.x && a.y == b.y && (b.z == a.z + 1 || b.z == a.z - 1))
  }

  datatype Grid = Grid(minY: int, maxY: int, openSky: bool, cells: set<Cell>, blocking: set<Cell>) {
    predicate InHeight(y: int) { minY <= y < maxY }

    ghost predicate Valid() {
      && blocking <= cells
      && forall c :: c in cells ==> InHeight(c.y)
    }
  }

  function Read(g: Grid, m: LightMap, c: Cell): nat {
    if !g.InHeight(c.y) then (if c.y >= g.maxY && g.openSky then MAX_LIGHT else 0)
    else if c in m then m[c]
    else 0
  }

  ghost predicate IsLight(g: Grid, m: LightMap) {
    && m.Keys == g.cells
    && forall c :: c in m ==> m[c] <= MAX_LIGHT
  }

  /** Light may pass from `a` into the loaded, non-opaque cell `b`. */
  ghost predicate Edge(g: Grid, a: Cell, b: Cell) {
    Adjacent(a, b) && b in g.cells && b !in g.blocking
  }

  /** No neighbour that `a` can light is more than one level darker than `a`. */
  ghost predicate Satisfied(g: Grid, m: LightMap, a: Cell) {
    forall b :: Edge(g, a, b) ==> Read(g, m, a) <= Read(g, m, b) + 1
  }

  ghost predicate Closed(g: Grid, m: LightMap) {
    forall a :: a in g.cells ==> Satisfied(g, m, a)
  }

  /** `hi` is at least as bright as `lo` in every cell. */
  ghost predicate Above(g: Grid, hi: LightMap, lo: LightMap) {
    forall c :: c in g.cells ==> Read(g, lo, c) <= Read(g, hi, c)
  }

  ghost predicate Raised(g: Grid, m: LightMap, m': LightMap, c: Cell) {
    c in g.cells && Read(g, m, c) < Read(g, m', c)
  }

  /** `m'` is brighter than `m`, and no queued cell and no cell brighter than in `m` has
      anything left to give. */
  ghost predicate Flooded(g: Grid, m: LightMap, queued: set<Cell>, m': LightMap) {
    && IsLight(g, m')
    && Above(g, m', m)
    && forall a :: a in queued || Raised(g, m, m', a) ==> Satisfied(g, m', a)
  }

  /** The least such map. It depends on the set of queued cells only. */
  ghost predicate IsFlood(g: Grid, m: LightMap, queued: set<Cell>, m': LightMap) {
    && Flooded(g, m, queued, m')
    && forall n :: Flooded(g, m, queued, n) ==> Above(g, n, m')
  }

  /** A queued removal: the level a cell had before it was zeroed. */
  datatype Removal = Removal(cell: Cell, level: nat)

  /** The darkening flood steps from a removed cell to a lit neighbour below its level. */
  ghost predicate DarkStep(g: Grid, m: LightMap, r: Removal, c: Cell) {
    Adjacent(r.cell, c) && c in g.cells && 0 < Read(g, m, c) < r.level
  }

  ghost predicate DarkClosed(g: Grid, m: LightMap, start: set<Removal>, d: set<Cell>) {
    && (forall r, c :: r in start && DarkStep(g, m, r, c) ==> c in d)
    && (forall a, c :: a in d && DarkStep(g, m, Removal(a, Read(g, m, a)), c) ==> c in d)
  }

  /** The cells reached from the removed ones along strictly falling levels. */
  ghost function DarkSet(g: Grid, m: LightMap, start: set<Removal>): set<Cell> {
    set c | c in g.cells && forall d :: DarkClosed(g, m, start, d) ==> c in d
  }

  ghost function Darkened(m: LightMap, d: set<Cell>): LightMap {
    map c | c in m :: if c in d then 0 else m[c]
  }

  /** Every neighbour of a removed cell that is still lit, at its level or above, is queued. */
  ghost predicate HandedOn(g: Grid, m: LightMap, rs: set<Removal>, queue: set<Cell>) {
    forall r, c ::
      (r in rs && Adjacent(r.cell, c) && g.InHeight(c.y) && Read(g, m, c) >= r.level && Read(g, m, c) > 0)
      ==> c in queue
  }

  /** `to` holds `from` and, besides, only neighbours of removed cells that were at their
      level or above. */
  ghost predicate OnlyHandsOn(g: Grid, m: LightMap, rs: set<Removal>, from: set<Cell>, to: set<Cell>) {
    && from <= to
    && forall c :: c in to && c !in from ==>
         exists r :: r in rs && Adjacent(r.cell, c) && g.InHeight(c.y) && Read(g, m, c) >= r.level
  }

  ghost function Elements<T>(s: seq<T>): set<T> {
    set x | x in s
  }

  /** The direction from `a` to a face neighbour, 6 when `b` is none. */
  function DirectionTo(a: Cell, b: Cell): nat {
    if b == Step(a, 0) then 0 else if b == Step(a, 1) then 1 else if b == Step(a, 2) then 2
    else if b == Step(a, 3) then 3 else if b == Step(a, 4) then 4 else if b == Step(a, 5) then 5 else 6
  }

  lemma DirectionsAreSteps(a: Cell, b: Cell)
    ensures Adjacent(a, b) <==> DirectionTo(a, b) < 6
    ensures forall dir: nat :: dir < 6 ==> (DirectionTo(a, b) == dir <==> b == Step(a, dir))
  {
  }

  lemma MapsAgree(g: Grid, m: LightMap, n: LightMap)
    requires g.Valid() && IsLight(g, m) && IsLight(g, n)
    requires forall c :: c in g.cells ==> Read(g, m, c) == Read(g, n, c)
    ensures m == n
  {
    forall c | c in m ensures m[c] == n[c] {
      assert c in g.cells;
      assert Read(g, m, c) == Read(g, n, c);
    }
  }
}
