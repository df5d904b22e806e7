/** The local flow rule of `src/fluid.rs`, over a map of the loaded cells. */
module FluidRules {
  import opened Positions
  import opened Options

  /** Blocks as the rule tells them apart. Slabs are the blocks that can hold water. */
  datatype BlockType = Air | Water | Lava | Obsidian | Cobblestone | Stone | Slab | Other(id: nat, passable: bool)

  /** A block and its fluid byte: the level bits, the falling bit and the waterlogged bit. */
  datatype FluidCell = FluidCell(block: BlockType, level: nat, falling: bool, logged: bool)

  datatype Flow = Flow(level: nat, falling: bool)

  type Cells = map<Cell, FluidCell>

  const SOURCE := Flow(0, false)

  function Down(p: Cell): Cell { Cell(p.x, p.y - 1, p.z) }

  /** The four horizontal neighbours, in the order of HORIZONTAL_DIRECTIONS. */
  function Beside(p: Cell, dir: nat): Cell
    requires dir < 4
  {
    match dir
    case 0 => Cell(p.x + 1, p.y, p.z)
    case 1 => Cell(p.x - 1, p.y, p.z)
    case 2 => Cell(p.x, p.y, p.z + 1)
    case 3 => Cell(p.x, p.y, p.z - 1)
  }

  predicate IsPassable(b: BlockType) {
    b.Air? || b.Water? || b.Lava? || (b.Other? && b.passable)
  }

  function FluidBlock(lava: bool): BlockType { if lava then Lava else Water }

  /** What a read gives: air outside the loaded cells. */
  function At(cells: Cells, p: Cell): FluidCell {
    if p in cells then cells[p] else FluidCell(Air, 0, false, false)
  }

  predicate IsWaterlogged(c: FluidCell) { c.block.Slab? && c.logged }

  /** The fluid that a cell shows to its neighbours: a waterlogged host is a water source. */
  function FluidAt(cells: Cells, lava: bool, p: Cell): Option<Flow> {
    var c := At(cells, p);
    if !lava && IsWaterlogged(c) then Some(SOURCE)
    else if c.block == FluidBlock(lava) then Some(Flow(c.level, c.falling))
    else None
  }

  predicate IsSupported(cells: Cells, lava: bool, p: Cell) {
    var below := At(cells, Down(p)).block;
    below != Air && below != FluidBlock(lava) && !IsPassable(below)
  }

  predicate IsWaterSource(cells: Cells, p: Cell) { FluidAt(cells, false, p) == Some(SOURCE) }

  /** Those of the first `dirs` horizontal directions in which a water source lies. */
  ghost function SourceSides(cells: Cells, p: Cell, dirs: nat): set<nat>
    requires dirs <= 4
  {
    set dir: nat | dir < dirs && IsWaterSource(cells, Beside(p, dir))
  }

  ghost function SourcesBeside(cells: Cells, p: Cell, dirs: nat): nat
    requires dirs <= 4
  {
    |SourceSides(cells, p, dirs)|
  }

  lemma OneSideMore(cells: Cells, p: Cell, dir: nat)
    requires dir < 4
    ensures SourcesBeside(cells, p, dir + 1)
         == SourcesBeside(cells, p, dir) + if IsWaterSource(cells, Beside(p, dir)) then 1 else 0
  {
    var sides := SourceSides(cells, p, dir);
    assert SourceSides(cells, p, dir + 1) == if IsWaterSource(cells, Beside(p, dir)) then sides + {dir} else sides;
  }

  /** The level at which the neighbour spreads into a cell, if it does: below 7, and a falling
      column only once it stands on a surface. */
  function SpreadLevel(cells: Cells, lava: bool, n: Cell): Option<nat> {
    match FluidAt(cells, lava, n)
    case None => None
    case Some(flow) =>
      if flow.level >= 7 || (flow.falling && !IsSupported(cells, lava, n)) then None else Some(flow.level)
  }

  /** `best` is the least level at which one of the first `dirs` neighbours spreads. */
  ghost predicate IsBest(cells: Cells, lava: bool, p: Cell, dirs: nat, best: Option<nat>)
    requires dirs <= 4
  {
    && (forall dir: nat :: dir < dirs && SpreadLevel(cells, lava, Beside(p, dir)).Some?
          ==> best.Some? && best.value <= SpreadLevel(cells, lava, Beside(p, dir)).value)
    && (best.Some? ==> exists dir: nat :: dir < dirs && SpreadLevel(cells, lava, Beside(p, dir)) == best)
  }

  /** What flows into a cell: from above, by the infinite-source rule for water, or from the
      lowest-level neighbour. */
  ghost predicate IsDesired(cells: Cells, lava: bool, p: Cell, d: Option<Flow>) {
    if FluidAt(cells, lava, Up(p)).Some? then d == Some(Flow(0, true))
    else if !lava && IsSupported(cells, lava, p) && SourcesBeside(cells, p, 4) >= 2 then d == Some(SOURCE)
    else match d
      case None => IsBest(cells, lava, p, 4, None)
      case Some(flow) => flow.level > 0 && !flow.falling && IsBest(cells, lava, p, 4, Some(flow.level - 1))
  }

  lemma DesiredIsUnique(cells: Cells, lava: bool, p: Cell, d: Option<Flow>, e: Option<Flow>)
    requires IsDesired(cells, lava, p, d) && IsDesired(cells, lava, p, e)
    ensures d == e
  {
  }

  /** Permanent cells: sources of the fluid and, for water, waterlogged hosts. */
  predicate IsPermanent(lava: bool, c: FluidCell) {
    (!lava && IsWaterlogged(c)) || (c.block == FluidBlock(lava) && c.level == 0 && !c.falling)
  }

  /** Cells that the fluid may enter. */
  predicate IsReplaceable(lava: bool, c: FluidCell) {
    (c.block == Air || c.block == FluidBlock(!lava) || IsPassable(c.block)) && !IsWaterlogged(c)
  }

  /** What lava and water leave where they meet. */
  function Hardened(lava: bool, c: FluidCell): BlockType {
    var source := c.level == 0 && !c.falling;
    if !lava then (if source then Obsidian else Cobblestone) else if source then Stone else Cobblestone
  }

  /** The state that a visit leaves in a cell for which `d` is the desired flow. */
  function Visited(lava: bool, c: FluidCell, d: Option<Flow>): FluidCell {
    if IsPermanent(lava, c) then c
    else if c.block == FluidBlock(lava) then
      match d
      case Some(flow) => c.(level := flow.level, falling := flow.falling)
      case None => FluidCell(Air, 0, false, false)
    else if !IsReplaceable(lava, c) || d.None? then c
    else if c.block == FluidBlock(!lava) then FluidCell(Hardened(lava, c), 0, false, false)
    else FluidCell(FluidBlock(lava), d.value.level, d.value.falling, false)
  }

  /** No visit changes anything. */
  ghost predicate Settled(cells: Cells, lava: bool) {
    forall p, d :: p in cells && IsDesired(cells, lava, p, d) ==> Visited(lava, cells[p], d) == cells[p]
  }

  /** The height range covers the cells, and levels are three bits wide. */
  ghost predicate InRange(cells: Cells, maxY: int) {
    forall p :: p in cells ==> p.y < maxY && cells[p].level <= 7
  }

  ghost predicate OneFluid(cells: Cells, lava: bool) {
    forall p :: p in cells ==> cells[p].block != FluidBlock(!lava)
  }

  lemma DesiredExists(cells: Cells, lava: bool, p: Cell) returns (d: Option<Flow>)
    ensures IsDesired(cells, lava, p, d)
  {
    if FluidAt(cells, lava, Up(p)).Some? {
      d := Some(Flow(0, true));
    } else if !lava && IsSupported(cells, lava, p) && SourcesBeside(cells, p, 4) >= 2 {
      d := Some(SOURCE);
    } else {
      var best: Option<nat> := None;
      for dir := 0 to 4
        invariant IsBest(cells, lava, p, dir, best)
      {
        best := Better(cells, lava, p, dir, best);
      }
      d := if best.Some? then Some(Flow(best.value + 1, false)) else None;
    }
  }

  lemma NothingBest(cells: Cells, lava: bool, p: Cell)
    ensures IsBest(cells, lava, p, 0, None)
  {
  }

  /** The lower of the best level so far and that of the next neighbour. */
  function Better(cells: Cells, lava: bool, p: Cell, dir: nat, best: Option<nat>): (better: Option<nat>)
    requires dir < 4 && IsBest(cells, lava, p, dir, best)
    ensures IsBest(cells, lava, p, dir + 1, better)
  {
    var s := SpreadLevel(cells, lava, Beside(p, dir));
    if s.None? then best
    else if best.None? || s.value < best.value then
      (assert SpreadLevel(cells, lava, Beside(p, dir)) == s; s)
    else best
  }
}
