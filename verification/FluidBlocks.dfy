/** The rule of `src/fluid.rs` told a second time, by the blocks around a cell instead of by directions,
    options and counts; the two ask for the same flow. */
module FluidBlocks {
  import opened Positions
  import opened Options
  import opened FluidRules

  ghost predicate IsSolid(b: BlockType) {
    b.Obsidian? || b.Cobblestone? || b.Stone? || b.Slab? || (b.Other? && !b.passable)
  }

  ghost predicate HoldsFluid(cells: Cells, lava: bool, x: int, y: int, z: int) {
    var p := Cell(x, y, z);
    && p in cells
    && match cells[p].block
       case Water => !lava
       case Lava => lava
       case Slab => !lava && cells[p].logged
       case _ => false
  }

  ghost predicate StandsOnSolid(cells: Cells, x: int, y: int, z: int) {
    Cell(x, y - 1, z) in cells && IsSolid(cells[Cell(x, y - 1, z)].block)
  }

  /** Water at level zero that does not fall, or a waterlogged slab. */
  ghost predicate IsStillWater(cells: Cells, x: int, y: int, z: int) {
    && HoldsFluid(cells, false, x, y, z)
    && var c := cells[Cell(x, y, z)]; c.block.Slab? || (c.level == 0 && !c.falling)
  }

  /** The fluid there runs sideways at a level below seven; a falling one does once it stands on a solid. */
  ghost predicate RunsAt(cells: Cells, lava: bool, x: int, y: int, z: int, level: nat) {
    && HoldsFluid(cells, lava, x, y, z) && level < 7
    && var c := cells[Cell(x, y, z)];
       if c.block.Slab? then level == 0 else level == c.level && (c.falling ==> StandsOnSolid(cells, x, y, z))
  }

  ghost predicate IsStep(dx: int, dz: int) {
    (dx == 0 && (dz == 1 || dz == -1)) || (dz == 0 && (dx == 1 || dx == -1))
  }

  ghost predicate TwoSourcesMeet(cells: Cells, p: Cell) {
    && StandsOnSolid(cells, p.x, p.y, p.z)
    && exists a, b, c, d :: IsStep(a, b) && IsStep(c, d) && (a != c || b != d)
         && IsStillWater(cells, p.x + a, p.y, p.z + b) && IsStillWater(cells, p.x + c, p.y, p.z + d)
  }

  ghost predicate RunsBeside(cells: Cells, lava: bool, p: Cell, level: nat) {
    exists a, b :: IsStep(a, b) && RunsAt(cells, lava, p.x + a, p.y, p.z + b, level)
  }

  /** What flows into a cell, by the blocks around it: falling fluid below fluid; still water where two
      sources meet over a solid; else one level more than the least that runs beside it, or nothing. */
  ghost predicate FlowsIn(cells: Cells, lava: bool, p: Cell, d: Option<Flow>) {
    if HoldsFluid(cells, lava, p.x, p.y + 1, p.z) then d == Some(Flow(0, true))
    else if !lava && TwoSourcesMeet(cells, p) then d == Some(Flow(0, false))
    else if d.None? then forall level: nat :: !RunsBeside(cells, lava, p, level)
    else
      && 0 < d.value.level && !d.value.falling && RunsBeside(cells, lava, p, d.value.level - 1)
      && forall level: nat :: RunsBeside(cells, lava, p, level) ==> d.value.level <= level + 1
  }

  lemma FluidIsHeld(cells: Cells, lava: bool, p: Cell)
    ensures FluidAt(cells, lava, p).Some? <==> HoldsFluid(cells, lava, p.x, p.y, p.z)
    ensures IsSupported(cells, lava, p) <==> StandsOnSolid(cells, p.x, p.y, p.z)
    ensures !lava ==> (IsWaterSource(cells, p) <==> IsStillWater(cells, p.x, p.y, p.z))
    ensures forall level: nat :: SpreadLevel(cells, lava, p) == Some(level)
              <==> RunsAt(cells, lava, p.x, p.y, p.z, level)
  {
  }

  lemma BesideIsStep(p: Cell, dir: nat)
    requires dir < 4
    ensures Beside(p, dir) == Cell(Beside(p, dir).x, p.y, Beside(p, dir).z)
    ensures IsStep(Beside(p, dir).x - p.x, Beside(p, dir).z - p.z)
  {
  }

  lemma StepIsBeside(p: Cell, a: int, b: int) returns (dir: nat)
    requires IsStep(a, b)
    ensures dir < 4 && Beside(p, dir) == Cell(p.x + a, p.y, p.z + b)
  {
    dir := if a == 1 then 0 else if a == -1 then 1 else if b == 1 then 2 else 3;
  }

  lemma TwoSourcesCount(cells: Cells, p: Cell)
    ensures TwoSourcesMeet(cells, p) <==> IsSupported(cells, false, p) && SourcesBeside(cells, p, 4) >= 2
  {
    hide FluidAt, HoldsFluid, IsStillWater, IsSupported, StandsOnSolid, IsWaterSource, SourceSides, TwoSourcesMeet;
    FluidIsHeld(cells, false, p);
    if TwoSourcesMeet(cells, p) { MeetingAreCounted(cells, p); }
    if SourcesBeside(cells, p, 4) >= 2 && IsSupported(cells, false, p) {
      var sides := SourceSides(cells, p, 4);
      var i, j := TwoOf(sides);
      assert i < 4 && j < 4 by { SidesAreDirections(cells, p); }
      SidesAreSources(cells, p, i);
      SidesAreSources(cells, p, j);
      SourcesMeet(cells, p, i, j);
    }
  }

  lemma MeetingAreCounted(cells: Cells, p: Cell)
    requires TwoSourcesMeet(cells, p)
    ensures SourcesBeside(cells, p, 4) >= 2 && StandsOnSolid(cells, p.x, p.y, p.z)
  {
    hide FluidAt, HoldsFluid, IsStillWater, StandsOnSolid, IsWaterSource, SourceSides;
    var a, b, c, d :| IsStep(a, b) && IsStep(c, d) && (a != c || b != d)
      && IsStillWater(cells, p.x + a, p.y, p.z + b) && IsStillWater(cells, p.x + c, p.y, p.z + d);
    var i := StepIsBeside(p, a, b);
    var j := StepIsBeside(p, c, d);
    SidesAreSources(cells, p, i);
    SidesAreSources(cells, p, j);
    TwoElements(SourceSides(cells, p, 4), i, j);
  }

  lemma SidesAreDirections(cells: Cells, p: Cell)
    ensures forall dir :: dir in SourceSides(cells, p, 4) ==> dir < 4
  {
  }

  lemma SidesAreSources(cells: Cells, p: Cell, dir: nat)
    requires dir < 4
    ensures var n := Beside(p, dir); dir in SourceSides(cells, p, 4) <==> IsStillWater(cells, n.x, n.y, n.z)
  {
    hide FluidAt, HoldsFluid, IsStillWater, IsWaterSource;
    FluidIsHeld(cells, false, Beside(p, dir));
  }

  lemma TwoOf<T>(s: set<T>) returns (x: T, y: T)
    requires |s| >= 2
    ensures x in s && y in s && x != y
  {
    x :| x in s;
    assert |s - {x}| >= 1;
    y :| y in s - {x};
  }

  lemma SourcesMeet(cells: Cells, p: Cell, i: nat, j: nat)
    requires i < 4 && j < 4 && i != j && StandsOnSolid(cells, p.x, p.y, p.z)
    requires var (n, m) := (Beside(p, i), Beside(p, j));
      IsStillWater(cells, n.x, n.y, n.z) && IsStillWater(cells, m.x, m.y, m.z)
    ensures TwoSourcesMeet(cells, p)
  {
    hide IsStillWater, StandsOnSolid;
    var n, m := Beside(p, i), Beside(p, j);
    BesideIsStep(p, i);
    BesideIsStep(p, j);
    var (a, b, c, d) := (n.x - p.x, n.z - p.z, m.x - p.x, m.z - p.z);
    assert p.x + a == n.x && p.z + b == n.z && p.x + c == m.x && p.z + d == m.z;
    assert IsStillWater(cells, p.x + a, p.y, p.z + b) && IsStillWater(cells, p.x + c, p.y, p.z + d);
  }

  lemma TwoElements<T>(s: set<T>, x: T, y: T)
    requires x in s && y in s && x != y
    ensures |s| >= 2
  {
    assert s == {x, y} + (s - {x, y});
  }

  /** The rule over options and directions asks for what the blocks say. */
  lemma DesiredFlowsIn(cells: Cells, lava: bool, p: Cell, d: Option<Flow>)
    ensures IsDesired(cells, lava, p, d) <==> FlowsIn(cells, lava, p, d)
  {
    hide FluidAt, HoldsFluid, IsSupported, SourcesBeside, TwoSourcesMeet, SpreadLevel, RunsAt, RunsBeside, IsBest;
    FluidIsHeld(cells, lava, Up(p));
    if !lava { TwoSourcesCount(cells, p); }
    forall level: nat ensures RunsBeside(cells, lava, p, level) <==> SpreadsBeside(cells, lava, p, level) {
      RunsAreSpreads(cells, lava, p, level);
    }
    BestIsLeast(cells, lava, p, None);
    if d.Some? && d.value.level > 0 { BestIsLeast(cells, lava, p, Some(d.value.level - 1)); }
  }

  ghost predicate SpreadsBeside(cells: Cells, lava: bool, p: Cell, level: nat) {
    exists dir: nat :: dir < 4 && SpreadLevel(cells, lava, Beside(p, dir)) == Some(level)
  }

  lemma RunsAreSpreads(cells: Cells, lava: bool, p: Cell, level: nat)
    ensures RunsBeside(cells, lava, p, level) <==> SpreadsBeside(cells, lava, p, level)
  {
    hide SpreadLevel, RunsAt;
    if RunsBeside(cells, lava, p, level) {
      var a, b :| IsStep(a, b) && RunsAt(cells, lava, p.x + a, p.y, p.z + b, level);
      var dir := StepIsBeside(p, a, b);
      FluidIsHeld(cells, lava, Beside(p, dir));
    }
    if SpreadsBeside(cells, lava, p, level) {
      var dir: nat :| dir < 4 && SpreadLevel(cells, lava, Beside(p, dir)) == Some(level);
      var n := Beside(p, dir);
      BesideIsStep(p, dir);
      FluidIsHeld(cells, lava, n);
      var (a, b) := (n.x - p.x, n.z - p.z);
      assert p.x + a == n.x && p.z + b == n.z;
      assert RunsAt(cells, lava, p.x + a, p.y, p.z + b, level);
    }
  }

  lemma BestIsLeast(cells: Cells, lava: bool, p: Cell, best: Option<nat>)
    ensures IsBest(cells, lava, p, 4, best)
       <==> && (best.Some? ==> SpreadsBeside(cells, lava, p, best.value))
            && forall level: nat :: SpreadsBeside(cells, lava, p, level) ==> best.Some? && best.value <= level
  {
    hide SpreadLevel;
    if IsBest(cells, lava, p, 4, best) {
      forall level: nat | SpreadsBeside(cells, lava, p, level) ensures best.Some? && best.value <= level {
        var dir: nat :| dir < 4 && SpreadLevel(cells, lava, Beside(p, dir)) == Some(level);
      }
    } else {
      forall dir: nat | dir < 4 && SpreadLevel(cells, lava, Beside(p, dir)).Some?
        ensures SpreadsBeside(cells, lava, p, SpreadLevel(cells, lava, Beside(p, dir)).value)
      {
      }
    }
  }

  /** What a visit makes of a cell, block by block. */
  ghost predicate BecomesByBlock(lava: bool, c: FluidCell, d: Option<Flow>, c': FluidCell) {
    match c.block
    case Air => EntersOrStays(lava, c, d, c')
    case Other(_, passable) => if passable then EntersOrStays(lava, c, d, c') else c' == c
    case Water => if lava then HardensOrStays(c, d, Stone, c') else FlowsOrDries(c, d, c')
    case Lava => if lava then FlowsOrDries(c, d, c') else HardensOrStays(c, d, Obsidian, c')
    case _ => c' == c
  }

  ghost predicate EntersOrStays(lava: bool, c: FluidCell, d: Option<Flow>, c': FluidCell) {
    c' == if d.Some? then FluidCell(if lava then Lava else Water, d.value.level, d.value.falling, false) else c
  }

  /** A source becomes `still`, flowing fluid cobblestone. */
  ghost predicate HardensOrStays(c: FluidCell, d: Option<Flow>, still: BlockType, c': FluidCell) {
    if d.None? then c' == c
    else if c.level == 0 && !c.falling then c' == FluidCell(still, 0, false, false)
    else c' == FluidCell(Cobblestone, 0, false, false)
  }

  ghost predicate FlowsOrDries(c: FluidCell, d: Option<Flow>, c': FluidCell) {
    if c.level == 0 && !c.falling then c' == c
    else if d.Some? then c' == FluidCell(c.block, d.value.level, d.value.falling, c.logged)
    else c' == FluidCell(Air, 0, false, false)
  }

  lemma VisitedByBlock(lava: bool, c: FluidCell, d: Option<Flow>, c': FluidCell)
    ensures c' == Visited(lava, c, d) <==> BecomesByBlock(lava, c, d, c')
  {
  }
}
