/** What a queue of waiting visits says about a field: which cells may be unsettled without waiting. */
module FluidQueues {
  import opened Positions
  import opened Options
  import opened Sequences
  import opened FluidRules

  function Abs(n: int): nat {
    if n < 0 then -n else n
  }

  /** The cell and its six neighbours, in the order in which they are scheduled. */
  function Around(p: Cell): seq<Cell> {
    [p, Cell(p.x + 1, p.y, p.z), Cell(p.x - 1, p.y, p.z), Up(p), Down(p), Cell(p.x, p.y, p.z + 1),
     Cell(p.x, p.y, p.z - 1)]
  }

  /** They are the cells within one step, each once. */
  lemma AroundIsNear(p: Cell)
    ensures NoRepeats(Around(p)) && Around(p) != [] && Around(p)[0] == p
    ensures forall q :: q in Around(p) <==> Abs(q.x - p.x) + Abs(q.y - p.y) + Abs(q.z - p.z) <= 1
  {
  }

  /** A visit would change the cell. */
  ghost predicate Unsettled(cells: Cells, lava: bool, p: Cell) {
    p in cells && exists d :: IsDesired(cells, lava, p, d) && Visited(lava, cells[p], d) != cells[p]
  }

  lemma SettledIffNoneUnsettled(cells: Cells, lava: bool)
    ensures Settled(cells, lava) <==> forall p :: !Unsettled(cells, lava, p)
  {
    forall p, d | p in cells && IsDesired(cells, lava, p, d) && Visited(lava, cells[p], d) != cells[p]
      ensures Unsettled(cells, lava, p)
    {
    }
  }

  /** Above the cell's neighbour: the four cells whose falling neighbour stands on the cell. */
  ghost function BesideAbove(q: Cell): set<Cell> {
    set dir: nat | dir < 4 :: Beside(Up(q), dir)
  }

  /** The column of fluid above the cell falls, would spread if it stood, and stands in one field only. */
  ghost predicate StandingChanges(a: Cells, b: Cells, lava: bool, q: Cell) {
    && FluidAt(a, lava, Up(q)).Some? && FluidAt(a, lava, Up(q)).value.falling && FluidAt(a, lava, Up(q)).value.level < 7
    && (IsSupported(a, lava, Up(q)) <==> !IsSupported(b, lava, Up(q)))
  }

  /** `b` is `a` with one cell changed. */
  ghost predicate OneChange(a: Cells, b: Cells, q: Cell) {
    q in a && q in b && b == a[q := b[q]]
  }

  /** Whatever the cells around `q` show, a cell that neither waits nor stands beside the column
      above `q` sees the same. */
  lemma FarCellSeesTheSame(a: Cells, b: Cells, lava: bool, q: Cell, p: Cell, d: Option<Flow>)
    requires OneChange(a, b, q) && p !in Around(q)
    requires p !in BesideAbove(q) || !StandingChanges(a, b, lava, q)
    ensures IsDesired(a, lava, p, d) <==> IsDesired(b, lava, p, d)
  {
    forall n | n != q ensures FluidAt(a, lava, n) == FluidAt(b, lava, n) {}
    forall n | Down(n) != q ensures IsSupported(a, lava, n) <==> IsSupported(b, lava, n) {}
    assert Up(p) != q && Down(p) != q;
    forall dir: nat | dir < 4
      ensures Beside(p, dir) != q && SpreadLevel(a, lava, Beside(p, dir)) == SpreadLevel(b, lava, Beside(p, dir))
    {
      if Down(Beside(p, dir)) == q { AboveIsBeside(p, q, dir); }
    }
    assert SourceSides(a, p, 4) == SourceSides(b, p, 4);
  }

  lemma AboveIsBeside(p: Cell, q: Cell, dir: nat)
    requires dir < 4 && Down(Beside(p, dir)) == q
    ensures p in BesideAbove(q) && Beside(p, dir) == Up(q)
  {
    assert p == Beside(Up(q), if dir % 2 == 0 then dir + 1 else dir - 1);
  }

  /** After one change the cells that became unsettled wait, unless they stand beside a falling
      column that began or ceased to stand on the changed cell. */
  lemma ChangeUnsettles(a: Cells, b: Cells, lava: bool, q: Cell, p: Cell)
    requires OneChange(a, b, q) && Unsettled(b, lava, p) && !Unsettled(a, lava, p)
    ensures p in Around(q) || (p in BesideAbove(q) && StandingChanges(a, b, lava, q))
  {
    if p !in Around(q) && (p !in BesideAbove(q) || !StandingChanges(a, b, lava, q)) {
      var d :| IsDesired(b, lava, p, d) && Visited(lava, b[p], d) != b[p];
      FarCellSeesTheSame(a, b, lava, q, p, d);
    }
  }

  /** The column above the changed cell decides what flows into `p`: nothing from above, no infinite
      source, and no other neighbour spreads at its level or lower. */
  ghost predicate FollowsColumn(a: Cells, lava: bool, q: Cell, p: Cell) {
    && FluidAt(a, lava, Up(q)).Some?
    && FluidAt(a, lava, Up(p)).None?
    && !(!lava && IsSupported(a, lava, p) && SourcesBeside(a, p, 4) >= 2)
    && forall dir: nat :: dir < 4 && Beside(p, dir) != Up(q) ==>
         var level := SpreadLevel(a, lava, Beside(p, dir));
         level.None? || level.value > FluidAt(a, lava, Up(q)).value.level
  }

  /** The fluid may enter the cell or be there, but not for good. */
  predicate CanFlow(lava: bool, c: FluidCell) {
    !IsPermanent(lava, c) && (c.block == FluidBlock(lava) || IsReplaceable(lava, c))
  }

  /** The cell is one that nothing schedules although the change unsettles it. All but the new standing
      of the column is read before the change. */
  ghost predicate Missed(a: Cells, b: Cells, lava: bool, q: Cell, p: Cell) {
    && p in BesideAbove(q) && StandingChanges(a, b, lava, q)
    && p in a && CanFlow(lava, a[p]) && FollowsColumn(a, lava, q, p)
  }

  ghost function MissedCells(a: Cells, b: Cells, lava: bool, q: Cell): set<Cell> {
    set p | p in BesideAbove(q) && Missed(a, b, lava, q, p)
  }

  lemma UnsettledIff(cells: Cells, lava: bool, p: Cell, d: Option<Flow>)
    requires IsDesired(cells, lava, p, d)
    ensures Unsettled(cells, lava, p) <==> p in cells && Visited(lava, cells[p], d) != cells[p]
  {
    if Unsettled(cells, lava, p) {
      var e :| IsDesired(cells, lava, p, e) && Visited(lava, cells[p], e) != cells[p];
      DesiredIsUnique(cells, lava, p, d, e);
    }
  }

  /** What `p` sees of a change below the column beside it. */
  lemma BesideColumnSees(a: Cells, b: Cells, lava: bool, q: Cell, p: Cell) returns (k: nat)
    requires OneChange(a, b, q) && p !in Around(q) && p in BesideAbove(q) && StandingChanges(a, b, lava, q)
    ensures k < 4 && Beside(p, k) == Up(q) && forall dir: nat :: dir < 4 && dir != k ==> Beside(p, dir) != Up(q)
    ensures forall dir: nat :: dir < 4 && dir != k
              ==> SpreadLevel(a, lava, Beside(p, dir)) == SpreadLevel(b, lava, Beside(p, dir))
    ensures FluidAt(a, lava, Up(p)) == FluidAt(b, lava, Up(p)) && (IsSupported(a, lava, p) <==> IsSupported(b, lava, p))
    ensures SourcesBeside(a, p, 4) == SourcesBeside(b, p, 4)
    ensures var level := FluidAt(a, lava, Up(q)).value.level;
      || (SpreadLevel(a, lava, Up(q)) == Some(level) && SpreadLevel(b, lava, Up(q)).None?)
      || (SpreadLevel(b, lava, Up(q)) == Some(level) && SpreadLevel(a, lava, Up(q)).None?)
  {
    var j: nat :| j < 4 && p == Beside(Up(q), j);
    k := if j % 2 == 0 then j + 1 else j - 1;
    forall n | n != q ensures FluidAt(a, lava, n) == FluidAt(b, lava, n) {}
    forall n | Down(n) != q ensures IsSupported(a, lava, n) <==> IsSupported(b, lava, n) {}
    assert Up(p) != q && Down(p) != q;
    forall dir: nat | dir < 4 ensures Beside(p, dir) != q && (dir != k ==> Down(Beside(p, dir)) != q) {}
    assert SourceSides(a, p, 4) == SourceSides(b, p, 4);
  }

  /** The best of the neighbours, when one of them stops or starts to spread. */
  lemma BestFollows(a: Cells, b: Cells, lava: bool, p: Cell, k: nat, level: nat, best: Option<nat>, best': Option<nat>)
    requires k < 4 && IsBest(a, lava, p, 4, best) && IsBest(b, lava, p, 4, best')
    requires forall dir: nat :: dir < 4 && dir != k
               ==> SpreadLevel(a, lava, Beside(p, dir)) == SpreadLevel(b, lava, Beside(p, dir))
    requires SpreadLevel(a, lava, Beside(p, k)).None? && SpreadLevel(b, lava, Beside(p, k)) == Some(level)
    ensures best != best' <==> forall dir: nat :: dir < 4 && dir != k ==>
              SpreadLevel(a, lava, Beside(p, dir)).None? || SpreadLevel(a, lava, Beside(p, dir)).value > level
  {
    if forall dir: nat :: dir < 4 && dir != k
        ==> SpreadLevel(a, lava, Beside(p, dir)).None? || SpreadLevel(a, lava, Beside(p, dir)).value > level {
      assert best'.Some? && best'.value <= level;
    } else {
      var dir: nat :| dir < 4 && dir != k && SpreadLevel(a, lava, Beside(p, dir)).Some?
          && SpreadLevel(a, lava, Beside(p, dir)).value <= level;
      assert best.Some? && best.value <= level;
      assert best'.Some? && best'.value <= best.value;
    }
  }

  /** A settled cell is unsettled by what flows into it exactly when that changes and the fluid may
      flow there. */
  lemma VisitFollows(lava: bool, c: FluidCell, d: Option<Flow>, d': Option<Flow>)
    requires Visited(lava, c, d) == c
    ensures Visited(lava, c, d') != c <==> CanFlow(lava, c) && d != d'
  {
  }

  /** What flows into the cell beside the column changes exactly when it follows the column. */
  lemma DesiredFollows(a: Cells, b: Cells, lava: bool, q: Cell, p: Cell, d: Option<Flow>, d': Option<Flow>)
    requires OneChange(a, b, q) && p !in Around(q) && p in BesideAbove(q) && StandingChanges(a, b, lava, q)
    requires IsDesired(a, lava, p, d) && IsDesired(b, lava, p, d')
    ensures d != d' <==> FollowsColumn(a, lava, q, p)
  {
    hide FluidAt, SpreadLevel, IsSupported, SourcesBeside, IsBest, BesideAbove, Around;
    var k := BesideColumnSees(a, b, lava, q, p);
    if FluidAt(a, lava, Up(p)).None? && !(!lava && IsSupported(a, lava, p) && SourcesBeside(a, p, 4) >= 2) {
      var level := FluidAt(a, lava, Up(q)).value.level;
      var best := if d.Some? then Some(d.value.level - 1) else None;
      var best' := if d'.Some? then Some(d'.value.level - 1) else None;
      assert d == d' <==> best == best';
      if SpreadLevel(a, lava, Up(q)).None? {
        BestFollows(a, b, lava, p, k, level, best, best');
      } else {
        BestFollows(b, a, lava, p, k, level, best', best);
      }
    }
  }

  /** After one change, a cell that was settled and does not wait is unsettled if and only if it is
      missed. */
  lemma MissedIff(a: Cells, b: Cells, lava: bool, q: Cell, p: Cell)
    requires OneChange(a, b, q) && !Unsettled(a, lava, p) && p !in Around(q)
    ensures Unsettled(b, lava, p) <==> Missed(a, b, lava, q, p)
  {
    hide IsDesired, Visited, CanFlow, FollowsColumn, BesideAbove, Unsettled, StandingChanges;
    var d := DesiredExists(a, lava, p);
    var d' := DesiredExists(b, lava, p);
    UnsettledIff(a, lava, p, d);
    UnsettledIff(b, lava, p, d');
    assert p != q && (p in a <==> p in b);
    if p in a {
      assert a[p] == b[p];
      VisitFollows(lava, a[p], d, d');
      if p in BesideAbove(q) && StandingChanges(a, b, lava, q) {
        DesiredFollows(a, b, lava, q, p, d, d');
      } else {
        FarCellSeesTheSame(a, b, lava, q, p, d);
        DesiredIsUnique(b, lava, p, d, d');
      }
    }
  }

  /** The schedule suffices if and only if nothing is missed: every cell the change unsettles waits. */
  lemma ScheduleSufficesIff(a: Cells, b: Cells, lava: bool, q: Cell)
    requires OneChange(a, b, q)
    ensures (forall p :: Unsettled(b, lava, p) && !Unsettled(a, lava, p) ==> p in Around(q))
       <==> (forall p :: Missed(a, b, lava, q, p) && !Unsettled(a, lava, p) ==> p in Around(q))
  {
    hide Missed, Unsettled, Around;
    forall p | !Unsettled(a, lava, p) && p !in Around(q) ensures Unsettled(b, lava, p) <==> Missed(a, b, lava, q, p) {
      MissedIff(a, b, lava, q, p);
    }
  }

  /** Every unsettled cell waits for a visit or is known to be missed. */
  ghost predicate Covered(cells: Cells, lava: bool, queue: seq<Cell>, missed: set<Cell>) {
    forall p :: Unsettled(cells, lava, p) ==> p in queue || p in missed
  }

  /** One change, with the cell and its neighbours scheduled. */
  lemma ChangeKeepsCovered(a: Cells, b: Cells, lava: bool, q: Cell, queue: seq<Cell>, queue': seq<Cell>,
                           missed: set<Cell>)
    requires OneChange(a, b, q) && Covered(a, lava, queue, missed)
    requires forall p :: p in queue ==> p in queue' || p == q
    requires forall p :: p in Around(q) && p in b ==> p in queue'
    ensures Covered(b, lava, queue', missed + MissedCells(a, b, lava, q))
  {
    forall p | Unsettled(b, lava, p) ensures p in queue' || p in missed + MissedCells(a, b, lava, q) {
      if p !in Around(q) && !Unsettled(a, lava, p) { MissedIff(a, b, lava, q, p); }
      assert q in Around(q);
    }
  }

  /** A visit that changes nothing settles its cell. */
  lemma VisitSettles(cells: Cells, lava: bool, q: Cell, d: Option<Flow>, queue: seq<Cell>, queue': seq<Cell>,
                     missed: set<Cell>)
    requires q in cells && IsDesired(cells, lava, q, d) && Visited(lava, cells[q], d) == cells[q]
    requires Covered(cells, lava, queue, missed) && forall p :: p in queue ==> p in queue' || p == q
    ensures Covered(cells, lava, queue', missed)
  {
    if Unsettled(cells, lava, q) {
      var e :| IsDesired(cells, lava, q, e) && Visited(lava, cells[q], e) != cells[q];
      DesiredIsUnique(cells, lava, q, d, e);
    }
  }

  /** A queue that has run dry with nothing missed leaves a settled field. */
  lemma DrainedIsSettled(cells: Cells, lava: bool)
    requires Covered(cells, lava, [], {})
    ensures Settled(cells, lava)
  {
    SettledIffNoneUnsettled(cells, lava);
  }

  // ----- A cell that is missed -----

  /** One chunk of stone, three blocks high, with a shaft of water: a source, and below it two cells
      of falling water, the lower one at the bottom of the world. Beside the upper one there is air. */
  function Shaft(bottom: FluidCell): Cells {
    map x, y, z | 0 <= x < 16 && 0 <= y < 3 && 0 <= z < 16 ::
      Cell(x, y, z) :=
        if x == 0 && z == 0 then
          (if y == 2 then FluidCell(Water, 0, false, false) else if y == 1 then FallingWater() else bottom)
        else if x == 1 && y == 1 && z == 0 then FluidCell(Air, 0, false, false)
        else Rock()
  }

  function FallingWater(): FluidCell { FluidCell(Water, 0, true, false) }

  function Rock(): FluidCell { FluidCell(Stone, 0, false, false) }

  const SOURCE_CELL := Cell(0, 2, 0)
  const FALLING_CELL := Cell(0, 1, 0)
  const BOTTOM_CELL := Cell(0, 0, 0)
  const AIR_CELL := Cell(1, 1, 0)

  predicate InShaft(p: Cell) { 0 <= p.x < 16 && 0 <= p.y < 3 && 0 <= p.z < 16 }

  lemma ShaftAt(bottom: FluidCell, p: Cell)
    ensures p in Shaft(bottom) <==> InShaft(p)
    ensures At(Shaft(bottom), p) ==
      if p == SOURCE_CELL then FluidCell(Water, 0, false, false)
      else if p == FALLING_CELL then FallingWater()
      else if p == BOTTOM_CELL then bottom
      else if p == AIR_CELL || !InShaft(p) then FluidCell(Air, 0, false, false)
      else Rock()
  {
    if InShaft(p) { assert p == Cell(p.x, p.y, p.z); }
  }

  /** Everything but the air and the bottom of the shaft is settled whatever lies at the bottom. */
  lemma ShaftIsSettledAt(bottom: FluidCell, p: Cell, d: Option<Flow>)
    requires bottom == Rock() || bottom == FallingWater()
    requires p in Shaft(bottom) && p != AIR_CELL && IsDesired(Shaft(bottom), false, p, d)
    ensures Visited(false, Shaft(bottom)[p], d) == Shaft(bottom)[p]
  {
    hide Shaft;
    ShaftAt(bottom, p);
    ShaftAt(bottom, Up(p));
  }

  /** Beside the air only the falling cell holds water, and it stands exactly on stone. */
  lemma AroundAir(bottom: FluidCell)
    requires bottom == Rock() || bottom == FallingWater()
    ensures var cells := Shaft(bottom);
      && AIR_CELL in cells && cells[AIR_CELL] == FluidCell(Air, 0, false, false)
      && FluidAt(cells, false, Up(AIR_CELL)).None? && SourcesBeside(cells, AIR_CELL, 4) == 0
      && forall dir: nat :: dir < 4 ==>
           SpreadLevel(cells, false, Beside(AIR_CELL, dir)) == if dir == 1 && bottom == Rock() then Some(0) else None
  {
    hide Shaft;
    var cells := Shaft(bottom);
    ShaftAt(bottom, AIR_CELL);
    ShaftAt(bottom, Up(AIR_CELL));
    ShaftAt(bottom, BOTTOM_CELL);
    forall dir: nat | dir < 4
      ensures !IsWaterSource(cells, Beside(AIR_CELL, dir))
      ensures SpreadLevel(cells, false, Beside(AIR_CELL, dir)) == if dir == 1 && bottom == Rock() then Some(0) else None
    {
      ShaftAt(bottom, Beside(AIR_CELL, dir));
    }
    assert SourceSides(cells, AIR_CELL, 4) == {};
  }

  /** Stone set under a falling column lets it spread, and the cell it would spread to is told
      nothing: the field is settled before, every cell that is scheduled is settled after, and the
      air beside the column is not. */
  lemma StoneUnderColumnIsMissed()
    ensures var (before, after) := (Shaft(FallingWater()), Shaft(Rock()));
      && Settled(before, false) && OneChange(before, after, BOTTOM_CELL)
      && (forall p :: p in Around(BOTTOM_CELL) ==> !Unsettled(after, false, p))
      && AIR_CELL !in Around(BOTTOM_CELL) && Unsettled(after, false, AIR_CELL)
  {
    hide Shaft, IsDesired, Visited;
    var before, after := Shaft(FallingWater()), Shaft(Rock());
    forall p, d | p in before && IsDesired(before, false, p, d) ensures Visited(false, before[p], d) == before[p] {
      if p == AIR_CELL { AirStays(d); } else { ShaftIsSettledAt(FallingWater(), p, d); }
    }
    BottomReplaced();
    forall p | p in Around(BOTTOM_CELL) ensures !Unsettled(after, false, p) {
      if Unsettled(after, false, p) {
        var d :| IsDesired(after, false, p, d) && Visited(false, after[p], d) != after[p];
        ShaftIsSettledAt(Rock(), p, d);
      }
    }
    AirFills();
  }

  lemma BottomReplaced()
    ensures OneChange(Shaft(FallingWater()), Shaft(Rock()), BOTTOM_CELL)
  {
  }

  lemma AirStays(d: Option<Flow>)
    requires IsDesired(Shaft(FallingWater()), false, AIR_CELL, d)
    ensures AIR_CELL in Shaft(FallingWater())
    ensures var c := Shaft(FallingWater())[AIR_CELL]; Visited(false, c, d) == c
  {
    hide Shaft, FluidAt, SourcesBeside, SpreadLevel;
    AroundAir(FallingWater());
  }

  lemma AirFills()
    ensures Unsettled(Shaft(Rock()), false, AIR_CELL)
  {
    hide Shaft, FluidAt, SourcesBeside, SpreadLevel;
    AroundAir(Rock());
    var d := Some(Flow(1, false));
    assert SpreadLevel(Shaft(Rock()), false, Beside(AIR_CELL, 1)) == Some(0);
    assert IsDesired(Shaft(Rock()), false, AIR_CELL, d);
  }
}
