/** The mutating half of `src/fluid.rs`: visiting one cell, and a tick that visits queued cells and
    lists what changed. Plants above a changed cell are not broken in this model. */
module FluidWorlds {
  import opened Positions
  import opened Sequences
  import opened FluidRules
  import opened FluidBlocks
  import opened FluidQueues
  import opened Options

  /** What a tick reports of one changed cell: its block and its complete fluid byte. */
  datatype FluidMutation = FluidMutation(position: Cell, after: FluidCell)

  /** The cells after applying mutations in order, as a client does. */
  function Replay(cells: Cells, mutations: seq<FluidMutation>): Cells
    decreases |mutations|
  {
    if mutations == [] then cells
    else
      var last := mutations[|mutations| - 1];
      Replay(cells, mutations[..|mutations| - 1])[last.position := last.after]
  }

  /** A queue that holds no position twice. */
  function Pushed(queue: seq<Cell>, p: Cell): seq<Cell> {
    if p in queue then queue else queue + [p]
  }

  /** The queue after pushing positions in order. */
  function PushedAll(queue: seq<Cell>, positions: seq<Cell>): seq<Cell>
    decreases |positions|
  {
    if positions == [] then queue else PushedAll(Pushed(queue, positions[0]), positions[1..])
  }

  function InHeight(positions: seq<Cell>, minY: int, maxY: int): seq<Cell> {
    if positions == [] then []
    else (if minY <= positions[0].y < maxY then [positions[0]] else []) + InHeight(positions[1..], minY, maxY)
  }

  lemma NoneInHeight(minY: int, maxY: int)
    ensures InHeight([], minY, maxY) == []
  {
  }

  lemma HeadInHeight(p: Cell, rest: seq<Cell>, minY: int, maxY: int)
    ensures InHeight([p] + rest, minY, maxY)
         == (if minY <= p.y < maxY then [p] else []) + InHeight(rest, minY, maxY)
  {
  }

  lemma PushedFirst(queue: seq<Cell>, p: Cell, rest: seq<Cell>)
    ensures NoRepeats(queue) ==> NoRepeats(Pushed(queue, p))
    ensures PushedAll(queue, [p] + rest) == PushedAll(Pushed(queue, p), rest) && PushedAll(queue, []) == queue
    ensures [] + rest == rest
  {
    assert ([p] + rest)[1..] == rest;
  }

  lemma {:induction false} InHeightHolds(positions: seq<Cell>, minY: int, maxY: int)
    ensures forall q :: q in InHeight(positions, minY, maxY) <==> q in positions && minY <= q.y < maxY
  {
    if positions != [] {
      assert positions == [positions[0]] + positions[1..];
      InHeightHolds(positions[1..], minY, maxY);
    }
  }

  /** Pushing adds, at the end and in order, the positions that do not wait already. */
  lemma {:induction false} PushedAllExtends(queue: seq<Cell>, positions: seq<Cell>)
    ensures queue <= PushedAll(queue, positions)
    ensures forall q :: q in PushedAll(queue, positions) <==> q in queue || q in positions
    ensures NoRepeats(queue) ==> NoRepeats(PushedAll(queue, positions))
    decreases |positions|
  {
    if positions != [] {
      assert positions == [positions[0]] + positions[1..];
      PushedAllExtends(Pushed(queue, positions[0]), positions[1..]);
    }
  }

  /** Positions that all wait already add nothing. */
  lemma {:induction false} PushedAgain(queue: seq<Cell>, positions: seq<Cell>)
    requires forall q :: q in positions ==> q in queue
    ensures PushedAll(queue, positions) == queue
    decreases |positions|
  {
    if positions != [] { PushedAgain(queue, positions[1..]); }
  }

  lemma PushedTwice(queue: seq<Cell>, positions: seq<Cell>)
    ensures PushedAll(PushedAll(queue, positions), positions) == PushedAll(queue, positions)
  {
    PushedAllExtends(queue, positions);
    PushedAgain(PushedAll(queue, positions), positions);
  }

  /** Writes reach loaded cells only. */
  function Written(cells: Cells, p: Cell, c: FluidCell): Cells {
    if p in cells then cells[p := c] else cells
  }

  lemma WrittenTwice(cells: Cells, p: Cell, c: FluidCell, c': FluidCell)
    ensures Written(Written(cells, p, c), p, c') == Written(cells, p, c')
    ensures p in cells ==> At(Written(cells, p, c), p) == c
    ensures Written(cells, p, At(cells, p)) == cells
  {
  }

  /** A changed block never keeps the fluid byte of the one before. */
  function WithBlock(c: FluidCell, block: BlockType): FluidCell {
    if c.block == block then c else FluidCell(block, 0, false, false)
  }

  class FluidWorld {
    const minY: int
    const maxY: int
    /** The loaded cells within the height. */
    var cells: Cells
    var waterUpdates: seq<Cell>
    var lavaUpdates: seq<Cell>

    constructor (minY: int, maxY: int, cells: Cells)
      requires forall p :: p in cells ==> minY <= p.y < maxY && cells[p].level <= 7
      ensures Valid() && this.cells == cells && waterUpdates == [] == lavaUpdates
    {
      this.minY, this.maxY, this.cells := minY, maxY, cells;
      waterUpdates, lavaUpdates := [], [];
    }

    ghost predicate Valid()
      reads this
    {
      && (forall p :: p in cells ==> minY <= p.y < maxY && cells[p].level <= 7)
      && NoRepeats(waterUpdates) && NoRepeats(lavaUpdates)
    }

    function QueueFor(lava: bool): seq<Cell>
      reads this
    {
      if lava then lavaUpdates else waterUpdates
    }

    /** The queues are extended at their ends only. */
    twostate predicate QueuesGrow()
      reads this
    {
      old(waterUpdates) <= waterUpdates && old(lavaUpdates) <= lavaUpdates
    }

    ghost predicate Scheduled(p: Cell)
      reads this
    {
      forall q: Cell :: Abs(q.x - p.x) + Abs(q.y - p.y) + Abs(q.z - p.z) <= 1 && minY <= q.y < maxY
        ==> q in waterUpdates && q in lavaUpdates
    }

    /** The positions that a change of the cell schedules. */
    function Neighbors(p: Cell): seq<Cell> { InHeight(Around(p), minY, maxY) }

    /** If the cell changed, it and its neighbours are pushed on both queues; else nothing is. */
    twostate predicate ChangeScheduled(p: Cell)
      reads this
    {
      if p in old(cells) && p in cells && cells[p] != old(cells)[p] then
        && waterUpdates == PushedAll(old(waterUpdates), Neighbors(p))
        && lavaUpdates == PushedAll(old(lavaUpdates), Neighbors(p)) && Scheduled(p)
      else waterUpdates == old(waterUpdates) && lavaUpdates == old(lavaUpdates)
    }

    method ScheduleNeighbors(p: Cell)
      requires Valid()
      modifies this`waterUpdates, this`lavaUpdates
      ensures Valid() && QueuesGrow() && Scheduled(p)
      ensures waterUpdates == PushedAll(old(waterUpdates), Neighbors(p))
      ensures lavaUpdates == PushedAll(old(lavaUpdates), Neighbors(p))
    {
      hide Around, NoRepeats, Pushed, PushedAll, InHeight;
      var around := Around(p);
      assert around == around[0..];
      for i := 0 to |around|
        invariant Valid()
        invariant PushedAll(waterUpdates, InHeight(around[i..], minY, maxY))
               == PushedAll(old(waterUpdates), Neighbors(p))
        invariant PushedAll(lavaUpdates, InHeight(around[i..], minY, maxY))
               == PushedAll(old(lavaUpdates), Neighbors(p))
      {
        HeadInHeight(around[i], around[i + 1..], minY, maxY);
        assert around[i..] == [around[i]] + around[i + 1..];
        PushedFirst(waterUpdates, around[i], InHeight(around[i + 1..], minY, maxY));
        PushedFirst(lavaUpdates, around[i], InHeight(around[i + 1..], minY, maxY));
        if minY <= around[i].y < maxY {
          waterUpdates := Pushed(waterUpdates, around[i]);
          lavaUpdates := Pushed(lavaUpdates, around[i]);
        }
      }
      assert around[|around|..] == [] && InHeight([], minY, maxY) == [] by { NoneInHeight(minY, maxY); }
      PushedFirst(waterUpdates, p, []);
      PushedFirst(lavaUpdates, p, []);
      PushedAllExtends(old(waterUpdates), Neighbors(p));
      PushedAllExtends(old(lavaUpdates), Neighbors(p));
      InHeightHolds(around, minY, maxY);
      AroundIsNear(p);
    }

    method SetBlock(p: Cell, block: BlockType)
      requires Valid()
      modifies this
      ensures Valid() && QueuesGrow() && ChangeScheduled(p)
      ensures cells == Written(old(cells), p, WithBlock(At(old(cells), p), block))
    {
      hide Around, NoRepeats, InHeight, PushedAll;
      WrittenTwice(cells, p, At(cells, p), At(cells, p));
      if p in cells && cells[p].block != block {
        cells := cells[p := FluidCell(block, 0, false, false)];
        ScheduleNeighbors(p);
      }
    }

    method SetFluidLevel(p: Cell, level: nat)
      requires Valid() && level <= 7
      modifies this
      ensures Valid() && QueuesGrow() && ChangeScheduled(p)
      ensures cells == Written(old(cells), p, At(old(cells), p).(level := level))
    {
      hide Around, NoRepeats, InHeight, PushedAll;
      WrittenTwice(cells, p, At(cells, p), At(cells, p));
      if p in cells && cells[p].level != level {
        cells := cells[p := cells[p].(level := level)];
        ScheduleNeighbors(p);
      }
    }

    method SetFluidFalling(p: Cell, falling: bool)
      requires Valid()
      modifies this
      ensures Valid() && QueuesGrow() && ChangeScheduled(p)
      ensures cells == Written(old(cells), p, At(old(cells), p).(falling := falling))
    {
      hide Around, NoRepeats, InHeight, PushedAll;
      WrittenTwice(cells, p, At(cells, p), At(cells, p));
      if p in cells && cells[p].falling != falling {
        cells := cells[p := cells[p].(falling := falling)];
        ScheduleNeighbors(p);
      }
    }

    /** Gives a cell its block and its flow. */
    method SetCell(p: Cell, block: BlockType, flow: Flow)
      requires Valid() && flow.level <= 7 && p in cells
      modifies this
      ensures Valid() && QueuesGrow() && ChangeScheduled(p)
      ensures cells == old(cells)[p := WithBlock(old(cells)[p], block).(level := flow.level, falling := flow.falling)]
    {
      hide Around, NoRepeats, InHeight, PushedAll;
      ghost var c := WithBlock(cells[p], block);
      PushedTwice(waterUpdates, Neighbors(p));
      PushedTwice(lavaUpdates, Neighbors(p));
      assert QueuesGrow();
      SetBlock(p, block);
      WrittenTwice(old(cells), p, c, c.(level := flow.level));
      SetFluidLevel(p, flow.level);
      WrittenTwice(old(cells), p, c.(level := flow.level), c.(level := flow.level, falling := flow.falling));
      SetFluidFalling(p, flow.falling);
    }

    method CountSources(p: Cell) returns (count: nat)
      ensures count == SourcesBeside(cells, p, 4)
    {
      count := 0;
      for dir := 0 to 4
        invariant count == SourcesBeside(cells, p, dir)
      {
        OneSideMore(cells, p, dir);
        if IsWaterSource(cells, Beside(p, dir)) { count := count + 1; }
      }
    }

    /** The lowest level at which a horizontal neighbour spreads. */
    method LowestBeside(p: Cell, lava: bool) returns (best: Option<nat>)
      ensures IsBest(cells, lava, p, 4, best) && (best.Some? ==> best.value < 7)
    {
      hide IsBest, IsSupported, FluidAt;
      best := None;
      NothingBest(cells, lava, p);
      for dir := 0 to 4
        invariant IsBest(cells, lava, p, dir, best) && (best.Some? ==> best.value < 7)
      {
        var n := Beside(p, dir);
        var flow := FluidAt(cells, lava, n);
        ghost var better := Better(cells, lava, p, dir, best);
        if flow.Some? && flow.value.level < 7 && !(flow.value.falling && !IsSupported(cells, lava, n)) {
          best := Some(if best.Some? && best.value < flow.value.level then best.value else flow.value.level);
        }
        assert best == better;
      }
    }

    /** Reads the surroundings of a cell and computes what flows into it. */
    method DesiredFlow(p: Cell, lava: bool) returns (d: Option<Flow>)
      requires Valid()
      ensures IsDesired(cells, lava, p, d) && FlowsIn(cells, lava, p, d)
      ensures d.Some? ==> d.value.level <= 7
    {
      hide FlowsIn;
      if minY <= p.y + 1 < maxY && FluidAt(cells, lava, Up(p)).Some? {
        d := Some(Flow(0, true));
      } else {
        var sources := 0;
        if !lava && IsSupported(cells, lava, p) { sources := CountSources(p); }
        if sources >= 2 {
          d := Some(SOURCE);
        } else {
          var best := LowestBeside(p, lava);
          d := if best.Some? then Some(Flow(best.value + 1, false)) else None;
        }
      }
      DesiredFlowsIn(cells, lava, p, d);
    }

    /** One visit. Permanent cells, solid terrain and dry surroundings are left alone; where the
        fluids meet the cell hardens; otherwise the cell takes the desired flow. */
    method UpdateCell(p: Cell, lava: bool) returns (changed: bool, ghost d: Option<Flow>)
      requires Valid() && p in cells
      modifies this
      ensures Valid() && QueuesGrow()
      ensures IsDesired(old(cells), lava, p, d) && FlowsIn(old(cells), lava, p, d)
      ensures cells == old(cells)[p := Visited(lava, old(cells)[p], d)]
      ensures BecomesByBlock(lava, old(cells)[p], d, cells[p])
      ensures var c := old(cells)[p]; (if lava then c.block.Water? else c.block.Lava?) && d.Some? ==>
        var source := c.level == 0 && !c.falling;
        cells[p] == FluidCell(if !source then Cobblestone else if lava then Stone else Obsidian, 0, false, false)
      ensures var c := old(cells)[p]; (if lava then c.block.Water? else c.block.Lava?) && d.None? ==> cells[p] == c
      ensures changed <==> cells[p] != old(cells)[p]
      ensures changed ==> Scheduled(p)
      ensures ChangeScheduled(p)
    {
      hide FlowsIn, BecomesByBlock, IsDesired, Around;
      var current := cells[p];
      changed := false;
      if IsPermanent(lava, current) {
        d := DesiredExists(cells, lava, p);
        assert cells[p := current] == cells;
      } else {
        var flow := DesiredFlow(p, lava);
        d := flow;
        if current.block == FluidBlock(lava) {
          if flow.Some? {
            changed := current.level != flow.value.level || current.falling != flow.value.falling;
            SetCell(p, FluidBlock(lava), flow.value);
          } else {
            changed := true;
            SetCell(p, Air, SOURCE);
          }
        } else if !IsReplaceable(lava, current) || flow.None? {
          assert cells[p := current] == cells;
        } else {
          changed := true;
          if current.block == FluidBlock(!lava) {
            SetCell(p, Hardened(lava, current), SOURCE);
          } else {
            SetCell(p, FluidBlock(lava), flow.value);
          }
        }
      }
      DesiredFlowsIn(old(cells), lava, p, d);
      VisitedByBlock(lava, current, d, cells[p]);
    }

    /** Takes the next position to visit from the fluid's queue. */
    method PopFluidUpdate(lava: bool) returns (p: Option<Cell>)
      requires Valid()
      modifies this`waterUpdates, this`lavaUpdates
      ensures Valid() && QueueFor(!lava) == old(QueueFor(!lava))
      ensures old(QueueFor(lava)) == if p.Some? then [p.value] + QueueFor(lava) else QueueFor(lava)
      ensures p.None? ==> QueueFor(lava) == []
    {
      var queue := QueueFor(lava);
      if queue == [] {
        return None;
      }
      p := Some(queue[0]);
      if lava { lavaUpdates := lavaUpdates[1..]; } else { waterUpdates := waterUpdates[1..]; }
    }

    /** Visits up to `maxUpdates` queued cells in order. The reported mutations, replayed over the old
        cells, give the new ones, and only allowed columns change. A cell that is unsettled and does
        not wait was known, or was skipped because its column is not allowed, or was missed by one of
        the changes. */
    method TickFluidsInColumns(lava: bool, maxUpdates: nat, columns: Option<set<Column>>, ghost known: set<Cell>)
      returns (mutations: seq<FluidMutation>, ghost popped: seq<Cell>, ghost missed: set<Cell>)
      requires Valid()
      modifies this
      ensures Valid() && cells == Replay(old(cells), mutations)
      ensures forall m :: m in mutations ==>
        m.position in old(cells) && (columns.None? || StandsInOneOf(columns.value, m.position))
      ensures |mutations| <= |popped| <= maxUpdates && (|popped| == maxUpdates || QueueFor(lava) == [])
      ensures old(QueueFor(lava)) <= popped + QueueFor(lava)
      ensures old(Covered(cells, lava, QueueFor(lava), known)) ==> Covered(cells, lava, QueueFor(lava), missed)
      ensures missed == known + Skipped(old(cells), columns, popped) + MissedAlong(old(cells), lava, mutations)
      ensures forall p :: p in Skipped(old(cells), columns, popped) <==>
        p in popped && p in old(cells) && columns.Some? && !StandsInOneOf(columns.value, p)
    {
      hide Covered, MissedCells, MissedAlong, Skipped, Replay, Ticked, NoRepeats, Around, Pushed, Allowed, ColumnOf,
           StandsInOneOf;
      mutations, popped, missed := [], [], known;
      TickStarts(cells, lava, columns, known);
      for i := 0 to maxUpdates
        invariant Valid() && |popped| == i && old(QueueFor(lava)) <= popped + QueueFor(lava)
        invariant Ticked(old(cells), lava, columns, known, popped, mutations, missed, cells)
        invariant old(Covered(cells, lava, QueueFor(lava), known)) ==> Covered(cells, lava, QueueFor(lava), missed)
      {
        ghost var waiting, before := QueueFor(lava), cells;
        var next := PopFluidUpdate(lava);
        if next.None? {
          break;
        }
        var p := next.value;
        assert popped + waiting == popped + [p] + QueueFor(lava);
        if p !in cells || !Allowed(columns, p) {
          SkippedIsMissed(cells, lava, p, QueueFor(lava), missed);
          TickSkips(old(cells), lava, columns, known, popped, mutations, missed, cells, p);
          popped := popped + [p];
          if p in cells { missed := missed + {p}; }
          continue;
        }
        ghost var rest, missedBefore := QueueFor(lava), missed;
        var m;
        m, missed := Visit(lava, p, waiting, missed);
        TickVisits(old(cells), lava, columns, known, popped, mutations, missedBefore, before, p, m, missed, cells);
        popped := popped + [p];
        QueueExtended(old(QueueFor(lava)), popped, rest, QueueFor(lava));
        if m.Some? { mutations := mutations + [m.value]; }
      }
      TickEnds(old(cells), lava, columns, known, popped, mutations, missed, cells);
    }

    /** One visit of a tick, and the mutation it reports. */
    method Visit(lava: bool, p: Cell, ghost waiting: seq<Cell>, ghost known: set<Cell>)
      returns (m: Option<FluidMutation>, ghost missed: set<Cell>)
      requires Valid() && p in cells && waiting == [p] + QueueFor(lava)
      modifies this
      ensures Valid() && QueuesGrow()
      ensures if m.Some? then m.value.position == p && cells == old(cells)[p := m.value.after] else cells == old(cells)
      ensures missed == if m.Some? then known + MissedCells(old(cells), cells, lava, p) else known
      ensures old(Covered(cells, lava, waiting, known)) ==> Covered(cells, lava, QueueFor(lava), missed)
    {
      hide Covered, Visited, MissedCells, IsDesired, FlowsIn, BecomesByBlock, Around, Abs;
      ghost var before := cells;
      AroundIsNear(p);
      var changed, d := UpdateCell(p, lava);
      m, missed := None, known;
      if changed {
        m, missed := Some(FluidMutation(p, cells[p])), known + MissedCells(before, cells, lava, p);
        if Covered(before, lava, waiting, known) {
          ChangeKeepsCovered(before, cells, lava, p, waiting, QueueFor(lava), known);
        }
      } else if Covered(before, lava, waiting, known) {
        VisitSettles(before, lava, p, d, waiting, QueueFor(lava), known);
      }
    }
  }

  /** The position lies in one of the columns, if they are restricted: columns are 16 blocks wide. */
  predicate Allowed(columns: Option<set<Column>>, p: Cell) {
    columns.Some? ==> ColumnOf(p) in columns.value
  }

  /** The same, by the blocks of a column. */
  ghost predicate StandsInOneOf(columns: set<Column>, p: Cell) {
    exists k :: k in columns && 16 * k.0 <= p.x < 16 * k.0 + 16 && 16 * k.1 <= p.z < 16 * k.1 + 16
  }

  lemma AllowedStands(columns: Option<set<Column>>, p: Cell)
    ensures Allowed(columns, p) <==> columns.None? || StandsInOneOf(columns.value, p)
  {
    if columns.Some? && Allowed(columns, p) {
      var k := ColumnOf(p);
      assert k in columns.value && 16 * k.0 <= p.x < 16 * k.0 + 16 && 16 * k.1 <= p.z < 16 * k.1 + 16;
    }
  }

  /** The loaded cells among the positions that lie outside the allowed columns. */
  ghost function Skipped(cells: Cells, columns: Option<set<Column>>, popped: seq<Cell>): set<Cell> {
    set p | p in popped && p in cells && !Allowed(columns, p)
  }

  /** The cells that one of the changes unsettled without scheduling them. */
  ghost function MissedAlong(cells: Cells, lava: bool, mutations: seq<FluidMutation>): set<Cell>
    decreases |mutations|
  {
    if mutations == [] then {}
    else
      var (rest, last) := (mutations[..|mutations| - 1], mutations[|mutations| - 1]);
      MissedAlong(cells, lava, rest)
      + MissedCells(Replay(cells, rest), Replay(cells, rest)[last.position := last.after], lava, last.position)
  }

  /** What a tick has done after popping some positions. */
  ghost predicate Ticked(before: Cells, lava: bool, columns: Option<set<Column>>, known: set<Cell>, popped: seq<Cell>,
                         mutations: seq<FluidMutation>, missed: set<Cell>, cells: Cells) {
    && cells == Replay(before, mutations) && cells.Keys == before.Keys && |mutations| <= |popped|
    && (forall m :: m in mutations ==> m.position in before && Allowed(columns, m.position))
    && missed == known + Skipped(before, columns, popped) + MissedAlong(before, lava, mutations)
  }

  lemma TickStarts(cells: Cells, lava: bool, columns: Option<set<Column>>, known: set<Cell>)
    ensures Ticked(cells, lava, columns, known, [], [], known, cells)
  {
  }

  lemma TickEnds(before: Cells, lava: bool, columns: Option<set<Column>>, known: set<Cell>, popped: seq<Cell>,
                 mutations: seq<FluidMutation>, missed: set<Cell>, cells: Cells)
    requires Ticked(before, lava, columns, known, popped, mutations, missed, cells)
    ensures cells == Replay(before, mutations) && |mutations| <= |popped|
    ensures forall m :: m in mutations ==>
      m.position in before && (columns.None? || StandsInOneOf(columns.value, m.position))
    ensures missed == known + Skipped(before, columns, popped) + MissedAlong(before, lava, mutations)
    ensures forall p :: p in Skipped(before, columns, popped) <==>
      p in popped && p in before && columns.Some? && !StandsInOneOf(columns.value, p)
  {
    hide StandsInOneOf;
    forall p ensures Allowed(columns, p) <==> columns.None? || StandsInOneOf(columns.value, p) {
      AllowedStands(columns, p);
    }
  }

  lemma TickSkips(before: Cells, lava: bool, columns: Option<set<Column>>, known: set<Cell>, popped: seq<Cell>,
                  mutations: seq<FluidMutation>, missed: set<Cell>, cells: Cells, p: Cell)
    requires Ticked(before, lava, columns, known, popped, mutations, missed, cells)
    requires p !in cells || !Allowed(columns, p)
    ensures Ticked(before, lava, columns, known, popped + [p], mutations, if p in cells then missed + {p} else missed,
                   cells)
  {
    hide Replay, MissedAlong, Skipped;
    SkippedMore(before, columns, popped, p);
  }

  lemma TickVisits(before: Cells, lava: bool, columns: Option<set<Column>>, known: set<Cell>, popped: seq<Cell>,
                   mutations: seq<FluidMutation>, missed: set<Cell>, cells: Cells, p: Cell, m: Option<FluidMutation>,
                   missed': set<Cell>, cells': Cells)
    requires Ticked(before, lava, columns, known, popped, mutations, missed, cells)
    requires missed' == if m.Some? then missed + MissedCells(cells, cells', lava, p) else missed
    requires p in cells && Allowed(columns, p)
    requires if m.Some? then m.value.position == p && cells' == cells[p := m.value.after] else cells' == cells
    ensures Ticked(before, lava, columns, known, popped + [p], if m.Some? then mutations + [m.value] else mutations,
                   missed', cells')
  {
    hide Replay, MissedAlong, Skipped, MissedCells, Allowed;
    SkippedMore(before, columns, popped, p);
    if m.Some? {
      ReplayMore(before, mutations, m.value);
      MissedMore(before, lava, mutations, m.value);
    }
  }

  lemma SkippedMore(cells: Cells, columns: Option<set<Column>>, popped: seq<Cell>, p: Cell)
    ensures Skipped(cells, columns, popped + [p])
         == Skipped(cells, columns, popped) + if p in cells && !Allowed(columns, p) then {p} else {}
  {
  }

  lemma MissedMore(cells: Cells, lava: bool, mutations: seq<FluidMutation>, m: FluidMutation)
    ensures var now := Replay(cells, mutations);
            MissedAlong(cells, lava, mutations + [m])
            == MissedAlong(cells, lava, mutations) + MissedCells(now, now[m.position := m.after], lava, m.position)
  {
    assert (mutations + [m])[..|mutations|] == mutations;
  }

  lemma SkippedIsMissed(cells: Cells, lava: bool, p: Cell, queue: seq<Cell>, missed: set<Cell>)
    ensures var more := if p in cells then missed + {p} else missed;
      Covered(cells, lava, [p] + queue, missed) ==> Covered(cells, lava, queue, more)
  {
  }

  lemma QueueExtended(first: seq<Cell>, popped: seq<Cell>, queue: seq<Cell>, queue': seq<Cell>)
    requires first <= popped + queue && queue <= queue'
    ensures first <= popped + queue'
  {
    assert popped + queue <= popped + queue';
  }

  lemma ReplayMore(cells: Cells, mutations: seq<FluidMutation>, m: FluidMutation)
    ensures Replay(cells, mutations + [m]) == Replay(cells, mutations)[m.position := m.after]
  {
    assert (mutations + [m])[..|mutations|] == mutations;
  }
}
