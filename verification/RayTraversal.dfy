/** The cell-stepping loop of the ray cast, over exact reals. */
module RayTraversal {
  import opened Options
  import opened Positions

  /** Where along the ray a block's shape is hit, and the face's normal. */
  datatype Hit = Hit(at: real, normal: Vec3)
  datatype RayResult = RayResult(block: Cell, normal: Vec3)

  /** A cell passed through, from one ray parameter to another. */
  datatype Visit = Visit(cell: Cell, enter: real, leave: real)

  const ZERO: Vec3 := Vec3(0.0, 0.0, 0.0)
  const EPSILON: real := 0.00000001

  function Abs(r: real): real {
    if r < 0.0 then -r else r
  }

  /** A component too close to zero becomes epsilon with its sign. */
  function Nudged(d: real): (n: real)
    ensures n != 0.0
  {
    if Abs(d) < EPSILON then (if d < 0.0 then -EPSILON else EPSILON) else d
  }

  // ------------------------------------------------------------------- axis

  function At(o: real, d: real, t: real): real {
    o + d * t
  }

  function StepOf(d: real): int {
    if d > 0.0 then 1 else -1
  }

  function DeltaOf(d: real): (delta: real)
    requires d != 0.0
  {
    Abs(1.0 / d)
  }

  function FirstMax(o: real, d: real): real
    requires d != 0.0
  {
    if d > 0.0 then (o.Floor as real + 1.0 - o) * DeltaOf(d) else (o - o.Floor as real) * DeltaOf(d)
  }

  /** The coordinate at which the ray leaves the cell along an axis. */
  function Exit(d: real, c: int): real {
    if d > 0.0 then (c + 1) as real else c as real
  }

  /** One axis of the loop's state: the ray leaves `c` at `max`, and entered it at `max - delta` or began in it. */
  predicate OnAxis(o: real, d: real, c: int, max: real, t: real)
    requires d != 0.0
  {
    && At(o, d, max) == Exit(d, c)
    && max - DeltaOf(d) <= t <= max
  }

  lemma DeltaCrossesACell(d: real)
    requires d != 0.0
    ensures d * DeltaOf(d) == StepOf(d) as real && DeltaOf(d) > 0.0
  {
    var r := 1.0 / d;
    assert r * d == 1.0;
    assert d > 0.0 ==> r > 0.0;
    assert d < 0.0 ==> r < 0.0;
  }

  lemma AxisStarts(o: real, d: real)
    requires d != 0.0
    ensures OnAxis(o, d, o.Floor, FirstMax(o, d), 0.0)
  {
    DeltaCrossesACell(d);
    var delta := DeltaOf(d);
    var part := if d > 0.0 then o.Floor as real + 1.0 - o else o - o.Floor as real;
    assert 0.0 <= part <= 1.0;
    assert 0.0 <= part * delta <= delta;
    assert d * (part * delta) == part * (d * delta);
  }

  lemma AxisSteps(o: real, d: real, c: int, max: real, t: real)
    requires d != 0.0 && OnAxis(o, d, c, max, t)
    ensures OnAxis(o, d, c + StepOf(d), max + DeltaOf(d), max)
  {
    DeltaCrossesACell(d);
    assert d * (max + DeltaOf(d)) == d * max + d * DeltaOf(d);
  }

  lemma AxisWaits(o: real, d: real, c: int, max: real, t: real, later: real)
    requires d != 0.0 && OnAxis(o, d, c, max, t) && t <= later <= max
    ensures OnAxis(o, d, c, max, later)
  {
  }

  /** From entering a cell to leaving it the ray stays within its closed extent. */
  lemma AxisHolds(o: real, d: real, c: int, max: real, t: real)
    requires d != 0.0 && OnAxis(o, d, c, max, t)
    ensures c as real <= At(o, d, t) <= c as real + 1.0
  {
    DeltaCrossesACell(d);
    var left := max - t;
    Distributes(d, max, left);
    if d > 0.0 {
      Grows(d, 0.0, left);
      Grows(d, left, DeltaOf(d));
    } else {
      Shrinks(d, 0.0, left);
      Shrinks(d, left, DeltaOf(d));
    }
    hide DeltaOf;
  }

  lemma Distributes(d: real, a: real, b: real)
    ensures d * (a - b) == d * a - d * b
  {
  }

  lemma Grows(d: real, a: real, b: real)
    requires d > 0.0 && a <= b
    ensures d * a <= d * b
  {
  }

  lemma Shrinks(d: real, a: real, b: real)
    requires d <= 0.0 && a <= b
    ensures d * b <= d * a
  {
  }

  // --------------------------------------------------------------- the cells

  predicate Aimed(d: Vec3) {
    d.x != 0.0 && d.y != 0.0 && d.z != 0.0
  }

  function NudgedAll(d: Vec3): (n: Vec3)
    ensures Aimed(n)
  {
    Vec3(Nudged(d.x), Nudged(d.y), Nudged(d.z))
  }

  function CellOf(o: Vec3): Cell {
    Cell(o.x.Floor, o.y.Floor, o.z.Floor)
  }

  /** The ray point at `t` is in the closed cell. */
  predicate Touches(o: Vec3, d: Vec3, c: Cell, t: real) {
    && c.x as real <= At(o.x, d.x, t) <= c.x as real + 1.0
    && c.y as real <= At(o.y, d.y, t) <= c.y as real + 1.0
    && c.z as real <= At(o.z, d.z, t) <= c.z as real + 1.0
  }

  /** The ray point at `t` is in the interior of the cell. */
  predicate Pierces(o: Vec3, d: Vec3, c: Cell, t: real) {
    && (c.x as real) < At(o.x, d.x, t) < c.x as real + 1.0
    && (c.y as real) < At(o.y, d.y, t) < c.y as real + 1.0
    && (c.z as real) < At(o.z, d.z, t) < c.z as real + 1.0
  }

  lemma PiercedIsTouched(o: Vec3, d: Vec3, a: Cell, b: Cell, t: real)
    requires Pierces(o, d, a, t) && Touches(o, d, b, t)
    ensures a == b
  {
  }

  /** The loop's state: a cell, where each axis leaves it, and the parameter reached. */
  predicate Marching(o: Vec3, d: Vec3, c: Cell, max: Vec3, t: real)
    requires Aimed(d)
  {
    && t >= 0.0
    && OnAxis(o.x, d.x, c.x, max.x, t)
    && OnAxis(o.y, d.y, c.y, max.y, t)
    && OnAxis(o.z, d.z, c.z, max.z, t)
  }

  function Least(v: Vec3): real {
    if v.x < v.y then (if v.x < v.z then v.x else v.z)
    else if v.y < v.z then v.y else v.z
  }

  /** The cell across the face through which the ray leaves. */
  predicate Across(d: Vec3, from: Cell, next: Cell) {
    || next == from.(x := from.x + StepOf(d.x))
    || next == from.(y := from.y + StepOf(d.y))
    || next == from.(z := from.z + StepOf(d.z))
  }

  /** The axis crossed at `t` is one along which the ray leaves the cell then: z if it is one, else y, else x. */
  ghost predicate Crosses(o: Vec3, d: Vec3, from: Cell, next: Cell, t: real) {
    if At(o.z, d.z, t) == Exit(d.z, from.z) then next == from.(z := if d.z > 0.0 then from.z + 1 else from.z - 1)
    else if At(o.y, d.y, t) == Exit(d.y, from.y) then next == from.(y := if d.y > 0.0 then from.y + 1 else from.y - 1)
    else
      && At(o.x, d.x, t) == Exit(d.x, from.x)
      && next == from.(x := if d.x > 0.0 then from.x + 1 else from.x - 1)
  }

  lemma LeavesOnce(o: real, d: real, c: int, max: real, t: real)
    requires d != 0.0 && At(o, d, max) == Exit(d, c)
    ensures At(o, d, t) == Exit(d, c) <==> t == max
  {
    if At(o, d, t) == Exit(d, c) {
      assert d * (t - max) == 0.0;
    }
  }

  lemma MarchStarts(o: Vec3, d: Vec3)
    requires Aimed(d)
    ensures Marching(o, d, CellOf(o), Vec3(FirstMax(o.x, d.x), FirstMax(o.y, d.y), FirstMax(o.z, d.z)), 0.0)
  {
    AxisStarts(o.x, d.x);
    AxisStarts(o.y, d.y);
    AxisStarts(o.z, d.z);
  }

  lemma MarchTouches(o: Vec3, d: Vec3, c: Cell, max: Vec3, t: real)
    requires Aimed(d) && Marching(o, d, c, max, t)
    ensures Touches(o, d, c, t)
  {
    hide OnAxis;
    AxisHolds(o.x, d.x, c.x, max.x, t);
    AxisHolds(o.y, d.y, c.y, max.y, t);
    AxisHolds(o.z, d.z, c.z, max.z, t);
  }

  lemma MarchWaits(o: Vec3, d: Vec3, c: Cell, max: Vec3, t: real, later: real)
    requires Aimed(d) && Marching(o, d, c, max, t) && t <= later <= Least(max)
    ensures Marching(o, d, c, max, later) && Touches(o, d, c, later)
  {
    MarchTouches(o, d, c, max, later);
  }

  lemma MarchLeaves(o: Vec3, d: Vec3, c: Cell, max: Vec3, t: real)
    requires Aimed(d) && Marching(o, d, c, max, t)
    ensures t <= Least(max)
    ensures max.x == Least(max) ==> Marching(o, d, c.(x := c.x + StepOf(d.x)), max.(x := max.x + DeltaOf(d.x)), max.x)
    ensures max.y == Least(max) ==> Marching(o, d, c.(y := c.y + StepOf(d.y)), max.(y := max.y + DeltaOf(d.y)), max.y)
    ensures max.z == Least(max) ==> Marching(o, d, c.(z := c.z + StepOf(d.z)), max.(z := max.z + DeltaOf(d.z)), max.z)
  {
    var later := Least(max);
    AxisSteps(o.x, d.x, c.x, max.x, t);
    AxisSteps(o.y, d.y, c.y, max.y, t);
    AxisSteps(o.z, d.z, c.z, max.z, t);
    AxisWaits(o.x, d.x, c.x, max.x, t, later);
    AxisWaits(o.y, d.y, c.y, max.y, t, later);
    AxisWaits(o.z, d.z, c.z, max.z, t, later);
  }

  // --------------------------------------------------------------- the trace

  ghost predicate Covers(o: Vec3, d: Vec3, v: Visit) {
    v.enter <= v.leave && forall u :: v.enter <= u <= v.leave ==> Touches(o, d, v.cell, u)
  }

  /** The cells left behind on the way to being in `c` at `t`: face to face, each touched all through its visit. */
  ghost predicate IsTrace(o: Vec3, d: Vec3, trace: seq<Visit>, c: Cell, t: real) {
    if |trace| == 0 then c == CellOf(o) && t == 0.0
    else
      var last := trace[|trace| - 1];
      && last.leave == t
      && Covers(o, d, last)
      && Across(d, last.cell, c)
      && Crosses(o, d, last.cell, c, t)
      && IsTrace(o, d, trace[..|trace| - 1], last.cell, last.enter)
  }

  /** Every cell whose interior the ray pierces has been visited, at that parameter. */
  lemma {:induction false} PiercedIsVisited(o: Vec3, d: Vec3, trace: seq<Visit>, c: Cell, t: real, pierced: Cell,
                                            u: real)
    requires IsTrace(o, d, trace, c, t) && 0.0 <= u < t && Pierces(o, d, pierced, u)
    ensures exists i :: 0 <= i < |trace| && trace[i].cell == pierced && trace[i].enter <= u <= trace[i].leave
  {
    var n := |trace| - 1;
    if trace[n].enter <= u {
      PiercedIsTouched(o, d, pierced, trace[n].cell, u);
    } else {
      PiercedIsVisited(o, d, trace[..n], trace[n].cell, trace[n].enter, pierced, u);
      var i :| 0 <= i < n && trace[..n][i].cell == pierced && trace[..n][i].enter <= u <= trace[..n][i].leave;
      assert trace[i] == trace[..n][i];
    }
  }

  /** Once a ray has left a cell along an axis it touches it no more. */
  lemma LeftForGood(o: real, d: real, c: int, t: real, u: real)
    requires d != 0.0 && At(o, d, t) == Exit(d, c) && t < u
    ensures !(c as real <= At(o, d, u) <= c as real + 1.0)
  {
    assert d * u == d * t + d * (u - t);
    assert d > 0.0 ==> d * (u - t) > 0.0;
    assert d < 0.0 ==> d * (u - t) < 0.0;
  }

  lemma NoLaterVisit(o: Vec3, d: Vec3, v: Visit, next: Cell, t: real)
    requires Aimed(d) && Covers(o, d, v) && Crosses(o, d, v.cell, next, t) && v.enter <= t
    ensures v.leave <= t
  {
    if t < v.leave {
      assert Touches(o, d, v.cell, v.leave);
      if At(o.z, d.z, t) == Exit(d.z, v.cell.z) { LeftForGood(o.z, d.z, v.cell.z, t, v.leave); }
      else if At(o.y, d.y, t) == Exit(d.y, v.cell.y) { LeftForGood(o.y, d.y, v.cell.y, t, v.leave); }
      else { LeftForGood(o.x, d.x, v.cell.x, t, v.leave); }
    }
  }

  /** The ray alone determines which cells are visited, ties included, and when. */
  lemma {:induction false} TraceIsDetermined(o: Vec3, d: Vec3, trace: seq<Visit>, c: Cell, t: real,
                                             trace': seq<Visit>, c': Cell, t': real)
    requires Aimed(d) && IsTrace(o, d, trace, c, t) && IsTrace(o, d, trace', c', t') && |trace| == |trace'|
    ensures trace == trace' && c == c' && t == t'
    decreases |trace|
  {
    if |trace| > 0 {
      var n := |trace| - 1;
      var v, w := trace[n], trace'[n];
      TraceIsDetermined(o, d, trace[..n], v.cell, v.enter, trace'[..n], w.cell, w.enter);
      NoLaterVisit(o, d, v, c', t');
      NoLaterVisit(o, d, w, c, t);
      assert trace == trace[..n] + [v] && trace' == trace'[..n] + [w];
    }
  }

  /** Visits follow one another. */
  lemma {:induction false} VisitsAreInOrder(o: Vec3, d: Vec3, trace: seq<Visit>, c: Cell, t: real, i: nat)
    requires IsTrace(o, d, trace, c, t) && i < |trace|
    ensures trace[i].enter <= trace[i].leave <= t
    ensures forall j :: i < j < |trace| ==> trace[i].leave <= trace[j].enter
  {
    var n := |trace| - 1;
    if i < n {
      VisitsAreInOrder(o, d, trace[..n], trace[n].cell, trace[n].enter, i);
      forall j | i < j < |trace| ensures trace[i].leave <= trace[j].enter {
        if j < n { assert trace[..n][j] == trace[j]; }
      }
    }
  }

  /** Cells are visited in the order in which the ray pierces them. */
  lemma PiercedInOrder(o: Vec3, d: Vec3, trace: seq<Visit>, c: Cell, t: real, a: Cell, u: real, b: Cell, v: real)
    requires IsTrace(o, d, trace, c, t) && 0.0 <= u < v < t
    requires Pierces(o, d, a, u) && Pierces(o, d, b, v) && a != b
    ensures exists i, j :: 0 <= i < j < |trace| && trace[i].cell == a && trace[j].cell == b
  {
    PiercedIsVisited(o, d, trace, c, t, a, u);
    PiercedIsVisited(o, d, trace, c, t, b, v);
    var i :| 0 <= i < |trace| && trace[i].cell == a && trace[i].enter <= u <= trace[i].leave;
    var j :| 0 <= j < |trace| && trace[j].cell == b && trace[j].enter <= v <= trace[j].leave;
    VisitsAreInOrder(o, d, trace, c, t, j);
    assert i < j;
  }

  // ------------------------------------------------------------- the length

  /** How far a cell lies along the ray, counted in faces. */
  function Progress(d: Vec3, c: Cell): int {
    StepOf(d.x) * c.x + StepOf(d.y) * c.y + StepOf(d.z) * c.z
  }

  lemma {:induction false} TraceProgress(o: Vec3, d: Vec3, trace: seq<Visit>, c: Cell, t: real)
    requires IsTrace(o, d, trace, c, t)
    ensures Progress(d, c) == Progress(d, CellOf(o)) + |trace|
    ensures forall i :: 0 <= i < |trace| ==> Progress(d, trace[i].cell) == Progress(d, CellOf(o)) + i
  {
    var n := |trace| - 1;
    if |trace| > 0 {
      TraceProgress(o, d, trace[..n], trace[n].cell, trace[n].enter);
      AcrossIsProgress(d, trace[n].cell, c);
      forall i | 0 <= i < |trace| ensures Progress(d, trace[i].cell) == Progress(d, CellOf(o)) + i {
        if i < n { assert trace[..n][i] == trace[i]; }
      }
    }
  }

  lemma AcrossIsProgress(d: Vec3, from: Cell, next: Cell)
    requires Across(d, from, next)
    ensures Progress(d, next) == Progress(d, from) + 1
  {
  }

  /** No cell is visited twice. */
  lemma VisitedOnce(o: Vec3, d: Vec3, trace: seq<Visit>, c: Cell, t: real)
    requires IsTrace(o, d, trace, c, t)
    ensures forall i, j :: 0 <= i < j < |trace| ==> trace[i].cell != trace[j].cell
    ensures forall i :: 0 <= i < |trace| ==> trace[i].cell != c
  {
    TraceProgress(o, d, trace, c, t);
  }

  function Speed(d: Vec3): real {
    Abs(d.x) + Abs(d.y) + Abs(d.z)
  }

  lemma AxisLength(o: real, d: real, c: int, t: real)
    requires d != 0.0 && t >= 0.0 && c as real <= At(o, d, t) <= c as real + 1.0
    ensures (StepOf(d) * (c - o.Floor)) as real <= 1.0 + Abs(d) * t
  {
    assert d * t == if d > 0.0 then Abs(d) * t else -(Abs(d) * t);
  }

  lemma ProgressSplits(d: Vec3, a: Cell, b: Cell)
    ensures Progress(d, b) - Progress(d, a)
         == StepOf(d.x) * (b.x - a.x) + StepOf(d.y) * (b.y - a.y) + StepOf(d.z) * (b.z - a.z)
  {
  }

  lemma SpeedSplits(d: Vec3, t: real)
    ensures Speed(d) * t == Abs(d.x) * t + Abs(d.y) * t + Abs(d.z) * t
  {
  }

  /** The number of cells left behind is at most linear in the parameter reached. */
  lemma TraceLength(o: Vec3, d: Vec3, trace: seq<Visit>, c: Cell, t: real)
    requires Aimed(d) && IsTrace(o, d, trace, c, t) && t >= 0.0 && Touches(o, d, c, t)
    ensures |trace| as real <= 3.0 + Speed(d) * t
  {
    hide IsTrace, Touches, Progress, Speed, StepOf, CellOf, Abs;
    TraceProgress(o, d, trace, c, t);
    ProgressSplits(d, CellOf(o), c);
    SpeedSplits(d, t);
    AxesLength(o, d, c, t);
  }

  lemma AxesLength(o: Vec3, d: Vec3, c: Cell, t: real)
    requires Aimed(d) && t >= 0.0 && Touches(o, d, c, t)
    ensures (StepOf(d.x) * (c.x - CellOf(o).x) + StepOf(d.y) * (c.y - CellOf(o).y)
             + StepOf(d.z) * (c.z - CellOf(o).z)) as real
         <= 3.0 + (Abs(d.x) * t + Abs(d.y) * t + Abs(d.z) * t)
  {
    AxisLength(o.x, d.x, c.x, t);
    AxisLength(o.y, d.y, c.y, t);
    AxisLength(o.z, d.z, c.z, t);
    SumOfLengths(StepOf(d.x) * (c.x - o.x.Floor), StepOf(d.y) * (c.y - o.y.Floor), StepOf(d.z) * (c.z - o.z.Floor),
                 Abs(d.x) * t, Abs(d.y) * t, Abs(d.z) * t);
  }

  lemma SumOfLengths(i: int, j: int, k: int, x: real, y: real, z: real)
    requires i as real <= 1.0 + x && j as real <= 1.0 + y && k as real <= 1.0 + z
    ensures (i + j + k) as real <= 3.0 + (x + y + z)
  {
  }

  // --------------------------------------------------------------- the loop

  /** The block in the cell is a target and its shape is hit within reach. */
  predicate Stops(probe: Cell -> Option<Hit>, c: Cell, reach: real) {
    probe(c).Some? && probe(c).value.at <= reach
  }

  /** The face of a cell shared with the cell visited before it; none for the first. */
  function FaceBehind(trace: seq<Visit>, c: Cell): Vec3 {
    if |trace| == 0 then ZERO
    else
      var last := trace[|trace| - 1].cell;
      Vec3((last.x - c.x) as real, (last.y - c.y) as real, (last.z - c.z) as real)
  }

  /** Nothing stops the ray in any cell it pierces before `until`. */
  ghost predicate ClearUntil(o: Vec3, d: Vec3, probe: Cell -> Option<Hit>, reach: real, until: real) {
    forall c, u :: 0.0 <= u < until && Pierces(o, d, c, u) ==> !Stops(probe, c, reach)
  }

  /** The ray reaches a cell that stops it before anything else does and before the limit. */
  ghost predicate IsFirstHit(o: Vec3, d: Vec3, probe: Cell -> Option<Hit>, reach: real, c: Cell) {
    Stops(probe, c, reach) && exists t :: 0.0 <= t < reach && Touches(o, d, c, t) && ClearUntil(o, d, probe, reach, t)
  }

  // ----- The answer in plain coordinates -----

  /** A component too small to divide by is followed as a hundred-millionth, zero upward. */
  ghost predicate IsFollowed(d: real, n: real) {
    if d >= 0.00000001 || d <= -0.00000001 then n == d else n == if d < 0.0 then -0.00000001 else 0.00000001
  }

  ghost predicate IsTarget(probe: Cell -> Option<Hit>, x: int, y: int, z: int, reach: real) {
    match probe(Cell(x, y, z))
    case None => false
    case Some(hit) => hit.at <= reach
  }

  ghost predicate PassesInside(o: Vec3, d: Vec3, x: int, y: int, z: int, t: real) {
    && (x as real) < o.x + d.x * t && o.x + d.x * t < (x + 1) as real
    && (y as real) < o.y + d.y * t && o.y + d.y * t < (y + 1) as real
    && (z as real) < o.z + d.z * t && o.z + d.z * t < (z + 1) as real
  }

  /** No target has the ray in its interior before `until`. */
  ghost predicate NoTargetBefore(o: Vec3, d: Vec3, probe: Cell -> Option<Hit>, reach: real, until: real) {
    forall x: int, y: int, z: int, u: real :: 0.0 <= u < until && PassesInside(o, d, x, y, z, u)
      ==> !IsTarget(probe, x, y, z, reach)
  }

  /** The ray meets the target within its closed extent at a parameter before which it was in no other. */
  ghost predicate IsNearestTarget(o: Vec3, d: Vec3, probe: Cell -> Option<Hit>, reach: real, x: int, y: int, z: int) {
    && IsTarget(probe, x, y, z, reach)
    && exists t :: 0.0 <= t < reach && MeetsAt(o, d, x, y, z, t) && NoTargetBefore(o, d, probe, reach, t)
  }

  ghost predicate MeetsAt(o: Vec3, d: Vec3, x: int, y: int, z: int, t: real) {
    && x as real <= o.x + d.x * t <= (x + 1) as real
    && y as real <= o.y + d.y * t <= (y + 1) as real
    && z as real <= o.z + d.z * t <= (z + 1) as real
  }

  lemma ClearIsPlain(o: Vec3, d: Vec3, probe: Cell -> Option<Hit>, reach: real, until: real)
    ensures ClearUntil(o, d, probe, reach, until) <==> NoTargetBefore(o, d, probe, reach, until)
  {
    hide Stops, Pierces, IsTarget, PassesInside;
    forall c, u ensures Pierces(o, d, c, u) <==> PassesInside(o, d, c.x, c.y, c.z, u) {
      PiercingIsPlain(o, d, c, u);
    }
    forall c ensures Stops(probe, c, reach) <==> IsTarget(probe, c.x, c.y, c.z, reach) {
      StoppingIsPlain(probe, c, reach);
    }
    if ClearUntil(o, d, probe, reach, until) {
      forall x: int, y: int, z: int, u: real | 0.0 <= u < until && PassesInside(o, d, x, y, z, u)
        ensures !IsTarget(probe, x, y, z, reach)
      {
        var c := Cell(x, y, z);
        assert Pierces(o, d, c, u) && !Stops(probe, c, reach);
      }
    }
  }

  lemma PiercingIsPlain(o: Vec3, d: Vec3, c: Cell, u: real)
    ensures Pierces(o, d, c, u) <==> PassesInside(o, d, c.x, c.y, c.z, u)
    ensures Touches(o, d, c, u) <==> MeetsAt(o, d, c.x, c.y, c.z, u)
  {
  }

  lemma StoppingIsPlain(probe: Cell -> Option<Hit>, c: Cell, reach: real)
    ensures Stops(probe, c, reach) <==> IsTarget(probe, c.x, c.y, c.z, reach)
  {
    assert c == Cell(c.x, c.y, c.z);
  }

  lemma FirstHitIsPlain(o: Vec3, d: Vec3, probe: Cell -> Option<Hit>, reach: real, c: Cell)
    ensures IsFirstHit(o, d, probe, reach, c) <==> IsNearestTarget(o, d, probe, reach, c.x, c.y, c.z)
  {
    hide Stops, Touches, MeetsAt, IsTarget, ClearUntil, NoTargetBefore;
    StoppingIsPlain(probe, c, reach);
    forall t
      ensures Touches(o, d, c, t) <==> MeetsAt(o, d, c.x, c.y, c.z, t)
      ensures ClearUntil(o, d, probe, reach, t) <==> NoTargetBefore(o, d, probe, reach, t)
    {
      PiercingIsPlain(o, d, c, t);
      ClearIsPlain(o, d, probe, reach, t);
    }
  }

  /** Which direction is followed. */
  lemma NudgedIsFollowed(d: Vec3)
    ensures var n := NudgedAll(d); IsFollowed(d.x, n.x) && IsFollowed(d.y, n.y) && IsFollowed(d.z, n.z)
  {
  }

  /** Components of at least a hundred-millionth. */
  ghost predicate IsSteep(d: Vec3) {
    && (d.x >= 0.00000001 || d.x <= -0.00000001)
    && (d.y >= 0.00000001 || d.y <= -0.00000001)
    && (d.z >= 0.00000001 || d.z <= -0.00000001)
  }

  lemma ClearForLess(o: Vec3, d: Vec3, probe: Cell -> Option<Hit>, reach: real, until: real)
    requires ClearUntil(o, d, probe, reach, until) && reach <= until
    ensures ClearUntil(o, d, probe, reach, reach)
  {
  }

  lemma IsFirst(o: Vec3, d: Vec3, probe: Cell -> Option<Hit>, reach: real, c: Cell, t: real)
    requires Stops(probe, c, reach) && 0.0 <= t < reach && Touches(o, d, c, t) && ClearUntil(o, d, probe, reach, t)
    ensures IsFirstHit(o, d, probe, reach, c)
  {
  }

  lemma TraceIsClear(o: Vec3, d: Vec3, trace: seq<Visit>, c: Cell, t: real, probe: Cell -> Option<Hit>, reach: real)
    requires IsTrace(o, d, trace, c, t)
    requires forall i :: 0 <= i < |trace| ==> !Stops(probe, trace[i].cell, reach)
    ensures ClearUntil(o, d, probe, reach, t)
  {
    hide Stops, Pierces, IsTrace;
    forall p, u | 0.0 <= u < t && Pierces(o, d, p, u) ensures !Stops(probe, p, reach) {
      PiercedIsVisited(o, d, trace, c, t, p, u);
    }
  }

  /** One visit more. */
  lemma TraceGrows(o: Vec3, d: Vec3, trace: seq<Visit>, c: Cell, max: Vec3, t: real, next: Cell)
    requires Aimed(d) && Marching(o, d, c, max, t) && IsTrace(o, d, trace, c, t) && Across(d, c, next)
    requires Crosses(o, d, c, next, Least(max))
    ensures IsTrace(o, d, trace + [Visit(c, t, Least(max))], next, Least(max))
  {
    MarchLeaves(o, d, c, max, t);
    var more := trace + [Visit(c, t, Least(max))];
    forall u | t <= u <= Least(max) ensures Touches(o, d, c, u) {
      MarchWaits(o, d, c, max, t, u);
    }
    assert more[..|more| - 1] == trace;
  }

  lemma TraceStarts(o: Vec3, d: Vec3)
    ensures IsTrace(o, d, [], CellOf(o), 0.0)
  {
  }

  ghost function StepLimit(d: Vec3, reach: real): (limit: nat)
    ensures limit as real <= 4.0 + (if reach > 0.0 then Speed(d) * reach else 0.0)
  {
    if reach > 0.0 then
      assert Speed(d) * reach >= 0.0;
      (4.0 + Speed(d) * reach).Floor
    else 4
  }

  lemma WithinLimit(d: Vec3, reach: real, n: nat)
    requires n <= StepLimit(d, reach)
    ensures n as real <= 4.0 + (if reach > 0.0 then Speed(d) * reach else 0.0)
  {
  }

  /** While the loop runs there is room for one visit more. */
  lemma TraceFitsLimit(o: Vec3, d: Vec3, trace: seq<Visit>, c: Cell, max: Vec3, t: real, reach: real)
    requires Aimed(d) && Marching(o, d, c, max, t) && IsTrace(o, d, trace, c, t) && t < reach
    ensures |trace| < StepLimit(d, reach)
  {
    hide IsTrace, Marching, Touches, Speed;
    assert t >= 0.0 by { MarchIsForward(o, d, c, max, t); }
    MarchTouches(o, d, c, max, t);
    TraceLength(o, d, trace, c, t);
    SpeedIsMonotone(d, t, reach);
  }

  lemma MarchIsForward(o: Vec3, d: Vec3, c: Cell, max: Vec3, t: real)
    requires Aimed(d) && Marching(o, d, c, max, t)
    ensures t >= 0.0
  {
  }

  lemma SpeedIsMonotone(d: Vec3, a: real, b: real)
    requires a <= b
    ensures Speed(d) * a <= Speed(d) * b
  {
  }

  lemma MarchExits(o: Vec3, d: Vec3, c: Cell, max: Vec3, at: real, t: real)
    requires Aimed(d) && Marching(o, d, c, max, at)
    ensures At(o.x, d.x, t) == Exit(d.x, c.x) <==> t == max.x
    ensures At(o.y, d.y, t) == Exit(d.y, c.y) <==> t == max.y
    ensures At(o.z, d.z, t) == Exit(d.z, c.z) <==> t == max.z
  {
    LeavesOnce(o.x, d.x, c.x, max.x, t);
    LeavesOnce(o.y, d.y, c.y, max.y, t);
    LeavesOnce(o.z, d.z, c.z, max.z, t);
  }

  /** Crosses the nearest boundary; a tie goes to z, then to y. */
  method StepAcross(ghost o: Vec3, d: Vec3, from: Cell, out: Vec3, ghost at: real)
    returns (cell: Cell, max: Vec3, t: real, face: Vec3)
    requires Aimed(d) && Marching(o, d, from, out, at)
    ensures Marching(o, d, cell, max, t) && t == Least(out) && Across(d, from, cell) && Crosses(o, d, from, cell, t)
    ensures face == Vec3((from.x - cell.x) as real, (from.y - cell.y) as real, (from.z - cell.z) as real)
  {
    MarchExits(o, d, from, out, at, Least(out));
    hide Marching;
    MarchLeaves(o, d, from, out, at);
    var stepX, stepY, stepZ := StepOf(d.x), StepOf(d.y), StepOf(d.z);
    var deltaX, deltaY, deltaZ := DeltaOf(d.x), DeltaOf(d.y), DeltaOf(d.z);
    cell, max := from, out;
    if max.x < max.y {
      if max.x < max.z {
        t := max.x;
        cell := cell.(x := cell.x + stepX);
        max := max.(x := max.x + deltaX);
        face := Vec3(-stepX as real, 0.0, 0.0);
      } else {
        t := max.z;
        cell := cell.(z := cell.z + stepZ);
        max := max.(z := max.z + deltaZ);
        face := Vec3(0.0, 0.0, -stepZ as real);
      }
    } else {
      if max.y < max.z {
        t := max.y;
        cell := cell.(y := cell.y + stepY);
        max := max.(y := max.y + deltaY);
        face := Vec3(0.0, -stepY as real, 0.0);
      } else {
        t := max.z;
        cell := cell.(z := cell.z + stepZ);
        max := max.(z := max.z + deltaZ);
        face := Vec3(0.0, 0.0, -stepZ as real);
      }
    }
  }

  /**
   * The first cell along the ray that stops it: no cell pierced before it does. Without a result no
   * cell pierced before the limit does.
   */
  method Raycast(origin: Vec3, direction: Vec3, maxDist: real, probe: Cell -> Option<Hit>)
    returns (result: Option<RayResult>, ghost trace: seq<Visit>, ghost until: real)
    ensures result.None? ==> ClearUntil(origin, NudgedAll(direction), probe, maxDist, maxDist)
    ensures result.Some? ==> IsFirstHit(origin, NudgedAll(direction), probe, maxDist, result.value.block)
    ensures var n := NudgedAll(direction);
      IsFollowed(direction.x, n.x) && IsFollowed(direction.y, n.y) && IsFollowed(direction.z, n.z)
    ensures result.None? ==> NoTargetBefore(origin, NudgedAll(direction), probe, maxDist, maxDist)
    ensures result.Some? ==>
      var c := result.value.block; IsNearestTarget(origin, NudgedAll(direction), probe, maxDist, c.x, c.y, c.z)
    ensures IsSteep(direction) && result.None? ==> NoTargetBefore(origin, direction, probe, maxDist, maxDist)
    ensures IsSteep(direction) && result.Some? ==>
      var c := result.value.block; IsNearestTarget(origin, direction, probe, maxDist, c.x, c.y, c.z)
    ensures result.Some? && probe(result.value.block).value.normal != Vec3(0.0, 0.0, 0.0)
            ==> result.value.normal == probe(result.value.block).value.normal
    ensures result.Some? && probe(result.value.block).value.normal == Vec3(0.0, 0.0, 0.0)
            ==> result.value.normal == FaceBehind(trace, result.value.block)
    ensures var d := NudgedAll(direction);
      && ClearUntil(origin, d, probe, maxDist, until)
      && (forall i :: 0 <= i < |trace| ==> !Stops(probe, trace[i].cell, maxDist))
      && |trace| as real <= 4.0 + (if maxDist > 0.0 then Speed(d) * maxDist else 0.0)
      && match result
         case None => until >= maxDist && exists c :: IsTrace(origin, d, trace, c, until)
         case Some(r) =>
           && until < maxDist
           && IsTrace(origin, d, trace, r.block, until)
           && Touches(origin, d, r.block, until)
           && Stops(probe, r.block, maxDist)
           && var normal := probe(r.block).value.normal;
              r.normal == if normal != ZERO then normal else FaceBehind(trace, r.block)
  {
    hide IsTrace, Marching, Touches, ClearUntil, Speed, NoTargetBefore, IsNearestTarget, IsFirstHit, Nudged;
    var d := NudgedAll(direction);
    NudgedIsFollowed(direction);
    var cell := CellOf(origin);
    var max := Vec3(FirstMax(origin.x, d.x), FirstMax(origin.y, d.y), FirstMax(origin.z, d.z));
    var t, lastFace := 0.0, ZERO;
    trace := [];
    MarchStarts(origin, d);
    TraceStarts(origin, d);
    ghost var limit := StepLimit(d, maxDist);
    while t < maxDist
      invariant Marching(origin, d, cell, max, t) && IsTrace(origin, d, trace, cell, t)
      invariant forall i :: 0 <= i < |trace| ==> !Stops(probe, trace[i].cell, maxDist)
      invariant lastFace == FaceBehind(trace, cell)
      invariant |trace| <= limit
      decreases limit - |trace|
    {
      TraceFitsLimit(origin, d, trace, cell, max, t, maxDist);
      if Stops(probe, cell, maxDist) {
        var hit := probe(cell).value;
        TraceIsClear(origin, d, trace, cell, t, probe, maxDist);
        MarchTouches(origin, d, cell, max, t);
        MarchIsForward(origin, d, cell, max, t);
        WithinLimit(d, maxDist, |trace|);
        until := t;
        IsFirst(origin, d, probe, maxDist, cell, t);
        FirstHitIsPlain(origin, d, probe, maxDist, cell);
        return Some(RayResult(cell, if hit.normal != ZERO then hit.normal else lastFace)), trace, until;
      }
      ghost var before, leaving, entered := cell, max, t;
      cell, max, t, lastFace := StepAcross(origin, d, cell, max, t);
      TraceGrows(origin, d, trace, before, leaving, entered, cell);
      trace := trace + [Visit(before, entered, t)];
    }
    TraceIsClear(origin, d, trace, cell, t, probe, maxDist);
    ClearForLess(origin, d, probe, maxDist, t);
    WithinLimit(d, maxDist, |trace|);
    ClearIsPlain(origin, d, probe, maxDist, maxDist);
    until := t;
    result := None;
  }
}
