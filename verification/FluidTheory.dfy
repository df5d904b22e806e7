/** What settled fields look like: every drop has a way back to a source, and the terrain, the
    hosts and the sources determine everything else. */
module FluidTheory {
  import opened Positions
  import opened FluidRules
  import opened Options

  /** In a settled one-fluid field a cell that is not permanent shows the flow it should have. */
  lemma SettledShowsDesired(cells: Cells, lava: bool, p: Cell, d: Option<Flow>)
    requires Settled(cells, lava) && OneFluid(cells, lava) && IsDesired(cells, lava, p, d)
    requires p in cells && !IsPermanent(lava, cells[p])
    ensures IsReplaceable(lava, cells[p]) || cells[p].block == FluidBlock(lava) ==> FluidAt(cells, lava, p) == d
    ensures FluidAt(cells, lava, p) != Some(SOURCE)
    ensures FluidAt(cells, lava, p).Some? ==> FluidAt(cells, lava, p) == d
  {
    assert Visited(lava, cells[p], d) == cells[p];
  }

  /** Each step leads up from a falling cell or sideways to a cell one level lower. */
  ghost predicate IsTrail(cells: Cells, lava: bool, trail: seq<Cell>) {
    && trail != []
    && (forall i :: 0 <= i < |trail| ==> FluidAt(cells, lava, trail[i]).Some?)
    && (forall i :: 0 <= i < |trail| - 1 ==> IsTrailStep(cells, lava, trail[i], trail[i + 1]))
  }

  ghost predicate IsTrailStep(cells: Cells, lava: bool, p: Cell, q: Cell) {
    var (f, g) := (FluidAt(cells, lava, p), FluidAt(cells, lava, q));
    && f.Some? && g.Some?
    && if f.value.falling then q == Up(p)
       else (exists dir: nat :: dir < 4 && q == Beside(p, dir)) && g.value.level + 1 == f.value.level
  }

  /** No orphaned fluid: a trail leads from every cell of the fluid to a permanent one. */
  lemma {:induction false} FluidHasAnOrigin(cells: Cells, lava: bool, maxY: int, p: Cell) returns (trail: seq<Cell>)
    requires Settled(cells, lava) && OneFluid(cells, lava) && InRange(cells, maxY)
    requires FluidAt(cells, lava, p).Some?
    ensures IsTrail(cells, lava, trail) && trail[0] == p
    ensures trail[|trail| - 1] in cells && IsPermanent(lava, cells[trail[|trail| - 1]])
    decreases maxY - p.y, FluidAt(cells, lava, p).value.level
  {
    if IsPermanent(lava, cells[p]) {
      trail := [p];
    } else {
      var d := DesiredExists(cells, lava, p);
      SettledShowsDesired(cells, lava, p, d);
      var q := if d.value.falling then Up(p) else Origin(cells, lava, p, d);
      assert IsTrailStep(cells, lava, p, q);
      var rest := FluidHasAnOrigin(cells, lava, maxY, q);
      trail := [p] + rest;
      assert forall i :: 0 <= i < |rest| ==> trail[i + 1] == rest[i];
    }
  }

  /** The neighbour that a level came from. */
  ghost function Origin(cells: Cells, lava: bool, p: Cell, d: Option<Flow>): (q: Cell)
    requires IsDesired(cells, lava, p, d) && d.Some? && !d.value.falling && d != Some(SOURCE)
    ensures exists dir: nat :: dir < 4 && q == Beside(p, dir)
    ensures FluidAt(cells, lava, q).Some? && FluidAt(cells, lava, q).value.level + 1 == d.value.level
    ensures SpreadLevel(cells, lava, q) == Some(d.value.level - 1)
  {
    var dir: nat :| dir < 4 && SpreadLevel(cells, lava, Beside(p, dir)) == Some(d.value.level - 1);
    Beside(p, dir)
  }

  // ----- Uniqueness -----

  /** The two fields have the same loaded cells, the same non-replaceable terrain, the same
      waterlogged hosts and the same sources. */
  ghost predicate SameGround(a: Cells, b: Cells, lava: bool) {
    && a.Keys == b.Keys
    && forall p :: p in a ==>
         && (IsReplaceable(lava, a[p]) <==> IsReplaceable(lava, b[p]))
         && (IsPermanent(lava, a[p]) <==> IsPermanent(lava, b[p]))
         && (IsWaterlogged(a[p]) <==> IsWaterlogged(b[p]))
  }

  ghost predicate SettledField(cells: Cells, lava: bool, maxY: int) {
    Settled(cells, lava) && OneFluid(cells, lava) && InRange(cells, maxY)
  }

  lemma SameSupport(a: Cells, b: Cells, lava: bool, p: Cell)
    requires SameGround(a, b, lava) && OneFluid(a, lava) && OneFluid(b, lava)
    ensures IsSupported(a, lava, p) <==> IsSupported(b, lava, p)
  {
  }

  lemma PermanentShowsSource(cells: Cells, lava: bool, p: Cell)
    requires OneFluid(cells, lava) && p in cells
    ensures IsPermanent(lava, cells[p]) ==> FluidAt(cells, lava, p) == Some(SOURCE)
    ensures FluidAt(cells, lava, p) == Some(SOURCE) ==> IsPermanent(lava, cells[p])
  {
  }

  lemma SameSource(a: Cells, b: Cells, n: Cell)
    requires SameGround(a, b, false) && OneFluid(a, false) && OneFluid(b, false)
    ensures IsWaterSource(a, n) <==> IsWaterSource(b, n)
  {
  }

  lemma SameSources(a: Cells, b: Cells, p: Cell, dirs: nat)
    requires SameGround(a, b, false) && OneFluid(a, false) && OneFluid(b, false) && dirs <= 4
    ensures SourcesBeside(a, p, dirs) == SourcesBeside(b, p, dirs)
  {
    forall n ensures IsWaterSource(a, n) <==> IsWaterSource(b, n) {
      SameSource(a, b, n);
    }
    assert SourceSides(a, p, dirs) == SourceSides(b, p, dirs);
  }

  /** One direction of the argument: a flow of at most level `k` in one field is the flow of the
      other, given that this holds above and, beside, for lower levels. */
  lemma {:induction false} FlowCarriesOver(a: Cells, b: Cells, lava: bool, maxY: int, p: Cell, k: nat)
    requires SettledField(a, lava, maxY) && SettledField(b, lava, maxY) && SameGround(a, b, lava)
    requires FluidAt(a, lava, p).Some? && FluidAt(a, lava, p).value.level <= k
    ensures FluidAt(b, lava, p) == FluidAt(a, lava, p)
    decreases maxY - p.y, k, 1
  {
    PermanentShowsSource(a, lava, p);
    PermanentShowsSource(b, lava, p);
    hide Settled, InRange, IsSupported, SourcesBeside, IsBest;
    if !IsPermanent(lava, a[p]) {
      var d := DesiredExists(a, lava, p);
      var e := DesiredExists(b, lava, p);
      SettledShowsDesired(a, lava, p, d);
      SettledShowsDesired(b, lava, p, e);
      SameAbove(a, b, lava, maxY, p);
      SameSupport(a, b, lava, p);
      if !lava { SameSources(a, b, p, 4); }
      if FluidAt(a, lava, Up(p)).None? {
        SameBest(a, b, lava, maxY, p, k, d, e);
      }
      assert d == e;
    }
  }

  lemma {:induction false} SameAbove(a: Cells, b: Cells, lava: bool, maxY: int, p: Cell)
    requires SettledField(a, lava, maxY) && SettledField(b, lava, maxY) && SameGround(a, b, lava) && p in a
    ensures FluidAt(a, lava, Up(p)).Some? <==> FluidAt(b, lava, Up(p)).Some?
    decreases maxY - p.y, 0, 0
  {
    if FluidAt(a, lava, Up(p)).Some? { FlowCarriesOver(a, b, lava, maxY, Up(p), 7); }
    if FluidAt(b, lava, Up(p)).Some? { FlowCarriesOver(b, a, lava, maxY, Up(p), 7); }
  }

  lemma {:induction false} SameBest(a: Cells, b: Cells, lava: bool, maxY: int, p: Cell, k: nat, d: Option<Flow>,
                                    e: Option<Flow>)
    requires SettledField(a, lava, maxY) && SettledField(b, lava, maxY) && SameGround(a, b, lava) && p in a
    requires IsDesired(a, lava, p, d) && IsDesired(b, lava, p, e) && d.Some? && d.value.level <= k
    requires FluidAt(a, lava, Up(p)).None? && FluidAt(b, lava, Up(p)).None? && d != Some(SOURCE)
    requires IsSupported(a, lava, p) <==> IsSupported(b, lava, p)
    requires !lava ==> SourcesBeside(a, p, 4) == SourcesBeside(b, p, 4)
    requires SameGround(b, a, lava) && OneFluid(a, lava) && OneFluid(b, lava)
    ensures d == e
    decreases maxY - p.y, k, 0
  {
    hide Settled, OneFluid, InRange, SameGround, FluidAt, SpreadLevel, IsSupported, SourcesBeside, IsBest;
    var n := Origin(a, lava, p, d);
    FlowCarriesOver(a, b, lava, maxY, n, k - 1);
    SameSupport(a, b, lava, n);
    SpreadsAlike(a, b, lava, n);
    NotHigher(b, lava, p, n, d.value.level - 1, e);
    var o := Origin(b, lava, p, e);
    FlowCarriesOver(b, a, lava, maxY, o, k - 1);
    SameSupport(a, b, lava, o);
    SpreadsAlike(a, b, lava, o);
    NotHigher(a, lava, p, o, e.value.level - 1, d);
  }

  lemma SpreadsAlike(a: Cells, b: Cells, lava: bool, n: Cell)
    requires FluidAt(a, lava, n) == FluidAt(b, lava, n) && (IsSupported(a, lava, n) <==> IsSupported(b, lava, n))
    ensures SpreadLevel(a, lava, n) == SpreadLevel(b, lava, n)
  {
  }

  /** A neighbour that spreads bounds the level that flows in. */
  lemma NotHigher(cells: Cells, lava: bool, p: Cell, n: Cell, level: nat, d: Option<Flow>)
    requires IsDesired(cells, lava, p, d) && FluidAt(cells, lava, Up(p)).None?
    requires !(!lava && IsSupported(cells, lava, p) && SourcesBeside(cells, p, 4) >= 2)
    requires SpreadLevel(cells, lava, n) == Some(level) && exists dir: nat :: dir < 4 && n == Beside(p, dir)
    ensures d.Some? && !d.value.falling && 0 < d.value.level <= level + 1
  {
    var dir: nat :| dir < 4 && n == Beside(p, dir);
    assert SpreadLevel(cells, lava, Beside(p, dir)).Some?;
  }

  /** Settled flow is unique: terrain, hosts and sources determine every cell's fluid, level and
      falling flag. */
  lemma SettledFlowIsUnique(a: Cells, b: Cells, lava: bool, maxY: int, p: Cell)
    requires SettledField(a, lava, maxY) && SettledField(b, lava, maxY) && SameGround(a, b, lava)
    ensures FluidAt(a, lava, p) == FluidAt(b, lava, p)
  {
    if FluidAt(a, lava, p).Some? {
      FlowCarriesOver(a, b, lava, maxY, p, 7);
    } else if FluidAt(b, lava, p).Some? {
      FlowCarriesOver(b, a, lava, maxY, p, 7);
    }
  }
}
