/** Visits in any fair order settle a finite field of one fluid: sources only appear, and then the
    layers settle from the top, each from its lowest levels up. */
module FluidSettling {
  import opened Positions
  import opened Options
  import opened FluidRules
  import opened FluidQueues
  import opened FluidTheory

  /** One visit. */
  ghost predicate Steps(a: Cells, b: Cells, lava: bool, p: Cell) {
    p in a && exists d :: IsDesired(a, lava, p, d) && b == a[p := Visited(lava, a[p], d)]
  }

  /** An endless run of visits to cells of a field of one fluid. */
  ghost predicate IsRun(states: nat -> Cells, visits: nat -> Cell, lava: bool, maxY: int) {
    && OneFluid(states(0), lava) && InRange(states(0), maxY)
    && forall n: nat :: Steps(states(n), states(n + 1), lava, visits(n))
  }

  ghost predicate VisitedFrom(visits: nat -> Cell, n: nat, p: Cell) {
    exists m: nat :: n <= m && visits(m) == p
  }

  /** No cell is ever left out for good. */
  ghost predicate IsFair(states: nat -> Cells, visits: nat -> Cell) {
    forall n: nat, p :: p in states(0) ==> VisitedFrom(visits, n, p)
  }

  // ----- What a run keeps -----

  /** What no visit changes: the loaded cells, the support they give, where the fluid may flow, the
      waterlogged hosts, and the sources there are. */
  ghost predicate SameBed(a: Cells, b: Cells, lava: bool) {
    && a.Keys == b.Keys
    && (forall p :: IsSupported(a, lava, p) <==> IsSupported(b, lava, p))
    && forall p :: p in a ==>
         && (IsPermanent(lava, a[p]) ==> IsPermanent(lava, b[p]))
         && (IsReplaceable(lava, a[p]) <==> IsReplaceable(lava, b[p]))
         && (IsWaterlogged(a[p]) <==> IsWaterlogged(b[p]))
  }

  lemma VisitKeeps(a: Cells, b: Cells, lava: bool, maxY: int, p: Cell)
    requires Steps(a, b, lava, p) && OneFluid(a, lava) && InRange(a, maxY)
    ensures OneFluid(b, lava) && InRange(b, maxY) && SameBed(a, b, lava)
  {
    hide IsDesired, Visited, IsPermanent, IsReplaceable, IsWaterlogged;
    var d :| IsDesired(a, lava, p, d) && b == a[p := Visited(lava, a[p], d)];
    DesiredInRange(a, lava, maxY, p, d);
    VisitKeepsCell(lava, a[p], d);
    forall q ensures IsSupported(a, lava, q) <==> IsSupported(b, lava, q) {
      if Down(q) == p { SupportStays(lava, a[p], d); }
    }
  }

  lemma VisitKeepsCell(lava: bool, c: FluidCell, d: Option<Flow>)
    requires c.block != FluidBlock(!lava) && c.level <= 7 && (d.Some? ==> d.value.level <= 7)
    ensures var v := Visited(lava, c, d);
      && v.block != FluidBlock(!lava) && v.level <= 7
      && (IsPermanent(lava, c) ==> IsPermanent(lava, v))
      && (IsReplaceable(lava, c) <==> IsReplaceable(lava, v))
      && (IsWaterlogged(c) <==> IsWaterlogged(v))
  {
  }

  lemma DesiredInRange(cells: Cells, lava: bool, maxY: int, p: Cell, d: Option<Flow>)
    requires IsDesired(cells, lava, p, d)
    ensures d.Some? ==> d.value.level <= 7
  {
  }

  /** A block that supports is not replaced, and what replaces others does not support. */
  lemma SupportStays(lava: bool, c: FluidCell, d: Option<Flow>)
    requires c.block != FluidBlock(!lava)
    ensures var (x, y) := (c.block, Visited(lava, c, d).block);
      (x != Air && x != FluidBlock(lava) && !IsPassable(x)) <==> (y != Air && y != FluidBlock(lava) && !IsPassable(y))
  {
  }

  lemma {:induction false} RunKeeps(states: nat -> Cells, visits: nat -> Cell, lava: bool, maxY: int, n: nat, m: nat)
    requires IsRun(states, visits, lava, maxY) && n <= m
    ensures OneFluid(states(n), lava) && InRange(states(n), maxY)
    ensures OneFluid(states(m), lava) && InRange(states(m), maxY) && SameBed(states(n), states(m), lava)
    decreases m
  {
    hide OneFluid, InRange, SameBed, Steps;
    if m == 0 {
      BedIsItself(states(0), lava);
    } else if n < m {
      RunKeeps(states, visits, lava, maxY, n, m - 1);
      VisitKeeps(states(m - 1), states(m), lava, maxY, visits(m - 1));
      BedTwice(states(n), states(m - 1), states(m), lava);
    } else {
      RunKeeps(states, visits, lava, maxY, m - 1, m - 1);
      VisitKeeps(states(m - 1), states(m), lava, maxY, visits(m - 1));
      BedIsItself(states(m), lava);
    }
  }

  lemma BedIsItself(a: Cells, lava: bool)
    ensures SameBed(a, a, lava)
  {
  }

  lemma BedTwice(a: Cells, b: Cells, c: Cells, lava: bool)
    requires SameBed(a, b, lava) && SameBed(b, c, lava)
    ensures SameBed(a, c, lava)
  {
  }

  // ----- Sources -----

  ghost function Sources(cells: Cells, lava: bool): set<Cell> {
    set p | p in cells && IsPermanent(lava, cells[p])
  }

  /** From some moment on there are no new sources. */
  lemma {:induction false} SourcesSettle(states: nat -> Cells, visits: nat -> Cell, lava: bool, maxY: int, from: nat)
    returns (n: nat)
    requires IsRun(states, visits, lava, maxY)
    ensures forall m: nat :: n <= m ==> Sources(states(m), lava) == Sources(states(n), lava)
    decreases |states(from).Keys| - |Sources(states(from), lava)|
  {
    SourcesAreFew(states(from), lava);
    if m: nat :| from <= m && Sources(states(m), lava) != Sources(states(from), lava) {
      RunKeeps(states, visits, lava, maxY, from, m);
      SourcesAreFew(states(m), lava);
      MoreSources(states(from), states(m), lava);
      n := SourcesSettle(states, visits, lava, maxY, m);
    } else {
      n := from;
    }
  }

  lemma SourcesAreFew(cells: Cells, lava: bool)
    ensures |Sources(cells, lava)| <= |cells.Keys|
  {
    SubsetIsSmaller(Sources(cells, lava), cells.Keys);
  }

  lemma {:induction false} SubsetIsSmaller<T>(a: set<T>, b: set<T>)
    requires a <= b
    ensures |a| <= |b| && (a != b ==> |a| < |b|)
  {
    if a != {} {
      var x :| x in a;
      SubsetIsSmaller(a - {x}, b - {x});
      assert a != b ==> a - {x} != b - {x} by { assert a == a - {x} + {x} && b == b - {x} + {x}; }
    }
  }

  lemma MoreSources(a: Cells, b: Cells, lava: bool)
    requires SameBed(a, b, lava) && Sources(a, lava) != Sources(b, lava)
    ensures |a.Keys| - |Sources(a, lava)| > |b.Keys| - |Sources(b, lava)|
  {
    SubsetIsSmaller(Sources(a, lava), Sources(b, lava));
  }

  // ----- Levels -----

  /** A run in which no source appears from `from` on. */
  ghost predicate IsSteady(states: nat -> Cells, visits: nat -> Cell, lava: bool, maxY: int, from: nat) {
    && IsRun(states, visits, lava, maxY)
    && forall m: nat :: from <= m ==> Sources(states(m), lava) == Sources(states(from), lava)
  }

  /** Above height `y` the fields are alike, and at `y` what flows in one below level `j` flows in the
      other. */
  ghost predicate CarriesOver(a: Cells, b: Cells, lava: bool, y: int, j: nat) {
    && (forall p: Cell :: p.y > y ==> FluidAt(a, lava, p) == FluidAt(b, lava, p))
    && forall p: Cell :: p.y == y && FluidAt(a, lava, p).Some? && FluidAt(a, lava, p).value.level < j ==>
         FluidAt(b, lava, p) == FluidAt(a, lava, p)
  }

  /** From some moment on all fields are alike above height `y` and, at `y`, below level `j`. */
  ghost predicate IsLocked(states: nat -> Cells, lava: bool, from: nat, y: int, j: nat) {
    forall n: nat, m: nat :: from <= n && from <= m ==> CarriesOver(states(n), states(m), lava, y, j)
  }

  /** What should flow into a cell at one level above those that agree is the same in both fields. */
  lemma DesiredCarriesOver(a: Cells, b: Cells, lava: bool, p: Cell, j: nat, d: Option<Flow>, e: Option<Flow>)
    requires CarriesOver(a, b, lava, p.y, j) && CarriesOver(b, a, lava, p.y, j)
    requires OneFluid(a, lava) && OneFluid(b, lava) && Sources(a, lava) == Sources(b, lava)
    requires forall q :: IsSupported(a, lava, q) <==> IsSupported(b, lava, q)
    requires IsDesired(a, lava, p, d) && IsDesired(b, lava, p, e) && d.Some? && d.value.level <= j
    ensures d == e
  {
    hide FluidAt, SpreadLevel, IsSupported, SourcesBeside, IsBest, OneFluid, Sources;
    assert FluidAt(a, lava, Up(p)) == FluidAt(b, lava, Up(p));
    if !lava { SourcesAreSources(a, b, p); }
    if FluidAt(a, lava, Up(p)).None? && d != Some(SOURCE) {
      BestCarriesOver(a, b, lava, p, j, d, e);
    }
  }

  lemma SourcesAreSources(a: Cells, b: Cells, p: Cell)
    requires OneFluid(a, false) && OneFluid(b, false) && Sources(a, false) == Sources(b, false)
    ensures SourcesBeside(a, p, 4) == SourcesBeside(b, p, 4)
  {
    forall n ensures IsWaterSource(a, n) <==> IsWaterSource(b, n) {
      assert IsWaterSource(a, n) <==> n in Sources(a, false);
      assert IsWaterSource(b, n) <==> n in Sources(b, false);
    }
    assert SourceSides(a, p, 4) == SourceSides(b, p, 4);
  }

  lemma BestCarriesOver(a: Cells, b: Cells, lava: bool, p: Cell, j: nat, d: Option<Flow>, e: Option<Flow>)
    requires CarriesOver(a, b, lava, p.y, j) && CarriesOver(b, a, lava, p.y, j)
    requires forall q :: IsSupported(a, lava, q) <==> IsSupported(b, lava, q)
    requires IsDesired(a, lava, p, d) && IsDesired(b, lava, p, e) && d.Some? && d.value.level <= j
    requires FluidAt(a, lava, Up(p)).None? && FluidAt(b, lava, Up(p)).None? && d != Some(SOURCE)
    requires !(!lava && IsSupported(b, lava, p) && SourcesBeside(b, p, 4) >= 2)
    ensures d == e
  {
    hide FluidAt, SpreadLevel, IsSupported, SourcesBeside, IsBest, IsPermanent;
    var n := Origin(a, lava, p, d);
    SpreadsAlike(a, b, lava, n);
    NotHigher(b, lava, p, n, d.value.level - 1, e);
    var o := Origin(b, lava, p, e);
    SpreadsAlike(a, b, lava, o);
    NotHigher(a, lava, p, o, e.value.level - 1, d);
  }

  // ----- Visits -----

  /** A visit leaves the flow it found desired where the fluid may be, and nothing else changes. */
  lemma VisitShows(a: Cells, b: Cells, lava: bool, p: Cell, q: Cell) returns (d: Option<Flow>)
    requires Steps(a, b, lava, q) && OneFluid(a, lava) && p in a
    ensures IsDesired(a, lava, q, d)
    ensures p != q || !CanFlow(lava, a[p]) ==> b[p] == a[p]
    ensures p == q && CanFlow(lava, a[p]) ==>
              FluidAt(b, lava, p) == d && (CanFlow(lava, b[p]) || IsPermanent(lava, b[p]))
  {
    hide IsDesired;
    d :| IsDesired(a, lava, q, d) && b == a[q := Visited(lava, a[q], d)];
  }

  lemma {:induction false} StaysOut(states: nat -> Cells, visits: nat -> Cell, lava: bool, maxY: int, from: nat, n: nat,
                                    p: Cell)
    requires IsRun(states, visits, lava, maxY) && from <= n
    requires p in states(from) && !CanFlow(lava, states(from)[p])
    ensures p in states(n) && states(n)[p] == states(from)[p]
    decreases n
  {
    hide OneFluid, InRange, Steps, CanFlow, IsDesired;
    if from < n {
      StaysOut(states, visits, lava, maxY, from, n - 1, p);
      RunKeeps(states, visits, lava, maxY, n - 1, n);
      var _ := VisitShows(states(n - 1), states(n), lava, p, visits(n - 1));
    }
  }

  lemma {:induction false} StaysIn(states: nat -> Cells, visits: nat -> Cell, lava: bool, maxY: int, from: nat, n: nat,
                                   p: Cell)
    requires IsSteady(states, visits, lava, maxY, from) && from <= n
    requires p in states(from) && CanFlow(lava, states(from)[p])
    ensures p in states(n) && CanFlow(lava, states(n)[p])
    decreases n
  {
    hide OneFluid, InRange, Steps, IsDesired, IsPermanent, IsReplaceable;
    if from < n {
      StaysIn(states, visits, lava, maxY, from, n - 1, p);
      RunKeeps(states, visits, lava, maxY, n - 1, n);
      var _ := VisitShows(states(n - 1), states(n), lava, p, visits(n - 1));
      assert p !in Sources(states(from), lava) && p !in Sources(states(n), lava);
    }
  }

  /** What a cell shows is what the last visit to it found desired. */
  lemma {:induction false} LastVisit(states: nat -> Cells, visits: nat -> Cell, lava: bool, maxY: int, from: nat,
                                     k: nat, n: nat)
    returns (m: nat, d: Option<Flow>)
    requires IsSteady(states, visits, lava, maxY, from) && from <= k < n
    requires visits(k) in states(from) && CanFlow(lava, states(from)[visits(k)])
    ensures from <= m < n && IsDesired(states(m), lava, visits(k), d) && FluidAt(states(n), lava, visits(k)) == d
    decreases n
  {
    hide OneFluid, InRange, Steps, IsDesired, CanFlow;
    var p := visits(k);
    StaysIn(states, visits, lava, maxY, from, n - 1, p);
    RunKeeps(states, visits, lava, maxY, n - 1, n);
    d := VisitShows(states(n - 1), states(n), lava, p, visits(n - 1));
    if visits(n - 1) == p {
      m := n - 1;
    } else {
      m, d := LastVisit(states, visits, lava, maxY, from, k, n - 1);
    }
  }

  // ----- Rounds -----

  ghost predicate VisitedWithin(visits: nat -> Cell, from: nat, to: nat, p: Cell) {
    exists k: nat :: from <= k < to && visits(k) == p
  }

  /** A fair run comes to every cell within finitely many visits. */
  lemma {:induction false} RoundEnds(states: nat -> Cells, visits: nat -> Cell, from: nat, cells: set<Cell>)
    returns (to: nat)
    requires IsFair(states, visits) && cells <= states(0).Keys
    ensures from <= to && forall p :: p in cells ==> VisitedWithin(visits, from, to, p)
  {
    to := from;
    if cells != {} {
      var p :| p in cells;
      to := RoundEnds(states, visits, from, cells - {p});
      assert VisitedFrom(visits, from, p);
      var k: nat :| from <= k && visits(k) == p;
      forall q | q in cells ensures VisitedWithin(visits, from, if k < to then to else k + 1, q) {
        if q != p {
          assert q in cells - {p} && VisitedWithin(visits, from, to, q);
          var i: nat :| from <= i < to && visits(i) == q;
        }
      }
      to := if k < to then to else k + 1;
    }
  }

  /** After one more round the next level is locked too. */
  lemma LevelLocks(states: nat -> Cells, visits: nat -> Cell, lava: bool, maxY: int, from: nat, to: nat, y: int, j: nat)
    requires IsSteady(states, visits, lava, maxY, from) && IsLocked(states, lava, from, y, j) && from <= to
    requires forall p :: p in states(0) ==> VisitedWithin(visits, from, to, p)
    ensures IsLocked(states, lava, to, y, j + 1)
  {
    hide VisitedWithin, CarriesOver;
    forall n: nat, m: nat | to <= n && to <= m ensures CarriesOver(states(n), states(m), lava, y, j + 1) {
      assert CarriesOver(states(n), states(m), lava, y, j);
      forall p: Cell | p.y == y && FluidAt(states(n), lava, p).Some? && FluidAt(states(n), lava, p).value.level <= j
        ensures FluidAt(states(m), lava, p) == FluidAt(states(n), lava, p)
      {
        CellLocks(states, visits, lava, maxY, from, to, n, m, j, p);
      }
      CarriesFurther(states(n), states(m), lava, y, j);
    }
  }

  lemma CarriesFurther(a: Cells, b: Cells, lava: bool, y: int, j: nat)
    requires CarriesOver(a, b, lava, y, j)
    requires forall p: Cell :: p.y == y && FluidAt(a, lava, p).Some? && FluidAt(a, lava, p).value.level <= j ==>
               FluidAt(b, lava, p) == FluidAt(a, lava, p)
    ensures CarriesOver(a, b, lava, y, j + 1)
  {
  }

  lemma CellLocks(states: nat -> Cells, visits: nat -> Cell, lava: bool, maxY: int, from: nat, to: nat, n: nat, m: nat,
                  j: nat, p: Cell)
    requires IsSteady(states, visits, lava, maxY, from) && IsLocked(states, lava, from, p.y, j) && from <= to
    requires to <= n && to <= m && (p in states(0) ==> VisitedWithin(visits, from, to, p))
    requires FluidAt(states(n), lava, p).Some? && FluidAt(states(n), lava, p).value.level <= j
    ensures FluidAt(states(m), lava, p) == FluidAt(states(n), lava, p)
  {
    hide Steps, IsDesired, CanFlow, OneFluid, InRange, Sources, CarriesOver;
    RunKeeps(states, visits, lava, maxY, 0, n);
    RunKeeps(states, visits, lava, maxY, 0, from);
    assert p in states(0);
    if CanFlow(lava, states(from)[p]) {
      var k: nat :| from <= k < to && visits(k) == p;
      var i, d := LastVisit(states, visits, lava, maxY, from, k, n);
      var i', d' := LastVisit(states, visits, lava, maxY, from, k, m);
      assert CarriesOver(states(i), states(i'), lava, p.y, j) && CarriesOver(states(i'), states(i), lava, p.y, j);
      BedAtAnyTwo(states, visits, lava, maxY, i, i');
      DesiredCarriesOver(states(i), states(i'), lava, p, j, d, d');
    } else {
      StaysOut(states, visits, lava, maxY, from, n, p);
      StaysOut(states, visits, lava, maxY, from, m, p);
    }
  }

  lemma BedAtAnyTwo(states: nat -> Cells, visits: nat -> Cell, lava: bool, maxY: int, n: nat, m: nat)
    requires IsRun(states, visits, lava, maxY)
    ensures OneFluid(states(n), lava) && OneFluid(states(m), lava)
    ensures states(n).Keys == states(m).Keys
    ensures forall p :: IsSupported(states(n), lava, p) <==> IsSupported(states(m), lava, p)
  {
    hide OneFluid, InRange, Steps;
    if n <= m {
      RunKeeps(states, visits, lava, maxY, n, m);
    } else {
      RunKeeps(states, visits, lava, maxY, m, n);
    }
  }

  /** Round by round, all the levels of a layer are locked. */
  lemma {:induction false} LayerLocks(states: nat -> Cells, visits: nat -> Cell, lava: bool, maxY: int, from: nat,
                                      y: int, j: nat)
    returns (to: nat)
    requires IsSteady(states, visits, lava, maxY, from) && IsFair(states, visits) && j <= 8
    requires IsLocked(states, lava, from, y, j)
    ensures from <= to && IsLocked(states, lava, to, y, 8)
    decreases 8 - j
  {
    hide IsLocked, IsFair;
    to := from;
    if j < 8 {
      to := RoundEnds(states, visits, from, states(0).Keys);
      LevelLocks(states, visits, lava, maxY, from, to, y, j);
      to := LayerLocks(states, visits, lava, maxY, to, y, j + 1);
    }
  }

  /** Layer by layer, everything down to height `low` is locked. */
  lemma {:induction false} LayersLock(states: nat -> Cells, visits: nat -> Cell, lava: bool, maxY: int, from: nat,
                                      low: int)
    returns (to: nat)
    requires IsSteady(states, visits, lava, maxY, from) && IsFair(states, visits)
    ensures from <= to && IsLocked(states, lava, to, low, 0)
    decreases maxY - low
  {
    hide IsLocked, IsFair;
    if maxY <= low {
      to := from;
      NothingAbove(states, visits, lava, maxY, from, low);
    } else {
      to := LayersLock(states, visits, lava, maxY, from, low + 1);
      to := LayerLocks(states, visits, lava, maxY, to, low + 1, 0);
      NextLayer(states, visits, lava, maxY, to, low);
    }
  }

  lemma NothingAbove(states: nat -> Cells, visits: nat -> Cell, lava: bool, maxY: int, from: nat, y: int)
    requires IsRun(states, visits, lava, maxY) && maxY <= y
    ensures IsLocked(states, lava, from, y, 0)
  {
    hide Steps, OneFluid;
    forall n: nat, p: Cell | p.y > y ensures FluidAt(states(n), lava, p).None? {
      RunKeeps(states, visits, lava, maxY, n, n);
    }
  }

  lemma NextLayer(states: nat -> Cells, visits: nat -> Cell, lava: bool, maxY: int, from: nat, y: int)
    requires IsRun(states, visits, lava, maxY) && IsLocked(states, lava, from, y + 1, 8)
    ensures IsLocked(states, lava, from, y, 0)
  {
    hide Steps, OneFluid, FluidAt;
    forall n: nat, m: nat, p: Cell | from <= n && from <= m && p.y > y
      ensures FluidAt(states(n), lava, p) == FluidAt(states(m), lava, p)
    {
      assert CarriesOver(states(n), states(m), lava, y + 1, 8) && CarriesOver(states(m), states(n), lava, y + 1, 8);
      LevelsFit(states, visits, lava, maxY, n, p);
      LevelsFit(states, visits, lava, maxY, m, p);
    }
  }

  lemma LevelsFit(states: nat -> Cells, visits: nat -> Cell, lava: bool, maxY: int, n: nat, p: Cell)
    requires IsRun(states, visits, lava, maxY)
    ensures FluidAt(states(n), lava, p).Some? ==> FluidAt(states(n), lava, p).value.level < 8
  {
    hide Steps, OneFluid;
    RunKeeps(states, visits, lava, maxY, n, n);
  }

  // ----- Settling -----

  /** However the visits to a field of one fluid are ordered, if none of its cells is left out for good
      then from some moment on the field is settled and nothing changes any more. */
  lemma FairVisitsSettle(states: nat -> Cells, visits: nat -> Cell, lava: bool, maxY: int) returns (end: nat)
    requires IsRun(states, visits, lava, maxY) && IsFair(states, visits)
    ensures Settled(states(end), lava)
    ensures forall n: nat :: end <= n ==> states(n) == states(end)
  {
    hide IsFair, Steps, Settled, IsLocked, InRange, OneFluid, Sources;
    var from := SourcesSettle(states, visits, lava, maxY, 0);
    var low := Bottom(states(0).Keys);
    end := LayersLock(states, visits, lava, maxY, from, low - 1);
    forall n: nat | end <= n ensures states(n) == states(end) {
      StandsStill(states, visits, lava, maxY, low, end, n);
    }
    EndIsSettled(states, visits, lava, maxY, end);
  }

  /** The order of the visits shows in the sources that appear and in nothing else: two fair runs from
      one field that end with the same sources end with the same flow everywhere. */
  lemma OrderShowsInSources(states: nat -> Cells, visits: nat -> Cell, others: nat -> Cells, visits': nat -> Cell,
                            lava: bool, maxY: int)
    returns (end: nat, end': nat)
    requires IsRun(states, visits, lava, maxY) && IsFair(states, visits)
    requires IsRun(others, visits', lava, maxY) && IsFair(others, visits') && states(0) == others(0)
    ensures Settled(states(end), lava) && Settled(others(end'), lava)
    ensures Sources(states(end), lava) == Sources(others(end'), lava) ==>
              forall p :: FluidAt(states(end), lava, p) == FluidAt(others(end'), lava, p)
  {
    hide IsFair, Steps, Settled, InRange, OneFluid, FluidAt, IsSupported, IsReplaceable, IsPermanent;
    end := FairVisitsSettle(states, visits, lava, maxY);
    end' := FairVisitsSettle(others, visits', lava, maxY);
    var (a, b) := (states(end), others(end'));
    if Sources(a, lava) == Sources(b, lava) {
      RunKeeps(states, visits, lava, maxY, 0, end);
      RunKeeps(others, visits', lava, maxY, 0, end');
      SameSourcesSameGround(states(0), a, b, lava);
      forall p ensures FluidAt(a, lava, p) == FluidAt(b, lava, p) {
        SettledFlowIsUnique(a, b, lava, maxY, p);
      }
    }
  }

  lemma SameSourcesSameGround(start: Cells, a: Cells, b: Cells, lava: bool)
    requires SameBed(start, a, lava) && SameBed(start, b, lava) && Sources(a, lava) == Sources(b, lava)
    ensures SameGround(a, b, lava)
  {
    hide IsPermanent, IsReplaceable, IsWaterlogged, IsSupported;
    forall p | p in a ensures IsPermanent(lava, a[p]) <==> IsPermanent(lava, b[p]) {
      assert p in Sources(a, lava) <==> p in Sources(b, lava);
    }
  }

  lemma {:induction false} Bottom(cells: set<Cell>) returns (low: int)
    ensures forall p: Cell :: p in cells ==> low <= p.y
  {
    low := 0;
    if cells != {} {
      var p :| p in cells;
      var rest := Bottom(cells - {p});
      low := if p.y < rest then p.y else rest;
    }
  }

  lemma {:induction false} StandsStill(states: nat -> Cells, visits: nat -> Cell, lava: bool, maxY: int, low: int,
                                       from: nat, n: nat)
    requires IsRun(states, visits, lava, maxY) && IsLocked(states, lava, from, low - 1, 0) && from <= n
    requires forall p: Cell :: p in states(0) ==> low <= p.y
    ensures states(n) == states(from)
    decreases n
  {
    hide Steps, InRange, OneFluid, FluidAt, IsSupported, IsReplaceable, IsPermanent;
    if from < n {
      StandsStill(states, visits, lava, maxY, low, from, n - 1);
      var (a, b) := (states(n - 1), states(n));
      SameCells(states, visits, lava, maxY, n - 1);
      assert CarriesOver(a, b, lava, low - 1, 0);
      assert Steps(a, b, lava, visits(n - 1));
      SameFlowIsStill(a, b, lava, visits(n - 1));
    }
  }

  lemma SameCells(states: nat -> Cells, visits: nat -> Cell, lava: bool, maxY: int, n: nat)
    requires IsRun(states, visits, lava, maxY)
    ensures states(n).Keys == states(0).Keys && OneFluid(states(n), lava)
  {
    hide Steps, InRange, OneFluid;
    RunKeeps(states, visits, lava, maxY, 0, n);
  }

  /** A visit that leaves the same flow leaves the same cell. */
  lemma SameFlowIsStill(a: Cells, b: Cells, lava: bool, q: Cell)
    requires Steps(a, b, lava, q) && OneFluid(a, lava)
    requires forall p :: p in a ==> FluidAt(a, lava, p) == FluidAt(b, lava, p)
    ensures a == b
  {
    hide IsDesired;
    var d :| IsDesired(a, lava, q, d) && b == a[q := Visited(lava, a[q], d)];
    assert b[q] == a[q];
  }

  lemma EndIsSettled(states: nat -> Cells, visits: nat -> Cell, lava: bool, maxY: int, end: nat)
    requires IsRun(states, visits, lava, maxY) && IsFair(states, visits)
    requires forall n: nat :: end <= n ==> states(n) == states(end)
    ensures Settled(states(end), lava)
  {
    hide IsDesired, Visited, OneFluid, InRange;
    var cells := states(end);
    forall p, d | p in cells && IsDesired(cells, lava, p, d) ensures Visited(lava, cells[p], d) == cells[p] {
      RunKeeps(states, visits, lava, maxY, 0, end);
      assert VisitedFrom(visits, end, p);
      var n: nat :| end <= n && visits(n) == p;
      assert Steps(states(n), states(n + 1), lava, p);
      var e :| IsDesired(cells, lava, p, e) && cells == cells[p := Visited(lava, cells[p], e)];
      DesiredIsUnique(cells, lava, p, d, e);
    }
  }
}
