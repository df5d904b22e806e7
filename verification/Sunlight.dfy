/** Sky light: its sources are the cells with nothing opaque above them, and a block edit changes
    one run of cells in one column of them. */
module Sunlight {
  import opened Positions
  import opened LightGrid
  import opened LightTheory
  import opened LightRemoval
  import opened LightEdits

  /** Nothing opaque from the cell up to the open sky. */
  ghost predicate Sunlit(g: Grid, c: Cell)
    decreases g.maxY - c.y
  {
    if c.y >= g.maxY then g.openSky else c !in g.blocking && Sunlit(g, Up(c))
  }

  ghost function SunSources(g: Grid): LightMap {
    map c | c in g.cells :: if Sunlit(g, c) then MAX_LIGHT else 0
  }

  ghost predicate WholeColumns(g: Grid) {
    forall c, y {:trigger c in g.cells, Cell(c.x, y, c.z)} ::
      c in g.cells && g.InHeight(y) ==> Cell(c.x, y, c.z) in g.cells
  }

  /** The cells of one column from `low` to `high`. */
  ghost function Run(z: Cell, low: int, high: int): set<Cell> {
    set y | low <= y <= high :: Cell(z.x, y, z.z)
  }

  lemma SunlitIsBrightest(g: Grid, m: LightMap, c: Cell)
    requires g.Valid() && Exact(g, SunSources(g), m) && c in g.cells
    ensures Sunlit(g, c) <==> Read(g, m, c) == MAX_LIGHT
    ensures c in g.blocking ==> Read(g, m, c) == 0
  {
    assert Read(g, SunSources(g), c) <= Read(g, m, c) <= MAX_LIGHT;
    if 0 < Read(g, m, c) != Read(g, SunSources(g), c) {
      assert Fed(g, m, c);
      var a :| a in g.cells && Edge(g, a, c) && Read(g, m, a) == Read(g, m, c) + 1;
      assert Read(g, m, a) <= MAX_LIGHT;
    }
  }

  lemma {:induction false} SunlitGoesUp(g: Grid, z: Cell, y: int, y': int)
    requires y <= y'
    ensures Sunlit(g, Cell(z.x, y, z.z)) ==> Sunlit(g, Cell(z.x, y', z.z))
    decreases y' - y
  {
    if y < y' { SunlitGoesUp(g, z, y + 1, y'); }
  }

  /** Cells of a column with the same blocks above them see the same sky. */
  lemma {:induction false} SameSky(g: Grid, g': Grid, z: Cell, c: Cell)
    requires SameBut(g, g', {z}) && (c.x != z.x || c.z != z.z || c.y > z.y)
    ensures Sunlit(g, c) <==> Sunlit(g', c)
    decreases g.maxY - c.y
  {
    if c.y < g.maxY { SameSky(g, g', z, Up(c)); }
  }

  /** Below a sunlit cell the lit run ends where the first opaque block is. */
  lemma {:induction false} LitRunIsSunlit(g: Grid, m: LightMap, z: Cell, low: int, y: int)
    requires g.Valid() && WholeColumns(g) && Exact(g, SunSources(g), m)
    requires z in g.cells && Sunlit(g, z) && g.minY <= low <= z.y && g.minY <= y <= z.y
    requires forall y' :: low <= y' <= z.y ==> 0 < Read(g, m, Cell(z.x, y', z.z))
    requires low == g.minY || Read(g, m, Cell(z.x, low - 1, z.z)) == 0
    ensures Sunlit(g, Cell(z.x, y, z.z)) <==> low <= y
    decreases z.y - y
  {
    hide Exact, SunSources, Read, IsLight;
    var c := Cell(z.x, y, z.z);
    if y < low {
      SunlitIsBrightest(g, m, Cell(z.x, low - 1, z.z));
      SunlitGoesUp(g, z, y, low - 1);
    } else if y < z.y {
      LitRunIsSunlit(g, m, z, low, y + 1);
      SunlitIsBrightest(g, m, c);
      assert Up(c) == Cell(z.x, y + 1, z.z);
    } else {
      assert c == z;
    }
  }

  /** Which levels `update_sky_light_after_placed` zeroes: the placed cell and, when it was at
      full sky light, the lit run below it. */
  ghost predicate ZeroedRun(g: Grid, m: LightMap, z: Cell, low: int) {
    && g.minY <= low <= z.y
    && if Read(g, m, z) == MAX_LIGHT
       then && (forall y :: low <= y <= z.y ==> 0 < Read(g, m, Cell(z.x, y, z.z)))
            && (low == g.minY || Read(g, m, Cell(z.x, low - 1, z.z)) == 0)
       else low == z.y
  }

  /** In the column of the placed block, the sunlit cells up to it are the zeroed run. */
  ghost predicate RunIsSunlit(g: Grid, z: Cell, low: int) {
    forall y :: g.minY <= y <= z.y ==> (Sunlit(g, Cell(z.x, y, z.z)) <==> Sunlit(g, z) && low <= y)
  }

  lemma ZeroedRunIsSunlit(g: Grid, m: LightMap, z: Cell, low: int)
    requires g.Valid() && WholeColumns(g) && Exact(g, SunSources(g), m) && z in g.cells && ZeroedRun(g, m, z, low)
    ensures RunIsSunlit(g, z, low)
  {
    SunlitIsBrightest(g, m, z);
    assert z == Cell(z.x, z.y, z.z);
    forall y | g.minY <= y <= z.y ensures Sunlit(g, Cell(z.x, y, z.z)) <==> Sunlit(g, z) && low <= y {
      if Sunlit(g, z) {
        LitRunIsSunlit(g, m, z, low, y);
      } else {
        SunlitGoesUp(g, z, y, z.y);
      }
    }
  }

  lemma ShadedCell(before: Grid, g: Grid, z: Cell, low: int, c: Cell)
    requires g.Valid() && SameBut(before, g, {z}) && z in g.blocking && z in g.cells && RunIsSunlit(before, z, low)
    requires c in g.cells && low <= z.y
    ensures Sunlit(g, c) <==> Sunlit(before, c) && c !in Run(z, low, z.y)
  {
    if c.x == z.x && c.z == z.z && c.y <= z.y {
      assert c == Cell(z.x, c.y, z.z) && z == Cell(z.x, z.y, z.z);
      SunlitGoesUp(g, z, c.y, z.y);
      assert !Sunlit(g, z);
    } else {
      assert c !in Run(z, low, z.y);
      SameSky(before, g, z, c);
    }
  }

  lemma RunShades(before: Grid, g: Grid, z: Cell, low: int)
    requires g.Valid() && SameBut(before, g, {z}) && z in g.blocking && z in g.cells && RunIsSunlit(before, z, low)
    requires low <= z.y
    ensures Darkened(SunSources(before), Run(z, low, z.y)) == SunSources(g)
  {
    forall c | c in g.cells ensures Sunlit(g, c) <==> Sunlit(before, c) && c !in Run(z, low, z.y) {
      ShadedCell(before, g, z, low, c);
    }
  }

  /** Zeroing that run drops exactly the sources the new block shades. */
  lemma ShadedSources(before: Grid, g: Grid, m: LightMap, z: Cell, low: int)
    requires before.Valid() && g.Valid() && WholeColumns(before) && Exact(before, SunSources(before), m)
    requires SameBut(before, g, {z}) && z in g.blocking && z in g.cells && ZeroedRun(before, m, z, low)
    ensures Darkened(SunSources(before), Run(z, low, z.y)) == SunSources(g)
  {
    ZeroedRunIsSunlit(before, m, z, low);
    RunShades(before, g, z, low);
  }

  /** Which cells `update_sky_light_after_removed` lights under an open sky: down to the first
      opaque block. */
  ghost predicate OpenRun(g: Grid, z: Cell, low: int) {
    && g.minY <= low <= z.y
    && (forall y :: low <= y <= z.y ==> Cell(z.x, y, z.z) !in g.blocking)
    && (low == g.minY || Cell(z.x, low - 1, z.z) in g.blocking)
  }

  ghost function Brightened(m: LightMap, run: set<Cell>): LightMap {
    map c | c in m :: if c in run then MAX_LIGHT else m[c]
  }

  lemma {:induction false} OpenRunIsSunlit(g: Grid, z: Cell, low: int, y: int)
    requires OpenRun(g, z, low) && Sunlit(g, Up(z)) && g.minY <= y <= z.y && g.InHeight(z.y)
    ensures Sunlit(g, Cell(z.x, y, z.z)) <==> low <= y
    decreases z.y - y
  {
    var c := Cell(z.x, y, z.z);
    if y < low {
      SunlitGoesUp(g, z, y, low - 1);
    } else {
      if y < z.y { OpenRunIsSunlit(g, z, low, y + 1); } else { assert c == z; }
      assert Up(c) == Cell(z.x, y + 1, z.z);
    }
  }

  lemma OpenedSources(before: Grid, g: Grid, z: Cell, low: int, c: Cell)
    requires before.Valid() && g.Valid() && SameBut(before, g, {z}) && z in g.cells && OpenRun(g, z, low)
    requires Sunlit(g, Up(z)) && c in g.cells
    ensures Sunlit(g, c) <==> Sunlit(before, c) || c in Run(z, low, z.y)
  {
    if c.x == z.x && c.z == z.z && c.y <= z.y {
      assert c == Cell(z.x, c.y, z.z);
      OpenRunIsSunlit(g, z, low, c.y);
      if c.y < low {
        SunlitGoesUp(before, z, c.y, low - 1);
        assert Cell(z.x, low - 1, z.z) in before.blocking;
      }
    } else {
      assert c !in Run(z, low, z.y);
      SameSky(before, g, z, c);
    }
  }

  lemma BrightenedIsQueued(before: Grid, g: Grid, m: LightMap, run: set<Cell>, z: Cell, a: Cell)
    requires before.Valid() && g.Valid() && IsLight(g, m) && Closed(before, m) && SameBut(before, g, {z})
    requires z in run && a in g.cells && !Satisfied(g, Brightened(m, run), a)
    ensures a in run
  {
    if a !in run {
      var n := Brightened(m, run);
      var b :| Edge(g, a, b) && Read(g, n, a) > Read(g, n, b) + 1;
      assert Satisfied(before, m, a);
      if b !in run { assert Edge(before, a, b); }
      assert false;
    }
  }

  lemma BrightenedFlood(before: Grid, g: Grid, m: LightMap, run: set<Cell>, z: Cell, f: LightMap)
    requires before.Valid() && g.Valid() && IsLight(g, m) && Closed(before, m) && SameBut(before, g, {z}) && z in run
    requires forall c :: c in run ==> g.InHeight(c.y)
    requires IsFlood(g, Brightened(m, run), run, f)
    ensures Exact(g, Brightened(m, run), f)
  {
    forall a | a in g.cells && !Satisfied(g, Brightened(m, run), a) ensures a in run {
      BrightenedIsQueued(before, g, m, run, z, a);
    }
    FloodIsExact(g, Brightened(m, run), run, f);
  }

  /** Opening a cell to the sky: filling the open run and flooding from it gives the sky light of
      the new terrain. */
  lemma OpenedToSky(before: Grid, g: Grid, m: LightMap, z: Cell, low: int, f: LightMap)
    requires before.Valid() && g.Valid() && Exact(before, SunSources(before), m)
    requires SameBut(before, g, {z}) && z in g.cells && OpenRun(g, z, low)
    requires Sunlit(g, Up(z))
    requires IsFlood(g, Brightened(m, Run(z, low, z.y)), Run(z, low, z.y), f)
    ensures Exact(g, SunSources(g), f)
  {
    var run := Run(z, low, z.y);
    assert z in run by { assert z == Cell(z.x, z.y, z.z); }
    assert Exact(g, Brightened(m, run), f) by { BrightenedFlood(before, g, m, run, z, f); }
    forall c | c in g.cells ensures Sunlit(g, c) <==> Sunlit(before, c) || c in run {
      OpenedSources(before, g, z, low, c);
    }
    BrightenedSources(before, g, m, run, z, f);
  }

  lemma BrightenedSources(before: Grid, g: Grid, m: LightMap, run: set<Cell>, z: Cell, f: LightMap)
    requires before.Valid() && g.Valid() && Exact(before, SunSources(before), m) && SameBut(before, g, {z}) && z in run
    requires forall c :: c in g.cells ==> (Sunlit(g, c) <==> Sunlit(before, c) || c in run)
    requires Exact(g, Brightened(m, run), f)
    ensures Exact(g, SunSources(g), f)
  {
    var n := Brightened(m, run);
    assert forall c :: c in g.cells && c in run ==> Read(g, n, c) <= Read(g, f, c);
    RewriteStaysExact(before, g, SunSources(before), m, run, SunSources(g), n, f);
  }

  /** Where the sky stays closed the sources do not change. */
  lemma ShadeKeepsSources(before: Grid, g: Grid, z: Cell)
    requires SameBut(before, g, {z}) && z in g.cells && !Sunlit(g, Up(z)) && g.Valid()
    ensures SunSources(before) == SunSources(g) && Read(g, SunSources(g), z) == 0
  {
    forall c | c in g.cells ensures Sunlit(g, c) <==> Sunlit(before, c) {
      if c.x == z.x && c.z == z.z && c.y <= z.y {
        SunlitGoesUp(g, z, c.y, z.y + 1);
        SunlitGoesUp(before, z, c.y, z.y + 1);
        assert c == Cell(z.x, c.y, z.z) && Up(z) == Cell(z.x, z.y + 1, z.z);
        SameSky(before, g, z, Up(z));
      } else {
        SameSky(before, g, z, c);
      }
    }
  }
}
