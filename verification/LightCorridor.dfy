/** A straight corridor one block wide through three loaded columns of opaque blocks, and when a
    light map of it is exact. */
module LightCorridor {
  import opened Positions
  import opened LightGrid
  import opened LightTheory
  import opened LightRemoval
  import opened LightRegion

  function At(x: int): Cell { Cell(x, 0, 0) }

  const LOADED: set<Column> := {(-1, 0), (0, 0), (1, 0)}

  function Cells(): set<Cell> {
    set x, z | -16 <= x < 32 && 0 <= z < 16 :: Cell(x, 0, z)
  }

  /** Open from `low` to `high`, opaque elsewhere. */
  function Corridor(low: int, high: int): Grid {
    Grid(0, 1, false, Cells(), set c | c in Cells() && !(c == At(c.x) && low <= c.x <= high))
  }

  function Levels(low: int, high: int, level: int -> nat): LightMap {
    map c | c in Cells() :: if c == At(c.x) && low <= c.x <= high then level(c.x) else 0
  }

  /** The corridor's cells are those of whole loaded columns. */
  lemma CorridorIsWhole(low: int, high: int)
    ensures Corridor(low, high).Valid()
    ensures forall c :: c in Corridor(low, high).cells <==> 0 <= c.y < 1 && ColumnOf(c) in LOADED
  {
    forall c ensures c in Cells() <==> 0 <= c.y < 1 && ColumnOf(c) in LOADED {
      if 0 <= c.y < 1 && ColumnOf(c) in LOADED { assert c == Cell(c.x, 0, c.z); }
    }
  }

  lemma LitReads(low: int, high: int, level: int -> nat, c: Cell)
    requires -16 <= low <= high < 32
    ensures Read(Corridor(low, high), Levels(low, high, level), c)
         == if c == At(c.x) && low <= c.x <= high then level(c.x) else 0
  {
    assert low <= c.x <= high && c == At(c.x) ==> c in Cells();
  }

  /** Levels along the corridor: at most one apart, at least the sources, and each a source's own or
      fed from one side. */
  ghost predicate IsCorridorLight(low: int, high: int, source: int -> nat, level: int -> nat) {
    && (forall x :: low <= x <= high ==> source(x) <= level(x) <= MAX_LIGHT)
    && (forall x :: low <= x < high ==> level(x) <= level(x + 1) + 1 && level(x + 1) <= level(x) + 1)
    && (forall x :: low <= x <= high && 0 < level(x) != source(x)
          ==> (low < x && level(x - 1) == level(x) + 1) || (x < high && level(x + 1) == level(x) + 1))
  }

  lemma CorridorEdge(low: int, high: int, a: Cell, b: Cell)
    requires -16 <= low <= high < 32
    ensures Edge(Corridor(low, high), a, b) <==> Adjacent(a, b) && b == At(b.x) && low <= b.x <= high
    ensures a == At(a.x) && b == At(b.x) ==> (Adjacent(a, b) <==> b.x == a.x + 1 || b.x == a.x - 1)
  {
    assert b == At(b.x) && low <= b.x <= high ==> b in Cells();
  }

  lemma CorridorIsClosed(low: int, high: int, level: int -> nat)
    requires -16 <= low <= high < 32
    requires forall x :: low <= x < high ==> level(x) <= level(x + 1) + 1 && level(x + 1) <= level(x) + 1
    ensures Closed(Corridor(low, high), Levels(low, high, level))
  {
    var g, m := Corridor(low, high), Levels(low, high, level);
    forall a, b | a in g.cells && Edge(g, a, b) ensures Read(g, m, a) <= Read(g, m, b) + 1 {
      CorridorEdge(low, high, a, b);
      LitReads(low, high, level, a);
      LitReads(low, high, level, b);
      if a == At(a.x) && low <= a.x <= high {
        var x := if a.x < b.x then a.x else b.x;
        assert level(x) <= level(x + 1) + 1 && level(x + 1) <= level(x) + 1;
      }
    }
  }

  lemma OpenIsLoaded(low: int, high: int, x: int)
    requires -16 <= low <= x <= high < 32
    ensures At(x) in Corridor(low, high).cells
  {
  }

  lemma CorridorIsFed(low: int, high: int, source: int -> nat, level: int -> nat, c: Cell)
    requires -16 <= low <= high < 32 && IsCorridorLight(low, high, source, level)
    requires var g := Corridor(low, high);
      0 < Read(g, Levels(low, high, level), c) != Read(g, Levels(low, high, source), c)
    ensures Fed(Corridor(low, high), Levels(low, high, level), c)
  {
    LitReads(low, high, level, c);
    LitReads(low, high, source, c);
    hide Corridor, Levels, Read;
    assert c == At(c.x) && low <= c.x <= high && 0 < level(c.x) != source(c.x);
    var x := if low < c.x && level(c.x - 1) == level(c.x) + 1 then c.x - 1 else c.x + 1;
    assert low <= x <= high && level(x) == level(c.x) + 1;
    LitReads(low, high, level, At(x));
    CorridorEdge(low, high, At(x), c);
    OpenIsLoaded(low, high, x);
    assert Edge(Corridor(low, high), At(x), c);
  }

  lemma CorridorIsExact(low: int, high: int, source: int -> nat, level: int -> nat)
    requires -16 <= low <= high < 32 && IsCorridorLight(low, high, source, level)
    ensures IsLight(Corridor(low, high), Levels(low, high, source))
    ensures Exact(Corridor(low, high), Levels(low, high, source), Levels(low, high, level))
  {
    hide Corridor, Levels, Fed;
    var g, s, m := Corridor(low, high), Levels(low, high, source), Levels(low, high, level);
    CorridorIsLight(low, high, source, level);
    CorridorIsClosed(low, high, level);
    forall c | c in g.cells && 0 < Read(g, m, c) != Read(g, s, c) ensures Fed(g, m, c) {
      CorridorIsFed(low, high, source, level, c);
    }
  }

  lemma CorridorIsLight(low: int, high: int, source: int -> nat, level: int -> nat)
    requires forall x :: low <= x <= high ==> source(x) <= level(x) <= MAX_LIGHT
    ensures var g := Corridor(low, high);
      && IsLight(g, Levels(low, high, source)) && IsLight(g, Levels(low, high, level))
      && Above(g, Levels(low, high, level), Levels(low, high, source))
  {
  }
}
