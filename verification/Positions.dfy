/** Positions in the world: points, block cells, and the chunk columns that hold them. */
module Positions {
  const CHUNK_WIDTH := 16

  datatype Vec3 = Vec3(x: real, y: real, z: real)

  datatype Cell = Cell(x: int, y: int, z: int)

  function Up(c: Cell): Cell { Cell(c.x, c.y + 1, c.z) }

  type Column = (int, int)

  function ColumnOf(c: Cell): Column {
    (c.x / CHUNK_WIDTH, c.z / CHUNK_WIDTH)
  }
}
