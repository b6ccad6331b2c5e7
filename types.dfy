/** The record shapes of src/types/game.ts and the axis-distance test the engine uses on them. */
module GameTypes {

  /** A point or a vector in grid units; coordinates are not snapped to cells. */
  datatype Position = Position(x: real, y: real)

  /** A force field crossing the grid: where it started, which way it pushes, how hard, and how far along it is. */
  datatype Wave = Wave(origin: Position, direction: Position, strength: real, progress: real)

  function Abs(r: real): (a: real)
    ensures a >= 0.0 && (a == r || a == -r)
  {
    if r < 0.0 then -r else r
  }

  /** Both axis distances are strictly below `radius`: the proximity test behind placement, self-collision and collection. */
  predicate Near(a: Position, b: Position, radius: real)
  {
    Abs(a.x - b.x) < radius && Abs(a.y - b.y) < radius
  }
}
