/** The wall test of the engine. */
module Walls {
  import opened GameTypes
  import opened Tuning

  /** How far from each edge of the grid the walls stand: 0.4 + 0.2 = 0.6 grid units. */
  const WallOffset: real := WallBuffer + BorderOffset

  /** A position hits a wall exactly when a coordinate leaves the band [0.6, 23.4]. */
  function HitsWall(p: Position): (hit: bool)
    ensures hit <==> !(0.6 <= p.x <= 23.4 && 0.6 <= p.y <= 23.4)
  {
    p.x < WallOffset || p.x > GridSize as real - WallOffset ||
    p.y < WallOffset || p.y > GridSize as real - WallOffset
  }

  /** The arena is symmetric: mirroring either axis or swapping the axes does not change the verdict. */
  lemma WallsAreSymmetric(p: Position)
    ensures HitsWall(Position(GridSize as real - p.x, p.y)) == HitsWall(p)
    ensures HitsWall(Position(p.x, GridSize as real - p.y)) == HitsWall(p)
    ensures HitsWall(Position(p.y, p.x)) == HitsWall(p)
  {
  }
}
