/** The two turn controls: each rotates the heading vector by a quarter turn. */
module Steering {
  import opened GameTypes

  /** The four axis-aligned unit headings. */
  predicate IsHeading(d: Position)
  {
    d == Position(1.0, 0.0) || d == Position(-1.0, 0.0) || d == Position(0.0, 1.0) || d == Position(0.0, -1.0)
  }

  /**
   * Turning left maps (x, y) to (y, -x). The three clauses pin the result down:
   * it is perpendicular to `d`, as long as `d`, and turned counter-clockwise on a
   * screen whose y axis grows downwards.
   */
  function TurnLeft(d: Position): (r: Position)
    ensures r.x * d.x + r.y * d.y == 0.0
    ensures r.x * r.x + r.y * r.y == d.x * d.x + d.y * d.y
    ensures d.x * r.y - d.y * r.x == -(d.x * d.x + d.y * d.y)
  {
    Position(d.y, -d.x)
  }

  /** Turning right maps (x, y) to (-y, x): perpendicular, as long, turned clockwise on screen. */
  function TurnRight(d: Position): (r: Position)
    ensures r.x * d.x + r.y * d.y == 0.0
    ensures r.x * r.x + r.y * r.y == d.x * d.x + d.y * d.y
    ensures d.x * r.y - d.y * r.x == d.x * d.x + d.y * d.y
  {
    Position(-d.y, d.x)
  }

  lemma TurnsAreInverse(d: Position)
    ensures TurnRight(TurnLeft(d)) == d
    ensures TurnLeft(TurnRight(d)) == d
  {
  }

  /** Four quarter turns the same way, or two each way, bring the heading back. */
  lemma FourTurnsAreIdentity(d: Position)
    ensures TurnLeft(TurnLeft(TurnLeft(TurnLeft(d)))) == d
    ensures TurnRight(TurnRight(TurnRight(TurnRight(d)))) == d
    ensures TurnRight(TurnRight(TurnLeft(TurnLeft(d)))) == d
  {
  }

  /** Two turns the same way reverse the heading: nothing forbids steering back into the body. */
  lemma TwoTurnsReverse(d: Position)
    ensures TurnLeft(TurnLeft(d)) == Position(-d.x, -d.y)
    ensures TurnRight(TurnRight(d)) == Position(-d.x, -d.y)
  {
  }

  lemma TurnsKeepHeading(d: Position)
    requires IsHeading(d)
    ensures IsHeading(TurnLeft(d)) && IsHeading(TurnRight(d))
  {
  }
}
