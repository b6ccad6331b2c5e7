/**
 * Placement of the collectible orb. The engine draws candidate cells at random until one
 * is clear of the snake and of the walls. Here the draws are an input, tried in order;
 * when they run out, a row-major scan of the placement area takes over, so that the
 * search always ends: with a free cell if there is one, with None if there is none.
 */
module Collectibles {
  import opened GameTypes
  import opened Tuning
  import opened Walls

  datatype Option<T> = None | Some(value: T)

  /** The placement area has a margin of 2 on each side of the grid, so it is 24 - 4 = 20 cells wide. */
  const Margin: int := 2
  const Span: int := 20
  const AreaCells: int := 400

  /** Integer coordinates, both in [2, 21]. */
  predicate InPlacementArea(p: Position)
  {
    p.x.Floor as real == p.x && p.y.Floor as real == p.y &&
    Margin as real <= p.x <= (Margin + Span - 1) as real &&
    Margin as real <= p.y <= (Margin + Span - 1) as real
  }

  /** A pair of uniform draws, one per axis. */
  predicate DrawsInRange(draws: seq<(real, real)>)
  {
    forall i :: 0 <= i < |draws| ==> 0.0 <= draws[i].0 < 1.0 && 0.0 <= draws[i].1 < 1.0
  }

  /** The candidate a pair of draws yields: floor(r * 20) + 2 on each axis. */
  function Candidate(draw: (real, real)): (p: Position)
    requires 0.0 <= draw.0 < 1.0 && 0.0 <= draw.1 < 1.0
    ensures InPlacementArea(p)
  {
    Position(((draw.0 * Span as real).Floor + Margin) as real, ((draw.1 * Span as real).Floor + Margin) as real)
  }

  /** Clear of every segment by a full unit on some axis, and clear of the walls; in particular on no segment. */
  predicate Free(snake: seq<Position>, p: Position): (r: bool)
    ensures r ==> forall i :: 0 <= i < |snake| ==> snake[i] != p
  {
    (forall i :: 0 <= i < |snake| ==> !Near(snake[i], p, 1.0)) && !HitsWall(p)
  }

  /** The first draw whose candidate is free, if any. */
  function FirstFreeDraw(snake: seq<Position>, draws: seq<(real, real)>): (r: Option<Position>)
    requires DrawsInRange(draws)
    ensures r.Some? ==> Free(snake, r.value) && InPlacementArea(r.value)
  {
    if draws == [] then None
    else if Free(snake, Candidate(draws[0])) then Some(Candidate(draws[0]))
    else
      var r := FirstFreeDraw(snake, draws[1..]);
      assert forall i :: 1 <= i < |draws| ==> draws[i] == draws[1..][i - 1];
      r
  }

  /** The k-th cell of the placement area in row-major order. */
  function Cell(k: int): (p: Position)
    requires 0 <= k < AreaCells
    ensures InPlacementArea(p)
  {
    Position((k / Span + Margin) as real, (k % Span + Margin) as real)
  }

  /** The first free cell from the k-th on, if any. */
  function FirstFreeCell(snake: seq<Position>, k: nat): (r: Option<Position>)
    requires k <= AreaCells
    ensures r.Some? ==> Free(snake, r.value) && InPlacementArea(r.value)
    decreases AreaCells - k
  {
    if k == AreaCells then None
    else if Free(snake, Cell(k)) then Some(Cell(k))
    else FirstFreeCell(snake, k + 1)
  }

  /**
   * Where the orb goes: the first free drawn candidate, else the first free cell, else
   * nowhere. A placed orb is on an integer cell in [2, 21], clear of the snake and of the walls.
   */
  function Placement(snake: seq<Position>, draws: seq<(real, real)>): (r: Option<Position>)
    requires DrawsInRange(draws)
    ensures r.Some? ==> Free(snake, r.value) && InPlacementArea(r.value)
  {
    match FirstFreeDraw(snake, draws)
    case Some(p) => Some(p)
    case None => FirstFreeCell(snake, 0)
  }

  /** Every cell of the placement area is one of the scanned cells. */
  lemma CellCoversArea(p: Position) returns (k: int)
    requires InPlacementArea(p)
    ensures 0 <= k < AreaCells && Cell(k) == p
  {
    k := (p.x.Floor - Margin) * Span + (p.y.Floor - Margin);
  }

  /** The scan from the k-th cell on finds a free cell whenever one lies ahead of it. */
  lemma {:induction false} ScanFindsFreeCell(snake: seq<Position>, k: nat, j: int)
    requires k <= j < AreaCells && Free(snake, Cell(j))
    ensures FirstFreeCell(snake, k).Some?
    decreases j - k
  {
    if Free(snake, Cell(k)) {
      assert FirstFreeCell(snake, k) == Some(Cell(k));
    } else {
      ScanFindsFreeCell(snake, k + 1, j);
      assert FirstFreeCell(snake, k) == FirstFreeCell(snake, k + 1);
    }
  }

  /** Placement fails only when no cell of the area is free. */
  lemma PlacementFailsOnlyWhenFull(snake: seq<Position>, draws: seq<(real, real)>, p: Position)
    requires DrawsInRange(draws)
    requires InPlacementArea(p) && Free(snake, p)
    ensures Placement(snake, draws).Some?
  {
    var k := CellCoversArea(p);
    ScanFindsFreeCell(snake, 0, k);
  }

  /** Like the retry loop, placement takes the first acceptable draw when there is one. */
  lemma {:induction false} PlacementTakesFirstFreeDraw(snake: seq<Position>, draws: seq<(real, real)>, j: int)
    requires DrawsInRange(draws) && 0 <= j < |draws|
    requires forall i :: 0 <= i < j ==> !Free(snake, Candidate(draws[i]))
    requires Free(snake, Candidate(draws[j]))
    ensures Placement(snake, draws) == Some(Candidate(draws[j]))
  {
    if j > 0 {
      PlacementTakesFirstFreeDraw(snake, draws[1..], j - 1);
    }
  }

  /** The placement search: the drawn candidates in order, then the fallback scan. */
  method PlaceCollectible(snake: seq<Position>, draws: seq<(real, real)>) returns (p: Option<Position>)
    requires DrawsInRange(draws)
    ensures p == Placement(snake, draws)
  {
    var i := 0;
    while i < |draws|
      invariant 0 <= i <= |draws|
      invariant FirstFreeDraw(snake, draws) == FirstFreeDraw(snake, draws[i..])
    {
      assert draws[i..][1..] == draws[i + 1..];
      var candidate := Candidate(draws[i]);
      if Free(snake, candidate) {
        return Some(candidate);
      }
      i := i + 1;
    }
    var k := 0;
    while k < AreaCells
      invariant 0 <= k <= AreaCells
      invariant FirstFreeCell(snake, 0) == FirstFreeCell(snake, k)
    {
      if Free(snake, Cell(k)) {
        return Some(Cell(k));
      }
      k := k + 1;
    }
    return None;
  }
}
