/**
 * The simulation engine: its state, one tick of the game as a function of the state before
 * it, the invariant every tick keeps, and the engine object whose methods carry it out.
 *
 * The engine queues all of a tick's updates and reads every guard from the state as it
 * was when the tick began; `Tick` reads `s` for the same reason. The updates queued before
 * an early return (the invulnerability countdown, clearing `justCollected`, aging the waves)
 * still take effect when the tick ends the game.
 */
module Simulation {
  import opened GameTypes
  import opened Tuning
  import Steering
  import opened Walls
  import opened Waves
  import opened Collectibles

  datatype State = State(
    score: int,
    lives: int,
    gameOver: bool,
    snake: seq<Position>,
    direction: Position,
    collectible: Position,
    waves: seq<Wave>,
    speed: int,
    invulnerabilityFrames: int,
    justCollected: bool)

  function Max(a: int, b: int): int
  {
    if a >= b then a else b
  }

  /** Where the head goes next: one cell along the heading, pushed by the waves. */
  function NextHead(head: Position, direction: Position, force: Position): Position
  {
    Position(head.x + direction.x + force.x, head.y + direction.y + force.y)
  }

  /** The candidate head lands on a body segment, the current head excluded. */
  predicate HitsBody(snake: seq<Position>, head: Position)
  {
    exists i :: 1 <= i < |snake| && Near(snake[i], head, CollisionThreshold)
  }

  /** Where the orb ends up after a search that returned `placed`; it stays put if no cell was free. */
  function Relocated(placed: Option<Position>, fallback: Position): Position
  {
    match placed
    case Some(p) => p
    case None => fallback
  }

  /** The candidate head of the tick that starts in `s` under the combined wave force `force`. */
  function HeadAfter(s: State, force: Position): Position
    requires |s.snake| > 0
  {
    NextHead(s.snake[0], s.direction, force)
  }

  /**
   * The updates a running tick makes whatever else happens: the countdown drops towards 0,
   * the collection flag is cleared and the waves are aged; nothing else changes.
   */
  function Aging(s: State): (r: State)
    ensures r == s.(invulnerabilityFrames := r.invulnerabilityFrames, justCollected := false, waves := r.waves)
    ensures s.invulnerabilityFrames >= 0 ==> r.invulnerabilityFrames == Max(0, s.invulnerabilityFrames - 1)
    ensures r.waves == AgeWaves(s.waves) && |r.waves| <= |s.waves|
  {
    s.(
      invulnerabilityFrames := if s.invulnerabilityFrames > 0 then s.invulnerabilityFrames - 1 else s.invulnerabilityFrames,
      justCollected := false,
      waves := AgeWaves(s.waves))
  }

  /** The self-collision test, made only when the tick started vulnerable. */
  predicate Collides(s: State, head: Position)
  {
    s.invulnerabilityFrames == 0 && HitsBody(s.snake, head)
  }

  /**
   * The move itself, from the tick's starting state `s` onto the partly updated `t`: the
   * new head leads, and either the orb is eaten (100 points, one segment more) or the snake
   * keeps its length and score. Lives, waves, heading and the countdown are those of `t`.
   */
  function Move(s: State, t: State, head: Position, placed: Option<Position>): (r: State)
    requires |s.snake| > 0
    ensures |r.snake| > 0 && r.snake[0] == head
    ensures r.lives == t.lives && r.gameOver == t.gameOver && r.waves == t.waves
    ensures r.direction == t.direction && r.invulnerabilityFrames == t.invulnerabilityFrames
    ensures || (r.score == s.score + ScorePerCollect && |r.snake| == |s.snake| + 1 && r.justCollected)
            || (r.score == t.score && |r.snake| == |s.snake| && r.speed == t.speed
                && r.collectible == t.collectible && r.justCollected == t.justCollected)
  {
    if Near(head, s.collectible, CollectRadius) then
      t.(
        score := s.score + ScorePerCollect,
        snake := [head] + s.snake,
        collectible := Relocated(placed, s.collectible),
        speed := Max(MinSpeed, s.speed - SpeedDecreasePerCollect),
        justCollected := true)
    else
      t.(snake := [head] + s.snake[..|s.snake| - 1])
  }

  /**
   * A running tick once the candidate head is known. A tick that ends the game keeps the
   * snake, score, lives, speed and orb, and still ages the waves; one that goes on puts the
   * snake's head at `head`. At most one life is lost, and a lost life starts the full
   * countdown; otherwise the countdown only counts down.
   */
  function Outcome(s: State, head: Position, placed: Option<Position>): (r: State)
    requires |s.snake| > 0 && !s.gameOver
    ensures r.gameOver ==> r.snake == s.snake && r.score == s.score && r.lives == s.lives
    ensures !r.gameOver ==> |r.snake| > 0 && r.snake[0] == head
    ensures r.lives == s.lives || (r.lives == s.lives - 1 && r.invulnerabilityFrames == InvulnerabilityFrames)
    ensures r.direction == s.direction && |r.waves| <= |s.waves|
    ensures r.lives == s.lives && s.invulnerabilityFrames >= 0 ==> r.invulnerabilityFrames == Max(0, s.invulnerabilityFrames - 1)
    ensures r.gameOver ==> r.speed == s.speed && r.collectible == s.collectible && r.waves == AgeWaves(s.waves) && !r.justCollected
  {
    if HitsWall(head) then Aging(s).(gameOver := true)
    else if Collides(s, head) && s.lives <= 1 then Aging(s).(gameOver := true)
    else if Collides(s, head) then Move(s, Aging(s).(lives := s.lives - 1, invulnerabilityFrames := InvulnerabilityFrames), head, placed)
    else Move(s, Aging(s), head, placed)
  }

  /**
   * One tick, as the engine performs it. `force` is the combined force of the waves alive
   * at its start; `placed` is where the orb search, run against the snake at the start of
   * the tick, would put the orb if it is eaten.
   */
  function Tick(s: State, force: Position, placed: Option<Position>): (r: State)
    requires |s.snake| > 0
    ensures s.gameOver ==> r == s
    ensures |r.snake| > 0 && r.direction == s.direction
    ensures s.lives - 1 <= r.lives <= s.lives
    ensures r.score == s.score || r.score == s.score + ScorePerCollect
    ensures |r.waves| <= |s.waves|
  {
    if s.gameOver then s else Outcome(s, HeadAfter(s, force), placed)
  }

  /** The state of a new game, with the orb at `collectible`: it satisfies the invariant and holds no waves. */
  function Initial(collectible: Position): (r: State)
    ensures Invariant(r) && WithinCap(r) && r.waves == []
    ensures r.collectible == collectible && !r.gameOver && r.lives == InitialLives && r.score == 0
  {
    State(0, InitialLives, false, [Position(12.0, 12.0)], Position(1.0, 0.0), collectible, [], InitialSpeed, 0, false)
  }

  /** A restart, where `placed` is the outcome of the orb search run against the snake as it was before the restart. */
  function Restarted(s: State, placed: Option<Position>): (r: State)
    ensures Invariant(r) && r.waves == [] && !r.gameOver
    ensures placed.Some? ==> r.collectible == placed.value
    ensures placed.None? ==> r.collectible == s.collectible
  {
    Initial(Relocated(placed, s.collectible))
  }

  /**
   * What holds of every state the engine reaches: the snake has one segment per 100
   * points plus the head, the tick interval has shrunk by 5 per 100 points down to its
   * floor, lives stay between 1 and 3, the countdown within its window, the heading on
   * an axis, and every live wave is well formed. The number of live waves is not bounded
   * here: the spawner as written does not keep its cap (see `WithinCap`).
   */
  ghost predicate Invariant(s: State)
  {
    && s.score >= 0 && s.score % ScorePerCollect == 0
    && |s.snake| == 1 + s.score / ScorePerCollect
    && s.speed == Max(MinSpeed, InitialSpeed - SpeedDecreasePerCollect * (s.score / ScorePerCollect))
    && 1 <= s.lives <= InitialLives
    && 0 <= s.invulnerabilityFrames <= InvulnerabilityFrames
    && Steering.IsHeading(s.direction)
    && forall i :: 0 <= i < |s.waves| ==> WellFormed(s.waves[i])
  }

  /** The cap on live waves, which only a spawner whose guard reads the live list keeps. */
  predicate WithinCap(s: State)
  {
    |s.waves| <= MaxWaves
  }

  lemma AgingKeepsInvariant(s: State)
    requires Invariant(s)
    ensures Invariant(Aging(s))
  {
    AgeWavesKeepsWellFormed(s.waves);
  }

  lemma MoveKeepsInvariant(s: State, t: State, head: Position, placed: Option<Position>)
    requires Invariant(s) && Invariant(t)
    requires t.score == s.score && t.snake == s.snake && t.speed == s.speed
    ensures Invariant(Move(s, t, head, placed))
  {
    if Near(head, s.collectible, CollectRadius) {
      assert (s.score + ScorePerCollect) / ScorePerCollect == s.score / ScorePerCollect + 1;
    }
  }

  /** Every tick keeps the invariant, whatever the number of live waves, and never adds a wave. */
  lemma TickPreservesInvariant(s: State, force: Position, placed: Option<Position>)
    requires Invariant(s)
    ensures Invariant(Tick(s, force, placed))
    ensures |Tick(s, force, placed).waves| <= |s.waves|
  {
    if !s.gameOver {
      var head := HeadAfter(s, force);
      AgingKeepsInvariant(s);
      if !HitsWall(head) && !(Collides(s, head) && s.lives <= 1) {
        var t := if Collides(s, head)
          then Aging(s).(lives := s.lives - 1, invulnerabilityFrames := InvulnerabilityFrames)
          else Aging(s);
        MoveKeepsInvariant(s, t, head, placed);
      }
    }
  }

  /**
   * A spawn attempt keeps the invariant whichever list its guard reads, so the invariant
   * holds of the game as written, where the guard reads the empty start-up list.
   */
  lemma SpawnKeepsInvariant(s: State, seen: seq<Wave>, roll: real, edgeRoll: real, positionRoll: real)
    requires Invariant(s)
    ensures Invariant(s.(waves := SpawnAttempt(s.waves, seen, roll, edgeRoll, positionRoll)))
  {
    SpawnAttemptOutcome(s.waves, seen, roll, edgeRoll, positionRoll);
  }

  lemma RestartIsCanonical(s: State, placed: Option<Position>)
    ensures var t := Restarted(s, placed);
      && t.snake == [Position(12.0, 12.0)] && t.direction == Position(1.0, 0.0)
      && t.lives == 3 && t.score == 0 && t.speed == 400 && t.waves == []
      && !t.gameOver && t.invulnerabilityFrames == 0 && !t.justCollected
      && Invariant(t)
  {
  }

  /** The orb placed by a restart is clear of the snake that was there before the restart. */
  lemma RestartPlacesAgainstOldSnake(s: State, draws: seq<(real, real)>)
    requires DrawsInRange(draws)
    requires Placement(s.snake, draws).Some?
    ensures Free(s.snake, Restarted(s, Placement(s.snake, draws)).collectible)
    ensures InPlacementArea(Restarted(s, Placement(s.snake, draws)).collectible)
  {
  }

  lemma GameOverIsAbsorbing(s: State, force: Position, placed: Option<Position>)
    requires |s.snake| > 0
    requires s.gameOver
    ensures Tick(s, force, placed) == s
  {
  }

  /** A wall hit ends the game at once and costs no life; snake, score, speed and orb stay as they were. */
  lemma WallHitEndsGame(s: State, force: Position, placed: Option<Position>)
    requires |s.snake| > 0
    requires !s.gameOver && HitsWall(HeadAfter(s, force))
    ensures var t := Tick(s, force, placed);
      && t.gameOver
      && t.snake == s.snake && t.lives == s.lives && t.score == s.score && t.speed == s.speed
      && t.collectible == s.collectible && t.direction == s.direction
      && t.waves == AgeWaves(s.waves) && !t.justCollected
  {
  }

  /** While invulnerable nothing costs a life, and only a wall ends the game. */
  lemma InvulnerabilityProtects(s: State, force: Position, placed: Option<Position>)
    requires |s.snake| > 0
    requires !s.gameOver && s.invulnerabilityFrames > 0
    ensures var t := Tick(s, force, placed);
      && t.lives == s.lives
      && (t.gameOver <==> HitsWall(HeadAfter(s, force)))
      && t.invulnerabilityFrames == s.invulnerabilityFrames - 1
  {
  }

  /** A life is lost only to a self-collision taken while vulnerable with lives to spare, and buys 15 frames of immunity. */
  lemma LivesDropOnlyOnSelfCollision(s: State, force: Position, placed: Option<Position>)
    requires |s.snake| > 0
    requires Tick(s, force, placed).lives != s.lives
    ensures var head := HeadAfter(s, force);
      && !s.gameOver && !HitsWall(head)
      && s.invulnerabilityFrames == 0 && HitsBody(s.snake, head) && s.lives > 1
    ensures var t := Tick(s, force, placed);
      && t.lives == s.lives - 1 && t.invulnerabilityFrames == InvulnerabilityFrames && !t.gameOver
  {
  }

  /**
   * Conversely, a self-collision taken while vulnerable, away from the walls and with a life
   * to spare, costs exactly one life, starts the 15-frame countdown, and the game goes on.
   */
  lemma SelfCollisionCostsALife(s: State, force: Position, placed: Option<Position>)
    requires |s.snake| > 0
    requires !s.gameOver && !HitsWall(HeadAfter(s, force))
    requires s.invulnerabilityFrames == 0 && HitsBody(s.snake, HeadAfter(s, force)) && s.lives > 1
    ensures var t := Tick(s, force, placed);
      && t.lives == s.lives - 1 && t.invulnerabilityFrames == InvulnerabilityFrames && !t.gameOver
      && t.snake[0] == HeadAfter(s, force)
  {
  }

  /** A self-collision on the last life ends the game without taking that life. */
  lemma LastLifeCollisionEndsGame(s: State, force: Position, placed: Option<Position>)
    requires |s.snake| > 0
    requires !s.gameOver && !HitsWall(HeadAfter(s, force))
    requires s.invulnerabilityFrames == 0 && HitsBody(s.snake, HeadAfter(s, force)) && s.lives <= 1
    ensures var t := Tick(s, force, placed);
      && t.gameOver
      && t.snake == s.snake && t.lives == s.lives && t.score == s.score && t.speed == s.speed
      && t.collectible == s.collectible && t.direction == s.direction
      && t.waves == AgeWaves(s.waves) && !t.justCollected && t.invulnerabilityFrames == 0
  {
  }

  /** A running game ends only at a wall or on a fatal self-collision. */
  lemma GameEndsOnlyOnCollision(s: State, force: Position, placed: Option<Position>)
    requires |s.snake| > 0
    requires !s.gameOver && Tick(s, force, placed).gameOver
    ensures var head := HeadAfter(s, force);
      HitsWall(head) || (s.invulnerabilityFrames == 0 && HitsBody(s.snake, head) && s.lives <= 1)
  {
  }

  /**
   * A tick that keeps the game going either eats the orb, growing the snake by the new
   * head and scoring 100, or translates the snake, dropping its tail.
   */
  lemma SurvivingTickGrowsOrMoves(s: State, force: Position, placed: Option<Position>)
    requires |s.snake| > 0
    requires !Tick(s, force, placed).gameOver
    ensures var head := HeadAfter(s, force);
      var t := Tick(s, force, placed);
      && t.snake[0] == head && t.waves == AgeWaves(s.waves) && t.direction == s.direction
      && if Near(head, s.collectible, CollectRadius) then
           && t.snake == [head] + s.snake && |t.snake| == |s.snake| + 1
           && t.score == s.score + ScorePerCollect && t.justCollected
           && t.speed == Max(MinSpeed, s.speed - SpeedDecreasePerCollect)
           && t.collectible == Relocated(placed, s.collectible)
         else
           && t.snake == [head] + s.snake[..|s.snake| - 1] && |t.snake| == |s.snake|
           && t.score == s.score && !t.justCollected && t.speed == s.speed
           && t.collectible == s.collectible
  {
  }

  // ---------------------------------------------------------------- scenarios

  /** A fresh game heading right with no waves moves the head from (12, 12) to (13, 12). */
  lemma PlainMoveScenario(sinPi: real -> real, draws: seq<(real, real)>)
    requires DrawsInRange(draws)
    ensures var t := Tick(Initial(Position(18.0, 12.0)), Force([], sinPi), Placement([Position(12.0, 12.0)], draws));
      t.snake == [Position(13.0, 12.0)] && t.score == 0 && t.lives == 3 && !t.gameOver && t.speed == 400
  {
  }

  /** Moving onto the orb at (13, 12) scores 100, grows the snake and shortens the tick by 5 ms. */
  lemma CollectScenario(sinPi: real -> real, draws: seq<(real, real)>)
    requires DrawsInRange(draws)
    ensures var t := Tick(Initial(Position(13.0, 12.0)), Force([], sinPi), Placement([Position(12.0, 12.0)], draws));
      && t.snake == [Position(13.0, 12.0), Position(12.0, 12.0)]
      && t.score == 100 && t.speed == 395 && t.justCollected
      && InPlacementArea(t.collectible) && Free([Position(12.0, 12.0)], t.collectible)
  {
    PlacementFailsOnlyWhenFull([Position(12.0, 12.0)], draws, Position(2.0, 2.0));
  }

  /**
   * The orb is relocated against the snake before it moved, so it may land right under
   * the new head: here the first draw picks (13, 12), where the head has just arrived.
   */
  lemma RelocationIgnoresNewHead(sinPi: real -> real)
    ensures var t := Tick(Initial(Position(13.0, 12.0)), Force([], sinPi), Placement([Position(12.0, 12.0)], [(0.55, 0.5)]));
      t.collectible == t.snake[0] == Position(13.0, 12.0)
  {
    assert Candidate((0.55, 0.5)) == Position(13.0, 12.0);
  }

  /** Heading left from x = 0.9 reaches x = -0.1, outside the walls: the game ends, nothing else is lost. */
  lemma WallScenario(sinPi: real -> real, draws: seq<(real, real)>)
    requires DrawsInRange(draws)
    ensures var s := Initial(Position(18.0, 12.0)).(snake := [Position(0.9, 12.0)], direction := Position(-1.0, 0.0));
      var t := Tick(s, Force(s.waves, sinPi), Placement(s.snake, draws));
      t.gameOver && t.snake == s.snake && t.lives == 3 && t.score == 0
  {
  }

  /** A snake curled into a square runs into its own tail on its last life: game over, still one life. */
  lemma LastLifeScenario(sinPi: real -> real, draws: seq<(real, real)>)
    requires DrawsInRange(draws)
    ensures var s := Initial(Position(18.0, 12.0)).(
        lives := 1, score := 300, speed := 385,
        snake := [Position(12.0, 12.0), Position(12.0, 13.0), Position(13.0, 13.0), Position(13.0, 12.0)]);
      var t := Tick(s, Force(s.waves, sinPi), Placement(s.snake, draws));
      Invariant(s) && t.gameOver && t.lives == 1 && t.snake == s.snake
  {
    var s := Initial(Position(18.0, 12.0)).(
        lives := 1, score := 300, speed := 385,
        snake := [Position(12.0, 12.0), Position(12.0, 13.0), Position(13.0, 13.0), Position(13.0, 12.0)]);
    assert Invariant(s);
    var head := HeadAfter(s, Force(s.waves, sinPi));
    assert head == Position(13.0, 12.0);
    assert Collides(s, head) by {
      assert Near(s.snake[3], head, CollisionThreshold);
    }
    assert Tick(s, Force(s.waves, sinPi), Placement(s.snake, draws)) == Aging(s).(gameOver := true);
  }

  // ---------------------------------------------------------------- the engine object

  class Engine {
    var score: int
    var lives: int
    var gameOver: bool
    var snake: seq<Position>
    var direction: Position
    var collectible: Position
    var waves: seq<Wave>
    var speed: int
    var invulnerabilityFrames: int
    var justCollected: bool

    function Snapshot(): State
      reads this
    {
      State(score, lives, gameOver, snake, direction, collectible, waves, speed, invulnerabilityFrames, justCollected)
    }

    /** The invariant of every reachable state, and the wave cap that the corrected spawner keeps. */
    ghost predicate Valid()
      reads this
    {
      Invariant(Snapshot()) && WithinCap(Snapshot())
    }

    /** A new game: the orb starts at (18, 12). */
    constructor ()
      ensures Snapshot() == Initial(Position(18.0, 12.0)) && Valid()
    {
      score, lives, gameOver := 0, InitialLives, false;
      snake, direction := [Position(12.0, 12.0)], Position(1.0, 0.0);
      collectible, waves := Position(18.0, 12.0), [];
      speed, invulnerabilityFrames, justCollected := InitialSpeed, 0, false;
    }

    method TurnLeft()
      requires Valid()
      modifies this`direction
      ensures direction == Steering.TurnLeft(old(direction)) && Valid()
    {
      direction := Position(direction.y, -direction.x);
    }

    method TurnRight()
      requires Valid()
      modifies this`direction
      ensures direction == Steering.TurnRight(old(direction)) && Valid()
    {
      direction := Position(-direction.y, direction.x);
    }

    /**
     * A spawn attempt whose cap is checked against the live wave list: the corrected
     * spawner, which keeps at most two waves alive.
     */
    method SpawnWave(roll: real, edgeRoll: real, positionRoll: real)
      requires Valid()
      modifies this`waves
      ensures waves == SpawnAttempt(old(waves), old(waves), roll, edgeRoll, positionRoll) && Valid()
    {
      SpawnKeepsCap(waves, roll, edgeRoll, positionRoll);
      if roll > WaveSpawnChance || |waves| >= MaxWaves {
        return;
      }
      var edge := EdgeOf(edgeRoll);
      var position := OffsetOf(positionRoll);
      waves := waves + [WaveFromEdge(edge, position)];
    }

    /** Moves the orb to a free cell, judged against the snake as it stands now. */
    method SpawnCollectible(draws: seq<(real, real)>)
      requires DrawsInRange(draws)
      modifies this`collectible
      ensures collectible == Relocated(Placement(snake, draws), old(collectible))
    {
      var placed := PlaceCollectible(snake, draws);
      if placed.Some? {
        collectible := placed.value;
      }
    }

    /** One tick. `sinPi(t)` stands for sin(t * pi); `draws` feed the orb placement if it is eaten. */
    method Step(sinPi: real -> real, draws: seq<(real, real)>)
      requires Valid() && DrawsInRange(draws)
      modifies this
      ensures Snapshot() == Tick(old(Snapshot()), Force(old(waves), sinPi), Placement(old(snake), draws)) && Valid()
    {
      ghost var before := Snapshot();
      TickPreservesInvariant(before, Force(before.waves, sinPi), Placement(before.snake, draws));
      if gameOver {
        return;
      }
      var framesAtStart := invulnerabilityFrames;
      if invulnerabilityFrames > 0 {
        invulnerabilityFrames := invulnerabilityFrames - 1;
      }
      if justCollected {
        justCollected := false;
      }
      var head := snake[0];
      var force := TotalForce(waves, sinPi);
      waves := AgeWaves(waves);
      var newHead := NextHead(head, direction, force);
      Resolve(newHead, framesAtStart, draws, before);
    }

    /**
     * The rest of a running tick once the candidate head is known: the wall test, the
     * self-collision test (made if the tick started with `framesAtStart` = 0) and the move.
     */
    method Resolve(newHead: Position, framesAtStart: int, draws: seq<(real, real)>, ghost before: State)
      requires |before.snake| > 0 && !before.gameOver && DrawsInRange(draws)
      requires Snapshot() == Aging(before) && framesAtStart == before.invulnerabilityFrames
      modifies this
      ensures Snapshot() == Outcome(before, newHead, Placement(before.snake, draws))
    {
      if HitsWall(newHead) {
        gameOver := true;
        return;
      }
      if framesAtStart == 0 {
        var collision := HitsBody(snake, newHead);
        if collision {
          if lives > 1 {
            lives := lives - 1;
            invulnerabilityFrames := InvulnerabilityFrames;
          } else {
            gameOver := true;
            return;
          }
        }
      }
      MoveSnake(newHead, draws, before);
    }

    /** Eats the orb and grows, or translates the snake, as the candidate head decides. */
    method MoveSnake(newHead: Position, draws: seq<(real, real)>, ghost before: State)
      requires |before.snake| > 0 && DrawsInRange(draws)
      requires snake == before.snake && collectible == before.collectible
      requires score == before.score && speed == before.speed
      modifies this
      ensures Snapshot() == Move(before, old(Snapshot()), newHead, Placement(before.snake, draws))
    {
      if Near(newHead, collectible, CollectRadius) {
        score := score + ScorePerCollect;
        // the orb is placed before the snake moves, against the segments it had at the start of the tick
        SpawnCollectible(draws);
        ghost var placed := collectible;
        snake := [newHead] + snake;
        speed := Max(MinSpeed, speed - SpeedDecreasePerCollect);
        justCollected := true;
        assert Snapshot() == old(Snapshot()).(score := score, snake := snake, collectible := placed, speed := speed, justCollected := true);
      } else {
        snake := [newHead] + snake[..|snake| - 1];
      }
    }

    /** Back to a new game; the orb is placed against the snake of the game that ended. */
    method Restart(draws: seq<(real, real)>)
      requires DrawsInRange(draws)
      modifies this
      ensures Snapshot() == Restarted(old(Snapshot()), Placement(old(snake), draws)) && Valid()
    {
      RestartIsCanonical(Snapshot(), Placement(snake, draws));
      SpawnCollectible(draws);
      snake := [Position(12.0, 12.0)];
      direction := Position(1.0, 0.0);
      lives := InitialLives;
      waves := [];
      score := 0;
      gameOver := false;
      speed := InitialSpeed;
      invulnerabilityFrames := 0;
      justCollected := false;
    }
  }
}
