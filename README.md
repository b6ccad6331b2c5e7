# Synergy simulation engine, in Dafny

This project models the engine of the Synergy arcade game. A snake moves across a 24 × 24
grid. Wave force fields push it off course. It eats orbs to grow and score, and it loses lives
when it runs into itself. The model covers the engine in `src/components/Game.tsx` and the
record shapes of `src/types/game.ts`. It contains:

- `types.dfy`, `tuning.dfy`: positions, waves and the tuning constants.
- `steering.dfy`: the left and right turns. Each is a quarter rotation of the heading vector.
- `walls.dfy`: the wall test.
- `waves.dfy`: the combined force of the live waves, their aging every tick, and spawning.
- `collectibles.dfy`: placing the orb.
- `simulation.dfy`: the engine state `State`, the tick `Tick` as a function of the state at
  its start, the invariant every tick keeps, and the class `Engine`. `Engine` holds the
  engine's fields. Its methods `Step`, `TurnLeft`, `TurnRight`, `SpawnWave`,
  `SpawnCollectible` and `Restart` are proved against `Tick`, `Restarted` and the other
  functions.

The engine queues all of a tick's state updates and applies them together. So every guard
reads the state as it was when the tick began:

- The self-collision test runs only if the invulnerability countdown was 0 at the start of
  the tick, before that tick decremented it.
- The orb is relocated against the snake as it was before it moved.
- On restart, the orb is placed against the snake of the game that just ended.

The updates queued before an early return still apply. When a tick ends the game at a wall,
the waves are still aged, the countdown still drops if it was running, and the collection flag
is still cleared. When it ends the game on a self-collision at the last life, the waves are
still aged and the flag cleared; the countdown was already 0, since the collision test runs only
then. Turns are accepted at any time, also after the game is over.

The wave spawner as written does not keep its cap of 2 live waves (see "## Findings"). So the
invariant that every tick and every spawn attempt keeps, `Simulation.Invariant`, does not bound
the number of waves. The cap is the separate predicate `Simulation.WithinCap`. The class
`Engine` models the corrected spawner, whose guard reads the live wave list. Its `Valid()` holds
the invariant together with the cap, and every one of its methods keeps both.

Randomness and the sine are inputs:

- `sinPi(t)` stands for sin(t · π).
- A spawn attempt gets three draws in [0, 1): the spawn roll, the edge roll and the position roll.
- The orb search gets a sequence of pairs of draws in [0, 1). It tries them in order, as the
  retry loop does. When they are all rejected, it scans the 20 × 20 placement area row by row.
  So the search always ends. It returns a free cell whenever one exists, and `None` only when
  none does.

Numbers are Dafny `real`s and `int`s, so 0.02 steps and 0.4 + 0.2 are exact.

## Model

| member | source | states |
|---|---|---|
| `Steering.TurnLeft` | src/components/Game.tsx:95-100 | the new heading is perpendicular to the old one, as long, and turned counter-clockwise on screen (y grows downwards); this fixes it uniquely |
| `Steering.TurnRight` | src/components/Game.tsx:102-107 | the new heading is perpendicular to the old one, as long, and turned clockwise on screen |
| `Steering.TurnsAreInverse` | src/components/Game.tsx:95-107 | a left turn undoes a right turn and vice versa |
| `Steering.FourTurnsAreIdentity` | src/components/Game.tsx:95-107 | four turns the same way, or two left then two right, give back the original heading |
| `Steering.TwoTurnsReverse` | src/components/Game.tsx:95-107 | two turns the same way reverse the heading, so nothing stops the snake steering into itself |
| `Steering.TurnsKeepHeading` | src/components/Game.tsx:95-107 | turns keep a heading among (1,0), (-1,0), (0,1), (0,-1) |
| `Walls.HitsWall` | src/components/Game.tsx:37-45 | a position hits a wall exactly when x or y leaves [0.6, 23.4] |
| `Walls.WallsAreSymmetric` | src/components/Game.tsx:37-45 | mirroring either axis or swapping the axes does not change the wall verdict |
| `Waves.Force` | src/components/Game.tsx:133-140 | the combined force is the component-wise sum of each wave's direction × strength × sin(progress · π); it has no contract of its own, and the rows below state its properties |
| `Waves.ContributionBounded` | src/components/Game.tsx:135-138 | one well-formed wave whose pulse is in [-1, 1] pushes by at most 0.15, summed over both axes |
| `Waves.ForceBounded` | src/components/Game.tsx:133-140 | n well-formed waves push the head by at most 0.15 · n, summed over both axes |
| `Waves.TotalForce` | src/components/Game.tsx:133-140 | the accumulation loop returns the component-wise sum `Force` of every wave's direction × strength × sin(progress · π) |
| `Waves.ForceConcat` | src/components/Game.tsx:133-140 | the combined force of two lists of waves is the sum of their forces |
| `Waves.SilentWavesExertNoForce` | src/components/Game.tsx:133-140 | waves whose sine factor is 0 (for example, fresh waves with progress 0) exert no force |
| `Waves.AgeWaves` | src/components/Game.tsx:142-148 | aging never adds waves, and every survivor has progress below 1 |
| `Waves.AgeWavesKeepsExactlyLive` | src/components/Game.tsx:142-148 | a wave survives, advanced by 0.02, exactly when its progress + 0.02 < 1 |
| `Waves.AgeWavesOnlyAges` | src/components/Game.tsx:142-148 | every survivor is an input wave with its progress advanced by 0.02 |
| `Waves.AgeWavesConcat` | src/components/Game.tsx:142-148 | aging distributes over concatenation, so survivors keep their relative order |
| `Waves.AgeWavesNoneExpiring` | src/components/Game.tsx:142-148 | if no wave reaches 1, aging drops none and advances each wave in place |
| `Waves.AgeWavesKeepsWellFormed` | src/components/Game.tsx:142-148 | aging keeps every wave at strength 0.15, with an axis heading and progress in [0, 1) |
| `Waves.WaveFromEdge` | src/components/Game.tsx:76-90 | a new wave has strength 0.15 and progress 0; edge 0 starts on the line y = -1 (top), 1 on x = 24 (right), 2 on y = 24 (bottom), any other on x = -1 (left), outside the walls, at the drawn offset along its edge; it pushes along the edge's normal towards the grid centre |
| `Waves.SpawnAttempt` | src/components/Game.tsx:73-93 | the live list keeps its waves in order and gains at most one more; it gains one exactly when the roll is at most 0.03 and the list the guard reads holds fewer than 2 waves |
| `Waves.SpawnAttemptOutcome` | src/components/Game.tsx:73-93 | with a roll above 0.03, or with 2 or more waves seen, nothing changes; otherwise exactly the wave for the drawn edge floor(4r) and offset floor(24r) is appended, fresh, well formed, outside the walls and pointing inwards |
| `Waves.SpawnKeepsCap` | src/components/Game.tsx:73-93 | when the guard reads the live list, a list of at most 2 waves stays at most 2 |
| `Waves.StaleCapAdmitsThirdWave` | src/components/Game.tsx:195-202 | a spawner that keeps reading the empty start-up list lets three waves through |
| `Collectibles.Candidate` | src/components/Game.tsx:59-62 | a drawn candidate has integer coordinates in [2, 21] |
| `Collectibles.Free` | src/components/Game.tsx:63-68 | a free cell lies on no segment of the snake |
| `Collectibles.FirstFreeDraw` | src/components/Game.tsx:58-69 | a candidate the draws accept is clear of the snake and the walls, and lies in the placement area |
| `Collectibles.FirstFreeCell` | src/components/Game.tsx:58-69 | a cell the fallback scan returns is clear of the snake and the walls, and lies in the placement area |
| `Collectibles.ScanFindsFreeCell` | src/components/Game.tsx:58-69 | the fallback scan finds a free cell whenever one lies ahead of it |
| `Collectibles.Placement` | src/components/Game.tsx:56-70 | a placed orb is on an integer cell in [2, 21], at least 1 unit away on some axis from every segment of the snake it was checked against, and not at a wall |
| `Collectibles.PlacementFailsOnlyWhenFull` | src/components/Game.tsx:56-70 | placement succeeds whenever some cell of the area is free |
| `Collectibles.PlacementTakesFirstFreeDraw` | src/components/Game.tsx:58-69 | as in the retry loop, the first accepted draw is the one used |
| `Collectibles.PlaceCollectible` | src/components/Game.tsx:56-70 | the search loop returns exactly `Placement`: the first free draw, else the first free cell, else None |
| `Simulation.Aging` | src/components/Game.tsx:122-148 | the updates every running tick makes: the countdown drops towards 0, the collection flag is cleared, the waves become `AgeWaves` of the old ones and never grow in number; nothing else changes |
| `Simulation.Move` | src/components/Game.tsx:178-190 | the new head leads; either the orb is eaten (score +100, one segment more, flag set) or length, score, speed and orb stay; lives, waves, heading and countdown are untouched |
| `Simulation.Outcome` | src/components/Game.tsx:155-190 | a tick that ends the game keeps snake, score, lives, speed and orb, clears the flag and ages the waves; one that goes on puts the head at the candidate; at most one life is lost, losing one starts the 15-frame countdown, and otherwise the countdown only counts down towards 0 |
| `Simulation.Tick` | src/components/Game.tsx:119-191 | a finished game does not change; otherwise the heading is kept, at most one life is lost, the score rises by 0 or 100, and no wave is added |
| `Simulation.Initial` | src/components/Game.tsx:26-35 | the new-game state satisfies the invariant and the cap, holds no waves, 3 lives and score 0, and the given orb |
| `Simulation.Restarted` | src/components/Game.tsx:204-215 | a restart satisfies the invariant with no waves and a running game; the orb goes to the placed cell, or stays put if none was found |
| `Simulation.TickPreservesInvariant` | src/components/Game.tsx:119-191 | every tick keeps these facts: length = 1 + score / 100; speed = max(150, 400 − 5 · score / 100); lives in [1, 3]; countdown in [0, 15]; an axis heading; every wave well formed. No tick adds a wave, and the invariant does not bound the number of waves |
| `Simulation.SpawnKeepsInvariant` | src/components/Game.tsx:73-93 | a spawn attempt keeps the invariant whichever list its guard reads, including the empty start-up list of the app as written |
| `Simulation.GameOverIsAbsorbing` | src/components/Game.tsx:119-120 | once the game is over a tick changes nothing |
| `Simulation.WallHitEndsGame` | src/components/Game.tsx:155-158 | a head outside the walls ends the game; snake, lives, score, speed, orb and heading are unchanged, and the waves are aged |
| `Simulation.InvulnerabilityProtects` | src/components/Game.tsx:122-124 | while the countdown is positive no life is lost, only a wall ends the game, and the countdown drops by 1 |
| `Simulation.LivesDropOnlyOnSelfCollision` | src/components/Game.tsx:160-176 | lives change only on a self-collision with no invulnerability and more than one life; they drop by exactly 1, and the countdown is set to 15 |
| `Simulation.SelfCollisionCostsALife` | src/components/Game.tsx:160-170 | conversely, a self-collision away from the walls with the countdown at 0 and more than one life costs exactly one life, sets the countdown to 15, and the game goes on with the new head |
| `Simulation.LastLifeCollisionEndsGame` | src/components/Game.tsx:167-174 | a self-collision at one life ends the game; snake, lives, score, speed, orb and heading are unchanged, the waves are aged, the flag is cleared and the countdown stays 0 |
| `Simulation.GameEndsOnlyOnCollision` | src/components/Game.tsx:155-176 | a running game ends only at a wall or on a fatal self-collision |
| `Simulation.SurvivingTickGrowsOrMoves` | src/components/Game.tsx:178-190 | on an orb hit the snake is the new head plus the old snake, score +100, speed max(150, speed − 5), and the orb is relocated; otherwise the snake is the new head plus the old snake minus its tail, with length and score unchanged |
| `Simulation.RestartIsCanonical` | src/components/Game.tsx:204-215 | from any state a restart gives snake [(12,12)], heading (1,0), 3 lives, score 0, speed 400, no waves, all flags cleared, and the invariant |
| `Simulation.RestartPlacesAgainstOldSnake` | src/components/Game.tsx:204-215 | the orb placed on restart is clear of the snake of the previous game |
| `Simulation.PlainMoveScenario` | src/components/Game.tsx:150-153 | from (12,12) heading right with no waves, the head reaches (13,12) and the length stays 1 |
| `Simulation.CollectScenario` | src/components/Game.tsx:178-187 | moving onto the orb at (13,12) gives score 100, length 2 and speed 395, and the orb lands on a valid free cell |
| `Simulation.RelocationIgnoresNewHead` | src/components/Game.tsx:182-189 | the relocated orb can land exactly under the new head, because placement checks only the snake as it was before the move |
| `Simulation.WallScenario` | src/components/Game.tsx:155-158 | a head reaching x = -0.1 ends the game with snake, lives and score unchanged |
| `Simulation.LastLifeScenario` | src/components/Game.tsx:160-174 | a reachable state (score 300, length 4, speed 385, one life) whose snake runs into its own tail ends the game and keeps its one life |
| `Simulation.Engine.constructor` | src/components/Game.tsx:26-35 | a new engine holds the initial state, with the orb at (18,12), and satisfies the invariant |
| `Simulation.Engine.TurnLeft` | src/components/Game.tsx:95-100 | the heading becomes its left turn; nothing else changes |
| `Simulation.Engine.TurnRight` | src/components/Game.tsx:102-107 | the heading becomes its right turn; nothing else changes |
| `Simulation.Engine.SpawnWave` | src/components/Game.tsx:73-93 | the corrected spawner: the wave list becomes `SpawnAttempt` with the guard on the live list, and the invariant and the cap of 2 are kept |
| `Simulation.Engine.SpawnCollectible` | src/components/Game.tsx:56-71 | the orb moves to where `Placement` puts it against the current snake; it stays put if no cell is free |
| `Simulation.Engine.Step` | src/components/Game.tsx:119-191 | the new state is `Tick` of the old one, under the waves' combined force and the placement against the pre-move snake; the invariant and the cap are kept |
| `Simulation.Engine.Resolve` | src/components/Game.tsx:155-176 | after the common updates, the wall test, the self-collision test and the move give `Outcome` |
| `Simulation.Engine.MoveSnake` | src/components/Game.tsx:178-190 | the snake grows or translates as `Move` says |
| `Simulation.Engine.Restart` | src/components/Game.tsx:204-215 | the new state is `Restarted` of the old one, and the invariant holds |

## Findings

| source | as written | input that shows it | evidently intended | confidence | as-written member | corrected member |
|---|---|---|---|---|---|---|
| src/components/Game.tsx:195-202 | the effect with an empty dependency list registers the first render's `spawnWave`; that closure's `waves` is the initial empty list, so the `MAX_WAVES` guard at line 74 always sees 0 waves | three successive spawn rolls ≤ 0.03 starting with no waves leave 3 waves alive | at most `MAX_WAVES` = 2 waves alive, with the guard reading the live wave list | high (reasoned from the code; not executed) | `Waves.StaleCapAdmitsThirdWave` | `Simulation.Engine.SpawnWave` |

## Left out

- Wave pulse: sin(progress · π) is floating-point trigonometry. It is the parameter `sinPi`.
  Only the summation of the waves' pushes is proved.
- Floating-point drift: the model computes with exact `real`s, where JavaScript rounds every
  step. This covers the 0.02 progress steps (a real wave's lifetime can differ by a tick from
  the 50 ticks of the model), the head positions head + direction + force
  (src/components/Game.tsx:150-153), and the 0.8 and 1 proximity tests made on them. A head
  within rounding distance of a threshold may be judged differently in the game.
- Walls.HitsWall: the bound is exactly 0.6 here. In double arithmetic 0.4 + 0.2 is
  0.6000000000000001, so a coordinate of exactly 0.6 hits the wall in the game but not in the model.
- Randomness: `Math.random` values are parameters (the spawn rolls and the placement draws).
- Collectibles.PlaceCollectible: the retry loop has no bound, and it spins forever when no
  cell is free. The model tries the supplied draws and then scans the area, and it reports
  None when the area is full. `Tick` then leaves the orb where it was.
- Scheduling: `src/hooks/useGameLoop.ts` (the animation-frame throttle), the spawn interval
  and key listener at src/components/Game.tsx:195-202, and cancelling them on teardown. A tick
  is modelled as one atomic step; calling it at the current speed is not modelled.
- The keyboard mapping `handleKeyDown` (src/components/Game.tsx:109-112) only forwards arrow
  keys to the turns.
- `shareScore` (src/components/Game.tsx:114-117) formats a message and opens a window. This is I/O.
- `checkNearWall` (src/components/Game.tsx:47-54) is never called. `CELL_SIZE` and
  `DANGER_ZONE` are used only for drawing or by that function.
- Rendering and UI: `GameCanvas.tsx`, `GameStats.tsx`, `GameOver.tsx`, `Controls.tsx`,
  `DPad.tsx`, `LoadingScreen.tsx`, `App.tsx`, `MagneticGame.tsx` and `main.tsx` hold no game
  logic.
