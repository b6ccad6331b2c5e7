/** The tuning constants of the engine. */
module Tuning {
  const GridSize: int := 24
  const InitialSpeed: int := 400
  const MinSpeed: int := 150
  const SpeedDecreasePerCollect: int := 5
  const WaveForce: real := 0.15
  const WaveSpawnChance: real := 0.03
  const MaxWaves: int := 2
  const CollisionThreshold: real := 0.8
  const InitialLives: int := 3
  const InvulnerabilityFrames: int := 15
  const WallBuffer: real := 0.4
  const BorderOffset: real := 0.2

  /** Written inline in the engine rather than as named constants. */
  const CollectRadius: real := 0.8
  const ScorePerCollect: int := 100
  const ProgressStep: real := 0.02
}
