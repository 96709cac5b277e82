/** The module-level constants of the simulation, as exact reals. */
module Constants {
  const OceanWidth: real := 10.0

  /** Speeds, in simulation units per tick. */
  const PersonSpeed: real := 0.5 / 60.0
  const PersonSpeedBoost: real := 1.2 / 60.0
  const SharkSpeed: real := 1.8 / 60.0

  /** Speed of a frightened shark, and the boosted speed of the person. */
  const ScaredSharkSpeed: real := SharkSpeed * 1.5
  const BoostedPersonSpeed: real := PersonSpeedBoost * 1.5

  /** Number of escape moves a frightened shark makes. */
  const ScaredDuration: nat := 200

  /** Threshold distances. */
  const SoundTriggerDistance: real := 0.5
  const SpeedBoostDistance: real := 1.0
  const MinSharkDistance: real := 0.5
  const ArrivalDistance: real := 0.1

  /** Sound waves: the radius a new wave starts at and its growth per tick. */
  const WaveStartRadius: real := 0.05
  const WaveGrowth: real := 1.0
}
