/** The simulation's configuration constants, and the literal gains and
 * limits written inline in the agent's update rule, named here once.
 */
module Config {
  import opened Geometry

  const NUM_AGENTS: nat := 10
  const AREA_SIZE: real := 100.0
  /** Centre of the hazard. */
  const ANOMALY_POS: Vec := Vec(75.0, 75.0)
  const ANOMALY_RADIUS: real := 20.0
  /** Two agents hear each other when closer than this. */
  const COMM_RANGE: real := 25.0
  /** Standard deviation of the sensor noise; the noise itself is an input here. */
  const SENSOR_NOISE: real := 0.05
  /** Confidence an agent needs to be suspicious itself and to vote for an alert. */
  const ALERT_THRESHOLD: real := 0.5
  /** Fraction of neighbours that must vote before an agent raises the alert. */
  const CONSENSUS_REQ: real := 0.5

  /** Above this confidence an agent heads for the hazard, below it wanders. */
  const SEARCH_THRESHOLD: real := 0.1
  const ATTRACTION_GAIN: real := 0.05
  const EXPLORATION_GAIN: real := 0.5
  /** Neighbours closer than this push the agent away. */
  const COLLISION_RADIUS: real := 5.0
  /** Added to a distance before dividing by it. */
  const REPULSION_EPSILON: real := 0.1
  const REPULSION_GAIN: real := 2.0
  const ALIGNMENT_GAIN: real := 0.1
  const MAX_SPEED: real := 2.0
}
