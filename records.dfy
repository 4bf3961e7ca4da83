/** The public record of one agent: what its neighbours can observe of it
 * and what one frame of the simulation reports for it.
 */
module Records {
  import opened Geometry

  /** The three values of Agent.state. */
  datatype AlertState = Searching | Verifying | Alerting

  datatype AgentView = AgentView(id: int, pos: Vec, vel: Vec, confidence: real, state: AlertState)
}
