# Swarm early-warning simulation — a verified model

This project models the agent logic of the swarm early-warning simulation in
`Algorithms/Swarm-EWS-Simulation/simulation.py`. A swarm of drones searches a
square area for a hazard (a fire). Each agent does three things:

- it senses a noisy reading of how close the hazard is;
- it asks the agents within communication range for their readings and votes
  SEARCHING / VERIFYING / ALERTING;
- it moves under three forces: attraction (or a random step), repulsion from
  agents that are too close, and alignment with the neighbours' mean velocity.

The speed is then limited to 2.0 and the position is clamped into the area.
One animation frame updates every agent of the shared list in place, in list
order, and reports whether some agent raised the alert.

Module layout:

- `Geometry` (geometry.dfy): planar vectors over the reals. `np.linalg.norm`
  needs a square root, which Dafny's reals lack. Every operation that measures
  a length therefore takes the norm as a function value `norm`, with the
  hypothesis `IsEuclidean(norm)`: the value is non-negative and its square is
  `x*x + y*y`. That pins the value down to the exact Euclidean length.
- `Config` (config.dfy): the configuration constants (lines 7-14). It also
  names once each literal gain and limit that `update` writes inline (0.1,
  0.05, 0.5, 5, 0.1, 2.0, 0.1, 2.0).
- `Sensing` (sensing.dfy): the signal, the noise and the clip of
  `sense_environment`.
- `Neighborhood` (neighborhood.dfy): the neighbour filter of `get_neighbors`,
  over value records `AgentView`.
- `Consensus` (consensus.dfy): the vote.
- `Motion` (motion.dfy): the forces, the speed limit and the clamp.
- `Swarm` (swarm.dfy): the specification.
  - `Step` is the record of one agent after its update.
  - `Sweep` is one frame: the first `k` agents of the list updated in order,
    each against the list as the agents before it left it.
- `Simulation` (simulation.dfy): the imperative model.
  - `Agent` is a class with the fields `pos`, `vel`, `confidence` and `state`.
    Its methods `SenseEnvironment`, `GetNeighbors` and `Update` assign those
    fields in the source's order.
  - `Frame` runs over an `array<Agent>` and updates each agent in place inside
    a `for` loop.
  - Each method is proved against the function of the specification that
    describes it.

The frame is modelled as the code runs it: a sequential, in-place sweep.
When agent `k` looks for neighbours and counts votes, agents `0..k-1` already
hold this frame's values and agents `k+1..` still hold last frame's. A design
that commits all agents' new states together would give different results.
The model follows the code, and `SequentialView` states the difference
explicitly.

## Model

| member | source | states |
|---|---|---|
| Simulation.Agent.constructor | Algorithms/Swarm-EWS-Simulation/simulation.py:17-22 | a new agent has the given id, position (x, y) and initial velocity, confidence 0 and state SEARCHING |
| Simulation.Populate | Algorithms/Swarm-EWS-Simulation/simulation.py:98 | the initial swarm has NUM_AGENTS fresh, distinct agents; agent i has id i and position (u_i * AREA_SIZE, v_i * AREA_SIZE) |
| Simulation.Agent.SenseEnvironment | Algorithms/Swarm-EWS-Simulation/simulation.py:24-32 | the stored and returned confidence is the clipped reading `Confidence`, which lies in [0, 1] |
| Sensing.Clip | Algorithms/Swarm-EWS-Simulation/simulation.py:31 | the result lies in [lo, hi]; a value already inside is unchanged; otherwise it is the bound it crossed |
| Sensing.Signal | Algorithms/Swarm-EWS-Simulation/simulation.py:26-27 | the noise-free signal lies in [0, 1]; it is 0 exactly at distance >= ANOMALY_RADIUS and 1 at distance 0 |
| Sensing.Confidence | Algorithms/Swarm-EWS-Simulation/simulation.py:26-31 | the reading lies in [0, 1] whatever the noise |
| Sensing.AtAnomalyFullConfidence | Algorithms/Swarm-EWS-Simulation/simulation.py:26-31 | with noise 0, an agent on the hazard centre has confidence 1 |
| Sensing.BeyondRadiusOnlyNoise | Algorithms/Swarm-EWS-Simulation/simulation.py:26-31 | at distance >= ANOMALY_RADIUS the confidence is the noise clipped to [0, 1] |
| Sensing.SignalMonotone | Algorithms/Swarm-EWS-Simulation/simulation.py:27 | a closer agent never gets a weaker noise-free signal |
| Simulation.Agent.GetNeighbors | Algorithms/Swarm-EWS-Simulation/simulation.py:34-41 | the loop returns the agents whose records are `Neighbors` of the caller, in list order; each is from the list and has another id; the caller itself is never returned |
| Neighborhood.Neighbors | Algorithms/Swarm-EWS-Simulation/simulation.py:34-41 | the filter never returns more entries than it was given |
| Neighborhood.IsNeighbor | Algorithms/Swarm-EWS-Simulation/simulation.py:37-39 | the neighbour test: another id and a distance strictly below COMM_RANGE; its behaviour is stated by NeighborBySquaredDistance and NeighborSymmetric |
| Neighborhood.NeighborsMembership | Algorithms/Swarm-EWS-Simulation/simulation.py:36-40 | a record is returned exactly when it is in the population, has a different id and is strictly closer than COMM_RANGE |
| Neighborhood.NeighborsAppend | Algorithms/Swarm-EWS-Simulation/simulation.py:36-40 | the filter keeps list order: the neighbours of p + q are those of p followed by those of q |
| Neighborhood.NeighborsIgnoreOwnEntries | Algorithms/Swarm-EWS-Simulation/simulation.py:37 | entries carrying the caller's own id never affect the result |
| Neighborhood.NeighborBySquaredDistance | Algorithms/Swarm-EWS-Simulation/simulation.py:38-39 | the range test is the same as comparing squared distance with COMM_RANGE squared |
| Neighborhood.NeighborSymmetric | Algorithms/Swarm-EWS-Simulation/simulation.py:37-39 | two agents with distinct ids hear each other or neither does |
| Simulation.Agent.Vote | Algorithms/Swarm-EWS-Simulation/simulation.py:49-59 | the new state is `Decide` of the agent's confidence and its neighbours |
| Consensus.Votes | Algorithms/Swarm-EWS-Simulation/simulation.py:53 | the number of votes never exceeds the number of neighbours |
| Consensus.VotesAllOrNone | Algorithms/Swarm-EWS-Simulation/simulation.py:53 | the count equals the neighbourhood size exactly when every neighbour is confident, and is 0 exactly when none is |
| Consensus.Decide | Algorithms/Swarm-EWS-Simulation/simulation.py:49-59 | the vote state machine; its result is fixed in both directions by UnconfidentSearches (SEARCHING) and AlertIffStrictMajority (ALERTING), VERIFYING otherwise |
| Consensus.UnconfidentSearches | Algorithms/Swarm-EWS-Simulation/simulation.py:49-59 | the new state is SEARCHING exactly when confidence <= ALERT_THRESHOLD, whatever the neighbours say |
| Consensus.AlertIffStrictMajority | Algorithms/Swarm-EWS-Simulation/simulation.py:49-57 | ALERTING exactly when confidence > ALERT_THRESHOLD, there is at least one neighbour and more than half of the neighbours vote |
| Consensus.FractionAboveHalf | Algorithms/Swarm-EWS-Simulation/simulation.py:56 | votes / total > CONSENSUS_REQ is the integer test 2 * votes > total |
| Consensus.IsolatedNeverAlerts | Algorithms/Swarm-EWS-Simulation/simulation.py:56 | with no neighbours the state is never ALERTING |
| Consensus.TieDoesNotAlert | Algorithms/Swarm-EWS-Simulation/simulation.py:56 | exactly half the votes does not raise the alert (the test is strict) |
| Consensus.UnanimityAlerts | Algorithms/Swarm-EWS-Simulation/simulation.py:49-57 | a confident agent whose non-empty neighbourhood is all confident raises the alert |
| Motion.AttractionClosesIn | Algorithms/Swarm-EWS-Simulation/simulation.py:63-65 | above SEARCH_THRESHOLD, the attraction step multiplies the squared distance to the hazard by 0.95^2 |
| Motion.Attraction | Algorithms/Swarm-EWS-Simulation/simulation.py:62-68 | towards the hazard above SEARCH_THRESHOLD, otherwise the scaled random step; its effect is stated by AttractionClosesIn |
| Simulation.Repulse | Algorithms/Swarm-EWS-Simulation/simulation.py:71-75 | the accumulating loop computes the repulsion sum `Repulsion` |
| Motion.Repulsion | Algorithms/Swarm-EWS-Simulation/simulation.py:70-75 | the repulsion sum in list order; stated by RepulsionOnlyFromClose, FarNeighborsDoNotRepel and NoNeighborsOnlyAttraction |
| Motion.CloseOnes | Algorithms/Swarm-EWS-Simulation/simulation.py:73-74 | a neighbour is returned exactly when it is in the list and closer than COLLISION_RADIUS |
| Motion.RepulsionOnlyFromClose | Algorithms/Swarm-EWS-Simulation/simulation.py:72-75 | the repulsion over all neighbours equals the repulsion over the ones closer than 5 alone |
| Motion.FarNeighborsDoNotRepel | Algorithms/Swarm-EWS-Simulation/simulation.py:72-75 | with no neighbour closer than 5 the repulsion is the zero vector |
| Motion.SumOfEqualVelocities | Algorithms/Swarm-EWS-Simulation/simulation.py:80 | neighbours that all fly at v sum to (number of neighbours) * v |
| Motion.AlignedFlockNoAlignment | Algorithms/Swarm-EWS-Simulation/simulation.py:78-81 | an agent flying at its neighbours' common velocity feels no alignment force |
| Motion.MeanVelocity | Algorithms/Swarm-EWS-Simulation/simulation.py:80 | the neighbours' mean velocity; for a flock at a common velocity it is that velocity (AlignedFlockNoAlignment) |
| Motion.Alignment | Algorithms/Swarm-EWS-Simulation/simulation.py:77-81 | zero without neighbours and for an agent flying with its flock; stated by NoNeighborsOnlyAttraction and AlignedFlockNoAlignment |
| Motion.TotalForce | Algorithms/Swarm-EWS-Simulation/simulation.py:84 | attraction plus twice the repulsion plus alignment; with no neighbours it is the attraction alone (NoNeighborsOnlyAttraction) |
| Simulation.Agent.Force | Algorithms/Swarm-EWS-Simulation/simulation.py:62-84 | the three force branches of the source, computed step by step, equal `TotalForce` |
| Simulation.Agent.CapSpeed | Algorithms/Swarm-EWS-Simulation/simulation.py:87-90 | the speed check and rescale leave the velocity at `LimitSpeed` of the old one |
| Simulation.Agent.Accelerate | Algorithms/Swarm-EWS-Simulation/simulation.py:62-90 | adding the total force to the velocity and then limiting the speed gives `LimitSpeed(old velocity + TotalForce)`; only the velocity changes |
| Motion.NoNeighborsOnlyAttraction | Algorithms/Swarm-EWS-Simulation/simulation.py:71-84 | with no neighbours, repulsion and alignment are zero and the total force is the attraction term |
| Motion.LimitSpeed | Algorithms/Swarm-EWS-Simulation/simulation.py:88-90 | the speed is at most 2.0; a velocity at most 2.0 is kept; a faster one is rescaled to speed exactly 2.0 in the same direction |
| Motion.RescaledToMaxSpeed | Algorithms/Swarm-EWS-Simulation/simulation.py:90 | (v / ‖v‖) * 2.0 has norm 2.0 and points the way v does |
| Motion.ClampToArea | Algorithms/Swarm-EWS-Simulation/simulation.py:95 | each coordinate is clipped on its own: the result is inside [0, AREA_SIZE]^2, a coordinate already inside is kept whatever the other one does, and a coordinate pushed past a wall stops on that wall (clamping, not reflection) |
| Simulation.Agent.Move | Algorithms/Swarm-EWS-Simulation/simulation.py:62-95 | the new velocity is the speed-limited old velocity plus the total force; the new position is the old one plus that velocity, clamped; the clamp does not touch the velocity |
| Simulation.Agent.Update | Algorithms/Swarm-EWS-Simulation/simulation.py:43-95 | the agent's new record is `Step` of its old record and of the list's records before the call; only this agent changes |
| Simulation.Agent.SensingHidesFromNeighbors | Algorithms/Swarm-EWS-Simulation/simulation.py:45-46 | sensing before the neighbour search does not change who the neighbours are |
| Swarm.Step | Algorithms/Swarm-EWS-Simulation/simulation.py:43-95 | an updated agent keeps its id, has confidence in [0, 1], speed <= 2.0 and a position in the area, and is SEARCHING exactly when its confidence is <= ALERT_THRESHOLD |
| Swarm.IsolatedAgentNeverAlerts | Algorithms/Swarm-EWS-Simulation/simulation.py:46-57 | an agent with nobody in range never ends its update ALERTING |
| Swarm.AlertIsCorroborated | Algorithms/Swarm-EWS-Simulation/simulation.py:46-57 | an ALERTING agent has at least one confident neighbour in range |
| Swarm.UnanimousNeighborhoodAlerts | Algorithms/Swarm-EWS-Simulation/simulation.py:46-57 | a confident agent with neighbours in range, all of them confident, ends ALERTING |
| Swarm.Sweep | Algorithms/Swarm-EWS-Simulation/simulation.py:119-120 | the records after the first k in-order updates keep the population size |
| Swarm.SweepThrough | Algorithms/Swarm-EWS-Simulation/simulation.py:119-120 | the records once agent k has been updated too keep the population size |
| Swarm.SweepNext | Algorithms/Swarm-EWS-Simulation/simulation.py:119-120 | one more step of the loop replaces exactly agent k's record with its update against the current records |
| Swarm.SweepLeavesRestUntouched | Algorithms/Swarm-EWS-Simulation/simulation.py:119-120 | agents not yet reached still hold last frame's records |
| Swarm.SweepSettled | Algorithms/Swarm-EWS-Simulation/simulation.py:119-120 | agents already updated are not changed again later in the frame |
| Swarm.SweepMidway | Algorithms/Swarm-EWS-Simulation/simulation.py:119-120 | before agent k's update the list holds this frame's records before k and last frame's from k on |
| Swarm.SweepFinalAt | Algorithms/Swarm-EWS-Simulation/simulation.py:119-120 | agent k's record at the end of the frame is the one its own update gave it |
| Swarm.SequentialView | Algorithms/Swarm-EWS-Simulation/simulation.py:119-120 | agent k ends the frame with its update computed against agents 0..k-1 already updated and agents k.. as last frame left them |
| Swarm.FrameEstablishesInvariants | Algorithms/Swarm-EWS-Simulation/simulation.py:119-120 | after one frame every agent keeps its id, has confidence in [0, 1], speed <= 2.0 and a position in the area |
| Simulation.Frame | Algorithms/Swarm-EWS-Simulation/simulation.py:114-132 | the agents' records after the frame are `Sweep` of their records before it; alert_triggered is true exactly when some agent is ALERTING |
| Simulation.UpdateInOrder | Algorithms/Swarm-EWS-Simulation/simulation.py:117-126 | the loop over the list leaves `Sweep` of the old records; the flag is the in-order scan for an ALERTING record |
| Simulation.Advance | Algorithms/Swarm-EWS-Simulation/simulation.py:119-126 | updating agent k changes only that agent and moves the records from `Sweep` k to `Sweep` k + 1; the flag is agent k's alert |
| Simulation.AlertInMeansSomeAlerting | Algorithms/Swarm-EWS-Simulation/simulation.py:124-126 | the in-order scan raises the flag exactly when some record is ALERTING |
| Simulation.AlertInIgnoresLater | Algorithms/Swarm-EWS-Simulation/simulation.py:124-126 | updating an agent at or after position k does not change the scan of the agents before k |
| Simulation.AlertIn | Algorithms/Swarm-EWS-Simulation/simulation.py:124-126 | the in-order scan that sets alert_triggered; stated by AlertInMeansSomeAlerting and AlertInIgnoresLater |
| Simulation.Views | Algorithms/Swarm-EWS-Simulation/simulation.py:119 | the records of a list of agents have the list's length |
| Simulation.ViewsAt | Algorithms/Swarm-EWS-Simulation/simulation.py:119 | entry i of the records is agent i's record |
| Simulation.ViewsAfterUpdating | Algorithms/Swarm-EWS-Simulation/simulation.py:119-120 | when only agent k changed, the records change only at k |

## Left out

- Random draws are inputs. These are the initial velocity
  (`np.random.randn(2)`, line 20), the sensor noise (`np.random.normal`,
  line 30), the random-walk step (`np.random.randn(2)`, line 68) and the
  uniform positions (`np.random.rand()`, line 98). No generator is modelled.
  `SENSOR_NOISE` is kept only as a named constant.
- `np.linalg.norm` is a parameter that satisfies `IsEuclidean`. Floating-point
  rounding and the computed square root are not modelled; all arithmetic is
  on exact reals.
- The visualisation is not modelled: the matplotlib figure, the scatter
  colours (1.0 / 0.6 / 0.0), the position list, the axis label,
  `FuncAnimation` and saving the gif (lines 100-112, 115-116, 121-123, 125,
  127-139, 141-144).
- Simulation.Frame: the flag is stated over each agent's state at the end
  of the frame. `SweepSettled` proves that no later update in the same frame
  changes that state, so it is the state right after the agent's own update.
- Simulation.Frame: requires the list to hold distinct agent objects, as the
  swarm built by `Populate` does. A list that holds the same object twice is
  not modelled.
- Swarm.FrameEstablishesInvariants: the speed bound holds only from the
  first frame on. The initial velocity drawn by `np.random.randn` may be
  faster than 2.0.
- The random-walk draw is taken for every agent, but it is used only when the
  confidence is at most 0.1 (line 68). The source draws it only in that case,
  which matters only for the generator's state.
- `BigData_AI_Decision_System/kaggle_temp.py` and
  `BigData_AI_Decision_System/earthAi.js` are not part of this model. They
  are I/O calls into external services.
