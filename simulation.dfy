/** The agents as mutable objects and the frame loop that updates them in
 * place, one after the other, in list order.
 */
module Simulation {
  import opened Geometry
  import opened Config
  import opened Records
  import opened Sensing
  import opened Neighborhood
  import opened Consensus
  import opened Motion
  import opened Swarm

  class Agent {
    const id: int
    var pos: Vec
    var vel: Vec
    var confidence: real
    var state: AlertState

    /** The agent's public record. */
    function View(): AgentView
      reads this
    {
      AgentView(id, pos, vel, confidence, state)
    }

    /** A new agent at (x, y) with velocity `initialVel` (the np.random.randn(2) draw). */
    constructor (id: int, x: real, y: real, initialVel: Vec)
      ensures View() == AgentView(id, Vec(x, y), initialVel, 0.0, Searching)
    {
      this.id := id;
      pos := Vec(x, y);
      vel := initialVel;
      confidence := 0.0;
      state := Searching;
    }

    /** Takes a reading with sensor noise `noise` and stores it as the confidence. */
    method SenseEnvironment(noise: real, norm: Vec -> real) returns (reading: real)
      requires IsEuclidean(norm)
      modifies this`confidence
      ensures confidence == Confidence(pos, noise, norm) && reading == confidence
    {
      var dist := norm(Sub(pos, ANOMALY_POS));
      var signal := Signal(dist);
      confidence := Clip(signal + noise, 0.0, 1.0);
      reading := confidence;
    }

    /** The agents of `agents` this one hears, in list order. */
    method GetNeighbors(agents: seq<Agent>, norm: Vec -> real) returns (neighbors: seq<Agent>)
      ensures Views(neighbors) == Neighbors(id, pos, Views(agents), norm)
      ensures forall a :: a in neighbors ==> a in agents && a.id != id
      ensures this !in neighbors
    {
      ghost var population := Views(agents);
      ViewsAt(agents);
      neighbors := [];
      for i := 0 to |agents|
        invariant Views(neighbors) == Neighbors(id, pos, population[..i], norm)
        invariant forall a :: a in neighbors ==> a in agents && a.id != id
      {
        var agent := agents[i];
        assert population[..i + 1][..i] == population[..i];
        if agent.id != id {
          var dist := norm(Sub(pos, agent.pos));
          if dist < COMM_RANGE {
            ViewsAppend(neighbors, agent);
            neighbors := neighbors + [agent];
          }
        }
      }
      assert population[..|agents|] == population;
    }

    /** Sense, vote and move, against the population list `agents`. */
    method Update(agents: seq<Agent>, noise: real, walk: Vec, norm: Vec -> real)
      requires IsEuclidean(norm)
      modifies this
      ensures View() == Step(old(View()), old(Views(agents)), noise, walk, norm)
    {
      ghost var me := View();
      ghost var population := Views(agents);
      ViewsAt(agents);
      var _ := SenseEnvironment(noise, norm);
      var neighbors := GetNeighbors(agents, norm);
      SensingHidesFromNeighbors(agents, population, norm);
      // The neighbours' records; no neighbour changes during this update.
      var ns := Views(neighbors);
      Vote(ns);
      Move(ns, walk, norm);
    }

    /** The consensus vote: the new state from this agent's confidence and its neighbours'. */
    method Vote(neighbors: seq<AgentView>)
      modifies this`state
      ensures state == Decide(confidence, neighbors)
    {
      if confidence > ALERT_THRESHOLD {
        state := Verifying;
        var votes := Votes(neighbors);
        var total := |neighbors|;
        if total > 0 && (votes as real) / (total as real) > CONSENSUS_REQ {
          state := Alerting;
        }
      } else {
        state := Searching;
      }
    }

    /** The move: add the three forces to the velocity, limit the speed, step and clamp. */
    method Move(neighbors: seq<AgentView>, walk: Vec, norm: Vec -> real)
      requires IsEuclidean(norm)
      modifies this`vel, this`pos
      ensures vel == LimitSpeed(Add(old(vel), TotalForce(old(pos), old(vel), confidence, neighbors, walk, norm)), norm)
      ensures pos == ClampToArea(Add(old(pos), vel))
    {
      Accelerate(neighbors, walk, norm);
      pos := Add(pos, vel);
      pos := ClampToArea(pos);
    }

    /** Apply the forces to the velocity and limit the speed; the position is not touched. */
    method Accelerate(neighbors: seq<AgentView>, walk: Vec, norm: Vec -> real)
      requires IsEuclidean(norm)
      modifies this`vel
      ensures vel == LimitSpeed(Add(old(vel), TotalForce(pos, old(vel), confidence, neighbors, walk, norm)), norm)
    {
      ghost var force := TotalForce(pos, vel, confidence, neighbors, walk, norm);
      var totalForce := Force(neighbors, walk, norm);
      vel := Add(vel, totalForce);
      ghost var pushed := vel;
      CapSpeed(norm);
      assert pushed == Add(old(vel), force);
    }

    /** The speed limit: a velocity faster than MAX_SPEED is rescaled to it. */
    method CapSpeed(norm: Vec -> real)
      requires IsEuclidean(norm)
      modifies this`vel
      ensures vel == LimitSpeed(old(vel), norm)
    {
      var speed := norm(vel);
      if speed > MAX_SPEED {
        vel := Scale(Div(vel, speed), MAX_SPEED);
      }
    }

    /** The three forces on this agent from the records of its neighbours:
     * attraction or a random step, twice the repulsion, and alignment.
     */
    method Force(neighbors: seq<AgentView>, walk: Vec, norm: Vec -> real) returns (totalForce: Vec)
      requires IsEuclidean(norm)
      ensures totalForce == TotalForce(pos, vel, confidence, neighbors, walk, norm)
    {
      var attract;
      if confidence > SEARCH_THRESHOLD {
        attract := Scale(Sub(ANOMALY_POS, pos), ATTRACTION_GAIN);
      } else {
        attract := Scale(walk, EXPLORATION_GAIN);
      }
      var repulse := Repulse(pos, neighbors, norm);
      var align := Zero;
      if |neighbors| > 0 {
        var avgVel := MeanVelocity(neighbors);
        align := Scale(Sub(avgVel, vel), ALIGNMENT_GAIN);
      }
      totalForce := Add(Add(attract, Scale(repulse, REPULSION_GAIN)), align);
    }

    /** Sensing changes only this agent's confidence, and entries for this
     * agent carry its own identity, so the population the neighbour search
     * reads gives the same neighbours as the one before sensing.
     */
    lemma SensingHidesFromNeighbors(agents: seq<Agent>, before: seq<AgentView>, norm: Vec -> real)
      requires |before| == |agents|
      requires forall i :: 0 <= i < |agents| && agents[i] != this ==> before[i] == agents[i].View()
      requires forall i :: 0 <= i < |agents| && agents[i] == this ==> before[i].id == id
      ensures Neighbors(id, pos, Views(agents), norm) == Neighbors(id, pos, before, norm)
    {
      ViewsAt(agents);
      NeighborsIgnoreOwnEntries(id, pos, Views(agents), before, norm);
    }
  }

  /** The public records of a list of agents, in list order. */
  function Views(agents: seq<Agent>): (r: seq<AgentView>)
    reads agents
    ensures |r| == |agents|
    decreases |agents|
  {
    if agents == [] then [] else Views(agents[..|agents| - 1]) + [agents[|agents| - 1].View()]
  }

  /** The repulsion the neighbours with records `neighbors` exert on an agent at `pos`. */
  method Repulse(pos: Vec, neighbors: seq<AgentView>, norm: Vec -> real) returns (force: Vec)
    requires IsEuclidean(norm)
    ensures force == Repulsion(pos, neighbors, norm)
  {
    force := Zero;
    for i := 0 to |neighbors|
      invariant force == Repulsion(pos, neighbors[..i], norm)
    {
      var n := neighbors[i];
      assert neighbors[..i + 1][..i] == neighbors[..i];
      var dist := norm(Sub(pos, n.pos));
      if dist < COLLISION_RADIUS {
        force := Sub(force, Scale(Sub(n.pos, pos), 1.0 / (dist + REPULSION_EPSILON)));
      }
    }
    assert neighbors[..|neighbors|] == neighbors;
  }

  /** When only the agent at index k may have changed, the records change only at k. */
  lemma ViewsAfterUpdating(agents: seq<Agent>, k: nat, prev: seq<AgentView>)
    requires k < |agents| == |prev|
    requires forall j :: 0 <= j < |agents| && j != k ==> agents[j].View() == prev[j]
    ensures Views(agents) == prev[k := agents[k].View()]
  {
    ViewsAt(agents);
  }

  /** Entry i of the records is the record of agent i. */
  lemma {:induction false} ViewsAt(agents: seq<Agent>)
    ensures forall i :: 0 <= i < |agents| ==> Views(agents)[i] == agents[i].View()
    decreases |agents|
  {
    if agents != [] {
      ViewsAt(agents[..|agents| - 1]);
    }
  }

  /** Appending an agent to a list appends its record. */
  lemma ViewsAppend(agents: seq<Agent>, a: Agent)
    ensures Views(agents + [a]) == Views(agents) + [a.View()]
  {
    assert (agents + [a])[..|agents|] == agents;
  }

  /** One animation frame: every agent of the array is updated in place, in
   * order, against the list as it stands at that moment. The result says
   * whether some agent is alerting right after its own update.
   */
  method Frame(agents: array<Agent>, noises: seq<real>, walks: seq<Vec>, norm: Vec -> real) returns (alertTriggered: bool)
    requires IsEuclidean(norm)
    requires |noises| == agents.Length && |walks| == agents.Length
    requires forall i, j :: 0 <= i < j < agents.Length ==> agents[i] != agents[j]
    modifies set i | 0 <= i < agents.Length :: agents[i]
    ensures Views(agents[..]) == Sweep(old(Views(agents[..])), noises, walks, norm, agents.Length)
    ensures alertTriggered <==> exists k :: 0 <= k < agents.Length && agents[k].state == Alerting
  {
    // The array itself is never written; only the agents in it change.
    var list := agents[..];
    alertTriggered := UpdateInOrder(list, noises, walks, norm);
    forall i | 0 <= i < agents.Length
      ensures agents[i] == list[i]
    {
    }
    assert agents[..] == list;
    ViewsAt(list);
    AlertInMeansSomeAlerting(Views(list), |list|);
  }

  /** The frame loop over the list of agents. */
  method UpdateInOrder(list: seq<Agent>, noises: seq<real>, walks: seq<Vec>, norm: Vec -> real) returns (alertTriggered: bool)
    requires IsEuclidean(norm)
    requires |noises| == |list| && |walks| == |list|
    requires forall i, j :: 0 <= i < j < |list| ==> list[i] != list[j]
    modifies set i | 0 <= i < |list| :: list[i]
    ensures Views(list) == Sweep(old(Views(list)), noises, walks, norm, |list|)
    ensures alertTriggered <==> AlertIn(Views(list), |list|)
  {
    ghost var start := Views(list);
    alertTriggered := false;
    for k := 0 to |list|
      invariant Views(list) == Sweep(start, noises, walks, norm, k)
      invariant alertTriggered <==> AlertIn(Views(list), k)
    {
      var alerting := Advance(list, k, start, noises, walks, norm);
      if alerting {
        alertTriggered := true;
      }
    }
  }

  /** The k-th update of a frame: agent k moves the records on from the
   * first k updates of the sweep to the first k + 1, and reports whether it
   * is now alerting.
   */
  method Advance(list: seq<Agent>, k: nat, ghost start: seq<AgentView>, noises: seq<real>, walks: seq<Vec>, norm: Vec -> real)
    returns (alerting: bool)
    requires IsEuclidean(norm)
    requires k < |list| && |start| == |list| && |noises| == |list| && |walks| == |list|
    requires forall i, j :: 0 <= i < j < |list| ==> list[i] != list[j]
    requires Views(list) == Sweep(start, noises, walks, norm, k)
    modifies list[k]
    ensures Views(list) == Sweep(start, noises, walks, norm, k + 1)
    ensures alerting <==> list[k].state == Alerting
    ensures AlertIn(Views(list), k + 1) <==> AlertIn(old(Views(list)), k) || alerting
  {
    ghost var prev := Views(list);
    ViewsAt(list);
    list[k].Update(list, noises[k], walks[k], norm);
    forall j | 0 <= j < |list| && j != k
      ensures list[j].View() == prev[j]
    {
      assert list[j] != list[k];
    }
    ViewsAfterUpdating(list, k, prev);
    SweepNext(start, noises, walks, norm, k);
    alerting := list[k].state == Alerting;
    AlertInIgnoresLater(prev, k, k, list[k].View());
  }

  /** Whether some record among the first k is alerting, scanned in list order. */
  predicate AlertIn(records: seq<AgentView>, k: nat)
    requires k <= |records|
  {
    k > 0 && (AlertIn(records, k - 1) || records[k - 1].state == Alerting)
  }

  /** The scan finds an alert exactly when some record among the first k is alerting. */
  lemma {:induction false} AlertInMeansSomeAlerting(records: seq<AgentView>, k: nat)
    requires k <= |records|
    ensures AlertIn(records, k) <==> exists j :: 0 <= j < k && records[j].state == Alerting
  {
    if k > 0 {
      AlertInMeansSomeAlerting(records, k - 1);
    }
  }

  /** Changing a record at or after position k does not change the scan of the first k. */
  lemma {:induction false} AlertInIgnoresLater(records: seq<AgentView>, k: nat, m: nat, x: AgentView)
    requires m <= k < |records|
    ensures AlertIn(records[k := x], m) == AlertIn(records, m)
  {
    if m > 0 {
      AlertInIgnoresLater(records, k, m - 1, x);
    }
  }

  /** The initial swarm: agent i gets identity i, the position scaled from
   * the uniform draws (us[i], vs[i]) and the initial velocity vels[i].
   */
  method Populate(us: seq<real>, vs: seq<real>, vels: seq<Vec>) returns (agents: array<Agent>)
    requires |us| == NUM_AGENTS && |vs| == NUM_AGENTS && |vels| == NUM_AGENTS
    ensures agents.Length == NUM_AGENTS && fresh(agents)
    ensures forall i :: 0 <= i < NUM_AGENTS ==> fresh(agents[i])
    ensures forall i, j :: 0 <= i < j < NUM_AGENTS ==> agents[i] != agents[j]
    ensures forall i :: 0 <= i < NUM_AGENTS ==>
              agents[i].View() == AgentView(i, Vec(us[i] * AREA_SIZE, vs[i] * AREA_SIZE), vels[i], 0.0, Searching)
  {
    var placeholder := new Agent(0, 0.0, 0.0, Zero);
    agents := new Agent[NUM_AGENTS](_ => placeholder);
    for i := 0 to NUM_AGENTS
      invariant forall j :: 0 <= j < i ==> fresh(agents[j]) && agents[j] != placeholder
      invariant forall j, l :: 0 <= j < l < i ==> agents[j] != agents[l]
      invariant forall j :: 0 <= j < i ==>
                  agents[j].View() == AgentView(j, Vec(us[j] * AREA_SIZE, vs[j] * AREA_SIZE), vels[j], 0.0, Searching)
    {
      agents[i] := new Agent(i, us[i] * AREA_SIZE, vs[i] * AREA_SIZE, vels[i]);
    }
  }
}
