/** One agent's update (Agent.update) as a function of its own record and of
 * the population it observes, and one animation frame as the in-order sweep
 * that applies it to every agent of the list in turn.
 */
module Swarm {
  import opened Geometry
  import opened Config
  import opened Records
  import opened Sensing
  import opened Neighborhood
  import opened Consensus
  import opened Motion

  /** What holds of every agent once it has been updated at least once. */
  predicate WellFormed(a: AgentView, norm: Vec -> real)
  {
    0.0 <= a.confidence <= 1.0 && norm(a.vel) <= MAX_SPEED && InArea(a.pos)
  }

  /** The record of `me` after its update, when the population list it is
   * handed reads `population`, the sensor noise is `noise` and the random
   * walk draw is `walk`.
   */
  function Step(me: AgentView, population: seq<AgentView>, noise: real, walk: Vec, norm: Vec -> real): (r: AgentView)
    requires IsEuclidean(norm)
    ensures r.id == me.id && WellFormed(r, norm)
    ensures r.confidence <= ALERT_THRESHOLD <==> r.state == Searching
  {
    var confidence := Confidence(me.pos, noise, norm);
    var neighbors := Neighbors(me.id, me.pos, population, norm);
    var vel := LimitSpeed(Add(me.vel, TotalForce(me.pos, me.vel, confidence, neighbors, walk, norm)), norm);
    AgentView(me.id, ClampToArea(Add(me.pos, vel)), vel, confidence, Decide(confidence, neighbors))
  }

  /** An agent that hears nobody never raises the alert. */
  lemma IsolatedAgentNeverAlerts(me: AgentView, population: seq<AgentView>, noise: real, walk: Vec, norm: Vec -> real)
    requires IsEuclidean(norm)
    requires forall o :: o in population ==> !IsNeighbor(me.id, me.pos, o, norm)
    ensures Step(me, population, noise, walk, norm).state != Alerting
  {
    var ns := Neighbors(me.id, me.pos, population, norm);
    if ns != [] {
      NeighborsMembership(me.id, me.pos, population, norm, ns[0]);
    }
  }

  /** An alert is always corroborated by some confident neighbour in range. */
  lemma AlertIsCorroborated(me: AgentView, population: seq<AgentView>, noise: real, walk: Vec, norm: Vec -> real)
    requires IsEuclidean(norm)
    requires Step(me, population, noise, walk, norm).state == Alerting
    ensures exists o :: o in population && IsNeighbor(me.id, me.pos, o, norm) && VotesForAlert(o)
  {
    var ns := Neighbors(me.id, me.pos, population, norm);
    var confidence := Confidence(me.pos, noise, norm);
    AlertIffStrictMajority(confidence, ns);
    VotesAllOrNone(ns);
    assert Votes(ns) != 0;
    var o :| o in ns && VotesForAlert(o);
    NeighborsMembership(me.id, me.pos, population, norm, o);
  }

  /** A confident agent whose neighbours in range are all confident, and
   * which has at least one, raises the alert.
   */
  lemma UnanimousNeighborhoodAlerts(me: AgentView, population: seq<AgentView>, noise: real, walk: Vec, norm: Vec -> real)
    requires IsEuclidean(norm)
    requires Confidence(me.pos, noise, norm) > ALERT_THRESHOLD
    requires exists o :: o in population && IsNeighbor(me.id, me.pos, o, norm)
    requires forall o :: o in population && IsNeighbor(me.id, me.pos, o, norm) ==> VotesForAlert(o)
    ensures Step(me, population, noise, walk, norm).state == Alerting
  {
    var ns := Neighbors(me.id, me.pos, population, norm);
    var o :| o in population && IsNeighbor(me.id, me.pos, o, norm);
    NeighborsMembership(me.id, me.pos, population, norm, o);
    forall n | n in ns
      ensures VotesForAlert(n)
    {
      NeighborsMembership(me.id, me.pos, population, norm, n);
    }
    UnanimityAlerts(Confidence(me.pos, noise, norm), ns);
  }

  /** The population after the first `k` agents of the list have been
   * updated in place, in list order: each one sees the records of those
   * before it as already updated in this frame.
   */
  function Sweep(start: seq<AgentView>, noises: seq<real>, walks: seq<Vec>, norm: Vec -> real, k: nat): (r: seq<AgentView>)
    requires IsEuclidean(norm)
    requires |noises| == |start| && |walks| == |start| && k <= |start|
    ensures |r| == |start|
    decreases k, 0
  {
    if k == 0 then start else SweepThrough(start, noises, walks, norm, k - 1)
  }

  /** The population once agent `k` has been updated too, against the
   * records the first `k` updates left.
   */
  function SweepThrough(start: seq<AgentView>, noises: seq<real>, walks: seq<Vec>, norm: Vec -> real, k: nat): (r: seq<AgentView>)
    requires IsEuclidean(norm)
    requires |noises| == |start| && |walks| == |start| && k < |start|
    ensures |r| == |start|
    decreases k, 1
  {
    var prev := Sweep(start, noises, walks, norm, k);
    prev[k := Step(prev[k], prev, noises[k], walks[k], norm)]
  }

  /** Going one agent further in the sweep updates exactly that agent. */
  lemma SweepNext(start: seq<AgentView>, noises: seq<real>, walks: seq<Vec>, norm: Vec -> real, k: nat)
    requires IsEuclidean(norm)
    requires |noises| == |start| && |walks| == |start| && k < |start|
    ensures var prev := Sweep(start, noises, walks, norm, k);
            Sweep(start, noises, walks, norm, k + 1) == prev[k := Step(prev[k], prev, noises[k], walks[k], norm)]
  {
    assert Sweep(start, noises, walks, norm, k + 1) == SweepThrough(start, noises, walks, norm, k);
  }

  /** Agents not yet reached by the sweep still hold last frame's records. */
  lemma {:induction false} SweepLeavesRestUntouched(start: seq<AgentView>, noises: seq<real>, walks: seq<Vec>, norm: Vec -> real, k: nat)
    requires IsEuclidean(norm)
    requires |noises| == |start| && |walks| == |start| && k <= |start|
    ensures Sweep(start, noises, walks, norm, k)[k..] == start[k..]
    decreases k
  {
    if k > 0 {
      SweepLeavesRestUntouched(start, noises, walks, norm, k - 1);
    }
  }

  /** Agents already updated are not touched again later in the frame. */
  lemma {:induction false} SweepSettled(start: seq<AgentView>, noises: seq<real>, walks: seq<Vec>, norm: Vec -> real, k: nat, m: nat)
    requires IsEuclidean(norm)
    requires |noises| == |start| && |walks| == |start| && k <= m <= |start|
    ensures Sweep(start, noises, walks, norm, m)[..k] == Sweep(start, noises, walks, norm, k)[..k]
    decreases m
  {
    if k < m {
      SweepSettled(start, noises, walks, norm, k, m - 1);
      var prev := Sweep(start, noises, walks, norm, m - 1);
      var updated := Step(prev[m - 1], prev, noises[m - 1], walks[m - 1], norm);
      assert Sweep(start, noises, walks, norm, m) == prev[m - 1 := updated];
      assert prev[m - 1 := updated][..k] == prev[..k];
    } else {
      assert k == m;
    }
  }

  /** Midway through the frame, the records are this frame's up to k and last frame's from k on. */
  lemma SweepMidway(start: seq<AgentView>, noises: seq<real>, walks: seq<Vec>, norm: Vec -> real, k: nat)
    requires IsEuclidean(norm)
    requires |noises| == |start| && |walks| == |start| && k <= |start|
    ensures Sweep(start, noises, walks, norm, k) == Sweep(start, noises, walks, norm, |start|)[..k] + start[k..]
  {
    var before := Sweep(start, noises, walks, norm, k);
    SweepLeavesRestUntouched(start, noises, walks, norm, k);
    SweepSettled(start, noises, walks, norm, k, |start|);
    assert before == before[..k] + before[k..];
  }

  /** Agent k's final record is the one its own update gave it. */
  lemma SweepFinalAt(start: seq<AgentView>, noises: seq<real>, walks: seq<Vec>, norm: Vec -> real, k: nat)
    requires IsEuclidean(norm)
    requires |noises| == |start| && |walks| == |start| && k < |start|
    ensures Sweep(start, noises, walks, norm, |start|)[k] == Sweep(start, noises, walks, norm, k + 1)[k]
  {
    var final := Sweep(start, noises, walks, norm, |start|);
    SweepSettled(start, noises, walks, norm, k + 1, |start|);
    assert final[k] == final[..k + 1][k];
  }

  /** The ordering of the frame loop: agent k ends the frame with the record
   * its update computes against a population whose first k entries already
   * hold this frame's records and whose other entries hold last frame's.
   */
  lemma SequentialView(start: seq<AgentView>, noises: seq<real>, walks: seq<Vec>, norm: Vec -> real, k: nat)
    requires IsEuclidean(norm)
    requires |noises| == |start| && |walks| == |start| && k < |start|
    ensures var final := Sweep(start, noises, walks, norm, |start|);
            final[k] == Step(start[k], final[..k] + start[k..], noises[k], walks[k], norm)
  {
    SweepMidway(start, noises, walks, norm, k);
    SweepFinalAt(start, noises, walks, norm, k);
    SweepNext(start, noises, walks, norm, k);
  }

  /** After one frame every agent is in the area, no faster than MAX_SPEED,
   * with a confidence in [0, 1], and keeps its identity.
   */
  lemma FrameEstablishesInvariants(start: seq<AgentView>, noises: seq<real>, walks: seq<Vec>, norm: Vec -> real)
    requires IsEuclidean(norm)
    requires |noises| == |start| && |walks| == |start|
    ensures var final := Sweep(start, noises, walks, norm, |start|);
            forall j :: 0 <= j < |start| ==> final[j].id == start[j].id && WellFormed(final[j], norm)
  {
    var final := Sweep(start, noises, walks, norm, |start|);
    forall j | 0 <= j < |start|
      ensures final[j].id == start[j].id && WellFormed(final[j], norm)
    {
      SequentialView(start, noises, walks, norm, j);
    }
  }
}
