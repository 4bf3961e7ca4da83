/** The three-state vote of Agent.update: an agent that is confident itself
 * asks its neighbours and raises the alert only when a strict majority of
 * them is confident too.
 */
module Consensus {
  import opened Config
  import opened Records

  /** Whether a neighbour's confidence counts as a vote for the alert. */
  predicate VotesForAlert(n: AgentView)
  {
    n.confidence > ALERT_THRESHOLD
  }

  /** The number of neighbours voting for the alert. */
  function Votes(neighbors: seq<AgentView>): (v: nat)
    ensures v <= |neighbors|
    decreases |neighbors|
  {
    if neighbors == [] then 0
    else Votes(neighbors[..|neighbors| - 1]) + if VotesForAlert(neighbors[|neighbors| - 1]) then 1 else 0
  }

  /** Every neighbour votes exactly when the count is the neighbourhood's
   * size, and none does exactly when the count is zero.
   */
  lemma {:induction false} VotesAllOrNone(neighbors: seq<AgentView>)
    ensures Votes(neighbors) == |neighbors| <==> forall n :: n in neighbors ==> VotesForAlert(n)
    ensures Votes(neighbors) == 0 <==> forall n :: n in neighbors ==> !VotesForAlert(n)
    decreases |neighbors|
  {
    if neighbors != [] {
      var init := neighbors[..|neighbors| - 1];
      var last := neighbors[|neighbors| - 1];
      VotesAllOrNone(init);
      assert neighbors == init + [last];
    }
  }

  /** The vote test: at least one neighbour, and a fraction of votes strictly above the requirement. */
  predicate Consensus(votes: nat, total: nat)
  {
    total > 0 && (votes as real) / (total as real) > CONSENSUS_REQ
  }

  /** The state an agent with the given confidence and neighbours moves to. */
  function Decide(confidence: real, neighbors: seq<AgentView>): (s: AlertState)
  {
    if confidence > ALERT_THRESHOLD then
      if Consensus(Votes(neighbors), |neighbors|) then Alerting else Verifying
    else
      Searching
  }

  /** An agent that is not confident itself searches, whatever its neighbours say. */
  lemma UnconfidentSearches(confidence: real, neighbors: seq<AgentView>)
    ensures Decide(confidence, neighbors) == Searching <==> confidence <= ALERT_THRESHOLD
  {
  }

  /** The alert is raised exactly when the agent is confident and more than
   * half of a non-empty neighbourhood votes for it.
   */
  lemma AlertIffStrictMajority(confidence: real, neighbors: seq<AgentView>)
    ensures Decide(confidence, neighbors) == Alerting <==>
              confidence > ALERT_THRESHOLD && |neighbors| > 0 && 2 * Votes(neighbors) > |neighbors|
  {
    if |neighbors| > 0 {
      FractionAboveHalf(Votes(neighbors), |neighbors|);
    }
  }

  /** votes / total > 1/2 is the integer test 2 * votes > total. */
  lemma FractionAboveHalf(votes: nat, total: nat)
    requires total > 0
    ensures (votes as real) / (total as real) > CONSENSUS_REQ <==> 2 * votes > total
  {
    var v, t := votes as real, total as real;
    var q := v / t;
    assert q * t == v;
    if q > CONSENSUS_REQ {
      assert (q - CONSENSUS_REQ) * t > 0.0;
    } else {
      assert (CONSENSUS_REQ - q) * t >= 0.0;
    }
  }

  /** Corroboration is required: an isolated agent never alerts. */
  lemma IsolatedNeverAlerts(confidence: real)
    ensures Decide(confidence, []) != Alerting
  {
  }

  /** A tie is not a majority: exactly half the votes does not raise the alert. */
  lemma TieDoesNotAlert(confidence: real, neighbors: seq<AgentView>)
    requires 2 * Votes(neighbors) == |neighbors|
    ensures Decide(confidence, neighbors) != Alerting
  {
    AlertIffStrictMajority(confidence, neighbors);
  }

  /** A confident agent whose neighbours are all confident raises the alert. */
  lemma UnanimityAlerts(confidence: real, neighbors: seq<AgentView>)
    requires confidence > ALERT_THRESHOLD && |neighbors| > 0
    requires forall n :: n in neighbors ==> VotesForAlert(n)
    ensures Decide(confidence, neighbors) == Alerting
  {
    VotesAllOrNone(neighbors);
    AlertIffStrictMajority(confidence, neighbors);
  }
}
