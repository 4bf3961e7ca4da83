/** Who hears whom: the brute-force neighbour search of Agent.get_neighbors,
 * as a filter over the population in list order.
 */
module Neighborhood {
  import opened Geometry
  import opened Config
  import opened Records

  /** `other` is a neighbour of the agent with identity `id` standing at `pos`. */
  predicate IsNeighbor(id: int, pos: Vec, other: AgentView, norm: Vec -> real)
  {
    other.id != id && norm(Sub(pos, other.pos)) < COMM_RANGE
  }

  /** The neighbours of (`id`, `pos`) among `population`, in population order. */
  function Neighbors(id: int, pos: Vec, population: seq<AgentView>, norm: Vec -> real): (r: seq<AgentView>)
    ensures |r| <= |population|
    decreases |population|
  {
    if population == [] then []
    else
      var rest := Neighbors(id, pos, population[..|population| - 1], norm);
      var last := population[|population| - 1];
      if IsNeighbor(id, pos, last, norm) then rest + [last] else rest
  }

  /** A record is returned exactly when it is in the population and is a neighbour. */
  lemma {:induction false} NeighborsMembership(id: int, pos: Vec, population: seq<AgentView>, norm: Vec -> real, o: AgentView)
    ensures o in Neighbors(id, pos, population, norm) <==> o in population && IsNeighbor(id, pos, o, norm)
    decreases |population|
  {
    if population != [] {
      var init := population[..|population| - 1];
      NeighborsMembership(id, pos, init, norm, o);
      assert population == init + [population[|population| - 1]];
    }
  }

  /** The search keeps list order: it distributes over concatenation. */
  lemma {:induction false} NeighborsAppend(id: int, pos: Vec, p: seq<AgentView>, q: seq<AgentView>, norm: Vec -> real)
    ensures Neighbors(id, pos, p + q, norm) == Neighbors(id, pos, p, norm) + Neighbors(id, pos, q, norm)
    decreases |q|
  {
    if q == [] {
      assert p + q == p;
    } else {
      var q', last := q[..|q| - 1], q[|q| - 1];
      NeighborsAppend(id, pos, p, q', norm);
      var pq := p + q;
      assert pq[..|pq| - 1] == p + q' && pq[|pq| - 1] == last;
      var tail := if IsNeighbor(id, pos, last, norm) then [last] else [];
      calc {
        Neighbors(id, pos, pq, norm);
        Neighbors(id, pos, p + q', norm) + tail;
        Neighbors(id, pos, p, norm) + Neighbors(id, pos, q', norm) + tail;
        Neighbors(id, pos, p, norm) + (Neighbors(id, pos, q', norm) + tail);
        Neighbors(id, pos, p, norm) + Neighbors(id, pos, q, norm);
      }
    }
  }

  /** Only identities and positions matter, and entries carrying the caller's
   * own identity never do: two populations that differ only in such entries
   * give the same neighbours.
   */
  lemma {:induction false} NeighborsIgnoreOwnEntries(id: int, pos: Vec, p: seq<AgentView>, q: seq<AgentView>, norm: Vec -> real)
    requires |p| == |q|
    requires forall i :: 0 <= i < |p| ==> p[i] == q[i] || (p[i].id == id && q[i].id == id)
    ensures Neighbors(id, pos, p, norm) == Neighbors(id, pos, q, norm)
    decreases |p|
  {
    if p != [] {
      NeighborsIgnoreOwnEntries(id, pos, p[..|p| - 1], q[..|q| - 1], norm);
    }
  }

  /** The range test needs no square root: it compares squared distances. */
  lemma NeighborBySquaredDistance(id: int, pos: Vec, other: AgentView, norm: Vec -> real)
    requires IsEuclidean(norm)
    ensures IsNeighbor(id, pos, other, norm) <==>
              other.id != id && SquaredLength(Sub(pos, other.pos)) < COMM_RANGE * COMM_RANGE
  {
    NormBelowIffSquared(norm, Sub(pos, other.pos), COMM_RANGE);
  }

  /** Hearing is mutual between agents with distinct identities. */
  lemma NeighborSymmetric(a: AgentView, b: AgentView, norm: Vec -> real)
    requires IsEuclidean(norm)
    ensures IsNeighbor(a.id, a.pos, b, norm) <==> IsNeighbor(b.id, b.pos, a, norm)
  {
    DistanceSymmetric(norm, a.pos, b.pos);
  }
}
