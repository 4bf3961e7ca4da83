/** The motion model of Agent.update: three force terms, a speed limit and
 * a hard clamp of the position into the operating area.
 */
module Motion {
  import opened Geometry
  import opened Config
  import opened Records
  import opened Sensing

  /** Head for the hazard when it can be smelled, otherwise a random step
   * (`walk` is the np.random.randn(2) draw).
   */
  function Attraction(pos: Vec, confidence: real, walk: Vec): Vec
  {
    if confidence > SEARCH_THRESHOLD then Scale(Sub(ANOMALY_POS, pos), ATTRACTION_GAIN)
    else Scale(walk, EXPLORATION_GAIN)
  }

  /** A confident agent's attraction shrinks its distance to the hazard by
   * the attraction gain: its squared distance is multiplied by (1 - 0.05)^2.
   */
  lemma AttractionClosesIn(pos: Vec, confidence: real, walk: Vec)
    requires confidence > SEARCH_THRESHOLD
    ensures SquaredLength(Sub(Add(pos, Attraction(pos, confidence, walk)), ANOMALY_POS))
              == 0.9025 * SquaredLength(Sub(pos, ANOMALY_POS))
  {
    var d := Sub(pos, ANOMALY_POS);
    assert Sub(Add(pos, Attraction(pos, confidence, walk)), ANOMALY_POS) == Scale(d, 0.95);
  }

  /** A neighbour at distance `dist` is close enough to push the agent away. */
  predicate TooClose(dist: real)
  {
    dist < COLLISION_RADIUS
  }

  /** The repulsion sum over the neighbours, accumulated in list order. */
  function Repulsion(pos: Vec, neighbors: seq<AgentView>, norm: Vec -> real): Vec
    requires IsEuclidean(norm)
    decreases |neighbors|
  {
    if neighbors == [] then Zero
    else
      var acc := Repulsion(pos, neighbors[..|neighbors| - 1], norm);
      var n := neighbors[|neighbors| - 1];
      var dist := norm(Sub(pos, n.pos));
      if TooClose(dist) then Sub(acc, Scale(Sub(n.pos, pos), 1.0 / (dist + REPULSION_EPSILON)))
      else acc
  }

  /** The neighbours closer than the collision radius, in list order. */
  function CloseOnes(pos: Vec, neighbors: seq<AgentView>, norm: Vec -> real): (r: seq<AgentView>)
    ensures forall n :: n in r ==> n in neighbors && TooClose(norm(Sub(pos, n.pos)))
    ensures forall n :: n in neighbors && TooClose(norm(Sub(pos, n.pos))) ==> n in r
    decreases |neighbors|
  {
    if neighbors == [] then []
    else
      var init := neighbors[..|neighbors| - 1];
      var rest := CloseOnes(pos, init, norm);
      var n := neighbors[|neighbors| - 1];
      assert neighbors == init + [n];
      if TooClose(norm(Sub(pos, n.pos))) then rest + [n] else rest
  }

  /** Only neighbours inside the collision radius contribute to repulsion. */
  lemma {:induction false} RepulsionOnlyFromClose(pos: Vec, neighbors: seq<AgentView>, norm: Vec -> real)
    requires IsEuclidean(norm)
    ensures Repulsion(pos, neighbors, norm) == Repulsion(pos, CloseOnes(pos, neighbors, norm), norm)
    decreases |neighbors|
  {
    if neighbors != [] {
      var init, n := neighbors[..|neighbors| - 1], neighbors[|neighbors| - 1];
      RepulsionOnlyFromClose(pos, init, norm);
      var close := CloseOnes(pos, init, norm);
      if TooClose(norm(Sub(pos, n.pos))) {
        assert (close + [n])[..|close + [n]| - 1] == close;
      }
    }
  }

  /** No neighbour inside the collision radius, no repulsion. */
  lemma FarNeighborsDoNotRepel(pos: Vec, neighbors: seq<AgentView>, norm: Vec -> real)
    requires IsEuclidean(norm)
    requires forall n :: n in neighbors ==> !TooClose(norm(Sub(pos, n.pos)))
    ensures Repulsion(pos, neighbors, norm) == Zero
  {
    RepulsionOnlyFromClose(pos, neighbors, norm);
  }

  /** The sum of the neighbours' velocities, in list order. */
  function SumVelocity(neighbors: seq<AgentView>): Vec
    decreases |neighbors|
  {
    if neighbors == [] then Zero
    else Add(SumVelocity(neighbors[..|neighbors| - 1]), neighbors[|neighbors| - 1].vel)
  }

  /** The mean velocity of the neighbours (np.mean over the list). */
  function MeanVelocity(neighbors: seq<AgentView>): Vec
    requires |neighbors| > 0
  {
    Div(SumVelocity(neighbors), |neighbors| as real)
  }

  /** Steer towards the neighbours' mean velocity; no neighbours, no steering. */
  function Alignment(vel: Vec, neighbors: seq<AgentView>): Vec
  {
    if |neighbors| > 0 then Scale(Sub(MeanVelocity(neighbors), vel), ALIGNMENT_GAIN) else Zero
  }

  /** When every neighbour has velocity `v`, they sum to |neighbors| * v. */
  lemma {:induction false} SumOfEqualVelocities(neighbors: seq<AgentView>, v: Vec)
    requires forall n :: n in neighbors ==> n.vel == v
    ensures SumVelocity(neighbors) == Scale(v, |neighbors| as real)
    decreases |neighbors|
  {
    if neighbors != [] {
      var init := neighbors[..|neighbors| - 1];
      assert forall n :: n in init ==> n in neighbors;
      SumOfEqualVelocities(init, v);
      assert neighbors[|neighbors| - 1] in neighbors;
    }
  }

  /** An agent already flying with its flock feels no alignment force. */
  lemma AlignedFlockNoAlignment(vel: Vec, neighbors: seq<AgentView>)
    requires forall n :: n in neighbors ==> n.vel == vel
    ensures Alignment(vel, neighbors) == Zero
  {
    if |neighbors| > 0 {
      var k := |neighbors| as real;
      SumOfEqualVelocities(neighbors, vel);
      assert vel.x * k / k == vel.x && vel.y * k / k == vel.y;
      assert MeanVelocity(neighbors) == vel;
    }
  }

  /** The combined force: attraction, twice the repulsion, and alignment. */
  function TotalForce(pos: Vec, vel: Vec, confidence: real, neighbors: seq<AgentView>, walk: Vec, norm: Vec -> real): Vec
    requires IsEuclidean(norm)
  {
    Add(Add(Attraction(pos, confidence, walk), Scale(Repulsion(pos, neighbors, norm), REPULSION_GAIN)),
        Alignment(vel, neighbors))
  }

  /** An agent without neighbours moves by the attraction term alone. */
  lemma NoNeighborsOnlyAttraction(pos: Vec, vel: Vec, confidence: real, walk: Vec, norm: Vec -> real)
    requires IsEuclidean(norm)
    ensures Repulsion(pos, [], norm) == Zero && Alignment(vel, []) == Zero
    ensures TotalForce(pos, vel, confidence, [], walk, norm) == Attraction(pos, confidence, walk)
  {
    var a := Attraction(pos, confidence, walk);
    calc {
      TotalForce(pos, vel, confidence, [], walk, norm);
      Add(Add(a, Scale(Zero, REPULSION_GAIN)), Zero);
      { ScaleZero(REPULSION_GAIN); }
      Add(Add(a, Zero), Zero);
      a;
    }
  }

  /** `u` points the same way as `v`: parallel, with a positive dot product. */
  predicate SameDirection(u: Vec, v: Vec)
  {
    u.x * v.y == u.y * v.x && u.x * v.x + u.y * v.y > 0.0
  }

  /** The speed clamp: a velocity faster than MAX_SPEED is rescaled to it. */
  function LimitSpeed(v: Vec, norm: Vec -> real): (r: Vec)
    requires IsEuclidean(norm)
    ensures norm(r) <= MAX_SPEED
    ensures norm(v) <= MAX_SPEED ==> r == v
    ensures norm(v) > MAX_SPEED ==> norm(r) == MAX_SPEED && SameDirection(r, v)
  {
    var speed := norm(v);
    if speed > MAX_SPEED then
      RescaledToMaxSpeed(v, norm);
      Scale(Div(v, speed), MAX_SPEED)
    else v
  }

  lemma RescaledToMaxSpeed(v: Vec, norm: Vec -> real)
    requires IsEuclidean(norm) && norm(v) > MAX_SPEED
    ensures norm(Scale(Div(v, norm(v)), MAX_SPEED)) == MAX_SPEED
    ensures SameDirection(Scale(Div(v, norm(v)), MAX_SPEED), v)
  {
    var s := norm(v);
    var k := MAX_SPEED / s;
    var r := Scale(Div(v, s), MAX_SPEED);
    assert r == Scale(v, k);
    assert s * s == SquaredLength(v);
    assert k * s == MAX_SPEED;
    assert SquaredLength(r) == k * k * SquaredLength(v);
    assert k * k * (s * s) == (k * s) * (k * s);
    NormFromSquare(norm, r, MAX_SPEED);
    assert k > 0.0 && SquaredLength(v) > 0.0;
    assert r.x * v.x + r.y * v.y == k * SquaredLength(v);
  }

  /** The area is the square [0, AREA_SIZE] x [0, AREA_SIZE]. */
  predicate InArea(p: Vec)
  {
    0.0 <= p.x <= AREA_SIZE && 0.0 <= p.y <= AREA_SIZE
  }

  /** np.clip of a position into the area, each coordinate on its own. */
  function ClampToArea(p: Vec): (r: Vec)
    ensures InArea(r)
    ensures InArea(p) ==> r == p
    ensures 0.0 <= p.x <= AREA_SIZE ==> r.x == p.x
    ensures 0.0 <= p.y <= AREA_SIZE ==> r.y == p.y
    ensures p.x < 0.0 ==> r.x == 0.0
    ensures p.x > AREA_SIZE ==> r.x == AREA_SIZE
    ensures p.y < 0.0 ==> r.y == 0.0
    ensures p.y > AREA_SIZE ==> r.y == AREA_SIZE
  {
    Vec(Clip(p.x, 0.0, AREA_SIZE), Clip(p.y, 0.0, AREA_SIZE))
  }
}
