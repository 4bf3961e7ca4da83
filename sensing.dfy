/** The agent's sensor: a signal that falls off linearly with the distance
 * to the hazard, plus a noise sample, clipped to [0, 1]
 * (Agent.sense_environment).
 */
module Sensing {
  import opened Geometry
  import opened Config

  /** np.clip on a scalar: the nearest point of [lo, hi]. */
  function Clip(v: real, lo: real, hi: real): (r: real)
    requires lo <= hi
    ensures lo <= r <= hi
    ensures lo <= v <= hi ==> r == v
    ensures r == v || (v < lo && r == lo) || (hi < v && r == hi)
  {
    if v < lo then lo else if v > hi then hi else v
  }

  /** The noise-free reading at a given distance from the hazard centre. */
  function Signal(dist: real): (r: real)
    requires dist >= 0.0
    ensures 0.0 <= r <= 1.0
    ensures r == 0.0 <==> dist >= ANOMALY_RADIUS
    ensures dist == 0.0 ==> r == 1.0
  {
    var s := 1.0 - dist / ANOMALY_RADIUS;
    if 0.0 < s then s else 0.0
  }

  /** The reading an agent at `pos` takes when the sensor noise is `noise`. */
  function Confidence(pos: Vec, noise: real, norm: Vec -> real): (r: real)
    requires IsEuclidean(norm)
    ensures 0.0 <= r <= 1.0
  {
    Clip(Signal(norm(Sub(pos, ANOMALY_POS))) + noise, 0.0, 1.0)
  }

  /** Without noise, an agent on the hazard centre is certain. */
  lemma AtAnomalyFullConfidence(norm: Vec -> real)
    requires IsEuclidean(norm)
    ensures Confidence(ANOMALY_POS, 0.0, norm) == 1.0
  {
    var d := Sub(ANOMALY_POS, ANOMALY_POS);
    assert d == Zero;
    NormFromSquare(norm, d, 0.0);
    assert Signal(norm(d)) == 1.0;
  }

  /** Outside the hazard radius the reading is the clipped noise alone. */
  lemma BeyondRadiusOnlyNoise(pos: Vec, noise: real, norm: Vec -> real)
    requires IsEuclidean(norm)
    requires norm(Sub(pos, ANOMALY_POS)) >= ANOMALY_RADIUS
    ensures Confidence(pos, noise, norm) == Clip(noise, 0.0, 1.0)
  {
  }

  /** Closer to the hazard never means a weaker noise-free signal. */
  lemma SignalMonotone(d1: real, d2: real)
    requires 0.0 <= d1 <= d2
    ensures Signal(d2) <= Signal(d1)
  {
  }
}
