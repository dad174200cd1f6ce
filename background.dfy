/**
 * The two pure helpers of the decorative background: the clamp that turns
 * the velocity curve's output into the intensity factor, and the choice of
 * parallax curve by layer.
 */
module Background {

  function Abs(x: real): (r: real)
    ensures r >= 0.0 && (r == x || r == -x)
  {
    if x < 0.0 then -x else x
  }

  function Min(a: real, b: real): real
  {
    if a <= b then a else b
  }

  /** `Math.min(Math.abs(latest), 1)`: the smaller of |latest| and 1. */
  function VelocityFactor(latest: real): (r: real)
    ensures 0.0 <= r <= 1.0
    ensures r <= Abs(latest)
    ensures r == Abs(latest) || r == 1.0
  {
    Min(Abs(latest), 1.0)
  }

  /** On the range the velocity curve produces the clamp changes nothing. */
  lemma VelocityFactorKeepsUnitValues(x: real)
    requires 0.0 <= x <= 1.0
    ensures VelocityFactor(x) == x
  {
  }

  /** The factor depends on the speed only, not on the direction, and grows
      with the speed. */
  lemma VelocityFactorBySpeed(x: real, y: real)
    ensures VelocityFactor(-x) == VelocityFactor(x)
    ensures Abs(x) <= Abs(y) ==> VelocityFactor(x) <= VelocityFactor(y)
  {
  }

  /** Applying the clamp again changes nothing. */
  lemma VelocityFactorIdempotent(x: real)
    ensures VelocityFactor(VelocityFactor(x)) == VelocityFactor(x)
  {
  }

  /** The three parallax curves: slow, medium and fast vertical drift. */
  datatype ParallaxSpeed = Slow | Medium | Fast

  /** `getParallaxTransform`: layer 0, 1, 2 pick slow, medium, fast; any
      other number falls back to slow. */
  function ParallaxTransform(layer: real): (p: ParallaxSpeed)
    ensures p == Medium <==> layer == 1.0
    ensures p == Fast <==> layer == 2.0
    ensures p == Slow <==> layer != 1.0 && layer != 2.0
  {
    if layer == 0.0 then Slow
    else if layer == 1.0 then Medium
    else if layer == 2.0 then Fast
    else Slow
  }
}
