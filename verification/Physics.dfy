/**
 * The speed rules: the per-tick acceleration and the space-key trick.
 * Speeds are reals; the constants 0.005, 0.1 and 0.2 are exact.
 */
module Physics {
  import opened Geometry

  /** What every tick adds to the magnitude of both speeds. */
  const Acceleration: real := 0.005
  /** What a trick takes off the downhill speed and off a large sideways speed. */
  const TrickBrake: real := 0.1
  /** A sideways speed above this magnitude is damped by a trick; one at or below it is only mirrored. */
  const TrickThreshold: real := 0.2

  /**
   * The sideways speed after one tick: its magnitude grows by 0.005, and a
   * positive speed stays positive while a zero or negative one ends up
   * strictly negative.
   */
  function Accelerated(speedX: real): (r: real)
    ensures Abs(r) == Abs(speedX) + Acceleration
    ensures r > 0.0 <==> speedX > 0.0
    ensures r != 0.0
  {
    if speedX > 0.0 then speedX + Acceleration else speedX - Acceleration
  }

  /**
   * The speeds after a trick, as (speedX, speedY). The downhill speed drops
   * by 0.1. A sideways speed of magnitude above 0.2 turns around and loses
   * 0.1 of its magnitude; a smaller one is only mirrored.
   */
  function TrickSpeeds(speedX: real, speedY: real): (r: (real, real))
    ensures r.1 == speedY - TrickBrake
    ensures Abs(speedX) > TrickThreshold ==>
              Abs(r.0) == Abs(speedX) - TrickBrake && (speedX > 0.0 <==> r.0 < 0.0)
    ensures Abs(speedX) <= TrickThreshold ==> r.0 == -speedX
  {
    var y := speedY - TrickBrake;
    if Abs(speedX) > TrickThreshold then
      if speedX > 0.0 then (-speedX + TrickBrake, y) else (-speedX - TrickBrake, y)
    else
      (-speedX, y)
  }

  /** A trick turns the skier around whenever they were moving sideways, and never speeds them up sideways. */
  lemma TrickTurnsAround(speedX: real, speedY: real)
    ensures speedX > 0.0 ==> TrickSpeeds(speedX, speedY).0 < 0.0
    ensures speedX < 0.0 ==> TrickSpeeds(speedX, speedY).0 > 0.0
    ensures Abs(TrickSpeeds(speedX, speedY).0) <= Abs(speedX)
  {
  }

  /** The worked case: from (0.3, 1.0) a trick gives (-0.2, 0.9). */
  lemma TrickExample()
    ensures TrickSpeeds(0.3, 1.0) == (-0.2, 0.9)
  {
  }
}
