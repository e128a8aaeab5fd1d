/** Estimator snapshots and the stateless checks on them (src/estimate.cpp). */
module Estimates {
  import opened Basics

  datatype Vec3 = Vec3(x: real, y: real, z: real)

  datatype Quaternion = Quaternion(w: real, x: real, y: real, z: real) {
    function NormSquared(): real {
      w * w + x * x + y * y + z * z
    }
  }

  /**
   * A snapshot copied out of the estimator. `finite` tells whether every double of the pose, velocity
   * and quaternion is finite; the numbers themselves are reals.
   */
  datatype Estimate = Estimate(
    timestamp: Time,
    generation: nat,
    ready: bool,
    finite: bool,
    position: Vec3,
    velocity: Vec3,
    orientation: Quaternion)

  datatype Rejection =
    | Acceptable | NotInitialized | WrongSession | InvalidTimestamp | FutureTimestamp | Stale | NonFinite
    | InvalidOrientation

  /** The square of the smallest quaternion norm that still names an orientation (1e-12). */
  const TINY := 0.000000000000000000000001

  /**
   * Some(reason), or None where the source throws on a negative clock or age limit. An estimate passes
   * exactly when it is initialised, of this session, neither from the future nor too old (a zero limit
   * means no limit) and numerically usable; the reason for a rejection is a check it does not meet.
   */
  function Validate(e: Estimate, session: nat, now: Time, maxAge: Time): (r: Option<Rejection>)
    ensures r.None? <==> now < 0 || maxAge < 0
    ensures r == Some(Acceptable) <==>
            && e.ready && e.generation == session && 0 <= e.timestamp <= now
            && (maxAge > 0 ==> now <= e.timestamp + maxAge) && maxAge >= 0
            && e.finite && e.orientation.NormSquared() >= TINY
    ensures r.Some? ==>
              match r.value
              case Acceptable => e.ready
              case NotInitialized => !e.ready
              case WrongSession => e.generation != session
              case InvalidTimestamp => e.timestamp < 0
              case FutureTimestamp => e.timestamp > now
              case Stale => maxAge > 0 && now > e.timestamp + maxAge
              case NonFinite => !e.finite
              case InvalidOrientation => e.orientation.NormSquared() < TINY
  {
    if now < 0 || maxAge < 0 then None
    else if !e.ready then Some(NotInitialized)
    else if e.generation != session then Some(WrongSession)
    else if e.timestamp < 0 then Some(InvalidTimestamp)
    else if e.timestamp > now then Some(FutureTimestamp)
    else if maxAge != 0 && now - e.timestamp > maxAge then Some(Stale)
    else if !e.finite then Some(NonFinite)
    else if e.orientation.NormSquared() < TINY then Some(InvalidOrientation)
    else Some(Acceptable)
  }
}
