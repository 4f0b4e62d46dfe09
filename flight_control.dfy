/**
 * The arithmetic of AircraftAgent's control loop: decoding of discrete
 * actions, the self-levelling roll target, rate-limited smoothing
 * (Unity's Mathf.MoveTowards) and the wrap-around angle clamp.
 * Euler angles are degrees, as the engine reports them in [0, 360).
 */
module FlightControl {
  import opened Geometry

  const MaxPitchAngle: real := 45.0
  const MaxRollAngle: real := 45.0
  /** Largest change of a smoothed control value per second of simulation. */
  const SmoothingRate: real := 2.0

  function Abs(x: real): real { if x < 0.0 then -x else x }
  function Max(a: real, b: real): real { if a >= b then a else b }
  function Min(a: real, b: real): real { if a <= b then a else b }

  /** Action branch value for pitch or yaw: 2 encodes the negative direction. */
  function DecodeDirection(v: real): real {
    if v == 2.0 then -1.0 else v
  }

  /** Action branch value for boost: only 1 switches it on. */
  function DecodeBoost(v: real): bool {
    v == 1.0
  }

  /** Signed roll in (-180, 180] of an Euler z angle in [0, 360). */
  function SignedAngle(z: real): real {
    if z > 180.0 then z - 360.0 else z
  }

  /**
   * Roll target: bank against the turn while yawing; otherwise roll back
   * towards level in proportion to the current roll.
   */
  function RollTarget(z: real, yawChange: real): (r: real)
    ensures yawChange != 0.0 ==> r == -yawChange
    ensures yawChange == 0.0 ==> (SignedAngle(z) > 0.0 ==> r < 0.0) && (SignedAngle(z) < 0.0 ==> r > 0.0)
    ensures yawChange == 0.0 && SignedAngle(z) == 0.0 ==> r == 0.0
    ensures yawChange == 0.0 && -MaxRollAngle <= SignedAngle(z) <= MaxRollAngle ==> -1.0 <= r <= 1.0
    ensures yawChange == 0.0 ==> SignedAngle(z) + r * MaxRollAngle == 0.0
  {
    if yawChange == 0.0 then -SignedAngle(z) / MaxRollAngle else -yawChange
  }

  /** Unity's Mathf.Sign: 1 for zero and positive numbers. */
  function Sign(x: real): real { if x >= 0.0 then 1.0 else -1.0 }

  /**
   * Unity's Mathf.MoveTowards: step from current towards target by at most
   * maxDelta, never past the target.
   */
  function MoveTowards(current: real, target: real, maxDelta: real): (r: real)
    ensures maxDelta >= 0.0 ==> Abs(r - current) == Min(maxDelta, Abs(target - current))
    ensures maxDelta >= 0.0 ==> (current <= r <= target) || (target <= r <= current)
    ensures maxDelta >= 0.0 ==> Abs(target - r) == Max(0.0, Abs(target - current) - maxDelta)
    ensures r == target <==> Abs(target - current) <= maxDelta
  {
    if Abs(target - current) <= maxDelta then target
    else current + Sign(target - current) * maxDelta
  }

  /** MoveTowards applied k times in a row with the same target and step. */
  function MoveTowardsTimes(current: real, target: real, maxDelta: real, k: nat): real
    decreases k
  {
    if k == 0 then current else MoveTowardsTimes(MoveTowards(current, target, maxDelta), target, maxDelta, k - 1)
  }

  /** The total distance k steps of maxDelta may cover: k * maxDelta, added up step by step. */
  function StepBudget(k: nat, maxDelta: real): (b: real)
    ensures b == k as real * maxDelta
  {
    if k == 0 then 0.0 else StepBudget(k - 1, maxDelta) + maxDelta
  }

  /**
   * Smoothing converges: after k steps the remaining distance to a constant
   * target has shrunk by exactly k * maxDelta, down to zero, so the target is
   * reached once k * maxDelta covers the initial distance.
   */
  lemma {:induction false} MoveTowardsConverges(current: real, target: real, maxDelta: real, k: nat)
    requires maxDelta >= 0.0
    ensures Abs(target - MoveTowardsTimes(current, target, maxDelta, k)) == Max(0.0, Abs(target - current) - StepBudget(k, maxDelta))
    ensures StepBudget(k, maxDelta) >= Abs(target - current) ==> MoveTowardsTimes(current, target, maxDelta, k) == target
    decreases k
  {
    if k > 0 {
      var next := MoveTowards(current, target, maxDelta);
      MoveTowardsConverges(next, target, maxDelta, k - 1);
      BudgetNonNegative(k - 1, maxDelta);
      RemainingAfterStep(Abs(target - current), maxDelta, StepBudget(k - 1, maxDelta));
    }
  }

  lemma {:induction false} BudgetNonNegative(k: nat, maxDelta: real)
    requires maxDelta >= 0.0
    ensures StepBudget(k, maxDelta) >= 0.0
  {
    if k > 0 {
      BudgetNonNegative(k - 1, maxDelta);
    }
  }

  lemma RemainingAfterStep(d: real, delta: real, before: real)
    requires delta >= 0.0 && before >= 0.0
    ensures Max(0.0, Max(0.0, d - delta) - before) == Max(0.0, d - (before + delta))
  {
  }

  /** Once at the target, smoothing stays there. */
  lemma MoveTowardsStaysAtTarget(target: real, maxDelta: real, k: nat)
    requires maxDelta >= 0.0
    ensures MoveTowardsTimes(target, target, maxDelta, k) == target
  {
    MoveTowardsConverges(target, target, maxDelta, k);
  }

  /** Bounds of ClampAngle: below zero, above zero and at most 180 degrees. */
  predicate ClampBounds(from: real, to: real) {
    -180.0 < from < 0.0 < to <= 180.0
  }

  /** An Euler angle in [-180, 360), as current angle plus a small step. */
  predicate InClampDomain(angle: real) {
    -180.0 <= angle < 360.0
  }

  /**
   * The angles ClampAngle keeps within its bounds: from -180 up to `to`
   * degrees past a full turn, which covers an Euler angle in [0, 360) plus a
   * step of less than min(180, to) degrees either way.
   */
  predicate InWrapDomain(angle: real, to: real) {
    -180.0 <= angle <= 360.0 + to
  }

  /** The angle in [0, 360) that ClampAngle first brings a negative angle to. */
  function Normalize(angle: real): real {
    if angle < 0.0 then 360.0 + angle else angle
  }

  /** A reference clamp on signed angles: limit to [from, to], then write in [0, 360). */
  function ClampSigned(angle: real, from: real, to: real): real {
    var s := SignedAngle(Normalize(angle));
    var c := if s < from then from else if s > to then to else s;
    if c < 0.0 then c + 360.0 else c
  }

  /**
   * ClampAngle limits an Euler angle to [from, to] across the 0/360 seam. On
   * [-180, 360) its result is the reference clamp on signed angles and lies
   * in [0, to] or [360 + from, 360); up to `to` degrees past a full turn it
   * still reads as a signed angle within [from, to], an angle in
   * [360, 360 + to] being left as it is; and an angle already in range stays
   * where it is.
   */
  function ClampAngle(angle: real, from: real, to: real): (r: real)
    ensures ClampBounds(from, to) && InClampDomain(angle) ==> r == ClampSigned(angle, from, to)
    ensures ClampBounds(from, to) && InClampDomain(angle) ==> (0.0 <= r <= to || 360.0 + from <= r < 360.0)
    ensures ClampBounds(from, to) && InWrapDomain(angle, to) ==> from <= SignedAngle(r) <= to
    ensures ClampBounds(from, to) && 360.0 <= angle <= 360.0 + to ==> r == angle
    ensures ClampBounds(from, to) && InClampDomain(angle) && from <= SignedAngle(Normalize(angle)) <= to
            ==> r == Normalize(angle)
  {
    var a := if angle < 0.0 then 360.0 + angle else angle;
    if a > 180.0 then Max(a, 360.0 + from) else Min(a, to)
  }

  /** Clamping a clamped angle again changes nothing. */
  lemma ClampAngleIdempotent(angle: real, from: real, to: real)
    requires ClampBounds(from, to) && InWrapDomain(angle, to)
    ensures InWrapDomain(ClampAngle(angle, from, to), to)
    ensures ClampAngle(ClampAngle(angle, from, to), from, to) == ClampAngle(angle, from, to)
  {
  }

  /** The three smoothed control values an agent keeps across ticks. */
  datatype Smoothing = Smoothing(pitch: real, yaw: real, roll: real)

  /**
   * One tick of smoothing: each value moves towards its target by 2 * dt, or
   * onto the target when that is closer.
   */
  function Smooth(s: Smoothing, pitchTarget: real, yawTarget: real, rollTarget: real, dt: real): (r: Smoothing)
    requires dt >= 0.0
    ensures Abs(r.pitch - s.pitch) == Min(SmoothingRate * dt, Abs(pitchTarget - s.pitch))
    ensures Abs(r.yaw - s.yaw) == Min(SmoothingRate * dt, Abs(yawTarget - s.yaw))
    ensures Abs(r.roll - s.roll) == Min(SmoothingRate * dt, Abs(rollTarget - s.roll))
    ensures (s.pitch <= r.pitch <= pitchTarget) || (pitchTarget <= r.pitch <= s.pitch)
    ensures (s.yaw <= r.yaw <= yawTarget) || (yawTarget <= r.yaw <= s.yaw)
    ensures (s.roll <= r.roll <= rollTarget) || (rollTarget <= r.roll <= s.roll)
  {
    Smoothing(MoveTowards(s.pitch, pitchTarget, SmoothingRate * dt),
              MoveTowards(s.yaw, yawTarget, SmoothingRate * dt),
              MoveTowards(s.roll, rollTarget, SmoothingRate * dt))
  }

  /**
   * The Euler angles ProcessMovement writes: each current angle advanced by
   * its smoothed value times dt times its speed; pitch and roll clamped to
   * +-45 degrees, yaw free.
   */
  function NewRotation(cur: Vector3, s: Smoothing, dt: real, pitchSpeed: real, yawSpeed: real, rollSpeed: real): Vector3 {
    Vector3(ClampAngle(cur.x + s.pitch * dt * pitchSpeed, -MaxPitchAngle, MaxPitchAngle),
            cur.y + s.yaw * dt * yawSpeed,
            ClampAngle(cur.z + s.roll * dt * rollSpeed, -MaxRollAngle, MaxRollAngle))
  }

  /**
   * Pitch and roll written by ProcessMovement stay within +-45 degrees
   * whenever the unclamped angle lies in [-180, 405]; yaw is not limited.
   */
  lemma NewRotationLimits(cur: Vector3, s: Smoothing, dt: real, pitchSpeed: real, yawSpeed: real, rollSpeed: real)
    requires InWrapDomain(cur.x + s.pitch * dt * pitchSpeed, MaxPitchAngle)
    requires InWrapDomain(cur.z + s.roll * dt * rollSpeed, MaxRollAngle)
    ensures var r := NewRotation(cur, s, dt, pitchSpeed, yawSpeed, rollSpeed);
            && -MaxPitchAngle <= SignedAngle(r.x) <= MaxPitchAngle
            && -MaxRollAngle <= SignedAngle(r.z) <= MaxRollAngle
            && r.y == cur.y + s.yaw * dt * yawSpeed
  {
  }
}
