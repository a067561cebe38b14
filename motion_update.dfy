/**
 * `update_motion` (src/processing/motion_update.h): one observation of a
 * quadrant's position turns into new position, velocity and acceleration.
 * The source updates a `MotionState&` in place with early returns and no
 * loop; here it is a function from the old state to the new one.
 */
module MotionUpdate {
  import opened Uint
  import opened MotionTypes

  /** Weight of the newest raw velocity in the moving average. */
  const VEL_ALPHA: real := 0.5
  /** Bound on each axis of the acceleration, in pixels per second squared. */
  const MAX_ACCEL: real := 10000.0

  const MICROS_PER_SECOND: real := 1000000.0

  /** The lambda `clamp(x, M)`. */
  function Clamp(v: real, m: real): (r: real)
    requires m >= 0.0
    ensures -m <= r <= m
    ensures v > m ==> r == m
    ensures v < -m ==> r == -m
    ensures -m <= v <= m ==> r == v
  {
    if v > m then m else if v < -m then -m else v
  }

  /** `(ts_us - last_ts_us) * 1e-6`, with the subtraction on `uint64_t`. */
  function DtSeconds(ts: u64, last: u64): (dt: real)
    ensures dt >= 0.0
    ensures dt == 0.0 <==> ts == last
  {
    Sub64(ts, last) as real / MICROS_PER_SECOND
  }

  /** `v_raw = (new_pos - pos) / dt`. */
  function RawVelocity(pos: Vec2, newPos: Vec2, dt: real): Vec2
    requires dt > 0.0
  {
    Vec2((newPos.x - pos.x) / dt, (newPos.y - pos.y) / dt)
  }

  /** The moving average `alpha * raw + (1 - alpha) * previous`. */
  function Smooth(raw: Vec2, prev: Vec2): (v: Vec2)
    ensures v.x - raw.x == (prev.x - raw.x) / 2.0 && v.y - raw.y == (prev.y - raw.y) / 2.0
  {
    raw.Scale(VEL_ALPHA).Add(prev.Scale(1.0 - VEL_ALPHA))
  }

  function UpdateMotion(s: MotionState, newPos: Vec2, ts: u64): (r: MotionState)
    // first observation: seed position and timestamp, zero motion
    ensures s.Unseeded() ==> r == MotionState(newPos, Origin, Origin, ts)
    // a repeated timestamp on a seeded state changes nothing
    ensures !s.Unseeded() && ts == s.lastTsUs ==> r == s
    // otherwise the update always goes through, even for an earlier timestamp
    ensures !s.Unseeded() && ts != s.lastTsUs ==>
      var dt := DtSeconds(ts, s.lastTsUs);
      && dt > 0.0
      && r.pos == newPos && r.lastTsUs == ts
      && r.vel == Smooth(RawVelocity(s.pos, newPos, dt), s.vel)
      && r.acc == Vec2(Clamp((r.vel.x - s.vel.x) / dt, MAX_ACCEL), Clamp((r.vel.y - s.vel.y) / dt, MAX_ACCEL))
    // every axis of the acceleration stays within the clamp
    ensures -MAX_ACCEL <= r.acc.x <= MAX_ACCEL || r == s
    ensures -MAX_ACCEL <= r.acc.y <= MAX_ACCEL || r == s
  {
    if s.lastTsUs == 0 then
      MotionState(newPos, Origin, Origin, ts)
    else
      var dt := DtSeconds(ts, s.lastTsUs);
      if dt <= 0.0 then s
      else
        var vSmoothed := Smooth(RawVelocity(s.pos, newPos, dt), s.vel);
        var acc := Vec2((vSmoothed.x - s.vel.x) / dt, (vSmoothed.y - s.vel.y) / dt);
        MotionState(newPos, vSmoothed, Vec2(Clamp(acc.x, MAX_ACCEL), Clamp(acc.y, MAX_ACCEL)), ts)
  }
}

module MotionConvergence {
  import opened Uint
  import opened MotionTypes
  import opened MotionUpdate

  function Pow2(n: nat): (p: real)
    ensures p >= 1.0
  {
    if n == 0 then 1.0 else 2.0 * Pow2(n - 1)
  }

  /**
   * A quadrant observed `n` more times, each time displaced by `d` and
   * `stepUs` microseconds later than the previous observation.
   */
  function Drift(s: MotionState, d: Vec2, stepUs: nat, n: nat): MotionState
    requires !s.Unseeded() && stepUs > 0
    requires s.lastTsUs + n * stepUs < U64_LIMIT
    decreases n
  {
    if n == 0 then s
    else
      assert (s.lastTsUs + stepUs) + (n - 1) * stepUs == s.lastTsUs + n * stepUs;
      Drift(UpdateMotion(s, s.pos.Add(d), s.lastTsUs + stepUs), d, stepUs, n - 1)
  }

  /** One update under constant motion halves the gap between the velocity and the true velocity. */
  lemma DriftStep(s: MotionState, d: Vec2, stepUs: nat)
    requires !s.Unseeded() && stepUs > 0
    requires s.lastTsUs + stepUs < U64_LIMIT
    ensures var r := UpdateMotion(s, s.pos.Add(d), s.lastTsUs + stepUs);
            var dt := stepUs as real / MICROS_PER_SECOND;
            && !r.Unseeded()
            && r.pos == s.pos.Add(d)
            && r.lastTsUs == s.lastTsUs + stepUs
            && r.vel.x - d.x / dt == (s.vel.x - d.x / dt) / 2.0
            && r.vel.y - d.y / dt == (s.vel.y - d.y / dt) / 2.0
  {
    var dt := stepUs as real / MICROS_PER_SECOND;
    assert DtSeconds(s.lastTsUs + stepUs, s.lastTsUs) == dt;
    var raw := RawVelocity(s.pos, s.pos.Add(d), dt);
    assert raw.x == d.x / dt && raw.y == d.y / dt;
  }

  lemma GapHalving(g0: real, g1: real, g2: real, p: real)
    requires p >= 1.0 && g1 == g0 / 2.0 && g2 == g1 / p
    ensures g2 == g0 / (2.0 * p)
  {
  }

  /**
   * Under constant motion the smoothed velocity converges geometrically to
   * the true velocity `d / dt`: the initial gap shrinks by 2^n after n updates.
   */
  lemma {:induction false} DriftVelocity(s: MotionState, d: Vec2, stepUs: nat, n: nat)
    requires !s.Unseeded() && stepUs > 0
    requires s.lastTsUs + n * stepUs < U64_LIMIT
    ensures var dt := stepUs as real / MICROS_PER_SECOND;
            var r := Drift(s, d, stepUs, n);
            && r.vel.x - d.x / dt == (s.vel.x - d.x / dt) / Pow2(n)
            && r.vel.y - d.y / dt == (s.vel.y - d.y / dt) / Pow2(n)
    decreases n
  {
    if n > 0 {
      var dt := stepUs as real / MICROS_PER_SECOND;
      var wx, wy := d.x / dt, d.y / dt;
      var next := UpdateMotion(s, s.pos.Add(d), s.lastTsUs + stepUs);
      DriftStep(s, d, stepUs);
      assert next.vel.x - wx == (s.vel.x - wx) / 2.0;
      assert next.vel.y - wy == (s.vel.y - wy) / 2.0;
      assert (s.lastTsUs + stepUs) + (n - 1) * stepUs == s.lastTsUs + n * stepUs;
      DriftVelocity(next, d, stepUs, n - 1);
      var r := Drift(next, d, stepUs, n - 1);
      assert Drift(s, d, stepUs, n) == r;
      assert Pow2(n) == 2.0 * Pow2(n - 1);
      GapHalving(s.vel.x - wx, next.vel.x - wx, r.vel.x - wx, Pow2(n - 1));
      GapHalving(s.vel.y - wy, next.vel.y - wy, r.vel.y - wy, Pow2(n - 1));
    }
  }
}

module MotionTimestamps {
  import opened Uint
  import opened MotionTypes
  import opened MotionUpdate

  /**
   * An observation older than the last one is not rejected: the unsigned
   * difference wraps to 2^64 - last + ts microseconds and the update proceeds.
   */
  lemma EarlierTimestampAccepted(s: MotionState, newPos: Vec2, ts: u64)
    requires !s.Unseeded() && ts < s.lastTsUs
    ensures DtSeconds(ts, s.lastTsUs) == (U64_LIMIT - s.lastTsUs + ts) as real / MICROS_PER_SECOND
    ensures UpdateMotion(s, newPos, ts).pos == newPos
    ensures UpdateMotion(s, newPos, ts).lastTsUs == ts
  {
  }

  /** Seeding with timestamp 0 leaves the state unseeded, so the next observation seeds again. */
  lemma SeedAtZeroStaysUnseeded(s: MotionState, p: Vec2, q: Vec2, ts: u64)
    requires s.Unseeded()
    ensures UpdateMotion(s, p, 0).Unseeded()
    ensures UpdateMotion(UpdateMotion(s, p, 0), q, ts) == MotionState(q, Origin, Origin, ts)
  {
  }
}
