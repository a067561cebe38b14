/**
 * The per-quadrant and per-tracker state of src/processing/motion_types.h.
 * `cv::Point2f` becomes a pair of reals (single-precision rounding is not
 * modelled); `uint64_t` timestamps stay 64-bit.
 */
module MotionTypes {
  import opened Uint

  datatype Vec2 = Vec2(x: real, y: real)
  {
    function Add(o: Vec2): Vec2 { Vec2(x + o.x, y + o.y) }
    function Sub(o: Vec2): Vec2 { Vec2(x - o.x, y - o.y) }
    function Scale(k: real): Vec2 { Vec2(k * x, k * y) }
  }

  const Origin: Vec2 := Vec2(0.0, 0.0)

  /** `cv::Rect`: integer corner and size. */
  datatype Rect = Rect(x: int, y: int, width: int, height: int)

  /** `last_ts_us == 0` is the "not yet seeded" sentinel. */
  datatype MotionState = MotionState(pos: Vec2, vel: Vec2, acc: Vec2, lastTsUs: u64)
  {
    predicate Unseeded() { lastTsUs == 0 }
  }

  datatype QuadrantState = QuadrantState(motion: MotionState, valid: bool)

  /** `q` holds the four quadrants 0 = top-left, 1 = top-right, 2 = bottom-left, 3 = bottom-right. */
  datatype TrackerState = TrackerState(
    q: seq<QuadrantState>,
    markerBbox: Rect,
    markerId: int,
    lastSavedUs: u64,
    lastLiveUs: u64,
    tracking: bool)

  const QUADRANTS: nat := 4
  const NO_MARKER: int := -1

  function DefaultMotion(): (m: MotionState)
    ensures m.pos == Origin && m.vel == Origin && m.acc == Origin
    ensures m.Unseeded()
  {
    MotionState(Origin, Origin, Origin, 0)
  }

  function DefaultQuadrant(): (q: QuadrantState)
    ensures !q.valid && q.motion == DefaultMotion()
  {
    QuadrantState(DefaultMotion(), false)
  }

  function DefaultTrackerState(): (t: TrackerState)
    ensures |t.q| == QUADRANTS
    ensures forall i :: 0 <= i < |t.q| ==> t.q[i] == DefaultQuadrant()
    ensures t.markerId == NO_MARKER && !t.tracking
    ensures t.lastSavedUs == 0 && t.lastLiveUs == 0
    ensures t.markerBbox == Rect(0, 0, 0, 0)
  {
    TrackerState([DefaultQuadrant(), DefaultQuadrant(), DefaultQuadrant(), DefaultQuadrant()],
                 Rect(0, 0, 0, 0), NO_MARKER, 0, 0, false)
  }
}
