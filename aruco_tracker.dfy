/**
 * The tracking state machine of `ArucoTracker` (src/processing/aruco_tracker.cpp).
 * Marker detection and pyramidal optical flow are foreign: their answers for
 * the current frame are inputs of each step. Each step is specified by a
 * function `Step` on a value `Tracker`; the class `ArucoTracker` keeps the same
 * fields and its methods are proved to follow that function.
 */
module ArucoTracking {
  import opened Uint
  import opened Wrappers
  import opened MotionTypes
  import opened MotionUpdate

  /** Re-detection cadence, in processed frames. */
  const REDETECT_PERIOD: nat := 20
  /** Metrics go out at most once per second while tracking. */
  const SAVE_PERIOD_US: nat := 1000000
  /** The live snapshot is written at most every 100 ms. */
  const LIVE_PERIOD_US: nat := 100000

  /** A marker reported by the detector: its id and the bounding box of its corners. */
  datatype Marker = Marker(id: int, bbox: Rect)

  /** The optical flow's answer for one anchor: the propagated point and its status. */
  datatype FlowPoint = FlowPoint(pt: Vec2, found: bool)

  /**
   * Everything one `process(frame, ts_us)` call depends on besides the
   * tracker. `liveWriteOk` says whether the live-snapshot block ran to its end
   * without an exception; the `bool` that `cv::imwrite` returns is ignored, so
   * a write that merely returns false counts as finished.
   */
  datatype StepInput = StepInput(markers: seq<Marker>, flow: seq<FlowPoint>, tsUs: u64, liveWriteOk: bool)

  /** A JSON value (RFC 8259), as the metrics record is built. */
  datatype Json =
    | JNull
    | JBool(b: bool)
    | JInt(i: int)
    | JNum(r: real)
    | JArray(elems: seq<Json>)
    | JObject(members: seq<(string, Json)>)

  /** The fields of `ArucoTracker` that the source changes: `state_`, `frame_count_`, `have_prev_`, `d_prev_pts_`. */
  datatype Tracker = Tracker(state: TrackerState, frameCount: nat, havePrev: bool, anchors: seq<Vec2>)

  predicate WellFormed(t: Tracker)
  {
    |t.state.q| == QUADRANTS && (t.state.tracking ==> |t.anchors| == QUADRANTS)
  }

  function Initial(): (t: Tracker)
    ensures WellFormed(t) && !t.state.tracking && !t.havePrev && t.frameCount == 0
  {
    Tracker(DefaultTrackerState(), 0, false, [])
  }

  /**
   * `quadrant_center(i)`: the box centre moved by a quarter of the box along
   * each axis, 0 top-left, 1 top-right, 2 bottom-left, 3 bottom-right. The
   * postconditions are the overlay's own formula for the same points.
   */
  function QuadrantCenter(b: Rect, i: nat): (p: Vec2)
    requires i < QUADRANTS
    ensures p.x == b.x as real + b.width as real * (if i % 2 == 1 then 0.75 else 0.25)
    ensures p.y == b.y as real + b.height as real * (if i < 2 then 0.25 else 0.75)
  {
    var cx := b.x as real + b.width as real * 0.5;
    var cy := b.y as real + b.height as real * 0.5;
    var dx := b.width as real * 0.25;
    var dy := b.height as real * 0.25;
    var sx := [-1, 1, -1, 1];
    var sy := [-1, -1, 1, 1];
    Vec2(cx + sx[i] as real * dx, cy + sy[i] as real * dy)
  }

  function Anchors(b: Rect): (a: seq<Vec2>)
    ensures |a| == QUADRANTS && forall i :: 0 <= i < QUADRANTS ==> a[i] == QuadrantCenter(b, i)
  {
    [QuadrantCenter(b, 0), QuadrantCenter(b, 1), QuadrantCenter(b, 2), QuadrantCenter(b, 3)]
  }

  /** Whether `process` calls `detect_marker`, judged on the tracker before the call. */
  predicate RedetectDue(t: Tracker)
  {
    !t.state.tracking || (t.frameCount + 1) % REDETECT_PERIOD == 0
  }

  /** `detect_marker`: lock onto the first marker, or unlock when there is none. */
  function Detect(t: Tracker, markers: seq<Marker>): (r: Tracker)
    requires WellFormed(t)
    ensures WellFormed(r)
    ensures r.state.q == t.state.q && r.frameCount == t.frameCount
    ensures r.state.lastSavedUs == t.state.lastSavedUs && r.state.lastLiveUs == t.state.lastLiveUs
    ensures markers == [] ==>
      && !r.state.tracking && r.state.markerId == NO_MARKER
      && r.state.markerBbox == t.state.markerBbox && r.anchors == t.anchors && r.havePrev == t.havePrev
    ensures markers != [] ==>
      && r.state.tracking && r.state.markerId == markers[0].id && r.state.markerBbox == markers[0].bbox
      && r.anchors == Anchors(markers[0].bbox) && !r.havePrev
  {
    if markers == [] then
      t.(state := t.state.(tracking := false, markerId := NO_MARKER))
    else
      var b := markers[0].bbox;
      t.(state := t.state.(markerBbox := b, tracking := true, markerId := markers[0].id),
         anchors := Anchors(b), havePrev := false)
  }

  /** One quadrant in `track`: a found point feeds the motion filter and marks it valid; a lost one changes nothing. */
  function TrackQuadrant(q: QuadrantState, f: FlowPoint, ts: u64): (r: QuadrantState)
    ensures f.found ==> r.valid && r.motion == UpdateMotion(q.motion, f.pt, ts)
    ensures !f.found ==> r == q
  {
    if f.found then QuadrantState(UpdateMotion(q.motion, f.pt, ts), true) else q
  }

  function TrackQuadrants(qs: seq<QuadrantState>, flow: seq<FlowPoint>, ts: u64): (r: seq<QuadrantState>)
    requires |qs| == |flow|
    ensures |r| == |qs| && forall i :: 0 <= i < |qs| ==> r[i] == TrackQuadrant(qs[i], flow[i], ts)
  {
    seq(|qs|, i requires 0 <= i < |qs| => TrackQuadrant(qs[i], flow[i], ts))
  }

  /** `track`: per-quadrant update, and the propagated points become the next anchors. */
  function Propagate(t: Tracker, flow: seq<FlowPoint>, ts: u64): (r: Tracker)
    requires WellFormed(t) && |flow| == QUADRANTS
    ensures WellFormed(r)
    ensures r.state == t.state.(q := TrackQuadrants(t.state.q, flow, ts))
    ensures |r.anchors| == QUADRANTS && forall i :: 0 <= i < QUADRANTS ==> r.anchors[i] == flow[i].pt
    ensures r.frameCount == t.frameCount && r.havePrev == t.havePrev
  {
    t.(state := t.state.(q := TrackQuadrants(t.state.q, flow, ts)),
       anchors := [flow[0].pt, flow[1].pt, flow[2].pt, flow[3].pt])
  }

  /** One quadrant of the metrics record: six `null`s when the quadrant is not valid. */
  function QuadrantJson(q: QuadrantState): (j: Json)
    ensures j.JObject? && |j.members| == 7
    ensures j.members[0] == ("valid", JBool(q.valid))
    ensures [j.members[1].0, j.members[2].0, j.members[3].0, j.members[4].0, j.members[5].0, j.members[6].0]
            == ["cx", "cy", "vx", "vy", "ax", "ay"]
    ensures forall k :: 1 <= k < 7 ==> (j.members[k].1 == JNull <==> !q.valid)
  {
    if !q.valid then
      JObject([("valid", JBool(false)), ("cx", JNull), ("cy", JNull), ("vx", JNull),
               ("vy", JNull), ("ax", JNull), ("ay", JNull)])
    else
      var m := q.motion;
      JObject([("valid", JBool(true)), ("cx", JNum(m.pos.x)), ("cy", JNum(m.pos.y)),
               ("vx", JNum(m.vel.x)), ("vy", JNum(m.vel.y)), ("ax", JNum(m.acc.x)), ("ay", JNum(m.acc.y))])
  }

  /** The metrics record: marker id, timestamp and exactly four quadrant objects in quadrant order. */
  function MetricsJson(st: TrackerState, ts: u64): (j: Json)
    requires |st.q| == QUADRANTS
    ensures j.JObject? && |j.members| == 3
    ensures j.members[0] == ("marker_id", JInt(st.markerId)) && j.members[1] == ("ts_us", JInt(ts))
    ensures j.members[2].0 == "quadrants" && j.members[2].1.JArray? && |j.members[2].1.elems| == QUADRANTS
    ensures forall i :: 0 <= i < QUADRANTS ==> j.members[2].1.elems[i] == QuadrantJson(st.q[i])
  {
    JObject([("marker_id", JInt(st.markerId)), ("ts_us", JInt(ts)),
             ("quadrants", JArray([QuadrantJson(st.q[0]), QuadrantJson(st.q[1]),
                                   QuadrantJson(st.q[2]), QuadrantJson(st.q[3])]))])
  }

  /** What one step hands to the outside: the metrics record, if one was emitted, and whether a live snapshot was attempted. */
  datatype StepOutput = StepOutput(metrics: Option<Json>, liveAttempted: bool)

  /** The first half of `process`: count the frame, re-detect when due, propagate when there are anchors. */
  function Advance(t: Tracker, input: StepInput): (r: Tracker)
    requires WellFormed(t) && |input.flow| == QUADRANTS
    ensures WellFormed(r) && r.frameCount == t.frameCount + 1
    ensures r.state.lastSavedUs == t.state.lastSavedUs && r.state.lastLiveUs == t.state.lastLiveUs
  {
    var t1 := t.(frameCount := t.frameCount + 1);
    var t2 := if RedetectDue(t) then Detect(t1, input.markers) else t1;
    if t2.state.tracking && t2.havePrev then Propagate(t2, input.flow, input.tsUs) else t2
  }

  /** Whether a metrics record goes out: tracking, and more than a second since the last one (unsigned difference). */
  predicate EmitDue(t: Tracker, ts: u64)
  {
    t.state.tracking && Sub64(ts, t.state.lastSavedUs) > SAVE_PERIOD_US
  }

  /**
   * The end of `process`: the metrics record when one is due, the live
   * snapshot attempt (its stamp moves whenever the snapshot block finishes
   * without an exception, whatever `imwrite` returned), and `have_prev_` set.
   */
  function Publish(t3: Tracker, ts: u64, liveWriteOk: bool): (r: (Tracker, StepOutput))
    requires WellFormed(t3)
    ensures WellFormed(r.0)
    ensures r.0.frameCount == t3.frameCount && r.0.havePrev
  {
    var emit := EmitDue(t3, ts);
    var t4 := if emit then t3.(state := t3.state.(lastSavedUs := ts)) else t3;
    var live := Sub64(ts, t4.state.lastLiveUs) > LIVE_PERIOD_US;
    var t5 := if live && liveWriteOk then t4.(state := t4.state.(lastLiveUs := ts)) else t4;
    (t5.(havePrev := true), StepOutput(if emit then Some(MetricsJson(t3.state, ts)) else None, live))
  }

  /** `process(frame, ts_us)` as a whole. */
  function Step(t: Tracker, input: StepInput): (r: (Tracker, StepOutput))
    requires WellFormed(t) && |input.flow| == QUADRANTS
    ensures WellFormed(r.0)
    ensures r.0.frameCount == t.frameCount + 1 && r.0.havePrev
  {
    Publish(Advance(t, input), input.tsUs, input.liveWriteOk)
  }

  class ArucoTracker {
    var state: TrackerState
    var frameCount: nat
    var havePrev: bool
    /** `d_prev_pts_`: the four points the next optical-flow call starts from. */
    var prevPts: seq<Vec2>

    function Model(): Tracker
      reads this
    {
      Tracker(state, frameCount, havePrev, prevPts)
    }

    ghost predicate Valid()
      reads this
    {
      WellFormed(Model())
    }

    constructor ()
      ensures Valid() && Model() == Initial()
    {
      state := DefaultTrackerState();
      frameCount := 0;
      havePrev := false;
      prevPts := [];
    }

    method DetectMarker(markers: seq<Marker>)
      requires Valid()
      modifies this
      ensures Valid() && Model() == Detect(old(Model()), markers)
    {
      if markers == [] {
        state := state.(tracking := false, markerId := NO_MARKER);
        return;
      }
      state := state.(markerBbox := markers[0].bbox, tracking := true, markerId := markers[0].id);
      var pts := [];
      var i := 0;
      while i < QUADRANTS
        invariant 0 <= i <= QUADRANTS && |pts| == i
        invariant forall k :: 0 <= k < i ==> pts[k] == QuadrantCenter(state.markerBbox, k)
      {
        pts := pts + [QuadrantCenter(state.markerBbox, i)];
        i := i + 1;
      }
      prevPts := pts;
      havePrev := false;
    }

    method Track(flow: seq<FlowPoint>, ts: u64)
      requires Valid() && |flow| == QUADRANTS
      modifies this
      ensures Valid() && Model() == Propagate(old(Model()), flow, ts)
    {
      var i := 0;
      while i < QUADRANTS
        invariant 0 <= i <= QUADRANTS && |state.q| == QUADRANTS
        invariant state == old(state).(q := state.q)
        invariant forall k :: 0 <= k < i ==> state.q[k] == TrackQuadrant(old(state.q[k]), flow[k], ts)
        invariant forall k :: i <= k < QUADRANTS ==> state.q[k] == old(state.q[k])
        invariant frameCount == old(frameCount) && havePrev == old(havePrev) && prevPts == old(prevPts)
      {
        if flow[i].found {
          var q := state.q[i];
          state := state.(q := state.q[i := QuadrantState(UpdateMotion(q.motion, flow[i].pt, ts), true)]);
        }
        i := i + 1;
      }
      prevPts := [flow[0].pt, flow[1].pt, flow[2].pt, flow[3].pt];
    }

    method Process(markers: seq<Marker>, flow: seq<FlowPoint>, ts: u64, liveWriteOk: bool)
      returns (metrics: Option<Json>, liveAttempted: bool)
      requires Valid() && |flow| == QUADRANTS
      modifies this
      ensures Valid()
      ensures (Model(), StepOutput(metrics, liveAttempted))
              == Step(old(Model()), StepInput(markers, flow, ts, liveWriteOk))
    {
      AdvanceFrame(markers, flow, ts);
      metrics, liveAttempted := PublishFrame(ts, liveWriteOk);
    }

    /** The detection and tracking half of `process`. */
    method AdvanceFrame(markers: seq<Marker>, flow: seq<FlowPoint>, ts: u64)
      requires Valid() && |flow| == QUADRANTS
      modifies this
      ensures Valid() && Model() == Advance(old(Model()), StepInput(markers, flow, ts, false))
    {
      ghost var t0 := Model();
      frameCount := frameCount + 1;
      if !state.tracking || frameCount % REDETECT_PERIOD == 0 {
        DetectMarker(markers);
      }
      assert Model() == if RedetectDue(t0) then Detect(t0.(frameCount := t0.frameCount + 1), markers)
                        else t0.(frameCount := t0.frameCount + 1);
      if state.tracking && havePrev {
        Track(flow, ts);
      }
    }

    /** The output half of `process`: metrics, live snapshot and `have_prev_`. */
    method PublishFrame(ts: u64, liveWriteOk: bool) returns (metrics: Option<Json>, liveAttempted: bool)
      requires Valid()
      modifies this
      ensures Valid() && (Model(), StepOutput(metrics, liveAttempted)) == Publish(old(Model()), ts, liveWriteOk)
    {
      metrics := None;
      var emit := state.tracking && Sub64(ts, state.lastSavedUs) > SAVE_PERIOD_US;
      if emit {
        metrics := Some(MetricsJson(state, ts));
        state := state.(lastSavedUs := ts);
      }
      liveAttempted := Sub64(ts, state.lastLiveUs) > LIVE_PERIOD_US;
      if liveAttempted && liveWriteOk {
        state := state.(lastLiveUs := ts);
      }
      havePrev := true;
    }
  }
}

/** Properties of the tracking step, one frame and many. */
module ArucoTrackingProperties {
  import opened Uint
  import opened Wrappers
  import opened MotionTypes
  import opened MotionUpdate
  import opened ArucoTracking

  /** A due re-detection that finds nothing drops the lock and emits no metrics; motion and anchors are kept. */
  lemma LockLoss(t: Tracker, input: StepInput)
    requires WellFormed(t) && |input.flow| == QUADRANTS
    requires RedetectDue(t) && input.markers == []
    ensures !Step(t, input).0.state.tracking && Step(t, input).0.state.markerId == NO_MARKER
    ensures Step(t, input).0.state.q == t.state.q && Step(t, input).0.anchors == t.anchors
    ensures Step(t, input).1.metrics == None
  {
  }

  /** A successful re-detection re-seeds the anchors from the new box and skips propagation on that frame. */
  lemma RedetectionSkipsPropagation(t: Tracker, input: StepInput)
    requires WellFormed(t) && |input.flow| == QUADRANTS
    requires RedetectDue(t) && input.markers != []
    ensures Step(t, input).0.state.tracking
    ensures Step(t, input).0.state.q == t.state.q
    ensures Step(t, input).0.anchors == Anchors(input.markers[0].bbox)
    ensures Step(t, input).0.state.markerId == input.markers[0].id
  {
  }

  /** Between re-detections, a locked tracker with anchors feeds every quadrant from the flow and moves the anchors. */
  lemma PropagationBetweenDetections(t: Tracker, input: StepInput)
    requires WellFormed(t) && |input.flow| == QUADRANTS
    requires !RedetectDue(t) && t.havePrev
    ensures Step(t, input).0.state.q == TrackQuadrants(t.state.q, input.flow, input.tsUs)
    ensures forall i :: 0 <= i < QUADRANTS ==> Step(t, input).0.anchors[i] == input.flow[i].pt
  {
  }

  /** Once a quadrant is valid it stays valid: neither a lost flow point nor a re-detection clears it. */
  lemma ValidNeverCleared(t: Tracker, input: StepInput, i: nat)
    requires WellFormed(t) && |input.flow| == QUADRANTS && i < QUADRANTS
    requires t.state.q[i].valid
    ensures Step(t, input).0.state.q[i].valid
  {
    var t1 := t.(frameCount := t.frameCount + 1);
    var t2 := if RedetectDue(t) then Detect(t1, input.markers) else t1;
    assert t2.state.q == t.state.q;
    if t2.state.tracking && t2.havePrev {
      assert Propagate(t2, input.flow, input.tsUs).state.q[i]
          == TrackQuadrant(t.state.q[i], input.flow[i], input.tsUs);
    }
  }

  /**
   * Metrics go out only while locked and more than a second (as an unsigned
   * difference) after the previous record; the record carries the quadrants
   * the step leaves behind, and the save time moves only when one goes out.
   */
  lemma MetricsSpacing(t: Tracker, input: StepInput)
    requires WellFormed(t) && |input.flow| == QUADRANTS
    ensures var (r, out) := Step(t, input);
      && (out.metrics.Some? <==> r.state.tracking && Sub64(input.tsUs, t.state.lastSavedUs) > SAVE_PERIOD_US)
      && (out.metrics.Some? ==> out.metrics.value == MetricsJson(r.state, input.tsUs) && r.state.lastSavedUs == input.tsUs)
      && (out.metrics.None? ==> r.state.lastSavedUs == t.state.lastSavedUs)
  {
    PublishMetrics(Advance(t, input), input.tsUs, input.liveWriteOk);
  }

  /** `MetricsSpacing` for the publishing half of the step. */
  lemma PublishMetrics(t3: Tracker, ts: u64, liveWriteOk: bool)
    requires WellFormed(t3)
    ensures var (r, out) := Publish(t3, ts, liveWriteOk);
      && (out.metrics.Some? <==> r.state.tracking && Sub64(ts, t3.state.lastSavedUs) > SAVE_PERIOD_US)
      && (out.metrics.Some? ==> out.metrics.value == MetricsJson(r.state, ts) && r.state.lastSavedUs == ts)
      && (out.metrics.None? ==> r.state.lastSavedUs == t3.state.lastSavedUs)
  {
    MetricsIgnoreStamps(Publish(t3, ts, liveWriteOk).0.state, t3.state, ts);
  }


  /** The metrics record reads the marker and the quadrants only, not the save and live stamps. */
  lemma MetricsIgnoreStamps(a: TrackerState, b: TrackerState, ts: u64)
    requires |a.q| == QUADRANTS && a.q == b.q && a.markerId == b.markerId
    ensures MetricsJson(a, ts) == MetricsJson(b, ts)
  {
  }


  /**
   * The live snapshot is attempted more than 100 ms after the last snapshot
   * block that finished without an exception. Only a block that throws is
   * retried on the next frame; a write that returns false is not.
   */
  lemma LiveSnapshotSpacing(t: Tracker, input: StepInput)
    requires WellFormed(t) && |input.flow| == QUADRANTS
    ensures var (r, out) := Step(t, input);
      && (out.liveAttempted <==> Sub64(input.tsUs, t.state.lastLiveUs) > LIVE_PERIOD_US)
      && r.state.lastLiveUs == (if out.liveAttempted && input.liveWriteOk then input.tsUs else t.state.lastLiveUs)
  {
    var t3 := Advance(t, input);
    assert t3.state.lastLiveUs == t.state.lastLiveUs;
  }

  predicate FlowsWellFormed(inputs: seq<StepInput>)
  {
    forall k :: 0 <= k < |inputs| ==> |inputs[k].flow| == QUADRANTS
  }

  predicate MarkerAlwaysVisible(inputs: seq<StepInput>)
  {
    forall k :: 0 <= k < |inputs| ==> inputs[k].markers != []
  }

  /** `ts` is a run of the tracker over `inputs`: `ts[i + 1]` is the tracker after `process` on frame i. */
  predicate IsRun(ts: seq<Tracker>, inputs: seq<StepInput>)
  {
    && |ts| == |inputs| + 1 && FlowsWellFormed(inputs)
    && (forall i :: 0 <= i < |ts| ==> WellFormed(ts[i]))
    && (forall i {:trigger Step(ts[i], inputs[i])} :: 0 <= i < |inputs| ==> ts[i + 1] == Step(ts[i], inputs[i]).0)
  }

  /** The run from `t`: `process` applied frame by frame. */
  function Run(t: Tracker, inputs: seq<StepInput>): (ts: seq<Tracker>)
    requires WellFormed(t) && FlowsWellFormed(inputs)
    ensures IsRun(ts, inputs) && ts[0] == t
    decreases |inputs|
  {
    if inputs == [] then [t]
    else
      var n := |inputs| - 1;
      var r := Run(t, inputs[..n]);
      RunSnoc(r, inputs, Step(r[n], inputs[n]).0);
      r + [Step(r[n], inputs[n]).0]
  }

  /** A run over all frames but the last, extended by the last step, is a run over all frames. */
  lemma RunSnoc(r: seq<Tracker>, inputs: seq<StepInput>, next: Tracker)
    requires inputs != [] && FlowsWellFormed(inputs)
    requires IsRun(r, inputs[..|inputs| - 1])
    requires next == Step(r[|inputs| - 1], inputs[|inputs| - 1]).0
    ensures IsRun(r + [next], inputs)
  {
    var ts := r + [next];
    var n := |inputs| - 1;
    forall i | 0 <= i < |inputs|
      ensures ts[i + 1] == Step(ts[i], inputs[i]).0
    {
      if i < n {
        assert inputs[..n][i] == inputs[i];
        assert r[i + 1] == Step(r[i], inputs[..n][i]).0;
      }
    }
  }

  /**
   * The lock after one step: a due re-detection locks exactly when the
   * detector saw a marker, otherwise the lock is kept; the frame count
   * moves by one either way.
   */
  lemma StepLock(t: Tracker, input: StepInput)
    requires WellFormed(t) && |input.flow| == QUADRANTS
    ensures Step(t, input).0.state.tracking == (if RedetectDue(t) then input.markers != [] else t.state.tracking)
    ensures Step(t, input).0.frameCount == t.frameCount + 1
  {
  }

  /** Frame k of a run, seen from frame k - 1. */
  lemma RunLock(ts: seq<Tracker>, inputs: seq<StepInput>, k: nat)
    requires IsRun(ts, inputs) && 0 < k < |ts|
    ensures ts[k].state.tracking == (if RedetectDue(ts[k - 1]) then inputs[k - 1].markers != [] else ts[k - 1].state.tracking)
    ensures ts[k].frameCount == ts[k - 1].frameCount + 1
  {
    assert ts[k] == Step(ts[k - 1], inputs[k - 1]).0;
    StepLock(ts[k - 1], inputs[k - 1]);
  }

  /**
   * Once locked at frame j, with the marker always in view, the tracker
   * stays locked and re-detects exactly on the frames whose count is a
   * multiple of 20.
   */
  lemma {:induction false} LockedFrom(ts: seq<Tracker>, inputs: seq<StepInput>, j: nat, k: nat)
    requires IsRun(ts, inputs) && MarkerAlwaysVisible(inputs)
    requires j <= k < |ts| && ts[j].state.tracking
    ensures ts[k].state.tracking && ts[k].frameCount == ts[j].frameCount + (k - j)
    ensures RedetectDue(ts[k]) <==> (ts[j].frameCount + (k - j) + 1) % REDETECT_PERIOD == 0
    decreases k
  {
    if k > j {
      LockedFrom(ts, inputs, j, k - 1);
      RunLock(ts, inputs, k);
    }
  }

  /** While the marker stays visible, a locked tracker re-detects exactly on frames whose count is a multiple of 20. */
  lemma LockedCadence(ts: seq<Tracker>, inputs: seq<StepInput>, k: nat)
    requires IsRun(ts, inputs) && MarkerAlwaysVisible(inputs)
    requires ts[0].state.tracking && k < |inputs|
    ensures RedetectDue(ts[k]) <==> (ts[0].frameCount + k + 1) % REDETECT_PERIOD == 0
  {
    LockedFrom(ts, inputs, 0, k);
  }

  /**
   * From a fresh tracker (unlocked, frame count 0, as `Initial()` is) and a
   * marker always in view, detection runs on the first frame and then on
   * frames 20, 40, 60, ... (1-based).
   */
  lemma CadenceFromStart(ts: seq<Tracker>, inputs: seq<StepInput>, k: nat)
    requires IsRun(ts, inputs) && MarkerAlwaysVisible(inputs)
    requires !ts[0].state.tracking && ts[0].frameCount == 0 && k < |inputs|
    ensures RedetectDue(ts[k]) <==> (k == 0 || (k + 1) % REDETECT_PERIOD == 0)
  {
    if k > 0 {
      RunLock(ts, inputs, 1);
      assert inputs[0].markers != [];
      LockedFrom(ts, inputs, 1, k);
    }
  }
}
