/**
 * The asynchronous metrics logger of src/util/csv_logger.h: the CSV header,
 * one line per processed frame, and the logger's life cycle (lazy `init`,
 * non-blocking `log` into a bounded drop-oldest queue, the worker's drain and
 * `shutdown`). The file system answers (whether metrics.csv existed, whether
 * it opened) are inputs; the worker thread's drain is a step of its own.
 */
module CsvLogging {
  import opened Uint
  import opened MotionTypes
  import opened Text
  import opened Handoff

  /** `max_queue_`. */
  const MAX_QUEUE: nat := 1024
  /** Digits after the decimal point for every real column. */
  const FIXED_PLACES: nat := 3
  const FIELDS_PER_QUADRANT: nat := 7
  /** 7 marker columns and 7 per quadrant. */
  const LINE_FIELDS: nat := 35

  function QuadrantHeader(i: nat): (h: seq<string>)
    requires i < QUADRANTS
    ensures |h| == FIELDS_PER_QUADRANT
    ensures forall k :: 0 <= k < |h| ==> ',' !in h[k] && '\n' !in h[k]
  {
    var p := ['q', DigitChar(i)];
    [p + "_valid", p + "_cx", p + "_cy", p + "_vx", p + "_vy", p + "_ax", p + "_ay"]
  }

  /** The column names, in line order. */
  function HeaderFields(): (h: seq<string>)
    ensures |h| == LINE_FIELDS
    ensures forall k :: 0 <= k < |h| ==> ',' !in h[k] && '\n' !in h[k]
  {
    ["ts_us", "tracking", "marker_id", "bbox_x", "bbox_y", "bbox_w", "bbox_h"]
      + QuadrantHeader(0) + QuadrantHeader(1) + QuadrantHeader(2) + QuadrantHeader(3)
  }

  /** The header line written into a new metrics.csv. */
  function Header(): string
  {
    Join(HeaderFields(), ',') + "\n"
  }

  function Flag(b: bool): (f: string)
    ensures f == "1" <==> b
  {
    if b then "1" else "0"
  }

  /** The six motion values a valid quadrant reports, in column order. */
  function MotionValues(m: MotionState): (vs: seq<real>)
    ensures |vs| == 6
  {
    [m.pos.x, m.pos.y, m.vel.x, m.vel.y, m.acc.x, m.acc.y]
  }

  /** Each value printed fixed-point with three decimals. */
  function ValueTexts(vs: seq<real>): (f: seq<string>)
    ensures |f| == |vs|
    ensures forall k :: 0 <= k < |f| ==> f[k] != [] && ',' !in f[k] && '\n' !in f[k]
  {
    if vs == [] then []
    else
      FixedTextPlain(vs[0], FIXED_PLACES);
      [FixedText(vs[0], FIXED_PLACES)] + ValueTexts(vs[1..])
  }

  /** One quadrant's seven columns: the valid flag, then six values or six empty columns. */
  function QuadrantFields(q: QuadrantState): (f: seq<string>)
    ensures |f| == FIELDS_PER_QUADRANT
    ensures f[0] == Flag(q.valid)
    ensures forall k :: 1 <= k < |f| ==> (f[k] == "" <==> !q.valid)
    ensures forall k :: 0 <= k < |f| ==> ',' !in f[k] && '\n' !in f[k]
  {
    if q.valid then ["1"] + ValueTexts(MotionValues(q.motion))
    else ["0", "", "", "", "", "", ""]
  }

  /** The seven marker columns. */
  function MarkerFields(ts: u64, st: TrackerState): (f: seq<string>)
    ensures |f| == 7
    ensures forall k :: 0 <= k < |f| ==> ',' !in f[k] && '\n' !in f[k]
  {
    var b := st.markerBbox;
    [IntText(ts), Flag(st.tracking), IntText(st.markerId), IntText(b.x), IntText(b.y), IntText(b.width), IntText(b.height)]
  }

  /** The quadrant columns, quadrant after quadrant. */
  function QuadrantsFields(qs: seq<QuadrantState>): (f: seq<string>)
    ensures |f| == FIELDS_PER_QUADRANT * |qs|
    ensures forall k :: 0 <= k < |f| ==> ',' !in f[k] && '\n' !in f[k]
  {
    if qs == [] then [] else QuadrantFields(qs[0]) + QuadrantsFields(qs[1..])
  }

  /** The columns of one line. */
  function LineFields(ts: u64, st: TrackerState): (f: seq<string>)
    requires |st.q| == QUADRANTS
    ensures |f| == LINE_FIELDS
    ensures forall k :: 0 <= k < |f| ==> ',' !in f[k] && '\n' !in f[k]
  {
    MarkerFields(ts, st) + QuadrantsFields(st.q)
  }

  lemma {:induction false} QuadrantsColumn(qs: seq<QuadrantState>, i: nat, k: nat)
    requires i < |qs| && k < FIELDS_PER_QUADRANT
    ensures QuadrantsFields(qs)[FIELDS_PER_QUADRANT * i + k] == QuadrantFields(qs[i])[k]
  {
    if i > 0 {
      QuadrantsColumn(qs[1..], i - 1, k);
      assert FIELDS_PER_QUADRANT * i + k == FIELDS_PER_QUADRANT + (FIELDS_PER_QUADRANT * (i - 1) + k);
    }
  }

  /** Column 7 + 7i + k of a line is column k of quadrant i. */
  lemma QuadrantColumn(ts: u64, st: TrackerState, i: nat, k: nat)
    requires |st.q| == QUADRANTS && i < QUADRANTS && k < FIELDS_PER_QUADRANT
    ensures LineFields(ts, st)[7 + 7 * i + k] == QuadrantFields(st.q[i])[k]
  {
    QuadrantsColumn(st.q, i, k);
  }

  /** `build_line(ts_us, st)`. */
  function BuildLine(ts: u64, st: TrackerState): string
    requires |st.q| == QUADRANTS
  {
    Join(LineFields(ts, st), ',') + "\n"
  }

  /** A line minus its terminating newline, or the whole text when there is none. */
  function Body(line: string): string
  {
    if line != [] && line[|line| - 1] == '\n' then line[..|line| - 1] else line
  }

  /** Every line is a single record: one newline, at the end, and exactly 35 comma-separated columns. */
  lemma {:induction false} LineIsOneRecord(ts: u64, st: TrackerState)
    requires |st.q| == QUADRANTS
    ensures var line := BuildLine(ts, st);
      && line[|line| - 1] == '\n' && '\n' !in Body(line)
      && Split(Body(line), ',') == LineFields(ts, st)
      && |Split(Body(line), ',')| == LINE_FIELDS
  {
    var fs := LineFields(ts, st);
    var line := BuildLine(ts, st);
    assert Body(line) == Join(fs, ',');
    SplitJoin(fs, ',');
    NoNewlineInJoin(fs);
  }

  /** The header is one record with the same number of columns as every line. */
  lemma {:induction false} HeaderMatchesLines(ts: u64, st: TrackerState)
    requires |st.q| == QUADRANTS
    ensures '\n' !in Body(Header())
    ensures |Split(Body(Header()), ',')| == |Split(Body(BuildLine(ts, st)), ',')| == LINE_FIELDS
  {
    assert Body(Header()) == Join(HeaderFields(), ',');
    SplitJoin(HeaderFields(), ',');
    NoNewlineInJoin(HeaderFields());
    LineIsOneRecord(ts, st);
  }

  lemma {:induction false} NoNewlineInJoin(parts: seq<string>)
    requires forall k :: 0 <= k < |parts| ==> '\n' !in parts[k]
    ensures '\n' !in Join(parts, ',')
    decreases |parts|
  {
    if |parts| > 1 {
      NoNewlineInJoin(parts[1..]);
    }
  }

  /**
   * Reading a line back: the integer columns parse to the values logged, the
   * flags are "1" exactly when set, and a quadrant's value columns are empty
   * exactly when it is not valid.
   */
  lemma {:induction false} LineReadsBack(ts: u64, st: TrackerState)
    requires |st.q| == QUADRANTS
    ensures var p := Split(Body(BuildLine(ts, st)), ',');
      && |p| == LINE_FIELDS
      && Atoi(p[0]) == ts && (p[1] == "1" <==> st.tracking) && Atoi(p[2]) == st.markerId
      && Atoi(p[3]) == st.markerBbox.x && Atoi(p[4]) == st.markerBbox.y
      && Atoi(p[5]) == st.markerBbox.width && Atoi(p[6]) == st.markerBbox.height
  {
    LineIsOneRecord(ts, st);
    var b := st.markerBbox;
    var p := LineFields(ts, st);
    assert p[..7] == MarkerFields(ts, st);
    assert p[0] == p[..7][0] && p[1] == p[..7][1] && p[2] == p[..7][2] && p[3] == p[..7][3];
    assert p[4] == p[..7][4] && p[5] == p[..7][5] && p[6] == p[..7][6];
    AtoiIntText(ts); AtoiIntText(st.markerId);
    AtoiIntText(b.x); AtoiIntText(b.y); AtoiIntText(b.width); AtoiIntText(b.height);
  }

  /** Reading a quadrant back: its flag column is "1" and its value columns are non-empty exactly when it is valid. */
  lemma QuadrantReadsBack(ts: u64, st: TrackerState, i: nat, k: nat)
    requires |st.q| == QUADRANTS && i < QUADRANTS && 1 <= k < FIELDS_PER_QUADRANT
    ensures var p := Split(Body(BuildLine(ts, st)), ',');
      && |p| == LINE_FIELDS
      && (p[7 + 7 * i] == "1" <==> st.q[i].valid)
      && (p[7 + 7 * i + k] == "" <==> !st.q[i].valid)
  {
    LineIsOneRecord(ts, st);
    QuadrantColumn(ts, st, i, 0);
    QuadrantColumn(ts, st, i, k);
  }

  /** The logger's fields that the source changes; `written` is what this process appended to metrics.csv. */
  datatype Logger = Logger(initialized: bool, running: bool, fileOpen: bool, queue: seq<string>, written: seq<string>)

  predicate Consistent(s: Logger)
  {
    |s.queue| <= MAX_QUEUE && (s.running ==> s.initialized && s.fileOpen)
  }

  function Fresh(): (s: Logger)
    ensures Consistent(s) && !s.initialized && !s.running && s.queue == [] && s.written == []
  {
    Logger(false, false, false, [], [])
  }

  /**
   * `init`: a no-op once initialized; when the file does not open the logger
   * stays uninitialized; otherwise the header is written only into a file
   * that did not exist, and the worker starts. `header` is the header line,
   * `Header()` in every call from the logger.
   */
  function InitStep(s: Logger, header: string, fileExisted: bool, openOk: bool): (r: Logger)
    requires Consistent(s)
    ensures Consistent(r) && r.queue == s.queue
    ensures s.initialized || !openOk ==> r == s
    ensures !s.initialized && openOk ==>
      r.initialized && r.running && r.fileOpen
      && r.written == s.written + (if fileExisted then [] else [header])
  {
    if s.initialized || !openOk then s
    else s.(initialized := true, running := true, fileOpen := true,
            written := s.written + (if fileExisted then [] else [header]))
  }

  /** What `log` does with a built line: lazy init, then enqueue unless not running, dropping the oldest at 1024. */
  function EnqueueStep(s: Logger, header: string, line: string, fileExisted: bool, openOk: bool): (r: Logger)
    requires Consistent(s)
    ensures Consistent(r)
    ensures s.running ==> r == s.(queue := LastN(s.queue + [line], MAX_QUEUE))
    ensures s.initialized && !s.running ==> r == s
    ensures !s.initialized && !openOk ==> r == s
    ensures !s.initialized && openOk ==>
      r.initialized && r.running && r.fileOpen
      && r.queue == LastN(s.queue + [line], MAX_QUEUE)
      && r.written == s.written + (if fileExisted then [] else [header])
  {
    var s1 := if !s.initialized then InitStep(s, header, fileExisted, openOk) else s;
    if !s1.running then s1
    else s1.(queue := PushStep(s1.queue, MAX_QUEUE, true, false, line).items)
  }

  /** `log(ts_us, st)`. */
  function LogStep(s: Logger, header: string, ts: u64, st: TrackerState, fileExisted: bool, openOk: bool): (r: Logger)
    requires Consistent(s) && |st.q| == QUADRANTS
  {
    EnqueueStep(s, header, BuildLine(ts, st), fileExisted, openOk)
  }

  /** The worker's inner loop: every queued line goes to the file in order, or is discarded when the file is closed. */
  function DrainStep(s: Logger): (r: Logger)
    ensures r.queue == [] && r.written == s.written + (if s.fileOpen then s.queue else [])
    ensures r.initialized == s.initialized && r.running == s.running && r.fileOpen == s.fileOpen
  {
    s.(queue := [], written := s.written + (if s.fileOpen then s.queue else []))
  }

  /**
   * `shutdown`: stop accepting lines, let the worker finish, close the file.
   * Whether the worker drains once more before it sees `running_` false
   * depends on where it is in its loop, so that is an input.
   */
  function ShutdownStep(s: Logger, workerDrains: bool): (r: Logger)
    ensures !r.running && !r.fileOpen && r.initialized == s.initialized
    ensures workerDrains ==> r.queue == [] && r.written == s.written + (if s.fileOpen then s.queue else [])
    ensures !workerDrains ==> r.queue == s.queue && r.written == s.written
  {
    var s1 := s.(running := false);
    var s2 := if workerDrains then DrainStep(s1) else s1;
    s2.(fileOpen := false)
  }

  /** A logger that has once opened its file never re-initializes: after shutdown, `log` changes nothing. */
  lemma LogAfterShutdownIgnored(s: Logger, workerDrains: bool, header: string, ts: u64, st: TrackerState, fileExisted: bool, openOk: bool)
    requires Consistent(s) && s.initialized && |st.q| == QUADRANTS
    ensures Consistent(ShutdownStep(s, workerDrains))
    ensures LogStep(ShutdownStep(s, workerDrains), header, ts, st, fileExisted, openOk) == ShutdownStep(s, workerDrains)
  {
  }

  /** Shutting down a logger that never initialized leaves it able to start again on the next `log`. */
  lemma LogAfterEarlyShutdownRestarts(workerDrains: bool, header: string, ts: u64, st: TrackerState)
    requires |st.q| == QUADRANTS
    ensures var r := LogStep(ShutdownStep(Fresh(), workerDrains), header, ts, st, false, true);
      r.running && r.queue == [BuildLine(ts, st)] && r.written == [header]
  {
  }

  /**
   * A failed open leaves the logger uninitialized and drops the line, so the
   * next `log` tries `init` again; when that open succeeds, its line is queued.
   */
  lemma FailedOpenRetried(s: Logger, header: string, ts1: u64, st1: TrackerState, e1: bool,
                          ts2: u64, st2: TrackerState, e2: bool)
    requires Consistent(s) && !s.initialized && |st1.q| == QUADRANTS && |st2.q| == QUADRANTS
    ensures LogStep(s, header, ts1, st1, e1, false) == s
    ensures var r := LogStep(LogStep(s, header, ts1, st1, e1, false), header, ts2, st2, e2, true);
      r.initialized && r.running && r.queue == LastN(s.queue + [BuildLine(ts2, st2)], MAX_QUEUE)
      && r.written == s.written + (if e2 then [] else [header])
  {
  }

  /** `init` is idempotent. */
  lemma InitIdempotent(s: Logger, header: string, e1: bool, o1: bool, e2: bool, o2: bool)
    requires Consistent(s)
    ensures InitStep(InitStep(s, header, e1, o1), header, e2, o2) == InitStep(s, header, e1, o1) || !o1
  {
  }

  /** A run of `log` calls on a running logger with no drain in between, given the lines they build. */
  function LogAll(s: Logger, header: string, lines: seq<string>): (r: Logger)
    requires Consistent(s) && s.running
    ensures Consistent(r) && r.running
    ensures r.written == s.written
    decreases |lines|
  {
    if lines == [] then s
    else LogAll(EnqueueStep(s, header, lines[0], true, true), header, lines[1..])
  }

  /**
   * With the worker stalled, the queue holds the newest 1024 lines in logging
   * order: older ones are dropped, never reordered.
   */
  lemma {:induction false} QueueKeepsNewest(s: Logger, header: string, lines: seq<string>)
    requires Consistent(s) && s.running
    ensures LogAll(s, header, lines).queue == LastN(s.queue + lines, MAX_QUEUE)
    decreases |lines|
  {
    if lines == [] {
      assert s.queue + lines == s.queue;
    } else {
      var rest := lines[1..];
      var s1 := EnqueueStep(s, header, lines[0], true, true);
      assert LogAll(s, header, lines) == LogAll(s1, header, rest);
      QueueKeepsNewest(s1, header, rest);
      LastNConcat(s.queue + [lines[0]], rest, MAX_QUEUE);
      assert lines == [lines[0]] + rest;
      assert s.queue + [lines[0]] + rest == s.queue + lines;
    }
  }

  /** Draining before shutdown loses nothing: every queued line reaches the file, after the ones already there. */
  lemma CleanShutdownKeepsAll(s: Logger)
    requires Consistent(s) && s.fileOpen
    ensures ShutdownStep(s, true).written == s.written + s.queue
  {
  }

  class CsvLogger {
    var initialized: bool
    var running: bool
    var fileOpen: bool
    /** `queue_`, front first. */
    var queue: seq<string>
    /** The lines this process appended to metrics.csv, header included. */
    var written: seq<string>
    /** The header line written to a new metrics.csv. */
    const header: string

    function Model(): Logger
      reads this
    {
      Logger(initialized, running, fileOpen, queue, written)
    }

    ghost predicate Valid()
      reads this
    {
      Consistent(Model())
    }

    constructor ()
      ensures Valid() && Model() == Fresh() && header == Header()
    {
      header := Header();
      initialized := false;
      running := false;
      fileOpen := false;
      queue := [];
      written := [];
    }

    method Init(fileExisted: bool, openOk: bool)
      requires Valid()
      modifies this
      ensures Valid() && Model() == InitStep(old(Model()), header, fileExisted, openOk)
    {
      if initialized || !openOk {
        return;
      }
      written := written + (if fileExisted then [] else [header]);
      fileOpen, running, initialized := true, true, true;
    }

    method Log(ts: u64, st: TrackerState, fileExisted: bool, openOk: bool)
      requires Valid() && |st.q| == QUADRANTS
      modifies this
      ensures Valid() && Model() == LogStep(old(Model()), header, ts, st, fileExisted, openOk)
    {
      var line := BuildLine(ts, st);
      Enqueue(line, fileExisted, openOk);
    }

    /** The part of `log` after the line is built: initialise if needed, then queue the line. */
    method Enqueue(line: string, fileExisted: bool, openOk: bool)
      requires Valid()
      modifies this
      ensures Valid() && Model() == EnqueueStep(old(Model()), header, line, fileExisted, openOk)
    {
      if !initialized {
        Init(fileExisted, openOk);
      }
      if !running {
        return;
      }
      if |queue| >= MAX_QUEUE {
        queue := queue[1..];
      }
      queue := queue + [line];
    }

    /** One pass of the worker's inner loop in `run`. */
    method Drain()
      requires Valid()
      modifies this
      ensures Valid() && Model() == DrainStep(old(Model()))
    {
      while queue != []
        invariant Valid()
        invariant initialized == old(initialized) && running == old(running) && fileOpen == old(fileOpen)
        invariant written + (if fileOpen then queue else []) == old(written) + (if fileOpen then old(queue) else [])
        decreases |queue|
      {
        var line := queue[0];
        queue := queue[1..];
        if fileOpen {
          written := written + [line];
        }
      }
    }

    method Shutdown(workerDrains: bool)
      requires Valid()
      modifies this
      ensures Valid() && Model() == ShutdownStep(old(Model()), workerDrains)
    {
      running := false;
      if workerDrains {
        Drain();
      }
      fileOpen := false;
    }
  }
}
