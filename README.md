# ArUco marker tracker — a verified model of its sequential core

This project models, in Dafny, the deterministic logic of an ArUco marker
tracking pipeline:

- the bounded hand-off queue between the capture and processing threads;
- the per-quadrant motion filter;
- the tracker's detect / propagate state machine and its metrics and snapshot gating;
- the asynchronous CSV metrics logger;
- the chunked-JPEG UDP receiver of the web streamer;
- the image-sequence frame source;
- the command-line scan and the capture/processing loops of `main`;
- one polling pass of the Google Drive uploader.

The vision calls, sockets, file system, clocks and the Drive client are not
modelled. What they answer becomes a parameter of each step.

Each C++ or Python unit is modelled by one module, in the form the unit has in
the source:

- Where the source updates objects in place, the model has a `class` whose
  methods are proved to follow a specification function on a value. Such units
  are `RingBuffer`, `ArucoTracker`, `CsvLogger`, the frame receiver,
  `ImageSequenceSource` and the uploader's pass.
- Loops in the source that update state in place are `while` loops with
  invariants in the model. Loops that only build a value are functions of
  three kinds. The CSV line's quadrant loop (`QuadrantsFields`, `Join`) and
  the uploader's candidate list (`ListCandidates`) are recursive. The CSV
  header's and the metrics record's four-quadrant loops are unrolled into four
  terms (`HeaderFields`, `MetricsJson`). The receiver's removal and cleanup of
  partial frames (`DropUpTo`, `Cleanup`) are map comprehensions.
- Pure expressions in the source are functions in the model: `update_motion`
  as a function on `MotionState`, `build_line`, and header parsing.

Lemmas then state what the source promises about those functions. Examples are
FIFO order, queue bounds, the re-detection cadence over whole runs, field
counts and read-back of CSV lines, and the round trip from datagrams to frames.

| file | models |
|---|---|
| `wrappers.dfy` | `Option` and `Result` values |
| `uint.dfy` | `uint64_t` and its wrap-around subtraction |
| `text.dfy` | `tolower`, `str.strip`, `str.split` and `join`, `operator<<` on integers, `atoi`, `std::fixed` output |
| `sorting.dfy` | `std::sort` on paths and `list.sort(key=mtime)` |
| `ring_buffer.dfy` | `src/util/ring_buffer.h` |
| `motion_types.dfy` | `src/processing/motion_types.h` |
| `motion_update.dfy` | `src/processing/motion_update.h` |
| `aruco_tracker.dfy` | `src/processing/aruco_tracker.cpp` |
| `csv_logger.dfy` | `src/util/csv_logger.h` |
| `frame_receiver.dfy` | `udp_frame_receiver` in `streamer/streamer.py` |
| `image_sequence_source.dfy` | `src/pipeline/image_sequence_source.cpp` |
| `main_driver.dfy` | `src/main.cpp` |
| `drive_uploader.dfy` | `tools/drive_uploader.py` |

## Behaviour as written

These are points where the code behaves in a way a reader might not expect.
The model follows the code:

- **Re-detection cadence.** The frame counter is incremented before the test
  `!tracking || frame_count_ % 20 == 0`, so detection runs on every frame while
  unlocked, including the first. A tracker that stays locked therefore re-detects on
  frames 1, 20, 40, 60, … counted from 1. See
  `ArucoTrackingProperties.CadenceFromStart`.
- **Re-detection keeps motion history.** A successful re-detection re-anchors
  the four points. It does not reset the quadrants' `MotionState`, so velocity
  history survives a re-lock.
- **`valid` is never cleared.** Once a quadrant is valid it stays valid: a lost
  flow point leaves it untouched, and so does a re-detection.
- **Out-of-order timestamps are accepted.** The guard `dt <= 0` only rejects a
  timestamp equal to the last one. An earlier timestamp makes the unsigned
  difference wrap to a huge positive `dt`, and the update goes through.
- **Anchor offsets.** The anchors sit a quarter of the box's width and height
  away from its centre, as the code computes them.
- **CSV comment.** The comment next to `",,,,,,"` in `build_line` speaks of 7
  empty fields. The code writes the flag column and then 6 empty columns, which
  makes 7 columns per quadrant and 35 per line, matching the header.
- **The uploader's state file is a candidate.** `.upload_state.json` has the
  suffix `.json`, so it is uploaded like any other file whenever `.json` is
  selected, as it is by default.
- **A failed `save_state` still records.** The record is added to `state`
  before `save_state` runs, inside the same `try`. If the save raises, the
  uploader reports "Failed upload" but skips the file from then on. The state
  file on disk lacks the record until the next successful save, which writes
  the whole map.

## Model

| member | source | states |
|---|---|---|
| Uint.Sub64 | src/processing/motion_update.h:20 | `a - b` on `uint64_t`: `b + r` is `a` modulo 2^64; the result is 0 exactly when `a == b`; it is `a - b` when `b <= a` and wraps past `a` otherwise |
| Handoff.LastN | src/util/ring_buffer.h:21-28 | the newest n items of a sequence, in order (all of it when it is shorter), which is what drop-oldest pushes keep; specified by its length clause and by PushStep, PushAllKeepsNewest and SurvivorsOfPushes |
| Handoff.PushStep | src/util/ring_buffer.h:18-32 | push succeeds iff the buffer is open and has room or drops the oldest; a failed push changes nothing; a successful one leaves the newest `capacity` items of `items + [x]`; size never exceeds capacity |
| Handoff.PushAllKeepsNewest | src/util/ring_buffer.h:21-28 | under drop-oldest, pushes with no pops leave exactly the newest `capacity` items of old contents followed by the pushed items, in push order |
| Handoff.SurvivorsOfPushes | src/util/ring_buffer.h:21-28 | from empty, N pushes leave the last min(N, C) items pushed, in order |
| Handoff.RingBuffer.constructor | src/util/ring_buffer.h:12-13 | an open, empty buffer with the given capacity and policy; capacity 0 with drop-oldest is excluded |
| Handoff.RingBuffer.Push | src/util/ring_buffer.h:18-32 | answer and new contents are those of `PushStep`; closed flag unchanged; size stays within capacity |
| Handoff.RingBuffer.Pop | src/util/ring_buffer.h:35-42 | (when it would not block) delivers and removes exactly the front item; answers false only when closed and empty, leaving the output untouched |
| Handoff.RingBuffer.Close | src/util/ring_buffer.h:44-49 | sets closed and keeps every buffered item (so it is idempotent) |
| Handoff.RingBuffer.Size | src/util/ring_buffer.h:51-54 | the number of buffered items |
| MotionTypes.DefaultMotion | src/processing/motion_types.h:5-10 | zero position, velocity and acceleration, timestamp 0 (the unseeded sentinel) |
| MotionTypes.DefaultQuadrant | src/processing/motion_types.h:12-15 | default motion and `valid == false` |
| MotionTypes.DefaultTrackerState | src/processing/motion_types.h:17-24 | four default quadrants, marker id -1, not tracking, both stamps 0, empty box |
| MotionUpdate.Clamp | src/processing/motion_update.h:27-34 | result in [-m, m]; values beyond the bound become exactly ±m; values inside are kept |
| MotionUpdate.DtSeconds | src/processing/motion_update.h:19-20 | the unsigned microsecond difference in seconds: never negative, zero exactly when the stamps are equal |
| MotionUpdate.RawVelocity | src/processing/motion_update.h:22 | the displacement divided by dt, per axis; specified through UpdateMotion and DriftStep |
| MotionUpdate.Smooth | src/processing/motion_update.h:22-23 | the α = 0.5 average: the result lies halfway between the raw and the previous velocity |
| MotionUpdate.UpdateMotion | src/processing/motion_update.h:11-39 | seeding when unseeded; a repeated stamp changes nothing; otherwise position and stamp are the new ones, velocity is the smoothed raw velocity and acceleration the clamped velocity change over dt, within ±10000 per axis |
| MotionTimestamps.EarlierTimestampAccepted | src/processing/motion_update.h:19-20 | an earlier stamp gives dt = (2^64 − last + ts) µs and the update proceeds |
| MotionTimestamps.SeedAtZeroStaysUnseeded | src/processing/motion_update.h:11-17 | seeding at stamp 0 leaves the state unseeded, so the next observation seeds again |
| MotionConvergence.DriftStep | src/processing/motion_update.h:22-23 | under constant displacement one update halves the gap between velocity and true velocity |
| MotionConvergence.DriftVelocity | src/processing/motion_update.h:22-23 | after n updates under constant motion the velocity gap has shrunk by 2^n |
| ArucoTracking.Initial | src/processing/aruco_tracker.h:22-32 | the fresh tracker: default state, frame count 0, no previous frame, not tracking |
| ArucoTracking.QuadrantCenter | src/processing/aruco_tracker.cpp:149-159 | the centre ± a quarter of the box per axis: x at 1/4 or 3/4 of the width by column, y at 1/4 or 3/4 of the height by row (0 top-left … 3 bottom-right) |
| ArucoTracking.Anchors | src/processing/aruco_tracker.cpp:123-125 | the four anchors are `quadrant_center(0..3)` in order |
| ArucoTracking.Detect | src/processing/aruco_tracker.cpp:108-129 | no marker: unlock, id -1, everything else kept; a marker: lock on the first, its id and box, anchors from the box, `have_prev_` false; quadrants and stamps never change |
| ArucoTracking.TrackQuadrant | src/processing/aruco_tracker.cpp:138-144 | a found point feeds `update_motion` and sets valid; a lost one leaves the quadrant untouched |
| ArucoTracking.TrackQuadrants | src/processing/aruco_tracker.cpp:138-144 | every quadrant is updated from its own flow point |
| ArucoTracking.Propagate | src/processing/aruco_tracker.cpp:131-147 | `track`: quadrants updated per point, the propagated points become the anchors, nothing else changes |
| ArucoTracking.QuadrantJson | src/processing/aruco_tracker.cpp:32-43 | seven members, `valid` first, then cx … ay, which are all `null` exactly when the quadrant is invalid |
| ArucoTracking.MetricsJson | src/processing/aruco_tracker.cpp:29-45 | marker id, timestamp and exactly four quadrant objects in quadrant order |
| ArucoTracking.RedetectDue | src/processing/aruco_tracker.cpp:18-20 | detection runs when not tracking or when the incremented frame count is a multiple of 20; specified by StepLock, LockedCadence and CadenceFromStart |
| ArucoTracking.Advance | src/processing/aruco_tracker.cpp:16-24 | counts the frame; stamps untouched; the tracker stays well formed |
| ArucoTracking.EmitDue | src/processing/aruco_tracker.cpp:27 | metrics are due when tracking and more than 1 s (unsigned gap) passed since the last record; specified by PublishMetrics and MetricsSpacing |
| ArucoTracking.Publish | src/processing/aruco_tracker.cpp:26-105 | frame count kept, `have_prev_` set, tracker well formed |
| ArucoTracking.Step | src/processing/aruco_tracker.cpp:16-106 | every `process` increments the frame count by one and ends with `have_prev_` true |
| ArucoTracking.ArucoTracker.constructor | src/processing/aruco_tracker.h:22-32 | the object starts as `Initial()` |
| ArucoTracking.ArucoTracker.DetectMarker | src/processing/aruco_tracker.cpp:108-129 | the new fields are `Detect` of the old ones; its 4-step loop fills the anchors |
| ArucoTracking.ArucoTracker.Track | src/processing/aruco_tracker.cpp:131-147 | the new fields are `Propagate` of the old ones; its 4-step loop updates the quadrants in place |
| ArucoTracking.ArucoTracker.AdvanceFrame | src/processing/aruco_tracker.cpp:16-24 | the new fields are `Advance` of the old ones |
| ArucoTracking.ArucoTracker.PublishFrame | src/processing/aruco_tracker.cpp:26-105 | the new fields and the outputs are `Publish` of the old ones |
| ArucoTracking.ArucoTracker.Process | src/processing/aruco_tracker.cpp:16-106 | new fields and outputs (metrics record, live attempt) are `Step` of the old fields and the frame's inputs |
| ArucoTrackingProperties.LockLoss | src/processing/aruco_tracker.cpp:113-117 | a due re-detection that sees no marker unlocks with id -1, keeps quadrants and anchors, and emits no metrics |
| ArucoTrackingProperties.RedetectionSkipsPropagation | src/processing/aruco_tracker.cpp:119-128 | a successful re-detection locks on the first marker, re-anchors from its box and leaves the quadrants as they were: no propagation on that frame, no motion reset |
| ArucoTrackingProperties.PropagationBetweenDetections | src/processing/aruco_tracker.cpp:23-24 | when no detection is due and a previous frame exists, every quadrant is fed from the flow and the anchors move to the flow points |
| ArucoTrackingProperties.ValidNeverCleared | src/processing/aruco_tracker.cpp:138-144 | a valid quadrant is still valid after any step |
| ArucoTrackingProperties.MetricsSpacing | src/processing/aruco_tracker.cpp:27-53 | metrics go out iff locked and the unsigned gap since the last record exceeds 1 s; the record describes the step's final quadrants and the save stamp moves only then |
| ArucoTrackingProperties.PublishMetrics | src/processing/aruco_tracker.cpp:27-53 | the same gating and record for the publishing half of the step |
| ArucoTrackingProperties.MetricsIgnoreStamps | src/processing/aruco_tracker.cpp:29-45 | the metrics record depends only on the marker id and the quadrants |
| ArucoTrackingProperties.LiveSnapshotSpacing | src/processing/aruco_tracker.cpp:57-101 | a snapshot is attempted iff more than 100 ms (unsigned) passed since the last successful write, locked or not; the stamp moves whenever the snapshot block finishes without an exception (`liveWriteOk`), whatever `imwrite` returned; only a block that throws is retried on the next frame |
| ArucoTrackingProperties.Run | src/processing/aruco_tracker.cpp:16-106 | the trackers obtained by applying `process` frame after frame form a run over the inputs |
| ArucoTrackingProperties.StepLock | src/processing/aruco_tracker.cpp:18-21 | after a step the tracker is locked iff a due re-detection saw a marker, or no re-detection was due and it was locked |
| ArucoTrackingProperties.LockedFrom | src/processing/aruco_tracker.cpp:18-21 | with the marker always in view, once locked the tracker stays locked and re-detects exactly when the incremented count is a multiple of 20 |
| ArucoTrackingProperties.LockedCadence | src/processing/aruco_tracker.cpp:18-21 | from a locked tracker with the marker in view, frame k re-detects iff `(count + k + 1) % 20 == 0` |
| ArucoTrackingProperties.CadenceFromStart | src/processing/aruco_tracker.cpp:18-21 | from a fresh tracker with the marker in view, detection runs on frame 1 and then on frames 20, 40, … only |
| CsvLogging.QuadrantHeader | src/util/csv_logger.h:42-44 | seven column names per quadrant, none containing a comma or newline |
| CsvLogging.HeaderFields | src/util/csv_logger.h:41-45 | 35 column names, none containing a comma or newline |
| CsvLogging.Header | src/util/csv_logger.h:40-45 | the header line: the 35 column names joined by commas, then a newline; specified by HeaderFields and HeaderMatchesLines |
| CsvLogging.Flag | src/util/csv_logger.h:95 | the flag column is "1" exactly when the flag is set |
| CsvLogging.MotionValues | src/util/csv_logger.h:97-99 | six motion values per valid quadrant |
| CsvLogging.ValueTexts | src/util/csv_logger.h:97-99 | one non-empty fixed-point text per value, free of commas and newlines |
| CsvLogging.QuadrantFields | src/util/csv_logger.h:94-102 | seven columns: the valid flag, then six values that are empty exactly when the quadrant is invalid |
| CsvLogging.MarkerFields | src/util/csv_logger.h:91-92 | seven marker columns free of commas and newlines |
| CsvLogging.QuadrantsFields | src/util/csv_logger.h:93-103 | seven columns per quadrant |
| CsvLogging.LineFields | src/util/csv_logger.h:88-104 | 35 columns, none containing a comma or newline |
| CsvLogging.BuildLine | src/util/csv_logger.h:88-106 | `build_line`: the 35 fields joined by commas, then a newline; specified by LineIsOneRecord, LineReadsBack, QuadrantColumn and QuadrantReadsBack |
| CsvLogging.QuadrantColumn | src/util/csv_logger.h:93-103 | column 7 + 7i + k of a line is column k of quadrant i |
| CsvLogging.LineIsOneRecord | src/util/csv_logger.h:88-106 | every line ends with its only newline and splits into exactly its 35 columns |
| CsvLogging.HeaderMatchesLines | src/util/csv_logger.h:40-46 | the header is one record with 35 columns, as many as every line |
| CsvLogging.LineReadsBack | src/util/csv_logger.h:91-92 | parsing a line's columns gives back the timestamp, tracking flag, marker id and box |
| CsvLogging.QuadrantReadsBack | src/util/csv_logger.h:95-102 | a quadrant's flag column is "1" and its value columns non-empty exactly when it is valid |
| CsvLogging.Fresh | src/util/csv_logger.h:122-134 | not initialized, not running, empty queue, nothing written |
| CsvLogging.InitStep | src/util/csv_logger.h:27-50 | a no-op once initialized or when the file fails to open; otherwise initialized and running, with the header written only into a new file |
| CsvLogging.EnqueueStep | src/util/csv_logger.h:53-66 | while running the queue becomes the newest 1024 of queue + line; an initialized logger that is not running is unchanged; an uninitialized one is unchanged when the open fails, and otherwise is initialized, running, writes the header only into a new file and queues the line; the bound holds |
| CsvLogging.LogStep | src/util/csv_logger.h:53-66 | `log`: `build_line`, then the enqueue step; specified by EnqueueStep's contract, LogAfterShutdownIgnored, LogAfterEarlyShutdownRestarts and FailedOpenRetried |
| CsvLogging.FailedOpenRetried | src/util/csv_logger.h:27-55 | a `log` whose open fails leaves the logger as it was, so the next `log` tries `init` again and, when that open succeeds, starts the logger and queues its line |
| CsvLogging.DrainStep | src/util/csv_logger.h:112-118 | the queue empties into the file in FIFO order, or is discarded when the file is closed |
| CsvLogging.ShutdownStep | src/util/csv_logger.h:68-73 | stops and closes; queued lines reach the file iff the worker drains once more |
| CsvLogging.LogAfterShutdownIgnored | src/util/csv_logger.h:54-55 | after shutdown of an initialized logger, `log` changes nothing |
| CsvLogging.LogAfterEarlyShutdownRestarts | src/util/csv_logger.h:27-55 | a logger shut down before it ever initialized starts again on the next `log` |
| CsvLogging.InitIdempotent | src/util/csv_logger.h:29 | after a successful `init`, another `init` changes nothing |
| CsvLogging.LogAll | src/util/csv_logger.h:53-66 | a run of `log` calls keeps the logger running, bounded, and writes nothing itself |
| CsvLogging.QueueKeepsNewest | src/util/csv_logger.h:59-63 | with a stalled worker the queue holds the newest 1024 lines in logging order |
| CsvLogging.CleanShutdownKeepsAll | src/util/csv_logger.h:68-73 | with a final drain, every queued line reaches the file after those already written |
| CsvLogging.CsvLogger.constructor | src/util/csv_logger.h:122-134 | starts as `Fresh()` with the header line |
| CsvLogging.CsvLogger.Init | src/util/csv_logger.h:27-50 | the new state is `InitStep` of the old |
| CsvLogging.CsvLogger.Log | src/util/csv_logger.h:53-66 | the new state is the old one with the built line logged |
| CsvLogging.CsvLogger.Enqueue | src/util/csv_logger.h:54-65 | the new state is `EnqueueStep` of the old |
| CsvLogging.CsvLogger.Drain | src/util/csv_logger.h:112-118 | its loop leaves the state `DrainStep` of the old |
| CsvLogging.CsvLogger.Shutdown | src/util/csv_logger.h:68-73 | the new state is `ShutdownStep` of the old |
| Text.AsciiLower | src/pipeline/image_sequence_source.cpp:16 | `tolower`: upper-case ASCII letters shift by 32, everything else is kept |
| Text.Lower | src/pipeline/image_sequence_source.cpp:16 | lower-cases every character, keeping the length |
| Text.LowerIdempotent | tools/drive_uploader.py:69 | lower-casing twice is lower-casing once |
| Text.Strip | tools/drive_uploader.py:69 | `str.strip`: the input with white space removed from both ends, that is an infix of the input preceded and followed only by white space, itself neither starting nor ending with white space; empty only for all-space text |
| Text.Split | tools/drive_uploader.py:69 | one more piece than separators, none holding the separator |
| Text.Join | src/util/csv_logger.h:91-104 | fields written one after another with a separator between them; specified by JoinSplit, SplitJoin and JoinFieldCount |
| Text.JoinSplit | tools/drive_uploader.py:69 | joining the pieces of a split gives the text back |
| Text.SplitJoin | src/util/csv_logger.h:91-104 | splitting a record joined from separator-free fields gives those fields back |
| Text.JoinFieldCount | src/util/csv_logger.h:91-104 | a record of n separator-free fields has n − 1 separators and splits into n fields |
| Text.NatText | src/util/csv_logger.h:91-92 | the decimal digits `operator<<` writes for a natural number: non-empty and all digits; read back by AtoiDigits |
| Text.IntText | src/util/csv_logger.h:91-92 | the decimal text of an integer is non-empty and holds no comma or newline |
| Text.Atoi | src/main.cpp:38-46 | C `atoi`: leading white space, an optional sign, then the longest digit prefix, 0 when there is none; specified by AtoiIntText, AtoiDigits, AtoiNegDigits and AtoiNoDigits |
| Text.AtoiIntText | src/util/csv_logger.h:91-92 | `atoi` reads back what `operator<<` writes for an integer |
| Text.AtoiDigits | src/main.cpp:38 | `atoi` of a digit string is its value |
| Text.AtoiNegDigits | src/main.cpp:38 | `atoi` of `-` and digits is minus their value |
| Text.AtoiNoDigits | src/main.cpp:38 | `atoi` of text not starting with a space, sign or digit is 0 |
| Text.FixedText | src/util/csv_logger.h:90 | fixed-point text: non-empty, only digits, a sign and a point |
| Text.FixedTextPlain | src/util/csv_logger.h:90 | fixed-point text holds no comma or newline |
| Sorting.Sort | src/pipeline/image_sequence_source.cpp:21 | a permutation of its input (its own clause), ordered under a total preorder by SortSorted; used for `std::sort` and the uploader's sort by mtime |
| Sorting.SortSorted | src/pipeline/image_sequence_source.cpp:21 | the sort yields an ordered permutation of its input under any total preorder |
| Sorting.LexLeTotalPreorder | src/pipeline/image_sequence_source.cpp:21 | string comparison is total and transitive |
| Sorting.SortStrings | src/pipeline/image_sequence_source.cpp:21 | sorted paths are in lexicographic order and a permutation of the input |
| FrameReassembly.BigEndian | streamer/streamer.py:201-203 | `int.from_bytes(..., 'big')` of k bytes is below 256^k |
| FrameReassembly.BigEndianOfEncoding | streamer/streamer.py:201-203 | decoding the k-byte encoding of n gives n |
| FrameReassembly.EncodingOfBigEndian | streamer/streamer.py:201-203 | encoding the value of k bytes gives those bytes |
| FrameReassembly.ParseDatagram | streamer/streamer.py:199-204 | rejected iff shorter than 12 bytes or not starting with `IMG0`; fields within their byte widths; the payload is the rest |
| FrameReassembly.EncodeChunk | streamer/streamer.py:199-204 | a sender's datagram: `IMG0`, then 8 header bytes, then the payload |
| FrameReassembly.ParseEncode | streamer/streamer.py:199-204 | every encodable chunk parses back to itself |
| FrameReassembly.EncodeParse | streamer/streamer.py:199-204 | every accepted datagram is exactly the encoding of what it parses to |
| FrameReassembly.AddChunk | streamer/streamer.py:205-208 | a new index is stored and its bytes counted; a repeated index changes nothing; the total is kept |
| FrameReassembly.Reassemble | streamer/streamer.py:209-214 | succeeds iff every index below the total is present, giving chunks 0..total-1 concatenated in order |
| FrameReassembly.CompleteIffIndicesInRange | streamer/streamer.py:209-213 | at count == total, reassembly succeeds iff no stored index is out of range |
| FrameReassembly.DropUpTo | streamer/streamer.py:216-218 | exactly the entries with id above the completed one remain, unchanged |
| FrameReassembly.Cleanup | streamer/streamer.py:226-228 | exactly the entries holding at least max(1, total // 2) chunks remain, unchanged |
| FrameReassembly.CleanupIdempotent | streamer/streamer.py:226-228 | cleaning twice is cleaning once |
| FrameReassembly.ZeroTotalEntryPersists | streamer/streamer.py:226-228 | an entry announced with total 0 survives cleanup |
| FrameReassembly.StoreChunk | streamer/streamer.py:205-208 | the first chunk of a frame creates its entry with its total; later chunks go through `AddChunk` |
| FrameReassembly.Accept | streamer/streamer.py:205-218 | a well-formed chunk is stored; the loop stops exactly when the completed entry's lookup fails; a frame is delivered exactly when every index is present; entries of later frames are untouched and a still-incomplete entry stays |
| FrameReassembly.ReceiveStep | streamer/streamer.py:197-222 | a malformed datagram, or a stopped loop, changes nothing |
| FrameReassembly.PendingPreserved | streamer/streamer.py:209-218 | while the loop runs no waiting entry has a count equal to its total |
| FrameReassembly.OutOfRangeIndexStops | streamer/streamer.py:211-222 | an entry completing with an out-of-range index ends the loop without delivering |
| FrameReassembly.DuplicateChunkIgnored | streamer/streamer.py:206-208 | a repeated chunk of a pending frame changes nothing |
| FrameReassembly.FirstChunkFixesTotal | streamer/streamer.py:205 | later chunks never change a frame's announced total |
| FrameReassembly.CompletionDelivers | streamer/streamer.py:209-218 | a chunk completing its frame with every index in range delivers the concatenation, keeps the loop running and leaves exactly the untouched entries with a higher id, whether or not the bytes equal the previous frame; a step that changes the latest frame removes the completed id and every lower one |
| FrameReassembly.MiddleChunkArrives | streamer/streamer.py:205-209 | a chunk before the last of its frame is only stored |
| FrameReassembly.LastChunkArrives | streamer/streamer.py:209-218 | the last chunk delivers the concatenation and removes the entry |
| FrameReassembly.CompletingChunk | streamer/streamer.py:209-218 | a chunk completing an in-range entry delivers its concatenation, and `partial` becomes the stored map without every id up to the completed one |
| FrameReassembly.FrameRoundTrip | streamer/streamer.py:197-218 | a frame's chunks sent in order to a running receiver come out as the frame, byte for byte |
| FrameReassembly.FrameReceiver.constructor | streamer/streamer.py:194 | empty `partial`, no frame yet, running |
| FrameReassembly.FrameReceiver.Receive | streamer/streamer.py:197-222 | the new state is `ReceiveStep` of the old |
| FrameReassembly.FrameReceiver.PeriodicCleanup | streamer/streamer.py:224-229 | `partial` becomes `Cleanup` of itself, nothing else changes |
| ImageSequence.FileName | src/pipeline/image_sequence_source.cpp:15 | the part of the path after its last '/' |
| ImageSequence.Extension | src/pipeline/image_sequence_source.cpp:15 | empty, or a '.' followed by text without '.' or '/' |
| ImageSequence.ExtensionOfPlainName | src/pipeline/image_sequence_source.cpp:15 | "dir/stem.ext" has extension ".ext" |
| ImageSequence.HiddenFileHasNoExtension | src/pipeline/image_sequence_source.cpp:15 | "dir/.name" has no extension |
| ImageSequence.KeptPaths | src/pipeline/image_sequence_source.cpp:13-20 | the kept paths are at most as many as the entries |
| ImageSequence.KeptPathsAppend | src/pipeline/image_sequence_source.cpp:13-20 | filtering a listing split in two gives the two filtered parts in turn, so listing order and repeats are kept |
| ImageSequence.KeptPathsOne | src/pipeline/image_sequence_source.cpp:16-18 | a single entry yields its path exactly when it is kept |
| ImageSequence.IsImage | src/pipeline/image_sequence_source.cpp:14-17 | a regular file whose lower-cased extension is one of the five; specified through ImagePathsExact |
| ImageSequence.ImagePaths | src/pipeline/image_sequence_source.cpp:13-20 | the listing's image paths in listing order; specified by ImagePathsExact, KeptPathsAppend and KeptPathsOne |
| ImageSequence.ImagePathsExact | src/pipeline/image_sequence_source.cpp:13-20 | a path is listed iff some regular-file entry with it has one of the five image extensions, in any case |
| ImageSequence.GrabStep | src/pipeline/image_sequence_source.cpp:28-36 | nothing happens before `open` or past the end; otherwise the current file is read and the cursor moves by one iff it decoded |
| ImageSequence.DeliveredInOrder | src/pipeline/image_sequence_source.cpp:28-36 | a run of grabs delivers the next files of the list in order, none skipped or repeated |
| ImageSequence.FailedDecodeRetriesSameFile | src/pipeline/image_sequence_source.cpp:30-31 | a failed decode leaves the cursor, so the same file is read next |
| ImageSequence.ImageSequenceSource.constructor | src/pipeline/image_sequence_source.cpp:8 | stores the directory, with an empty list, index 0, not started |
| ImageSequence.ImageSequenceSource.Open | src/pipeline/image_sequence_source.cpp:10-26 | started at index 0; a full listing leaves the image paths sorted and answers whether there are any; a listing that throws answers false |
| ImageSequence.ImageSequenceSource.Grab | src/pipeline/image_sequence_source.cpp:28-36 | answer and new cursor are those of `GrabStep` |
| ImageSequence.ImageSequenceSource.Close | src/pipeline/image_sequence_source.cpp:38-40 | empty list, index 0, not started |
| MainDriver.DefaultOptions | src/main.cpp:25-33 | the initial option values |
| MainDriver.OptionStep | src/main.cpp:36-48 | one scan step always advances; it skips a value exactly for a value flag that has an argument after it; an argument that is no known flag moves on by one and leaves the options unchanged |
| MainDriver.UnknownArgumentIgnored | src/main.cpp:35-49 | the scan skips an unrecognised argument without effect |
| MainDriver.ScanOptions | src/main.cpp:35-49 | the options after scanning from a position; specified by ParseArgs, LastValueFlagWins, LastRingPolicyWins, TrailingValueFlagIgnored, ValueFlagSwallowsNextFlag and UnknownArgumentIgnored |
| MainDriver.ParseArgs | src/main.cpp:35-49 | the loop's result is the scan of argv from position 1 |
| MainDriver.LastValueFlagWins | src/main.cpp:38-46 | a final value flag reached by the scan sets its option from its argument, whatever came before |
| MainDriver.LastRingPolicyWins | src/main.cpp:47-48 | the later of `--ring-drop-new` and `--ring-drop-oldest` decides the policy |
| MainDriver.TrailingValueFlagIgnored | src/main.cpp:38-46 | a value flag with no argument after it changes nothing |
| MainDriver.ValueFlagSwallowsNextFlag | src/main.cpp:38 | `--width --ring-drop-new` sets the width to 0 and keeps the drop-oldest policy |
| MainDriver.ScanSource | src/main.cpp:57-61 | the source and path after scanning from a position; specified by ParseSource and CameraByDefault |
| MainDriver.ParseSource | src/main.cpp:55-61 | the loop's result is the scan for `--source` and `--source-path` from position 1 |
| MainDriver.CameraByDefault | src/main.cpp:55-61 | without `--source` the source is the camera |
| MainDriver.ChooseSource | src/main.cpp:63-82 | succeeds iff the source opens and is the camera, or video or sequence with a path; every failure is -1; the source built carries the options and path |
| MainDriver.Grabbed | src/main.cpp:109-111 | only successful grabs yield frames |
| MainDriver.Capture | src/main.cpp:108-121 | every grabbed frame counts as captured or dropped; under drop-oldest none is dropped and the ring holds the newest frames; under reject-new the ring takes frames until full; the ring ends closed |
| MainDriver.EveryNth | src/main.cpp:129-130 | the frames handed to the tracker are no more than those popped |
| MainDriver.EveryNthPicks | src/main.cpp:129-130 | the j-th frame handed to the tracker is the ((j + 1) * n)-th popped, so in pop order exactly the k-th popped frames with k % n == 0 are processed |
| MainDriver.EveryNthCount | src/main.cpp:129-130 | out of m popped frames, m / n are processed |
| MainDriver.EveryFirstIsAll | src/main.cpp:129-130 | with `--process-every 1` every frame is processed |
| MainDriver.Processing | src/main.cpp:125-133 | pops until closed and empty (or the stop flag), in FIFO order, processing the k-th popped frame iff k % n == 0 |
| DriveUploader.LoadConfig | tools/drive_uploader.py:14-20 | fails iff the file is unreadable or either required key is missing; keeps every key and adds the default MIME map only when absent |
| DriveUploader.LoadConfigIdempotent | tools/drive_uploader.py:19 | loading a loaded configuration changes nothing |
| DriveUploader.ExtensionToken | tools/drive_uploader.py:69 | a blank token yields nothing, any other its stripped, lower-cased text |
| DriveUploader.ParseExtensions | tools/drive_uploader.py:69 | the set comprehension over the comma-split argument; specified by ExtensionsExact, which states membership for any list of tokens |
| DriveUploader.ExtensionsExact | tools/drive_uploader.py:69 | an extension is selected iff some token strips to non-blank text lower-casing to it; members are non-empty and lower-case |
| DriveUploader.Suffix | tools/drive_uploader.py:32 | `Path.suffix` as in CPython 3.12: empty, or '.' and at least one more character, without '/' or another '.' |
| DriveUploader.SuffixOfPlainName | tools/drive_uploader.py:32 | "dir/stem.ext" has suffix ".ext" |
| DriveUploader.TrailingDotNoSuffix | tools/drive_uploader.py:32 | under CPython 3.12, a name ending in '.' has no suffix |
| DriveUploader.StateFileSuffix | tools/drive_uploader.py:71 | the state file's suffix is ".json" |
| DriveUploader.IsCandidate | tools/drive_uploader.py:32 | a regular file whose lower-cased suffix is selected; specified through ListCandidatesExact |
| DriveUploader.ListCandidates | tools/drive_uploader.py:29-34 | only regular files with a selected lower-cased suffix, at most as many as the entries |
| DriveUploader.ListCandidatesAppend | tools/drive_uploader.py:29-34 | listing a walk split in two gives the two listings in turn, so walk order and repeats are kept |
| DriveUploader.ListCandidatesOne | tools/drive_uploader.py:31-33 | a single entry is listed exactly when it is a candidate |
| DriveUploader.ListCandidatesExact | tools/drive_uploader.py:29-34 | a file is a candidate iff it is listed, regular and its lower-cased suffix is selected |
| DriveUploader.LoadState | tools/drive_uploader.py:37-43 | the parsed object when the file exists and parses, `{}` otherwise |
| DriveUploader.MimeFor | tools/drive_uploader.py:94 | the override for the lower-cased suffix, else octet-stream |
| DriveUploader.CsvNotDefault | tools/drive_uploader.py:19 | the default MIME map has no ".csv" key |
| DriveUploader.CsvIsOctetStream | tools/drive_uploader.py:94 | under the default map a .csv file goes up as octet-stream |
| DriveUploader.JpgIsJpeg | tools/drive_uploader.py:94 | under the default map a .jpg file, in any case, goes up as image/jpeg |
| DriveUploader.MtimeLeTotalPreorder | tools/drive_uploader.py:85 | ordering by mtime is a total preorder |
| DriveUploader.PassOrder | tools/drive_uploader.py:84-85 | the candidates sorted by mtime; specified by PassOrderSorted and used by PollPass |
| DriveUploader.PassOrderSorted | tools/drive_uploader.py:84-85 | a pass visits every candidate once, in ascending mtime |
| DriveUploader.Due | tools/drive_uploader.py:87-93 | a file is uploaded when its path is not recorded and it is at least 0.5 s old; specified through VisitStep, UploadedFileSkipped and YoungFileWaits |
| DriveUploader.VisitStep | tools/drive_uploader.py:86-101 | skips recorded or young files; otherwise attempts with the looked-up MIME type, records in memory only when the upload returned an id, and writes the state file only when that `save_state` succeeds |
| DriveUploader.UnsavedUploadSkipped | tools/drive_uploader.py:95-101 | an upload whose `save_state` raises stays recorded in memory but not on disk, and later visits skip the file |
| DriveUploader.Pass | tools/drive_uploader.py:86-101 | a pass only appends attempts |
| DriveUploader.PassAttemptCount | tools/drive_uploader.py:86-101 | each visited file adds at most one attempt |
| DriveUploader.PassKeepsRecords | tools/drive_uploader.py:86-101 | a pass never forgets or rewrites a recorded upload |
| DriveUploader.PassRecordsUploads | tools/drive_uploader.py:95-98 | a path is recorded only after an attempt of it returned an id |
| DriveUploader.PassAttemptsDue | tools/drive_uploader.py:87-94 | every attempt is of a listed file that was not recorded, with its MIME type |
| DriveUploader.PassAttemptsSorted | tools/drive_uploader.py:85-96 | over sorted files, attempts come in ascending mtime |
| DriveUploader.UploadedFileSkipped | tools/drive_uploader.py:88-89 | a recorded file is skipped |
| DriveUploader.FailedUploadRetried | tools/drive_uploader.py:100-101 | a failed upload leaves the state, and the next old-enough visit tries again |
| DriveUploader.YoungFileWaits | tools/drive_uploader.py:91-93 | a file younger than 0.5 s is left for a later pass |
| DriveUploader.Uploader.constructor | tools/drive_uploader.py:68-72 | the MIME map from the configuration and the state from `load_state` |
| DriveUploader.Uploader.VisitFile | tools/drive_uploader.py:86-101 | the new state is `VisitStep` of the old |
| DriveUploader.Uploader.PollPass | tools/drive_uploader.py:84-101 | its loop leaves the state `Pass` of the old over the candidates in mtime order |

## Left out

- Threads and locks: every `RingBuffer` and `CsvLogger` call is one atomic step. The worker's drain is a step of its own (`DrainStep`). `main`'s capture and processing threads run one after the other: capture until stopped, then processing.
- Handoff.RingBuffer.Pop: the blocking wait becomes the precondition `closed || items != []`.
- CsvLogging.ShutdownStep: whether the worker drains once more before it sees `running_` false depends on thread timing, so it is a parameter.
- Marker detection, `boundingRect`, optical flow, GPU transfers and image decoding: their answers are step inputs (`StepInput`, `decodeOk`, `grabs`).
- Single-precision rounding: positions, velocities and times are exact reals.
- Text formatting of floating-point values: `Text.FixedText` rounds the exact real half up. The metrics record is a structured JSON value, not its text at two decimals.
- Text.FixedText: the contract states only the character class of the text (non-empty; digits, a sign and a point). It does not state which value the digits spell, because no parser of fixed-point text is part of the model.
- Drawing, display, key handling and the JPEG snapshot write: whether the snapshot block finishes without an exception is the input `liveWriteOk`. The source ignores the `bool` that `cv::imwrite` returns, so a write that returns false still moves the stamp.
- `send_metrics_udp` and `save_frame_and_metrics`: the step returns the metrics record instead.
- The GStreamer, V4L2, Argus and video-file sources: their `open` results are an input of `ChooseSource`.
- The Flask server, the MJPEG generator, the dashboard and the UDP metrics receiver are not modelled.
- FrameReassembly.ReceiveStep: socket timeouts are not modelled. Of the errors that end the loop, only the failed chunk lookup is.
- FrameReassembly: the five-second clock is replaced by an explicit cleanup step. The `bytes` counter is kept but nothing reads it.
- ArucoTracking.Step: `frame_count_` is an unbounded count; the overflow of the source's `int` after 2^31 frames is not modelled.
- MainDriver.Processing: the pop counter `total` is unbounded. The source's `std::atomic<int> total_frames` wraps after 2^31 − 1 pops to negative values, after which `tf % process_every == 0` selects a shifted set of frames for any n > 1 that does not divide 2^32. That wrap-around is not modelled.
- ArucoTrackingProperties.CadenceFromStart: the cadence is stated over any explicit run of trackers linked by `Step`.
- MainDriver: `atoi` is exact on unbounded integers; a value beyond `int` (undefined in C) is not modelled.
- MainDriver.Processing: a `--process-every` of 0 is a division by zero in the source and is excluded.
- MainDriver.Processing: the stop flag and the `q` key are an iteration budget, and the once-per-second FPS report is not modelled.
- MainDriver.Capture: `captured` and `dropped` are totals over the whole capture. The source's `cap_fps_cnt` and `dropped_cnt` are reset to 0 each second by the report (src/main.cpp:139-141), and that reset is not modelled, so the source never holds the total `captured + dropped`.
- MainDriver.Capture: the grab outcomes up to the moment the stop flag is seen are an input.
- ImageSequence: directory iteration order and a listing that throws are inputs. The frame timestamp from the clock is not modelled.
- Text.Lower: lower-cases ASCII only; Python's Unicode `str.lower` on other letters is not modelled.
- Text.Strip: strips ASCII white space only.
- DriveUploader: the Drive client, credentials, glob, stat, sleep, `KeyboardInterrupt` and the exit when the output directory is missing are not modelled.
- DriveUploader: `save_state`'s temporary file and rename become the `saved` field, the last state written. Whether it raises is the input `saveOk`.
- DriveUploader.LoadState: the state is always a JSON object. A state file holding other JSON is not modelled. In the source, a list or a string makes `state[sp] = …` raise inside the upload's `try` after every upload, so each pass uploads the file again. A number, `true`, `false` or `null` makes the test `sp in state` raise outside every handler, so the uploader exits at the first candidate of its first pass, before any upload.
- DriveUploader.Suffix: follows CPython 3.12's `PurePath.suffix`. Later Python versions that count a single trailing dot as a suffix are not modelled.
- MainDriver.ParseSource: `gst_init` (src/main.cpp:52) may remove GStreamer's own options from argv before the `--source` scan. The model scans the original argv.
- DriveUploader.Uploader.constructor: requires `mime_overrides` to be a JSON object. A configuration that holds another value there makes the source fail at its first lookup, and that failure is not modelled.
- DriveUploader.PassOrderSorted: states an ordered permutation; the stable order of files with equal mtimes is not stated.
- DriveUploader.ParseExtensions: the default argument `.jpg,.json,.csv` is a constant; its parsed set is not proved.
- CsvLogging: the output directory (`ARUCO_OUT_DIR`, `create_directories`) and the file path are not modelled; whether metrics.csv existed and whether it opened are inputs.
