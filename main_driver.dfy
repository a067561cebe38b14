/**
 * The driver in src/main.cpp: the two scans of the command line, the choice
 * of frame source, and the capture and processing loops joined by the ring
 * buffer. The two loops are modelled one after the other (capture until
 * stopped, then processing), the signal handler's flag as an iteration
 * budget, and the camera and file sources' `open` results as inputs.
 */
module MainDriver {
  import opened Wrappers
  import opened Text
  import opened Handoff

  /** The option variables and their initial values. */
  datatype Options = Options(
    display: bool, width: int, height: int, framerate: int, ioMode: int,
    queueSize: int, maxBuffers: int, processEvery: int, reuseBuffer: bool,
    ringSize: int, ringDropOldest: bool)

  function DefaultOptions(): (o: Options)
    ensures !o.display && o.width == 640 && o.height == 480 && o.framerate == 110 && o.ioMode == 0
    ensures o.queueSize == 8 && o.maxBuffers == 8 && o.processEvery == 1 && !o.reuseBuffer
    ensures o.ringSize == 8 && o.ringDropOldest
  {
    Options(false, 640, 480, 110, 0, 8, 8, 1, false, 8, true)
  }

  /** The flags that take a value. */
  const VALUE_FLAGS: set<string> :=
    {"--width", "--height", "--framerate", "--io-mode", "--queue", "--max-buffers", "--process-every", "--ring-size"}

  /** The flags that take no value. */
  const BOOL_FLAGS: set<string> := {"--display", "-d", "--reuse-buffer", "--ring-drop-oldest", "--ring-drop-new"}

  /** Applying one value flag. */
  function SetValue(o: Options, flag: string, v: string): Options
  {
    var n := Atoi(v);
    if flag == "--width" then o.(width := n)
    else if flag == "--height" then o.(height := n)
    else if flag == "--framerate" then o.(framerate := n)
    else if flag == "--io-mode" then o.(ioMode := n)
    else if flag == "--queue" then o.(queueSize := n)
    else if flag == "--max-buffers" then o.(maxBuffers := n)
    else if flag == "--process-every" then o.(processEvery := n)
    else if flag == "--ring-size" then o.(ringSize := n)
    else o
  }

  /** One turn of the first scan at position `i`: the next position and the updated options. */
  function OptionStep(argv: seq<string>, i: nat, o: Options): (r: (nat, Options))
    requires i < |argv|
    ensures i < r.0 <= |argv|
    ensures r.0 == i + 2 <==> argv[i] in VALUE_FLAGS && i + 1 < |argv|
    ensures argv[i] !in VALUE_FLAGS && argv[i] !in BOOL_FLAGS ==> r == (i + 1, o)
  {
    var a := argv[i];
    if a == "--display" || a == "-d" then (i + 1, o.(display := true))
    else if a in VALUE_FLAGS && i + 1 < |argv| then (i + 2, SetValue(o, a, argv[i + 1]))
    else if a == "--reuse-buffer" then (i + 1, o.(reuseBuffer := true))
    else if a == "--ring-drop-oldest" then (i + 1, o.(ringDropOldest := true))
    else if a == "--ring-drop-new" then (i + 1, o.(ringDropOldest := false))
    else (i + 1, o)
  }

  /** The options after scanning `argv` from position `i`. */
  function ScanOptions(argv: seq<string>, i: nat, o: Options): Options
    decreases |argv| - i
  {
    if i >= |argv| then o
    else
      var (j, o') := OptionStep(argv, i, o);
      ScanOptions(argv, j, o')
  }

  /** An argument that is no known flag, and not the value of one, is skipped without effect. */
  lemma UnknownArgumentIgnored(argv: seq<string>, i: nat, o: Options)
    requires i < |argv| && argv[i] !in VALUE_FLAGS && argv[i] !in BOOL_FLAGS
    ensures ScanOptions(argv, i, o) == ScanOptions(argv, i + 1, o)
  {
  }

  /** The first scan of main, from argv[1]. */
  method ParseArgs(argv: seq<string>) returns (o: Options)
    ensures o == ScanOptions(argv, 1, DefaultOptions())
  {
    o := DefaultOptions();
    var i := 1;
    while i < |argv|
      invariant i >= 1
      invariant ScanOptions(argv, i, o) == ScanOptions(argv, 1, DefaultOptions())
      decreases |argv| - i
    {
      var a := argv[i];
      if a == "--display" || a == "-d" {
        o := o.(display := true);
      } else if a in VALUE_FLAGS && i + 1 < |argv| {
        i := i + 1;
        o := SetValue(o, a, argv[i]);
      } else if a == "--reuse-buffer" {
        o := o.(reuseBuffer := true);
      } else if a == "--ring-drop-oldest" {
        o := o.(ringDropOldest := true);
      } else if a == "--ring-drop-new" {
        o := o.(ringDropOldest := false);
      }
      i := i + 1;
    }
  }

  /** Whether the scan of `argv` from `i` treats position `k` as an option (rather than skipping it as a value). */
  predicate Reaches(argv: seq<string>, i: nat, k: nat)
    decreases |argv| - i
  {
    i == k || (i < k && i < |argv| && Reaches(argv, OptionStep(argv, i, DefaultOptions()).0, k))
  }

  /** The options in force when the scan from `i` arrives at position `k`. */
  function ScanUntil(argv: seq<string>, i: nat, k: nat, o: Options): Options
    requires Reaches(argv, i, k)
    decreases |argv| - i
  {
    if i == k then o
    else
      var (j, o') := OptionStep(argv, i, o);
      ScanUntil(argv, j, k, o')
  }

  lemma OptionStepIndex(argv: seq<string>, i: nat, o: Options, o2: Options)
    requires i < |argv|
    ensures OptionStep(argv, i, o).0 == OptionStep(argv, i, o2).0
  {
  }

  lemma {:induction false} ScanThrough(argv: seq<string>, i: nat, k: nat, o: Options)
    requires Reaches(argv, i, k)
    ensures ScanOptions(argv, i, o) == ScanOptions(argv, k, ScanUntil(argv, i, k, o))
    decreases |argv| - i
  {
    if i != k {
      OptionStepIndex(argv, i, o, DefaultOptions());
      var (j, o') := OptionStep(argv, i, o);
      ScanThrough(argv, j, k, o');
    }
  }

  /**
   * When the scan reaches a trailing `--width v`, the width is `atoi(v)`,
   * whatever earlier occurrences set: the last occurrence wins.
   */
  lemma LastValueFlagWins(argv: seq<string>, flag: string, v: string)
    requires flag in VALUE_FLAGS && Reaches(argv + [flag, v], 1, |argv|)
    ensures var o := ScanOptions(argv + [flag, v], 1, DefaultOptions());
      o == SetValue(ScanUntil(argv + [flag, v], 1, |argv|, DefaultOptions()), flag, v)
  {
    var s := argv + [flag, v];
    ScanThrough(s, 1, |argv|, DefaultOptions());
    assert s[|argv|] == flag && s[|argv| + 1] == v;
  }

  /** Of `--ring-drop-new` and `--ring-drop-oldest`, the later one decides. */
  lemma LastRingPolicyWins(argv: seq<string>, flag: string)
    requires flag == "--ring-drop-new" || flag == "--ring-drop-oldest"
    requires Reaches(argv + [flag], 1, |argv|)
    ensures ScanOptions(argv + [flag], 1, DefaultOptions()).ringDropOldest == (flag == "--ring-drop-oldest")
  {
    var s := argv + [flag];
    ScanThrough(s, 1, |argv|, DefaultOptions());
    assert s[|argv|] == flag;
    RingPolicyStep(s, |argv|, ScanUntil(s, 1, |argv|, DefaultOptions()));
  }

  lemma RingPolicyStep(s: seq<string>, k: nat, o: Options)
    requires k < |s| && (s[k] == "--ring-drop-new" || s[k] == "--ring-drop-oldest")
    ensures OptionStep(s, k, o) == (k + 1, o.(ringDropOldest := s[k] == "--ring-drop-oldest"))
  {
    assert s[k] !in VALUE_FLAGS;
  }

  /** A value flag with nothing after it is ignored. */
  lemma TrailingValueFlagIgnored(argv: seq<string>, flag: string)
    requires flag in VALUE_FLAGS && Reaches(argv + [flag], 1, |argv|)
    ensures ScanOptions(argv + [flag], 1, DefaultOptions()) == ScanUntil(argv + [flag], 1, |argv|, DefaultOptions())
  {
    var s := argv + [flag];
    ScanThrough(s, 1, |argv|, DefaultOptions());
    var o := ScanUntil(s, 1, |argv|, DefaultOptions());
    assert s[|argv|] == flag;
    LoneValueFlag(s, |argv|, o);
  }

  lemma LoneValueFlag(s: seq<string>, k: nat, o: Options)
    requires k + 1 == |s| && s[k] in VALUE_FLAGS
    ensures OptionStep(s, k, o) == (|s|, o)
  {
  }

  /**
   * A value flag takes the next argument even when that is another flag:
   * `--width --ring-drop-new` sets the width to atoi("--ring-drop-new") = 0
   * and leaves the drop policy alone.
   */
  lemma ValueFlagSwallowsNextFlag()
    ensures var o := ScanOptions(["prog", "--width", "--ring-drop-new"], 1, DefaultOptions());
      o.width == 0 && o.ringDropOldest
  {
    var argv := ["prog", "--width", "--ring-drop-new"];
    assert "--width" in VALUE_FLAGS;
    var v := "--ring-drop-new";
    assert OptionStep(argv, 1, DefaultOptions()) == (3, DefaultOptions().(width := Atoi(v))) by {
      assert argv[1] == "--width" && argv[2] == v;
    }
    assert Atoi(v) == 0 by {
      assert v[0] == '-' && v[1] == '-';
      assert SkipCSpace(v) == v;
      assert LeadingDigits(v[1..]) == [];
    }
  }

  /** The second scan: `--source` and `--source-path`, last occurrence winning. */
  function ScanSource(argv: seq<string>, i: nat, source: string, path: string): (string, string)
    decreases |argv| - i
  {
    if i >= |argv| then (source, path)
    else if argv[i] == "--source" && i + 1 < |argv| then ScanSource(argv, i + 2, argv[i + 1], path)
    else if argv[i] == "--source-path" && i + 1 < |argv| then ScanSource(argv, i + 2, source, argv[i + 1])
    else ScanSource(argv, i + 1, source, path)
  }

  method ParseSource(argv: seq<string>) returns (source: string, path: string)
    ensures (source, path) == ScanSource(argv, 1, "camera", "")
  {
    source, path := "camera", "";
    var i := 1;
    while i < |argv|
      invariant i >= 1
      invariant ScanSource(argv, i, source, path) == ScanSource(argv, 1, "camera", "")
      decreases |argv| - i
    {
      if argv[i] == "--source" && i + 1 < |argv| {
        i := i + 1;
        source := argv[i];
      } else if argv[i] == "--source-path" && i + 1 < |argv| {
        i := i + 1;
        path := argv[i];
      }
      i := i + 1;
    }
  }

  /** The frame source main builds, with the arguments it passes. */
  datatype SourceKind =
    | Camera(width: int, height: int, framerate: int, ioMode: int, queueSize: int, maxBuffers: int, reuseBuffer: bool)
    | VideoFile(path: string)
    | ImageSequence(path: string)

  /**
   * The source choice; `openOk` is what the chosen source's `open` answers.
   * Every failure is the exit status -1.
   */
  function ChooseSource(o: Options, source: string, path: string, openOk: bool): (r: Result<SourceKind, int>)
    ensures r.Err? ==> r.error == -1
    ensures r.Ok? <==> openOk && (source == "camera" || ((source == "video" || source == "sequence") && path != []))
    ensures r.Ok? && source == "camera" ==> r.value == Camera(o.width, o.height, o.framerate, o.ioMode, o.queueSize, o.maxBuffers, o.reuseBuffer)
    ensures r.Ok? && source == "video" ==> r.value == VideoFile(path)
    ensures r.Ok? && source == "sequence" ==> r.value == ImageSequence(path)
  {
    if source == "camera" then
      if openOk then Ok(Camera(o.width, o.height, o.framerate, o.ioMode, o.queueSize, o.maxBuffers, o.reuseBuffer)) else Err(-1)
    else if source == "video" then
      if path == [] || !openOk then Err(-1) else Ok(VideoFile(path))
    else if source == "sequence" then
      if path == [] || !openOk then Err(-1) else Ok(ImageSequence(path))
    else Err(-1)
  }

  /** With no `--source` at all the camera is used. */
  lemma CameraByDefault(argv: seq<string>, path: string)
    requires forall k :: 1 <= k < |argv| ==> argv[k] != "--source"
    ensures ScanSource(argv, 1, "camera", path).0 == "camera"
  {
    SourceUntouched(argv, 1, "camera", path);
  }

  lemma {:induction false} SourceUntouched(argv: seq<string>, i: nat, source: string, path: string)
    requires i >= 1 && forall k :: 1 <= k < |argv| ==> argv[k] != "--source"
    ensures ScanSource(argv, i, source, path).0 == source
    decreases |argv| - i
  {
    if i < |argv| {
      if argv[i] == "--source-path" && i + 1 < |argv| {
        SourceUntouched(argv, i + 2, source, argv[i + 1]);
      } else {
        SourceUntouched(argv, i + 1, source, path);
      }
    }
  }

  /** The frames the capture loop obtains, in order: the successful grabs. */
  function Grabbed<T>(grabs: seq<Option<T>>): (r: seq<T>)
    ensures |r| <= |grabs|
  {
    if grabs == [] then []
    else Grabbed(grabs[..|grabs| - 1]) + (if grabs[|grabs| - 1].Some? then [grabs[|grabs| - 1].value] else [])
  }

  function Min(a: int, b: int): int { if a <= b then a else b }

  /**
   * The capture thread: every grab that fails is retried, every grabbed
   * frame is pushed and counted as captured or dropped, and the ring is
   * closed when the loop ends. `grabs` are the grab outcomes until the
   * stop flag is seen.
   */
  method Capture<T>(ring: RingBuffer<T>, grabs: seq<Option<T>>) returns (captured: nat, dropped: nat)
    requires ring.Valid() && !ring.closed
    modifies ring
    ensures ring.Valid() && ring.closed
    ensures captured + dropped == |Grabbed(grabs)|
    ensures ring.dropOldest ==> dropped == 0 && ring.items == LastN(old(ring.items) + Grabbed(grabs), ring.capacity)
    ensures !ring.dropOldest ==>
      && captured == Min(|Grabbed(grabs)|, ring.capacity - |old(ring.items)|)
      && ring.items == old(ring.items) + Grabbed(grabs)[..captured]
  {
    captured, dropped := 0, 0;
    var i := 0;
    while i < |grabs|
      invariant 0 <= i <= |grabs|
      invariant ring.Valid() && !ring.closed
      invariant captured + dropped == |Grabbed(grabs[..i])|
      invariant ring.dropOldest ==> dropped == 0 && ring.items == LastN(old(ring.items) + Grabbed(grabs[..i]), ring.capacity)
      invariant !ring.dropOldest ==>
        && captured == Min(|Grabbed(grabs[..i])|, ring.capacity - |old(ring.items)|)
        && captured <= |Grabbed(grabs[..i])|
        && ring.items == old(ring.items) + Grabbed(grabs[..i])[..captured]
    {
      assert grabs[..i + 1][..i] == grabs[..i];
      var g := grabs[i];
      if g.Some? {
        ghost var before := Grabbed(grabs[..i]);
        assert Grabbed(grabs[..i + 1]) == before + [g.value];
        var ok := ring.Push(g.value);
        if ok {
          captured := captured + 1;
        } else {
          dropped := dropped + 1;
        }
        if ring.dropOldest {
          LastNAppend(old(ring.items) + before, g.value, ring.capacity);
          assert old(ring.items) + before + [g.value] == old(ring.items) + (before + [g.value]);
        } else {
          assert (before + [g.value])[..captured] == if ok then before[..captured - 1] + [g.value] else before[..captured];
        }
      } else {
        assert Grabbed(grabs[..i + 1]) == Grabbed(grabs[..i]);
      }
      i := i + 1;
    }
    assert grabs[..i] == grabs;
    ring.Close();
  }

  /** The frames, out of the k-th popped for k = 1, 2, ..., on which `process` runs: those with k % n == 0. */
  function EveryNth<T>(s: seq<T>, n: int): (r: seq<T>)
    requires n != 0
    ensures |r| <= |s|
  {
    if s == [] then []
    else EveryNth(s[..|s| - 1], n) + (if |s| % n == 0 then [s[|s| - 1]] else [])
  }

  lemma DivStep(m: nat, n: nat)
    requires m >= 1 && n >= 1
    ensures m / n == (m - 1) / n + (if m % n == 0 then 1 else 0)
  {
    var q, r := (m - 1) / n, (m - 1) % n;
    var qn := q * n;
    assert m - 1 == qn + r && 0 <= r < n;
    if r + 1 == n {
      assert m == (q + 1) * n by { assert (q + 1) * n == qn + n; }
      DivUnique(m, n, q + 1, 0);
    } else {
      DivUnique(m, n, q, r + 1);
    }
  }

  lemma DivUnique(m: nat, n: nat, q: int, r: int)
    requires n >= 1 && m == q * n + r && 0 <= r < n
    ensures m / n == q && m % n == r
  {
    var q', r' := m / n, m % n;
    assert m == q' * n + r' && 0 <= r' < n;
    MulGap(q', q, n);
    MulGap(q, q', n);
  }

  lemma MulGap(a: int, b: int, n: nat)
    ensures a > b ==> a * n >= b * n + n
  {
    if a > b {
      var k := a - b - 1;
      assert a * n == b * n + n + k * n;
    }
  }

  /** Out of m frames, `process` runs on exactly m / n of them. */
  lemma {:induction false} EveryNthCount<T>(s: seq<T>, n: nat)
    requires n >= 1
    ensures |EveryNth(s, n)| == |s| / n
  {
    if s != [] {
      EveryNthCount(s[..|s| - 1], n);
      DivStep(|s|, n);
    }
  }

  /**
   * Which frames are processed: for every j, the j-th processed frame (from
   * 0) is the ((j + 1) * n)-th popped; with the m / n of `EveryNthCount`,
   * exactly the k-th popped frames with k % n == 0 are handed on, in the
   * order popped.
   */
  lemma {:induction false} EveryNthPicks<T>(s: seq<T>, n: nat, j: nat)
    requires n >= 1 && j < |EveryNth(s, n)|
    ensures (j + 1) * n <= |s| && EveryNth(s, n)[j] == s[(j + 1) * n - 1]
  {
    var m := |s|;
    var s' := s[..m - 1];
    var e' := EveryNth(s', n);
    assert EveryNth(s, n) == e' + (if m % n == 0 then [s[m - 1]] else []);
    if j < |e'| {
      EveryNthPicks(s', n, j);
      assert EveryNth(s, n)[j] == e'[j];
    } else {
      EveryNthCount(s', n);
      LastPick(m, n, j);
    }
  }

  /** The frame appended when the m-th pop is a multiple of n sits at position m / n - 1. */
  lemma LastPick(m: nat, n: nat, j: nat)
    requires m >= 1 && n >= 1 && m % n == 0 && j == (m - 1) / n
    ensures (j + 1) * n == m
  {
    DivStep(m, n);
    ExactMultiple(m, n);
  }

  lemma ExactMultiple(m: nat, n: nat)
    requires n >= 1 && m % n == 0
    ensures (m / n) * n == m
  {
  }

  /** With `--process-every 1` every frame is processed. */
  lemma {:induction false} EveryFirstIsAll<T>(s: seq<T>)
    ensures EveryNth(s, 1) == s
  {
    if s != [] {
      EveryFirstIsAll(s[..|s| - 1]);
      assert s == s[..|s| - 1] + [s[|s| - 1]];
    }
  }

  /**
   * The processing loop after capture has stopped: it pops until the ring is
   * empty, or until `budget` frames were taken (the stop flag), counting the
   * frames and handing every `processEvery`-th to the tracker.
   */
  method Processing<T>(ring: RingBuffer<T>, processEvery: int, budget: nat, blank: T)
    returns (processed: seq<T>, total: nat)
    requires ring.Valid() && ring.closed && processEvery != 0
    modifies ring
    ensures ring.Valid() && ring.closed
    ensures total == Min(budget, |old(ring.items)|)
    ensures processed == EveryNth(old(ring.items)[..total], processEvery)
    ensures ring.items == old(ring.items)[total..]
  {
    processed, total := [], 0;
    ghost var all := ring.items;
    while total < budget
      invariant ring.Valid() && ring.closed
      invariant total <= |all| && total <= budget
      invariant ring.items == all[total..]
      invariant processed == EveryNth(all[..total], processEvery)
      decreases budget - total
    {
      var ok, it := ring.Pop(blank);
      if !ok {
        break;
      }
      assert it == all[total];
      assert all[..total + 1][..total] == all[..total];
      total := total + 1;
      if total % processEvery == 0 {
        processed := processed + [it];
      }
    }
  }
}
