/**
 * The Drive uploader in tools/drive_uploader.py: its configuration, the
 * extension set, the candidate filter, the upload-state file and one pass of
 * the polling loop. The directory walk, the clock, the Drive client and the
 * JSON parser are inputs: a pass receives the listing with each file's
 * modification time, and for each visited file the clock reading and what
 * the upload returned.
 */
module DriveUploader {
  import opened Wrappers
  import opened Text
  import opened Sorting
  import opened ImageSequence

  /** The JSON values the configuration and the state file hold. */
  datatype JsonValue =
    | JStr(s: string)
    | JInt(i: int)
    | JObject(fields: map<string, JsonValue>)
    | JOther

  type JsonObject = map<string, JsonValue>

  /** The MIME map `load_config` installs when the configuration has none. */
  const DEFAULT_MIME: JsonObject := map[".json" := JStr("application/json"), ".jpg" := JStr("image/jpeg")]
  const OCTET_STREAM: string := "application/octet-stream"
  const DEFAULT_EXTENSIONS: string := ".jpg,.json,.csv"
  /** Files younger than this many seconds are left for a later pass. */
  const MIN_AGE: real := 0.5
  const STATE_FILE: string := ".upload_state.json"

  datatype ConfigError = Unreadable | MissingKeys

  /**
   * `load_config`: `parsed` is the configuration file as read by `json.load`
   * (None when that raises). Both keys are required; `mime_overrides` gets
   * the default map only when absent.
   */
  function LoadConfig(parsed: Option<JsonObject>): (r: Result<JsonObject, ConfigError>)
    ensures parsed.None? ==> r == Err(Unreadable)
    ensures parsed.Some? ==> (r.Ok? <==> "service_account" in parsed.value && "folder_id" in parsed.value)
    ensures r.Err? && parsed.Some? ==> r.error == MissingKeys
    ensures r.Ok? ==> r.value.Keys == parsed.value.Keys + {"mime_overrides"}
    ensures r.Ok? ==> forall k :: k in parsed.value ==> r.value[k] == parsed.value[k]
    ensures r.Ok? && "mime_overrides" !in parsed.value ==> r.value["mime_overrides"] == JObject(DEFAULT_MIME)
  {
    match parsed
    case None => Err(Unreadable)
    case Some(cfg) =>
      if "service_account" !in cfg || "folder_id" !in cfg then Err(MissingKeys)
      else if "mime_overrides" in cfg then Ok(cfg)
      else Ok(cfg["mime_overrides" := JObject(DEFAULT_MIME)])
  }

  /** Loading an already loaded configuration changes nothing (`setdefault` is idempotent). */
  lemma LoadConfigIdempotent(parsed: Option<JsonObject>)
    requires LoadConfig(parsed).Ok?
    ensures LoadConfig(Some(LoadConfig(parsed).value)) == LoadConfig(parsed)
  {
  }

  /** Whether a comma-separated token contributes `x`: it is not blank and strips and lower-cases to `x`. */
  predicate Yields(token: string, x: string)
  {
    Strip(token) != [] && x == Lower(Strip(token))
  }

  /** What one token contributes: nothing when blank, else its stripped, lower-cased text. */
  function ExtensionToken(token: string): (r: Option<string>)
    ensures r.Some? <==> Strip(token) != []
    ensures r.Some? ==> r.value == Lower(Strip(token))
  {
    var t := Strip(token);
    if t == [] then None else Some(Lower(t))
  }

  /** The values `f` gives the elements of `parts`. */
  function Collect(parts: seq<string>, f: string -> Option<string>): set<string>
  {
    if parts == [] then {}
    else
      var last := f(parts[|parts| - 1]);
      Collect(parts[..|parts| - 1], f) + (if last.Some? then {last.value} else {})
  }

  /** The `--extensions` argument turned into the set of suffixes to upload. */
  function ParseExtensions(arg: string): set<string>
  {
    Collect(Split(arg, ','), ExtensionToken)
  }

  lemma {:induction false} CollectWitness(parts: seq<string>, f: string -> Option<string>, x: string) returns (k: nat)
    requires x in Collect(parts, f)
    ensures k < |parts| && f(parts[k]) == Some(x)
  {
    var n := |parts| - 1;
    if f(parts[n]) == Some(x) {
      k := n;
    } else {
      k := CollectWitness(parts[..n], f, x);
      assert parts[..n][k] == parts[k];
    }
  }

  lemma {:induction false} CollectIncludes(parts: seq<string>, f: string -> Option<string>, k: nat)
    requires k < |parts| && f(parts[k]).Some?
    ensures f(parts[k]).value in Collect(parts, f)
  {
    var n := |parts| - 1;
    if k < n {
      assert parts[..n][k] == parts[k];
      CollectIncludes(parts[..n], f, k);
    }
  }

  /**
   * An extension is in the set built from the comma-separated tokens
   * `parts` exactly when some token strips to a non-blank text that
   * lower-cases to it; every member is non-empty and already lower-case.
   */
  lemma ExtensionsExact(parts: seq<string>, x: string)
    ensures x in Collect(parts, ExtensionToken) <==> exists k :: 0 <= k < |parts| && Yields(parts[k], x)
    ensures x in Collect(parts, ExtensionToken) ==> x != [] && Lower(x) == x
  {
    if x in Collect(parts, ExtensionToken) {
      var k := CollectWitness(parts, ExtensionToken, x);
      assert Yields(parts[k], x) && x != [] && Lower(x) == x by {
        LowerIdempotent(Strip(parts[k]));
      }
    }
    if exists k :: 0 <= k < |parts| && Yields(parts[k], x) {
      var k :| 0 <= k < |parts| && Yields(parts[k], x);
      CollectIncludes(parts, ExtensionToken, k);
    }
  }

  /**
   * `Path.suffix` as in CPython 3.12: the file name from its last '.',
   * provided that dot is neither the first nor the last character of the name.
   * (Later Python versions may treat a single trailing dot differently.)
   */
  function Suffix(path: string): (r: string)
    ensures r == [] || (|r| >= 2 && r[0] == '.' && '/' !in r && '.' !in r[1..])
  {
    var name := FileName(path);
    match LastIndexOf(name, '.')
    case None => ""
    case Some(i) => if 0 < i < |name| - 1 then name[i..] else ""
  }

  /** Under CPython 3.12's rule a name ending in '.' has no suffix (where `path.extension()` in C++ gives "."). */
  lemma TrailingDotNoSuffix(dir: string, stem: string)
    requires '/' !in stem
    ensures Suffix(dir + "/" + stem + ".") == ""
  {
    var name := stem + ".";
    assert dir + "/" + stem + "." == dir + "/" + name;
    FileNameAfterSlash(dir, name);
    LastIndexOfEnd(stem, '.');
  }

  /** The uploader's own state file has suffix ".json", so it is a candidate whenever ".json" is selected. */
  lemma StateFileSuffix(dir: string)
    ensures Suffix(dir + "/" + STATE_FILE) == ".json"
  {
    var stem := ".upload_state";
    var name := STATE_FILE;
    assert '/' !in name;
    FileNameAfterSlash(dir, name);
    assert name == (stem + ['.']) + "json";
    LastIndexOfAppend(stem + ['.'], "json", '.');
    LastIndexOfEnd(stem, '.');
    assert name[|stem|..] == ".json";
  }

  /** What the walk reports of one path: whether it is a regular file and its modification time. */
  datatype FileStat = FileStat(path: string, isFile: bool, mtime: real)

  predicate IsCandidate(f: FileStat, exts: set<string>)
  {
    f.isFile && Lower(Suffix(f.path)) in exts
  }

  /** `list_candidates`: the regular files with a selected suffix, in walk order. */
  function ListCandidates(entries: seq<FileStat>, exts: set<string>): (r: seq<FileStat>)
    ensures |r| <= |entries|
    ensures forall k :: 0 <= k < |r| ==> IsCandidate(r[k], exts)
  {
    if entries == [] then []
    else
      var last := entries[|entries| - 1];
      ListCandidates(entries[..|entries| - 1], exts) + (if IsCandidate(last, exts) then [last] else [])
  }

  /**
   * The filter keeps the walk's order and multiplicity: listing a walk split
   * in two lists each part in turn; with `ListCandidatesOne`, each entry is
   * kept alone or dropped.
   */
  lemma {:induction false} ListCandidatesAppend(a: seq<FileStat>, b: seq<FileStat>, exts: set<string>)
    ensures ListCandidates(a + b, exts) == ListCandidates(a, exts) + ListCandidates(b, exts)
    decreases |b|
  {
    if b == [] {
      assert a + b == a;
    } else {
      var n := |b| - 1;
      ListCandidatesAppend(a, b[..n], exts);
      ListCandidatesSnoc(a + b[..n], b[n], exts);
      ListCandidatesSnoc(b[..n], b[n], exts);
      ConcatAssoc(a, b[..n], [b[n]]);
      ConcatAssoc(ListCandidates(a, exts), ListCandidates(b[..n], exts), if IsCandidate(b[n], exts) then [b[n]] else []);
      InitLast(b);
    }
  }

  lemma ConcatAssoc<T>(x: seq<T>, y: seq<T>, z: seq<T>)
    ensures (x + y) + z == x + (y + z)
  {
  }

  lemma InitLast<T>(b: seq<T>)
    requires b != []
    ensures b[..|b| - 1] + [b[|b| - 1]] == b
  {
  }

  lemma ListCandidatesSnoc(a: seq<FileStat>, x: FileStat, exts: set<string>)
    ensures ListCandidates(a + [x], exts) == ListCandidates(a, exts) + (if IsCandidate(x, exts) then [x] else [])
  {
    assert (a + [x])[..|a|] == a;
  }

  lemma ListCandidatesOne(f: FileStat, exts: set<string>)
    ensures ListCandidates([f], exts) == if IsCandidate(f, exts) then [f] else []
  {
    assert [f][..0] == [];
  }

  lemma {:induction false} ListCandidatesExact(entries: seq<FileStat>, exts: set<string>, f: FileStat)
    ensures f in ListCandidates(entries, exts) <==> f in entries && IsCandidate(f, exts)
  {
    if entries != [] {
      var init := entries[..|entries| - 1];
      ListCandidatesExact(init, exts, f);
      assert entries == init + [entries[|entries| - 1]];
    }
  }

  /**
   * `load_state`: the state file's object when the file exists and parses
   * (`parsed`), the empty map otherwise.
   */
  function LoadState(fileExists: bool, parsed: Option<JsonObject>): (r: JsonObject)
    ensures !fileExists ==> r == map[]
    ensures parsed.None? ==> r == map[]
    ensures fileExists && parsed.Some? ==> r == parsed.value
  {
    if fileExists && parsed.Some? then parsed.value else map[]
  }

  /** The MIME type for a path: the override for its lower-cased suffix, else octet-stream. */
  function MimeFor(overrides: JsonObject, path: string): (r: JsonValue)
    ensures Lower(Suffix(path)) in overrides ==> r == overrides[Lower(Suffix(path))]
    ensures Lower(Suffix(path)) !in overrides ==> r == JStr(OCTET_STREAM)
  {
    var ext := Lower(Suffix(path));
    if ext in overrides then overrides[ext] else JStr(OCTET_STREAM)
  }

  /** Under the default map a .csv file goes up as octet-stream. */
  lemma CsvIsOctetStream(path: string)
    requires Lower(Suffix(path)) == ".csv"
    ensures MimeFor(DEFAULT_MIME, path) == JStr(OCTET_STREAM)
  {
    CsvNotDefault();
  }

  /** ".csv" is not a key of the default MIME map. */
  lemma CsvNotDefault()
    ensures ".csv" !in DEFAULT_MIME
  {
    assert DEFAULT_MIME.Keys == {".json", ".jpg"};
    assert ".csv"[1] != ".json"[1] && ".csv"[1] != ".jpg"[1];
  }

  /** Under the default map a .jpg file, whatever the case of its suffix, goes up as image/jpeg. */
  lemma JpgIsJpeg(path: string)
    requires Lower(Suffix(path)) == ".jpg"
    ensures MimeFor(DEFAULT_MIME, path) == JStr("image/jpeg")
  {
  }

  /** A path "dir/stem.ext" with a plain stem has suffix ".ext". */
  lemma SuffixOfPlainName(dir: string, stem: string, ext: string)
    requires stem != [] && '/' !in stem && '.' !in stem
    requires |ext| >= 2 && ext[0] == '.' && '/' !in ext && '.' !in ext[1..]
    ensures Suffix(dir + "/" + stem + ext) == ext
  {
    var name := stem + ext;
    var path := dir + "/" + stem + ext;
    assert path == dir + "/" + name;
    NameOfPlainName(dir, stem, ext);
    LastDotOfPlainName(stem, ext);
    SuffixAt(path, name, |stem|);
  }

  lemma SuffixAt(path: string, name: string, i: nat)
    requires FileName(path) == name && LastIndexOf(name, '.') == Some(i) && 0 < i < |name| - 1
    ensures Suffix(path) == name[i..]
  {
  }

  /** Ascending modification time, the key of the pass's sort. */
  predicate MtimeLe(a: FileStat, b: FileStat)
  {
    a.mtime <= b.mtime
  }

  lemma MtimeLeTotalPreorder()
    ensures TotalPreorder(MtimeLe)
  {
  }

  /** The order in which a pass visits files. */
  function PassOrder(entries: seq<FileStat>, exts: set<string>): seq<FileStat>
  {
    Sort(ListCandidates(entries, exts), MtimeLe)
  }

  /** A pass visits every candidate once, in ascending modification time. */
  lemma PassOrderSorted(entries: seq<FileStat>, exts: set<string>)
    ensures SortedBy(PassOrder(entries, exts), MtimeLe)
    ensures multiset(PassOrder(entries, exts)) == multiset(ListCandidates(entries, exts))
  {
    MtimeLeTotalPreorder();
    SortSorted(ListCandidates(entries, exts), MtimeLe);
  }

  /**
   * What happens around one visited file: the clock reading for the age
   * check, the id Drive returns (None when the upload raises), the
   * whole-second clock reading stored with it, and whether `save_state`
   * then writes the state file (false when it raises).
   */
  datatype Visit = Visit(now: real, upload: Option<string>, stamp: int, saveOk: bool)

  /** An upload attempt: the file, its MIME type and the id it got, if any. */
  datatype Attempt = Attempt(file: FileStat, mime: JsonValue, id: Option<string>)

  /**
   * The state map, the attempts made, and the last state written to the
   * state file (None while this process has written none and none was read).
   */
  datatype PassState = PassState(state: JsonObject, attempts: seq<Attempt>, saved: Option<JsonObject>)

  function Record(id: string, stamp: int): JsonValue
  {
    JObject(map["id" := JStr(id), "ts" := JInt(stamp)])
  }

  /** Whether a pass uploads `f`: not yet recorded and at least half a second old. */
  predicate Due(state: JsonObject, f: FileStat, v: Visit)
  {
    f.path !in state && v.now - f.mtime >= MIN_AGE
  }

  /** One turn of the pass loop. */
  function VisitStep(p: PassState, f: FileStat, v: Visit, overrides: JsonObject): (r: PassState)
    ensures !Due(p.state, f, v) ==> r == p
    ensures Due(p.state, f, v) ==> r.attempts == p.attempts + [Attempt(f, MimeFor(overrides, f.path), v.upload)]
    ensures Due(p.state, f, v) && v.upload.None? ==> r.state == p.state && r.saved == p.saved
    ensures Due(p.state, f, v) && v.upload.Some? ==> r.state == p.state[f.path := Record(v.upload.value, v.stamp)]
    ensures Due(p.state, f, v) && v.upload.Some? && v.saveOk ==> r.saved == Some(r.state)
    ensures Due(p.state, f, v) && v.upload.Some? && !v.saveOk ==> r.saved == p.saved
  {
    if !Due(p.state, f, v) then p
    else
      var a := Attempt(f, MimeFor(overrides, f.path), v.upload);
      match v.upload
      case None => p.(attempts := p.attempts + [a])
      case Some(id) =>
        var st := p.state[f.path := Record(id, v.stamp)];
        PassState(st, p.attempts + [a], if v.saveOk then Some(st) else p.saved)
  }

  /** The loop over `files` with one `Visit` each. */
  function Pass(p: PassState, files: seq<FileStat>, visits: seq<Visit>, overrides: JsonObject): (r: PassState)
    requires |visits| == |files|
    ensures |p.attempts| <= |r.attempts| && r.attempts[..|p.attempts|] == p.attempts
  {
    if files == [] then p
    else
      var n := |files| - 1;
      VisitStep(Pass(p, files[..n], visits[..n], overrides), files[n], visits[n], overrides)
  }

  /** Each visited file adds at most one attempt. */
  lemma {:induction false} PassAttemptCount(p: PassState, files: seq<FileStat>, visits: seq<Visit>, overrides: JsonObject)
    requires |visits| == |files|
    ensures |Pass(p, files, visits, overrides).attempts| <= |p.attempts| + |files|
  {
    if files != [] {
      var n := |files| - 1;
      PassAttemptCount(p, files[..n], visits[..n], overrides);
    }
  }

  /** A pass never forgets or rewrites a recorded upload. */
  lemma {:induction false} PassKeepsRecords(p: PassState, files: seq<FileStat>, visits: seq<Visit>, overrides: JsonObject, k: string)
    requires |visits| == |files| && k in p.state
    ensures k in Pass(p, files, visits, overrides).state
    ensures Pass(p, files, visits, overrides).state[k] == p.state[k]
  {
    if files != [] {
      var n := |files| - 1;
      PassKeepsRecords(p, files[..n], visits[..n], overrides, k);
    }
  }

  /** A pass records a path only after an upload of that file returned an id. */
  lemma {:induction false} PassRecordsUploads(p: PassState, files: seq<FileStat>, visits: seq<Visit>, overrides: JsonObject, k: string)
    returns (j: nat)
    requires |visits| == |files|
    requires k in Pass(p, files, visits, overrides).state && k !in p.state
    ensures var r := Pass(p, files, visits, overrides);
      |p.attempts| <= j < |r.attempts| && r.attempts[j].file.path == k && r.attempts[j].id.Some?
  {
    var n := |files| - 1;
    var q := Pass(p, files[..n], visits[..n], overrides);
    var r := Pass(p, files, visits, overrides);
    if k in q.state {
      j := PassRecordsUploads(p, files[..n], visits[..n], overrides, k);
      assert r.attempts[..|q.attempts|] == q.attempts;
      assert r.attempts[j] == q.attempts[j];
    } else {
      j := |q.attempts|;
    }
  }

  /** Every attempt of a pass is of a file that was due when visited, with its MIME type. */
  lemma {:induction false} PassAttemptsDue(p: PassState, files: seq<FileStat>, visits: seq<Visit>, overrides: JsonObject, j: nat)
    requires |visits| == |files|
    requires |p.attempts| <= j < |Pass(p, files, visits, overrides).attempts|
    ensures var a := Pass(p, files, visits, overrides).attempts[j];
      && a.file in files
      && a.file.path !in p.state
      && a.mime == MimeFor(overrides, a.file.path)
  {
    var n := |files| - 1;
    var q := Pass(p, files[..n], visits[..n], overrides);
    if j < |q.attempts| {
      PassAttemptsDue(p, files[..n], visits[..n], overrides, j);
      assert Pass(p, files, visits, overrides).attempts[j] == q.attempts[j];
    } else {
      assert files[n] in files;
      if files[n].path in p.state {
        PassKeepsRecords(p, files[..n], visits[..n], overrides, files[n].path);
      }
    }
  }

  /** The pass over the first i + 1 files is one more turn after the pass over the first i. */
  lemma PassSnoc(p: PassState, files: seq<FileStat>, visits: seq<Visit>, overrides: JsonObject, i: nat)
    requires |visits| == |files| && i < |files|
    ensures Pass(p, files[..i + 1], visits[..i + 1], overrides) ==
      VisitStep(Pass(p, files[..i], visits[..i], overrides), files[i], visits[i], overrides)
  {
    assert files[..i + 1][..i] == files[..i] && visits[..i + 1][..i] == visits[..i];
  }

  /** The last file of a pass adds at most one attempt, and that attempt is of the last file. */
  lemma LastVisitAttempt(p: PassState, files: seq<FileStat>, visits: seq<Visit>, overrides: JsonObject)
    requires |visits| == |files| && files != []
    ensures var n := |files| - 1;
      var q := Pass(p, files[..n], visits[..n], overrides);
      var r := Pass(p, files, visits, overrides);
      && r.attempts[..|q.attempts|] == q.attempts
      && |r.attempts| <= |q.attempts| + 1
      && (|r.attempts| == |q.attempts| + 1 ==> r.attempts[|q.attempts|].file == files[n])
  {
  }

  /** Attempts follow the visiting order, so a pass over sorted files uploads oldest first. */
  lemma {:induction false} PassAttemptsSorted(p: PassState, files: seq<FileStat>, visits: seq<Visit>, overrides: JsonObject, i: nat, j: nat)
    requires |visits| == |files| && SortedBy(files, MtimeLe)
    requires |p.attempts| <= i < j < |Pass(p, files, visits, overrides).attempts|
    ensures var r := Pass(p, files, visits, overrides);
      r.attempts[i].file.mtime <= r.attempts[j].file.mtime
  {
    var n := |files| - 1;
    var q := Pass(p, files[..n], visits[..n], overrides);
    var r := Pass(p, files, visits, overrides);
    assert r.attempts[..|q.attempts|] == q.attempts && |r.attempts| <= |q.attempts| + 1
      && (|r.attempts| == |q.attempts| + 1 ==> r.attempts[|q.attempts|].file == files[n]) by {
      LastVisitAttempt(p, files, visits, overrides);
    }
    assert r.attempts[i] == q.attempts[i];
    if j < |q.attempts| {
      assert r.attempts[j] == q.attempts[j];
      assert SortedBy(files[..n], MtimeLe);
      PassAttemptsSorted(p, files[..n], visits[..n], overrides, i, j);
    } else {
      assert q.attempts[i].file in files[..n] by {
        PassAttemptsDue(p, files[..n], visits[..n], overrides, i);
      }
      MtimeBeforeLast(files, q.attempts[i].file);
    }
  }

  /** In a list sorted by age, every earlier file is at least as old as the last one. */
  lemma MtimeBeforeLast(files: seq<FileStat>, x: FileStat)
    requires SortedBy(files, MtimeLe) && files != [] && x in files[..|files| - 1]
    ensures x.mtime <= files[|files| - 1].mtime
  {
    var m :| 0 <= m < |files| - 1 && files[m] == x;
    assert MtimeLe(files[m], files[|files| - 1]);
  }


  /** A recorded file is skipped for good: visiting it again attempts nothing. */
  lemma UploadedFileSkipped(p: PassState, f: FileStat, v: Visit, overrides: JsonObject)
    requires f.path in p.state
    ensures VisitStep(p, f, v, overrides) == p
  {
  }

  /**
   * A failed upload leaves the file unrecorded, so the next visit that finds
   * it old enough tries it again.
   */
  lemma FailedUploadRetried(p: PassState, f: FileStat, v: Visit, v2: Visit, overrides: JsonObject)
    requires Due(p.state, f, v) && v.upload.None? && v2.now - f.mtime >= MIN_AGE
    ensures var q := VisitStep(p, f, v, overrides);
      && q.state == p.state
      && |VisitStep(q, f, v2, overrides).attempts| == |q.attempts| + 1
  {
  }

  /**
   * An upload whose `save_state` raises is reported as failed, yet the file
   * stays recorded in memory, so later passes skip it while the state file
   * on disk still lacks it.
   */
  lemma UnsavedUploadSkipped(p: PassState, f: FileStat, v: Visit, v2: Visit, overrides: JsonObject)
    requires Due(p.state, f, v) && v.upload.Some? && !v.saveOk
    ensures var q := VisitStep(p, f, v, overrides);
      && f.path in q.state && q.saved == p.saved
      && VisitStep(q, f, v2, overrides) == q
  {
  }

  /** A file younger than half a second is left alone in this pass. */
  lemma YoungFileWaits(p: PassState, f: FileStat, v: Visit, overrides: JsonObject)
    requires v.now - f.mtime < MIN_AGE
    ensures VisitStep(p, f, v, overrides) == p
  {
  }

  /** The uploader's running state: the `state` map, the attempts so far and the state file's content. */
  class Uploader {
    var state: JsonObject
    var attempts: seq<Attempt>
    var saved: Option<JsonObject>
    const overrides: JsonObject

    function Model(): PassState
      reads this
    {
      PassState(state, attempts, saved)
    }

    /**
     * Start-up after `load_config`: the MIME map comes from the loaded
     * configuration and the state from `load_state`.
     */
    constructor(cfg: JsonObject, stateExists: bool, parsedState: Option<JsonObject>)
      requires "mime_overrides" in cfg && cfg["mime_overrides"].JObject?
      ensures overrides == cfg["mime_overrides"].fields
      ensures state == LoadState(stateExists, parsedState) && attempts == []
      ensures saved == (if stateExists then parsedState else None)
    {
      overrides := cfg["mime_overrides"].fields;
      state := LoadState(stateExists, parsedState);
      attempts := [];
      saved := if stateExists then parsedState else None;
    }

    /** One turn of the pass loop: skip, or upload and record on success. */
    method VisitFile(f: FileStat, v: Visit)
      modifies this
      ensures Model() == VisitStep(old(Model()), f, v, overrides)
    {
      if f.path !in state && v.now - f.mtime >= MIN_AGE {
        var mime := MimeFor(overrides, f.path);
        attempts := attempts + [Attempt(f, mime, v.upload)];
        if v.upload.Some? {
          state := state[f.path := Record(v.upload.value, v.stamp)];
          if v.saveOk {
            saved := Some(state);
          }
        }
      }
    }

    /** One iteration of the outer loop: list, sort by age, and visit every candidate. */
    method PollPass(entries: seq<FileStat>, exts: set<string>, visits: seq<Visit>)
      requires |visits| == |PassOrder(entries, exts)|
      modifies this
      ensures Model() == Pass(old(Model()), PassOrder(entries, exts), visits, overrides)
    {
      var files := PassOrder(entries, exts);
      ghost var p0 := Model();
      var i := 0;
      while i < |files|
        invariant 0 <= i <= |files|
        invariant Model() == Pass(p0, files[..i], visits[..i], overrides)
      {
        PassSnoc(p0, files, visits, overrides, i);
        VisitFile(files[i], visits[i]);
        i := i + 1;
      }
      assert files[..i] == files && visits[..i] == visits;
    }
  }
}
