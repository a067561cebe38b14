/**
 * `ImageSequenceSource` (src/pipeline/image_sequence_source.cpp): a frame
 * source that lists a directory once, keeps the image files in sorted order
 * and hands them out one per successful `grab`. The directory listing, the
 * image decoder and the clock are inputs.
 */
module ImageSequence {
  import opened Wrappers
  import opened Uint
  import opened Text
  import opened Sorting

  /** One entry of the directory listing: its full path and whether it is a regular file. */
  datatype DirEntry = DirEntry(path: string, isRegularFile: bool)

  /** What iterating the directory yields: every entry, or the entries seen before the iteration threw. */
  datatype Listing = Listed(entries: seq<DirEntry>) | Throws(seen: seq<DirEntry>)

  const IMAGE_EXTENSIONS: set<string> := {".jpg", ".jpeg", ".png", ".bmp", ".tif"}

  /** Index of the last occurrence of `c` in `s`, if any. */
  function LastIndexOf(s: string, c: char): (r: Option<nat>)
    ensures r.Some? ==> r.value < |s| && s[r.value] == c && c !in s[r.value + 1..]
    ensures r.None? ==> c !in s
  {
    if s == [] then None
    else if s[|s| - 1] == c then Some(|s| - 1)
    else
      var r := LastIndexOf(s[..|s| - 1], c);
      assert s == s[..|s| - 1] + [s[|s| - 1]];
      r
  }

  /** The last path component: everything after the last '/'. */
  function FileName(path: string): (name: string)
    ensures '/' !in name
    ensures |name| <= |path| && name == path[|path| - |name|..]
  {
    match LastIndexOf(path, '/')
    case None => path
    case Some(i) => path[i + 1..]
  }

  /**
   * `path.extension()`: from the last '.' of the file name, except that
   * "." and "..", names without a dot and names whose only dot is the
   * leading one have none.
   */
  function Extension(path: string): (ext: string)
    ensures ext == [] || (ext[0] == '.' && '/' !in ext && '.' !in ext[1..])
  {
    var name := FileName(path);
    if name == "." || name == ".." then ""
    else match LastIndexOf(name, '.')
      case None => ""
      case Some(i) => if i == 0 then "" else name[i..]
  }

  lemma {:induction false} LastIndexOfAppend(a: string, b: string, c: char)
    requires c !in b
    ensures LastIndexOf(a + b, c) == LastIndexOf(a, c)
    decreases |b|
  {
    if b == [] {
      assert a + b == a;
    } else {
      var ab := a + b;
      assert ab[|ab| - 1] == b[|b| - 1] != c;
      assert LastIndexOf(ab, c) == LastIndexOf(ab[..|ab| - 1], c);
      assert ab[..|ab| - 1] == a + b[..|b| - 1];
      assert c !in b[..|b| - 1] by {
        assert b == b[..|b| - 1] + [b[|b| - 1]];
      }
      LastIndexOfAppend(a, b[..|b| - 1], c);
    }
  }

  lemma LastIndexOfEnd(x: string, c: char)
    ensures LastIndexOf(x + [c], c) == Some(|x|)
  {
    assert (x + [c])[|x + [c]| - 1] == c;
  }

  /** The file name of "dir/name" is `name` when it has no '/'. */
  lemma FileNameAfterSlash(dir: string, name: string)
    requires '/' !in name
    ensures FileName(dir + "/" + name) == name
  {
    var path := dir + "/" + name;
    assert path == (dir + ['/']) + name;
    LastIndexOfAppend(dir + ['/'], name, '/');
    LastIndexOfEnd(dir, '/');
    assert path[|dir| + 1..] == name;
  }

  /** A path "dir/stem.ext" with a plain stem has extension ".ext". */
  lemma ExtensionOfPlainName(dir: string, stem: string, ext: string)
    requires stem != [] && '/' !in stem && '.' !in stem
    requires ext != [] && ext[0] == '.' && '/' !in ext && '.' !in ext[1..]
    ensures Extension(dir + "/" + stem + ext) == ext
  {
    var name := stem + ext;
    var path := dir + "/" + stem + ext;
    assert path == dir + "/" + name;
    NameOfPlainName(dir, stem, ext);
    LastDotOfPlainName(stem, ext);
    ExtensionAt(path, name, |stem|);
  }

  /** The file name of "dir/stem.ext" is "stem.ext" when neither part holds a '/'. */
  lemma NameOfPlainName(dir: string, stem: string, ext: string)
    requires '/' !in stem && '/' !in ext
    ensures FileName(dir + "/" + (stem + ext)) == stem + ext
  {
    assert '/' !in stem + ext;
    FileNameAfterSlash(dir, stem + ext);
  }

  /** In "stem.ext" with no other dot, the last dot is the one after the stem. */
  lemma LastDotOfPlainName(stem: string, ext: string)
    requires '.' !in stem && |ext| >= 1 && ext[0] == '.' && '.' !in ext[1..]
    ensures LastIndexOf(stem + ext, '.') == Some(|stem|)
    ensures (stem + ext)[|stem|..] == ext
  {
    assert stem + ext == (stem + ['.']) + ext[1..];
    LastIndexOfAppend(stem + ['.'], ext[1..], '.');
    LastIndexOfEnd(stem, '.');
  }

  lemma ExtensionAt(path: string, name: string, i: nat)
    requires FileName(path) == name && LastIndexOf(name, '.') == Some(i) && 0 < i && name[0] != '.'
    ensures Extension(path) == name[i..]
  {
    assert |name| >= 2;
  }

  /** A hidden file "dir/.name" whose name has no other dot has no extension. */
  lemma HiddenFileHasNoExtension(dir: string, name: string)
    requires '/' !in name && '.' !in name
    ensures Extension(dir + "/." + name) == ""
  {
    var file := ['.'] + name;
    assert '/' !in file;
    assert dir + "/." + name == dir + "/" + file;
    FileNameAfterSlash(dir, file);
    LastIndexOfAppend([] + ['.'], name, '.');
    LastIndexOfEnd([], '.');
  }

  /** Regular files whose lower-cased extension is one of the five image extensions. */
  predicate IsImage(e: DirEntry)
  {
    e.isRegularFile && Lower(Extension(e.path)) in IMAGE_EXTENSIONS
  }

  /** The paths of the entries `keep` accepts, in listing order. */
  function KeptPaths(entries: seq<DirEntry>, keep: DirEntry -> bool): (r: seq<string>)
    ensures |r| <= |entries|
  {
    if entries == [] then []
    else KeptPaths(entries[..|entries| - 1], keep)
         + (if keep(entries[|entries| - 1]) then [entries[|entries| - 1].path] else [])
  }

  /**
   * The filter keeps the listing's order and multiplicity: a listing split in
   * two keeps each part in turn; with `KeptPathsOne`, each entry is kept
   * alone or dropped.
   */
  lemma {:induction false} KeptPathsAppend(a: seq<DirEntry>, b: seq<DirEntry>, keep: DirEntry -> bool)
    ensures KeptPaths(a + b, keep) == KeptPaths(a, keep) + KeptPaths(b, keep)
    decreases |b|
  {
    if b == [] {
      assert a + b == a;
    } else {
      var n := |b| - 1;
      KeptPathsAppend(a, b[..n], keep);
      assert (a + b)[..|a + b| - 1] == a + b[..n];
      assert (a + b)[|a + b| - 1] == b[n];
    }
  }

  lemma KeptPathsOne(e: DirEntry, keep: DirEntry -> bool)
    ensures KeptPaths([e], keep) == if keep(e) then [e.path] else []
  {
    assert [e][..0] == [];
  }

  lemma KeptPathsSnoc(entries: seq<DirEntry>, i: nat, keep: DirEntry -> bool)
    requires i < |entries|
    ensures KeptPaths(entries[..i + 1], keep) ==
      KeptPaths(entries[..i], keep) + (if keep(entries[i]) then [entries[i].path] else [])
  {
    assert entries[..i + 1][..i] == entries[..i];
  }

  lemma {:induction false} KeptPathWitness(entries: seq<DirEntry>, keep: DirEntry -> bool, p: string) returns (i: nat)
    requires p in KeptPaths(entries, keep)
    ensures i < |entries| && keep(entries[i]) && entries[i].path == p
  {
    var n := |entries| - 1;
    assert entries[..n + 1] == entries;
    KeptPathsSnoc(entries, n, keep);
    if keep(entries[n]) && entries[n].path == p {
      i := n;
    } else {
      i := KeptPathWitness(entries[..n], keep, p);
      assert entries[..n][i] == entries[i];
    }
  }

  lemma {:induction false} KeptPathIncluded(entries: seq<DirEntry>, keep: DirEntry -> bool, i: nat)
    requires i < |entries| && keep(entries[i])
    ensures entries[i].path in KeptPaths(entries, keep)
  {
    var n := |entries| - 1;
    if i < n {
      assert entries[i].path in KeptPaths(entries[..n], keep) by {
        assert entries[..n][i] == entries[i];
        KeptPathIncluded(entries[..n], keep, i);
      }
    }
    assert entries[..n + 1] == entries;
    KeptPathsSnoc(entries, n, keep);
  }

  /** The paths the listing loop keeps, in listing order. */
  function ImagePaths(entries: seq<DirEntry>): seq<string>
  {
    KeptPaths(entries, IsImage)
  }

  /** A path is kept exactly when some entry with that path is an image. */
  lemma ImagePathsExact(entries: seq<DirEntry>, p: string)
    ensures p in ImagePaths(entries) <==> exists i :: 0 <= i < |entries| && IsImage(entries[i]) && entries[i].path == p
  {
    if p in ImagePaths(entries) {
      var i := KeptPathWitness(entries, IsImage, p);
    }
    if exists i :: 0 <= i < |entries| && IsImage(entries[i]) && entries[i].path == p {
      var i :| 0 <= i < |entries| && IsImage(entries[i]) && entries[i].path == p;
      KeptPathIncluded(entries, IsImage, i);
    }
  }

  /** The state the three operations share: `files_`, `idx_`, `started_`. */
  datatype Cursor = Cursor(files: seq<string>, idx: nat, started: bool)

  datatype GrabResult = GrabResult(next: Cursor, ok: bool, read: Option<string>)

  /**
   * `grab`: nothing happens before `open` or past the end; otherwise the
   * current file is read, and the cursor advances only if it decoded.
   */
  function GrabStep(c: Cursor, decodeOk: bool): (g: GrabResult)
    ensures !c.started || c.idx >= |c.files| ==> g == GrabResult(c, false, None)
    ensures c.started && c.idx < |c.files| ==> g.read == Some(c.files[c.idx]) && g.ok == decodeOk
    ensures g.next.files == c.files && g.next.started == c.started
    ensures g.next.idx == c.idx + (if g.ok then 1 else 0)
  {
    if !c.started || c.idx >= |c.files| then GrabResult(c, false, None)
    else if !decodeOk then GrabResult(c, false, Some(c.files[c.idx]))
    else GrabResult(c.(idx := c.idx + 1), true, Some(c.files[c.idx]))
  }

  /** The files delivered by a run of `grab` calls, given whether each decode succeeds. */
  function Delivered(c: Cursor, decodes: seq<bool>): seq<string>
    decreases |decodes|
  {
    if decodes == [] then []
    else
      var g := GrabStep(c, decodes[0]);
      (if g.ok then [g.read.value] else []) + Delivered(g.next, decodes[1..])
  }

  /**
   * Whatever the decoder does, the frames come out in list order from the
   * cursor on: no file is skipped and none is delivered twice.
   */
  lemma {:induction false} DeliveredInOrder(c: Cursor, decodes: seq<bool>)
    requires c.idx <= |c.files|
    ensures var d := Delivered(c, decodes); c.idx + |d| <= |c.files| && d == c.files[c.idx..c.idx + |d|]
    decreases |decodes|
  {
    if decodes != [] {
      var g := GrabStep(c, decodes[0]);
      DeliveredInOrder(g.next, decodes[1..]);
      var rest := Delivered(g.next, decodes[1..]);
      if g.ok {
        assert c.files[c.idx..c.idx + 1 + |rest|] == [c.files[c.idx]] + c.files[c.idx + 1..c.idx + 1 + |rest|];
      }
    }
  }

  /** A failed decode is retried on the same file. */
  lemma FailedDecodeRetriesSameFile(c: Cursor)
    requires c.started && c.idx < |c.files|
    ensures GrabStep(c, false).next == c
    ensures GrabStep(GrabStep(c, false).next, true).read == GrabStep(c, false).read
  {
  }

  class ImageSequenceSource {
    const dir: string
    var files: seq<string>
    var idx: nat
    var started: bool

    function Model(): Cursor
      reads this
    {
      Cursor(files, idx, started)
    }

    constructor (dir: string)
      ensures this.dir == dir && Model() == Cursor([], 0, false)
    {
      this.dir := dir;
      files := [];
      idx := 0;
      started := false;
    }

    /**
     * `open`: a complete listing leaves the image paths sorted; a listing
     * that throws leaves the paths collected so far, unsorted, and fails.
     */
    method Open(listing: Listing) returns (ok: bool)
      modifies this
      ensures started && idx == 0
      ensures listing.Listed? ==>
        && SortedBy(files, LexLe) && multiset(files) == multiset(ImagePaths(listing.entries))
        && (ok <==> files != [])
      ensures listing.Throws? ==> files == ImagePaths(listing.seen) && !ok
    {
      files, idx, started := [], 0, true;
      var entries := if listing.Listed? then listing.entries else listing.seen;
      var i := 0;
      while i < |entries|
        invariant 0 <= i <= |entries|
        invariant files == ImagePaths(entries[..i])
        invariant started && idx == 0
      {
        KeptPathsSnoc(entries, i, IsImage);
        if IsImage(entries[i]) {
          files := files + [entries[i].path];
        }
        i := i + 1;
      }
      assert entries[..i] == entries;
      if listing.Throws? {
        return false;
      }
      SortStrings(files);
      files := Sort(files, LexLe);
      ok := files != [];
    }

    method Grab(decodeOk: bool) returns (ok: bool, read: Option<string>)
      modifies this
      ensures GrabResult(Model(), ok, read) == GrabStep(old(Model()), decodeOk)
    {
      if !started || idx >= |files| {
        return false, None;
      }
      read := Some(files[idx]);
      if !decodeOk {
        return false, read;
      }
      idx := idx + 1;
      ok := true;
    }

    method Close()
      modifies this
      ensures Model() == Cursor([], 0, false)
    {
      files, idx, started := [], 0, false;
    }
  }
}
