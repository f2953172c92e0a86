/**
 * The batch H.264 converter: the output naming (same directory, stem plus `_h264`, always `.mp4`),
 * the skip of files already converted, the GPU-then-CPU fallback, and the directory pass that
 * collects the video files of five extensions, removes duplicates, sorts them and counts the
 * conversions that succeed. Paths follow POSIX `os.path`; ffmpeg's outcome for each encoder is an
 * input, and whether a path exists is an input too.
 */
module VideoConverter {
  import opened Wrappers
  import opened Strings

  /** Appended to the stem of a converted file. */
  const Suffix := "_h264"

  /** `os.path.split` on a POSIX path: everything after the last `/`, and the directory before it. */
  function PathSplit(p: string): (r: (string, string))
    ensures r.1 == p[LastIndexOf(p, '/') + 1..]
    ensures '/' !in r.1
  {
    var i := LastIndexOf(p, '/') + 1;
    assert i == 0 ==> p[i..] == p;
    var head := p[..i];
    (if AllSlashes(head) then head else TrimSlashes(head), p[i..])
  }

  /** Whether a path is made of slashes only (the root keeps its slashes). */
  predicate AllSlashes(s: string) {
    forall k :: 0 <= k < |s| ==> s[k] == '/'
  }

  /** `rstrip('/')`. */
  function TrimSlashes(s: string): (r: string)
    ensures |r| <= |s| && r == s[..|r|]
    ensures r == [] || r[|r| - 1] != '/'
  {
    if s != [] && s[|s| - 1] == '/' then TrimSlashes(s[..|s| - 1]) else s
  }

  /** `os.path.join(dir, name)` for a name that does not start with `/`. */
  function PathJoin(dir: string, name: string): (r: string)
    ensures EndsWith(r, name)
  {
    if dir == [] || dir[|dir| - 1] == '/' then dir + name else dir + "/" + name
  }

  /** Whether some character before position `d` is not a dot. */
  predicate NonDotBefore(name: string, d: int)
    requires d <= |name|
  {
    exists j :: 0 <= j < d && name[j] != '.'
  }

  /**
   * `os.path.splitext`: the name up to its last dot and the rest, unless every character before
   * that dot is a dot too (a hidden file such as `.mp4` has no extension).
   */
  function SplitExt(name: string): (r: (string, string))
    ensures r.0 + r.1 == name
    ensures r.1 == [] || (r.1[0] == '.' && '.' !in r.1[1..])
  {
    var d := LastIndexOf(name, '.');
    if d > 0 && NonDotBefore(name, d) then
      assert name[..d] + name[d..] == name;
      (name[..d], name[d..])
    else (name, "")
  }

  datatype Encoder = Gpu | Cpu

  /** What `convert_to_h264` did: its answer, the encoders it ran, and where it wrote. */
  datatype Conversion = Conversion(ok: bool, attempts: seq<Encoder>, output: Option<string>)

  /** The output path of a file that needs converting. */
  function OutputPath(inputPath: string): string {
    var (dir, fullName) := PathSplit(inputPath);
    PathJoin(dir, SplitExt(fullName).0 + Suffix + ".mp4")
  }

  /**
   * `convert_to_h264`: a missing file fails and runs nothing; a stem already ending in `_h264`
   * succeeds and runs nothing; otherwise the GPU encoder runs, then the CPU encoder only if the
   * GPU one failed, and the answer is whether one of them succeeded.
   */
  function ConvertToH264(inputPath: string, exists_: bool, gpuSucceeds: bool, cpuSucceeds: bool): (c: Conversion)
    ensures !exists_ ==> c == Conversion(false, [], None)
    ensures exists_ && EndsWith(SplitExt(PathSplit(inputPath).1).0, Suffix) ==> c == Conversion(true, [], None)
    ensures exists_ && !EndsWith(SplitExt(PathSplit(inputPath).1).0, Suffix) ==>
      && c.output == Some(OutputPath(inputPath))
      && c.attempts == (if gpuSucceeds then [Gpu] else [Gpu, Cpu])
      && c.ok == (gpuSucceeds || cpuSucceeds)
    ensures Cpu in c.attempts ==> !gpuSucceeds
    ensures !c.ok ==> !exists_ || (!gpuSucceeds && !cpuSucceeds)
  {
    if !exists_ then Conversion(false, [], None)
    else
      var stem := SplitExt(PathSplit(inputPath).1).0;
      if EndsWith(stem, Suffix) then Conversion(true, [], None)
      else
        var output := Some(OutputPath(inputPath));
        if gpuSucceeds then Conversion(true, [Gpu], output)
        else Conversion(cpuSucceeds, [Gpu, Cpu], output)
  }

  /** The file name of a joined path is the name joined. */
  lemma JoinedName(dir: string, name: string)
    requires '/' !in name
    ensures PathSplit(PathJoin(dir, name)).1 == name
  {
    var p := PathJoin(dir, name);
    var prefix := p[..|p| - |name|];
    assert p == prefix + name;
    if prefix != [] {
      assert prefix[|prefix| - 1] == '/';
      assert p[|prefix| - 1] == '/';
      assert p[|prefix|..] == name;
      LastIndexOfUnique(p, '/', |prefix| - 1);
    } else {
      assert p == name;
    }
  }

  /** The stem of a converted name is the stem with the suffix. */
  lemma ConvertedStem(stem: string)
    requires '/' !in stem
    ensures SplitExt(stem + Suffix + ".mp4").0 == stem + Suffix
  {
    var name := stem + Suffix + ".mp4";
    var d := |stem| + |Suffix|;
    assert name[d] == '.' && name[d + 1..] == "mp4";
    LastIndexOfUnique(name, '.', d);
    assert name[|stem|] == '_';
  }

  /**
   * A converted file is never converted again: its own stem ends with the suffix, so the
   * converter skips it and runs nothing.
   */
  lemma OutputIsSkipped(inputPath: string, gpuSucceeds: bool, cpuSucceeds: bool)
    ensures var out := OutputPath(inputPath);
      ConvertToH264(out, true, gpuSucceeds, cpuSucceeds) == Conversion(true, [], None)
  {
    var (dir, fullName) := PathSplit(inputPath);
    var stem := SplitExt(fullName).0;
    assert '/' !in stem by {
      assert stem == fullName[..|stem|];
    }
    ConvertedIsSkipped(dir, stem, gpuSucceeds, cpuSucceeds);
  }

  /** A converted name joined to any directory is skipped. */
  lemma ConvertedIsSkipped(dir: string, stem: string, gpuSucceeds: bool, cpuSucceeds: bool)
    requires '/' !in stem
    ensures ConvertToH264(PathJoin(dir, stem + Suffix + ".mp4"), true, gpuSucceeds, cpuSucceeds) == Conversion(true, [], None)
  {
    var name := stem + Suffix + ".mp4";
    assert PathSplit(PathJoin(dir, name)).1 == name by {
      assert '/' !in name;
      JoinedName(dir, name);
    }
    assert EndsWith(SplitExt(name).0, Suffix) by {
      ConvertedStem(stem);
    }
  }

  /** The patterns searched, by extension. */
  const VideoExtensions := [".mp4", ".mkv", ".webm", ".avi", ".mov"]

  /** `glob(join(dir, "*" + ext))`: the non-hidden names ending in `ext`, joined to the directory. */
  function Glob(dir: string, names: seq<string>, ext: string): (r: seq<string>)
    ensures forall p :: p in r ==> exists n :: n in names && p == PathJoin(dir, n) && EndsWith(n, ext)
  {
    if names == [] then []
    else
      var n := names[0];
      var rest := Glob(dir, names[1..], ext);
      if EndsWith(n, ext) && !(n != [] && n[0] == '.') then [PathJoin(dir, n)] + rest else rest
  }

  /** The matches of every pattern, one pattern after another. */
  function GlobAll(dir: string, names: seq<string>, exts: seq<string>): seq<string> {
    if exts == [] then [] else GlobAll(dir, names, exts[..|exts| - 1]) + Glob(dir, names, exts[|exts| - 1])
  }

  /** Python's string order: code point by code point, a proper prefix first. */
  predicate Below(a: string, b: string) {
    if a == [] then b != []
    else if b == [] then false
    else a[0] < b[0] || (a[0] == b[0] && Below(a[1..], b[1..]))
  }

  lemma {:induction false} BelowIrreflexive(a: string)
    ensures !Below(a, a)
  {
    if a != [] {
      BelowIrreflexive(a[1..]);
    }
  }

  lemma {:induction false} BelowTransitive(a: string, b: string, c: string)
    requires Below(a, b) && Below(b, c)
    ensures Below(a, c)
  {
    if a != [] && b != [] && c != [] && a[0] == b[0] == c[0] {
      BelowTransitive(a[1..], b[1..], c[1..]);
    }
  }

  lemma {:induction false} BelowTotal(a: string, b: string)
    requires a != b
    ensures Below(a, b) || Below(b, a)
  {
    if a != [] && b != [] && a[0] == b[0] {
      assert a == [a[0]] + a[1..] && b == [b[0]] + b[1..];
      BelowTotal(a[1..], b[1..]);
    }
  }

  predicate StrictlySorted(xs: seq<string>) {
    forall i, j :: 0 <= i < j < |xs| ==> Below(xs[i], xs[j])
  }

  /** `x` put in its place in a strictly sorted list, unless it is already there. */
  function Insert(xs: seq<string>, x: string): (r: seq<string>)
    requires StrictlySorted(xs)
    ensures StrictlySorted(r)
    ensures forall s :: s in r <==> s in xs || s == x
  {
    if xs == [] then [x]
    else if x == xs[0] then xs
    else if Below(x, xs[0]) then
      forall j | 0 <= j < |xs|
        ensures Below(x, xs[j])
      {
        if j > 0 {
          BelowTransitive(x, xs[0], xs[j]);
        }
      }
      [x] + xs
    else
      BelowTotal(x, xs[0]);
      var rest := Insert(xs[1..], x);
      forall s | s in rest
        ensures Below(xs[0], s)
      {
        if s != x {
          assert s in xs[1..];
          var j :| 0 <= j < |xs| - 1 && xs[1..][j] == s;
          assert xs[j + 1] == s;
        }
      }
      forall j | 0 < j < |[xs[0]] + rest|
        ensures Below(([xs[0]] + rest)[0], ([xs[0]] + rest)[j])
      {
        assert ([xs[0]] + rest)[j] == rest[j - 1];
        assert rest[j - 1] in rest;
      }
      assert xs == [xs[0]] + xs[1..];
      assert forall s :: s in xs <==> s == xs[0] || s in xs[1..];
      [xs[0]] + rest
  }

  /** `sorted(set(xs))`. */
  function SortedUnique(xs: seq<string>): (r: seq<string>)
    ensures StrictlySorted(r)
    ensures forall s :: s in r <==> s in xs
  {
    if xs == [] then []
    else
      var r := Insert(SortedUnique(xs[..|xs| - 1]), xs[|xs| - 1]);
      assert forall s :: s in xs <==> s in xs[..|xs| - 1] || s == xs[|xs| - 1];
      r
  }

  /** A strictly sorted list holds each element once. */
  lemma SortedHasNoDuplicates(xs: seq<string>)
    requires StrictlySorted(xs)
    ensures forall i, j :: 0 <= i < j < |xs| ==> xs[i] != xs[j]
  {
    forall i, j | 0 <= i < j < |xs|
      ensures xs[i] != xs[j]
    {
      if xs[i] == xs[j] {
        BelowIrreflexive(xs[i]);
      }
    }
  }

  /** What `process_directory` did. */
  datatype DirectoryRun =
    | MissingDirectory
    | NoVideos
    | Converted(files: seq<string>, successCount: nat)

  /** How many of `files` convert successfully with the given encoder outcomes. */
  function Successes(files: seq<string>, gpu: string -> bool, cpu: string -> bool): (n: nat)
    ensures n <= |files|
  {
    if files == [] then 0
    else
      var last := files[|files| - 1];
      Successes(files[..|files| - 1], gpu, cpu) + (if ConvertToH264(last, true, gpu(last), cpu(last)).ok then 1 else 0)
  }

  /** The globbing loop of `process_directory`: the matches of every extension, in turn. */
  method CollectVideos(dir: string, names: seq<string>) returns (videoFiles: seq<string>)
    ensures videoFiles == GlobAll(dir, names, VideoExtensions)
  {
    videoFiles := [];
    for e := 0 to |VideoExtensions|
      invariant videoFiles == GlobAll(dir, names, VideoExtensions[..e])
    {
      assert VideoExtensions[..e + 1][..e] == VideoExtensions[..e];
      videoFiles := videoFiles + Glob(dir, names, VideoExtensions[e]);
    }
    assert VideoExtensions[..|VideoExtensions|] == VideoExtensions;
  }

  /** The conversion loop of `process_directory`: converts each file and counts the successes. */
  method ConvertAll(files: seq<string>, gpu: string -> bool, cpu: string -> bool) returns (successCount: nat)
    ensures successCount == Successes(files, gpu, cpu)
    ensures successCount <= |files|
  {
    successCount := 0;
    for idx := 0 to |files|
      invariant successCount == Successes(files[..idx], gpu, cpu)
    {
      var path := files[idx];
      assert files[..idx + 1][..idx] == files[..idx];
      var conversion := ConvertToH264(path, true, gpu(path), cpu(path));
      if conversion.ok {
        successCount := successCount + 1;
      }
    }
    assert files[..|files|] == files;
  }

  /**
   * `process_directory`: the listing of the directory is `names`; `gpu` and `cpu` say whether each
   * encoder succeeds on a file. Every listed video is converted once, in sorted order.
   */
  method ProcessDirectory(dir: string, dirExists: bool, names: seq<string>, gpu: string -> bool, cpu: string -> bool)
    returns (run: DirectoryRun)
    ensures !dirExists ==> run == MissingDirectory
    ensures dirExists ==>
      var files := SortedUnique(GlobAll(dir, names, VideoExtensions));
      run == if files == [] then NoVideos else Converted(files, Successes(files, gpu, cpu))
    ensures run.Converted? ==> run.successCount <= |run.files| && StrictlySorted(run.files)
  {
    if !dirExists {
      return MissingDirectory;
    }
    var videoFiles := CollectVideos(dir, names);
    var files := SortedUnique(videoFiles);
    if |files| == 0 {
      return NoVideos;
    }
    var successCount := ConvertAll(files, gpu, cpu);
    run := Converted(files, successCount);
  }
}
