/**
 * The source bundler: it walks a directory tree, sorts `.kt` and `.kts` files into two lists, splits
 * the `.kt` list into four consecutive chunks of at most ceil(n/4) files, appends the whole `.kts`
 * list as a fifth chunk and writes each chunk to its own text file. Each source file in a chunk
 * gets a block with a number, and the numbers run 1, 2, 3, … across all five outputs. The
 * directory walk, file reads and output opens are inputs: `walk` lists each directory with its
 * file names, `read` gives a file's text or None when reading fails, and `canOpen` says whether each
 * output file could be opened.
 */
module KotlinBundler {
  import opened Wrappers
  import opened Strings
  import VideoConverter

  /** How the walk classifies a file name: the `.kt` test is made first, the `.kts` test after it. */
  datatype Kind = Kt | Kts | Other

  /** The two suffixes never both apply: a `.kts` name does not end with `.kt`. */
  lemma SuffixesDisjoint(file: string)
    ensures EndsWith(file, ".kts") ==> !EndsWith(file, ".kt")
  {
    if EndsWith(file, ".kts") {
      assert file[|file| - 1] == ".kts"[3];
    }
  }

  function KindOf(file: string): (k: Kind)
    ensures k == Kt <==> EndsWith(file, ".kt")
    ensures k == Kts <==> EndsWith(file, ".kts")
  {
    SuffixesDisjoint(file);
    if EndsWith(file, ".kt") then Kt
    else if EndsWith(file, ".kts") then Kts
    else Other
  }

  /** One directory of the walk: its path and the names of the files in it. */
  datatype Directory = Directory(root: string, files: seq<string>)

  /** The joined paths of the files of one directory that have kind `k`, in listing order. */
  function InDirectory(root: string, files: seq<string>, k: Kind): (r: seq<string>)
    ensures |r| <= |files|
  {
    if files == [] then []
    else
      var last := files[|files| - 1];
      InDirectory(root, files[..|files| - 1], k) + (if KindOf(last) == k then [VideoConverter.PathJoin(root, last)] else [])
  }

  /** The joined paths of every file of kind `k` found by the walk, in walk order. */
  function Found(walk: seq<Directory>, k: Kind): seq<string> {
    if walk == [] then []
    else Found(walk[..|walk| - 1], k) + InDirectory(walk[|walk| - 1].root, walk[|walk| - 1].files, k)
  }

  /** Every path found for kind `k` is a walked file whose name has that kind. */
  lemma {:induction false} FoundHaveKind(walk: seq<Directory>, k: Kind, p: string)
    requires p in Found(walk, k)
    ensures exists d, f :: d in walk && f in d.files && KindOf(f) == k && p == VideoConverter.PathJoin(d.root, f)
  {
    var last := walk[|walk| - 1];
    if p in Found(walk[..|walk| - 1], k) {
      FoundHaveKind(walk[..|walk| - 1], k, p);
      var d, f :| d in walk[..|walk| - 1] && f in d.files && KindOf(f) == k && p == VideoConverter.PathJoin(d.root, f);
      assert d in walk;
    } else {
      InDirectoryHaveKind(last.root, last.files, k, p);
    }
  }

  lemma {:induction false} InDirectoryHaveKind(root: string, files: seq<string>, k: Kind, p: string)
    requires p in InDirectory(root, files, k)
    ensures exists f :: f in files && KindOf(f) == k && p == VideoConverter.PathJoin(root, f)
  {
    var last := files[|files| - 1];
    if p in InDirectory(root, files[..|files| - 1], k) {
      InDirectoryHaveKind(root, files[..|files| - 1], k, p);
      var f :| f in files[..|files| - 1] && KindOf(f) == k && p == VideoConverter.PathJoin(root, f);
      assert f in files;
    } else {
      assert p == VideoConverter.PathJoin(root, last) && KindOf(last) == k;
    }
  }

  /**
   * A path collected as `.kt` keeps that kind: its file name classifies as `.kt` again, and so
   * never as `.kts`.
   */
  lemma FoundKtKeepsKind(walk: seq<Directory>, p: string)
    requires p in Found(walk, Kt)
    ensures KindOf(VideoConverter.PathSplit(p).1) == Kt
  {
    FoundHaveKind(walk, Kt, p);
    var d, f :| d in walk && f in d.files && KindOf(f) == Kt && p == VideoConverter.PathJoin(d.root, f);
    SplitOfJoinedKt(d.root, f);
  }

  /** The name part of a joined `.kt` path still ends with `.kt`. */
  lemma SplitOfJoinedKt(root: string, f: string)
    requires EndsWith(f, ".kt")
    ensures KindOf(VideoConverter.PathSplit(VideoConverter.PathJoin(root, f)).1) == Kt
  {
    var p := VideoConverter.PathJoin(root, f);
    assert EndsWith(p, ".kt") by {
      assert p[|p| - |f|..] == f;
      assert p[|p| - 3..] == f[|f| - 3..];
    }
    KtPathName(p);
  }

  /** The file name of a path ending in `.kt` ends in `.kt`. */
  lemma KtPathName(p: string)
    requires EndsWith(p, ".kt")
    ensures EndsWith(VideoConverter.PathSplit(p).1, ".kt")
  {
    var name := VideoConverter.PathSplit(p).1;
    var i := LastIndexOf(p, '/');
    forall j | |p| - 3 <= j < |p|
      ensures p[j] != '/'
    {
      assert p[j] == p[|p| - 3..][j - (|p| - 3)];
    }
    assert name[|name| - 3..] == p[|p| - 3..];
  }

  /** The walking loops of the script: one pass over the directories, one over each listing. */
  method Collect(walk: seq<Directory>) returns (ktFiles: seq<string>, ktsFiles: seq<string>)
    ensures ktFiles == Found(walk, Kt) && ktsFiles == Found(walk, Kts)
  {
    ktFiles, ktsFiles := [], [];
    for w := 0 to |walk|
      invariant ktFiles == Found(walk[..w], Kt) && ktsFiles == Found(walk[..w], Kts)
    {
      var root, files := walk[w].root, walk[w].files;
      ghost var ktBefore, ktsBefore := ktFiles, ktsFiles;
      for f := 0 to |files|
        invariant ktFiles == ktBefore + InDirectory(root, files[..f], Kt)
        invariant ktsFiles == ktsBefore + InDirectory(root, files[..f], Kts)
      {
        var fullPath := VideoConverter.PathJoin(root, files[f]);
        var kind := KindOf(files[f]);
        ghost var kt0, kts0 := ktFiles, ktsFiles;
        if kind == Kt {
          ktFiles := ktFiles + [fullPath];
        } else if kind == Kts {
          ktsFiles := ktsFiles + [fullPath];
        }
        assert ktFiles == ktBefore + InDirectory(root, files[..f + 1], Kt) by {
          InDirectoryStep(root, files, f, Kt);
          AppendStep(ktBefore, kt0, ktFiles, InDirectory(root, files[..f], Kt), if kind == Kt then [fullPath] else []);
        }
        assert ktsFiles == ktsBefore + InDirectory(root, files[..f + 1], Kts) by {
          InDirectoryStep(root, files, f, Kts);
          AppendStep(ktsBefore, kts0, ktsFiles, InDirectory(root, files[..f], Kts), if kind == Kts then [fullPath] else []);
        }
      }
      assert files[..|files|] == files;
      FoundStep(walk, w, Kt);
      FoundStep(walk, w, Kts);
    }
    assert walk[..|walk|] == walk;
  }

  /** Appending to an accumulator that is `before + xs` keeps it `before` plus the longer list. */
  lemma AppendStep(before: seq<string>, acc0: seq<string>, acc: seq<string>, xs: seq<string>, extra: seq<string>)
    requires acc0 == before + xs && acc == acc0 + extra
    ensures acc == before + (xs + extra)
  {
  }

  /** One more listed file adds its joined path when it has kind `k`. */
  lemma InDirectoryStep(root: string, files: seq<string>, f: nat, k: Kind)
    requires f < |files|
    ensures InDirectory(root, files[..f + 1], k)
      == InDirectory(root, files[..f], k) + (if KindOf(files[f]) == k then [VideoConverter.PathJoin(root, files[f])] else [])
  {
    assert files[..f + 1][..f] == files[..f];
  }

  /** One more walked directory adds its files of kind `k`. */
  lemma FoundStep(walk: seq<Directory>, w: nat, k: Kind)
    requires w < |walk|
    ensures Found(walk[..w + 1], k) == Found(walk[..w], k) + InDirectory(walk[w].root, walk[w].files, k)
  {
    assert walk[..w + 1][..w] == walk[..w];
  }

  /** `math.ceil(n / 4)`. */
  function ChunkSize(n: nat): (size: nat)
    ensures 4 * size >= n && 4 * (size - 1) < n
  {
    (n + 3) / 4
  }

  function Min(a: int, b: int): int {
    if a <= b then a else b
  }

  /** The slices `kt[i:i + size]` for `i` in `range(start, len(kt), size)`. */
  function ChunksFrom(kt: seq<string>, size: nat, start: nat): (r: seq<seq<string>>)
    requires size > 0
    ensures forall j :: 0 <= j < |r| ==> |r[j]| <= size
    decreases |kt| - start
  {
    if start >= |kt| then []
    else [kt[start..Min(start + size, |kt|)]] + ChunksFrom(kt, size, start + size)
  }

  /** The chunks built from the `.kt` list before the padding. */
  function RawChunks(kt: seq<string>): seq<seq<string>> {
    if |kt| == 0 then [] else ChunksFrom(kt, ChunkSize(|kt|), 0)
  }

  /** Empty chunks appended until there are four. */
  function Pad(chunks: seq<seq<string>>): (r: seq<seq<string>>)
    ensures |r| >= 4
    decreases 4 - |chunks|
  {
    if |chunks| >= 4 then chunks else Pad(chunks + [[]])
  }

  /** The four `.kt` chunks: padded, then cut to the first four. */
  function KtChunks(kt: seq<string>): (r: seq<seq<string>>)
    ensures |r| == 4
  {
    Pad(RawChunks(kt))[..4]
  }

  /** The five chunks the script writes. */
  function FinalChunks(kt: seq<string>, kts: seq<string>): (r: seq<seq<string>>)
    ensures |r| == 5 && r[4] == kts
  {
    KtChunks(kt) + [kts]
  }

  /** All chunks one after another. */
  function Flatten(chunks: seq<seq<string>>): seq<string> {
    if chunks == [] then [] else chunks[0] + Flatten(chunks[1..])
  }

  lemma {:induction false} FlattenAppend(a: seq<seq<string>>, b: seq<seq<string>>)
    ensures Flatten(a + b) == Flatten(a) + Flatten(b)
  {
    if a != [] {
      assert (a + b)[1..] == a[1..] + b;
      FlattenAppend(a[1..], b);
    } else {
      assert a + b == b;
    }
  }

  /** Chunking from `start` ends within `k` chunks once `k` steps reach the end. */
  lemma {:induction false} ChunkCount(kt: seq<string>, size: nat, start: nat, k: nat)
    requires size > 0 && start + k * size >= |kt|
    ensures |ChunksFrom(kt, size, start)| <= k
    decreases |kt| - start
  {
    if start < |kt| {
      assert k > 0;
      ChunkCount(kt, size, start + size, k - 1);
    }
  }

  /** Chunking from `start` loses no file and repeats none. */
  lemma {:induction false} ChunksCover(kt: seq<string>, size: nat, start: nat)
    requires size > 0 && start <= |kt|
    ensures Flatten(ChunksFrom(kt, size, start)) == kt[start..]
    decreases |kt| - start
  {
    if start < |kt| {
      var end := Min(start + size, |kt|);
      var rest := ChunksFrom(kt, size, start + size);
      assert ChunksFrom(kt, size, start)[1..] == rest;
      if start + size <= |kt| {
        ChunksCover(kt, size, start + size);
        assert kt[start..] == kt[start..end] + kt[start + size..];
      } else {
        assert rest == [];
      }
    }
  }

  /** Padding adds only empty chunks. */
  lemma {:induction false} PadKeeps(chunks: seq<seq<string>>)
    ensures Flatten(Pad(chunks)) == Flatten(chunks)
    ensures |chunks| <= 4 ==> |Pad(chunks)| == 4
    ensures Pad(chunks)[..Min(|chunks|, |Pad(chunks)|)] == chunks[..Min(|chunks|, |Pad(chunks)|)]
    decreases 4 - |chunks|
  {
    if |chunks| < 4 {
      PadKeeps(chunks + [[]]);
      FlattenAppend(chunks, [[]]);
      assert Flatten([[]]) == [];
      assert (chunks + [[]])[..|chunks|] == chunks;
    }
  }

  /**
   * The split of the `.kt` list: four chunks, none larger than ceil(n/4), which put back together
   * give the list itself; since at most four chunks are ever made, the cut to four drops nothing.
   */
  lemma KtChunksPartition(kt: seq<string>)
    ensures |RawChunks(kt)| <= 4
    ensures Flatten(KtChunks(kt)) == kt
    ensures forall j :: 0 <= j < 4 ==> |KtChunks(kt)[j]| <= ChunkSize(|kt|)
  {
    var raw := RawChunks(kt);
    if |kt| > 0 {
      ChunkCount(kt, ChunkSize(|kt|), 0, 4);
      ChunksCover(kt, ChunkSize(|kt|), 0);
      assert kt[0..] == kt;
    }
    PadKeeps(raw);
    assert Pad(raw)[..4] == Pad(raw);
    forall j | 0 <= j < 4
      ensures |KtChunks(kt)[j]| <= ChunkSize(|kt|)
    {
      PaddedChunkSize(raw, ChunkSize(|kt|), j);
    }
  }

  lemma {:induction false} PaddedChunkSize(chunks: seq<seq<string>>, size: nat, j: nat)
    requires forall i :: 0 <= i < |chunks| ==> |chunks[i]| <= size
    requires j < |Pad(chunks)|
    ensures |Pad(chunks)[j]| <= size
    decreases 4 - |chunks|
  {
    if |chunks| < 4 {
      PaddedChunkSize(chunks + [[]], size, j);
    }
  }

  /** The five chunks together are the `.kt` files and then the `.kts` files. */
  lemma FinalChunksCover(kt: seq<string>, kts: seq<string>)
    ensures Flatten(FinalChunks(kt, kts)) == kt + kts
  {
    KtChunksPartition(kt);
    FlattenAppend(KtChunks(kt), [kts]);
    assert Flatten([kts]) == kts + Flatten([]);
  }

  /** The splitting code: the stepping loop, the padding loop and the cut. */
  method SplitKt(kt: seq<string>) returns (chunks: seq<seq<string>>)
    ensures chunks == KtChunks(kt)
  {
    chunks := [];
    if |kt| > 0 {
      chunks := SliceKt(kt);
    }
    chunks := PadChunks(chunks);
    chunks := chunks[..4];
  }

  /** The stepping loop: `kt[i:i + size]` for `i` in `range(0, len(kt), size)`. */
  method SliceKt(kt: seq<string>) returns (chunks: seq<seq<string>>)
    requires |kt| > 0
    ensures chunks == RawChunks(kt)
  {
    chunks := [];
    var size := ChunkSize(|kt|);
    var i := 0;
    while i < |kt|
      invariant chunks + ChunksFrom(kt, size, i) == RawChunks(kt)
      decreases |kt| - i
    {
      ChunksStep(chunks, kt, size, i);
      chunks := chunks + [kt[i..Min(i + size, |kt|)]];
      i := i + size;
    }
    assert chunks + ChunksFrom(kt, size, i) == chunks + [];
  }

  /** The padding loop: empty chunks appended while there are fewer than four. */
  method PadChunks(raw: seq<seq<string>>) returns (chunks: seq<seq<string>>)
    ensures chunks == Pad(raw)
  {
    chunks := raw;
    while |chunks| < 4
      invariant Pad(chunks) == Pad(raw)
      decreases 4 - |chunks|
    {
      chunks := chunks + [[]];
    }
  }

  /** One turn of the stepping loop: the next slice moves from the chunks to come onto the made ones. */
  lemma ChunksStep(made: seq<seq<string>>, kt: seq<string>, size: nat, i: nat)
    requires size > 0 && i < |kt|
    ensures made + ChunksFrom(kt, size, i) == (made + [kt[i..Min(i + size, |kt|)]]) + ChunksFrom(kt, size, i + size)
  {
    assert ChunksFrom(kt, size, i) == [kt[i..Min(i + size, |kt|)]] + ChunksFrom(kt, size, i + size);
  }

  /**
   * A block written to an output file: a numbered source file, whose header also carries
   * `Basename(path)` (see `Heading`), with its text or None where reading failed and an error note
   * was written instead; or the note of an empty chunk.
   */
  datatype Block =
    | Code(number: nat, path: string, content: Option<string>)
    | Placeholder(forKts: bool)

  /** The header lines of a code block: its number, the file's base name and its path. */
  function Heading(b: Block): (h: (nat, string, string))
    requires b.Code?
    ensures h.0 == b.number && h.2 == b.path
  {
    (b.number, Basename(b.path), b.path)
  }

  /** The block for the file at `path`, numbered `number`. */
  function CodeBlock(number: nat, path: string, read: string -> Option<string>): Block {
    Code(number, path, read(path))
  }

  /** `os.path.basename`: what follows the last `/`. */
  function Basename(path: string): (name: string)
    ensures '/' !in name && |name| <= |path| && name == path[|path| - |name|..]
    ensures |name| < |path| ==> path[|path| - |name| - 1] == '/'
  {
    path[LastIndexOf(path, '/') + 1..]
  }

  /** `basename` is the tail half of `os.path.split`. */
  lemma BasenameIsSplitTail(path: string)
    ensures Basename(path) == VideoConverter.PathSplit(path).1
  {
  }

  /** The blocks for the files of a chunk, numbered from `start`. */
  function FileBlocks(files: seq<string>, read: string -> Option<string>, start: nat): (r: seq<Block>)
    ensures |r| == |files|
  {
    if files == [] then []
    else FileBlocks(files[..|files| - 1], read, start) + [CodeBlock(start + |files| - 1, files[|files| - 1], read)]
  }

  /** The `k`-th block is the `k`-th file's, numbered `start + k`. */
  lemma {:induction false} FileBlockAt(files: seq<string>, read: string -> Option<string>, start: nat, k: nat)
    requires k < |files|
    ensures FileBlocks(files, read, start)[k] == CodeBlock(start + k, files[k], read)
  {
    if k < |files| - 1 {
      FileBlockAt(files[..|files| - 1], read, start, k);
    }
  }

  lemma FileBlocksSnoc(files: seq<string>, path: string, read: string -> Option<string>, start: nat)
    ensures FileBlocks(files + [path], read, start) == FileBlocks(files, read, start) + [CodeBlock(start + |files|, path, read)]
  {
    assert (files + [path])[..|files|] == files;
  }

  /** What one output file holds. */
  function ChunkOutput(chunk: seq<string>, isKts: bool, read: string -> Option<string>, start: nat): seq<Block> {
    if chunk == [] then [Placeholder(isKts)] else FileBlocks(chunk, read, start)
  }

  /** The outputs from the `i`-th on, with the counter at `counter`; None where the open failed. */
  function OutputsFrom(chunks: seq<seq<string>>, canOpen: seq<bool>, read: string -> Option<string>, i: nat, counter: nat): (r: seq<Option<seq<Block>>>)
    requires |chunks| == |canOpen| && i <= |chunks|
    ensures |r| == |chunks| - i
    decreases |chunks| - i
  {
    if i == |chunks| then []
    else [Output(chunks, canOpen, read, i, counter)] + OutputsFrom(chunks, canOpen, read, i + 1, Advance(chunks, canOpen, i, counter))
  }

  /** The `i`-th output, with the counter at `counter`. */
  function Output(chunks: seq<seq<string>>, canOpen: seq<bool>, read: string -> Option<string>, i: nat, counter: nat): Option<seq<Block>>
    requires |chunks| == |canOpen| && i < |chunks|
  {
    if canOpen[i] then Some(ChunkOutput(chunks[i], i == 4, read, counter)) else None
  }

  /** The counter after the `i`-th output: one more per file written. */
  function Advance(chunks: seq<seq<string>>, canOpen: seq<bool>, i: nat, counter: nat): nat
    requires |chunks| == |canOpen| && i < |chunks|
  {
    if canOpen[i] then counter + |chunks[i]| else counter
  }

  /** The numbers of the code blocks, in writing order. */
  function Numbers(outputs: seq<Option<seq<Block>>>): seq<int> {
    if outputs == [] then []
    else (if outputs[0].Some? then BlockNumbers(outputs[0].value) else []) + Numbers(outputs[1..])
  }

  function BlockNumbers(blocks: seq<Block>): seq<int> {
    if blocks == [] then []
    else
      var last := blocks[|blocks| - 1];
      BlockNumbers(blocks[..|blocks| - 1]) + (if last.Code? then [last.number] else [])
  }

  /** `n` numbers counting up from `start`. */
  function Consecutive(start: nat, n: nat): (r: seq<int>)
    ensures |r| == n
    decreases n
  {
    if n == 0 then [] else [start] + Consecutive(start + 1, n - 1)
  }

  /** The `k`-th of the numbers is `start + k`. */
  lemma {:induction false} ConsecutiveAt(start: nat, n: nat, k: nat)
    requires k < n
    ensures Consecutive(start, n)[k] == start + k
    decreases n
  {
    if k > 0 {
      ConsecutiveAt(start + 1, n - 1, k - 1);
    }
  }

  lemma {:induction false} ConsecutiveAppend(start: nat, m: nat, n: nat)
    ensures Consecutive(start, m) + Consecutive(start + m, n) == Consecutive(start, m + n)
    decreases m
  {
    if m > 0 {
      ConsecutiveAppend(start + 1, m - 1, n);
      assert Consecutive(start, m) + Consecutive(start + m, n)
        == [start] + (Consecutive(start + 1, m - 1) + Consecutive(start + m, n));
    }
  }

  /** Two runs of numbers, the second starting where the first stops, make one run. */
  lemma ConsecutiveJoin(whole: seq<int>, a: seq<int>, b: seq<int>, start: nat, mid: nat, n: nat, total: nat)
    requires start <= mid && total == mid - start + n
    requires whole == a + b && a == Consecutive(start, mid - start) && b == Consecutive(mid, n)
    ensures whole == Consecutive(start, total)
  {
    ConsecutiveAppend(start, mid - start, n);
  }

  /** The files of the chunks from the `i`-th on whose output opened. */
  function WrittenCount(chunks: seq<seq<string>>, canOpen: seq<bool>, i: nat): nat
    requires |chunks| == |canOpen| && i <= |chunks|
    decreases |chunks| - i
  {
    if i == |chunks| then 0 else (if canOpen[i] then |chunks[i]| else 0) + WrittenCount(chunks, canOpen, i + 1)
  }

  /** The blocks of a chunk's files carry the numbers `start`, `start + 1`, … */
  lemma {:induction false} FileBlockNumbers(files: seq<string>, read: string -> Option<string>, start: nat)
    ensures BlockNumbers(FileBlocks(files, read, start)) == Consecutive(start, |files|)
  {
    if files != [] {
      var init := files[..|files| - 1];
      var blocks := FileBlocks(files, read, start);
      FileBlockNumbers(init, read, start);
      assert blocks[..|blocks| - 1] == FileBlocks(init, read, start);
      ConsecutiveAppend(start, |init|, 1);
    }
  }

  /** The numbers of one output: those of its files, none for a placeholder or a failed open. */
  lemma OutputNumbersOne(chunks: seq<seq<string>>, canOpen: seq<bool>, read: string -> Option<string>, i: nat, counter: nat)
    requires |chunks| == |canOpen| && i < |chunks|
    ensures var o := Output(chunks, canOpen, read, i, counter);
      (if o.Some? then BlockNumbers(o.value) else []) == Consecutive(counter, Advance(chunks, canOpen, i, counter) - counter)
  {
    if canOpen[i] && chunks[i] != [] {
      FileBlockNumbers(chunks[i], read, counter);
    }
  }

  /** The numbers of the outputs from the `i`-th on: the `i`-th output's, then the rest. */
  lemma NumbersUnfold(chunks: seq<seq<string>>, canOpen: seq<bool>, read: string -> Option<string>, i: nat, counter: nat)
    requires |chunks| == |canOpen| && i < |chunks|
    ensures var o := Output(chunks, canOpen, read, i, counter);
      Numbers(OutputsFrom(chunks, canOpen, read, i, counter))
        == (if o.Some? then BlockNumbers(o.value) else [])
           + Numbers(OutputsFrom(chunks, canOpen, read, i + 1, Advance(chunks, canOpen, i, counter)))
  {
    var outputs := OutputsFrom(chunks, canOpen, read, i, counter);
    assert outputs[1..] == OutputsFrom(chunks, canOpen, read, i + 1, Advance(chunks, canOpen, i, counter));
  }

  /**
   * The counter numbers the written files consecutively from where it starts, read errors
   * included, whatever outputs failed to open.
   */
  lemma {:induction false} OutputNumbers(chunks: seq<seq<string>>, canOpen: seq<bool>, read: string -> Option<string>, i: nat, counter: nat)
    requires |chunks| == |canOpen| && i <= |chunks|
    ensures Numbers(OutputsFrom(chunks, canOpen, read, i, counter)) == Consecutive(counter, WrittenCount(chunks, canOpen, i))
    decreases |chunks| - i
  {
    if i < |chunks| {
      var next := Advance(chunks, canOpen, i, counter);
      OutputNumbers(chunks, canOpen, read, i + 1, next);
      OutputNumbersOne(chunks, canOpen, read, i, counter);
      NumbersUnfold(chunks, canOpen, read, i, counter);
      var o := Output(chunks, canOpen, read, i, counter);
      ConsecutiveJoin(Numbers(OutputsFrom(chunks, canOpen, read, i, counter)),
        if o.Some? then BlockNumbers(o.value) else [], Numbers(OutputsFrom(chunks, canOpen, read, i + 1, next)),
        counter, next, WrittenCount(chunks, canOpen, i + 1), WrittenCount(chunks, canOpen, i));
    }
  }

  /** With every output open, the written count is every file of every chunk. */
  lemma {:induction false} AllWritten(chunks: seq<seq<string>>, canOpen: seq<bool>, i: nat)
    requires |chunks| == |canOpen| && i <= |chunks|
    requires forall j :: 0 <= j < |canOpen| ==> canOpen[j]
    ensures WrittenCount(chunks, canOpen, i) == |Flatten(chunks[i..])|
    decreases |chunks| - i
  {
    if i < |chunks| {
      AllWritten(chunks, canOpen, i + 1);
      assert chunks[i..][1..] == chunks[i + 1..];
    }
  }

  /** The loop over the files of one chunk: a block per file, the counter one up per file. */
  method WriteFiles(fileList: seq<string>, read: string -> Option<string>, first: nat)
    returns (blocks: seq<Block>, counter: nat)
    ensures blocks == FileBlocks(fileList, read, first)
    ensures counter == first + |fileList|
  {
    blocks, counter := [], first;
    for k := 0 to |fileList|
      invariant blocks == FileBlocks(fileList[..k], read, first)
      invariant counter == first + k
    {
      var filePath := fileList[k];
      var block := CodeBlock(counter, filePath, read);
      assert fileList[..k + 1] == fileList[..k] + [filePath];
      FileBlocksSnoc(fileList[..k], filePath, read, first);
      blocks := blocks + [block];
      counter := counter + 1;
    }
    assert fileList[..|fileList|] == fileList;
  }

  /** One output of the writing loop, then the outputs after it. */
  lemma OutputsStep(chunks: seq<seq<string>>, canOpen: seq<bool>, read: string -> Option<string>, i: nat, counter: nat)
    requires |chunks| == |canOpen| && i < |chunks|
    ensures OutputsFrom(chunks, canOpen, read, i, counter)
      == [Output(chunks, canOpen, read, i, counter)] + OutputsFrom(chunks, canOpen, read, i + 1, Advance(chunks, canOpen, i, counter))
    ensures WrittenCount(chunks, canOpen, i) == Advance(chunks, canOpen, i, counter) - counter + WrittenCount(chunks, canOpen, i + 1)
  {
  }

  /** The body of the writing loop for output `i`: skipped when it cannot be opened, else its blocks. */
  method WriteOutput(chunks: seq<seq<string>>, canOpen: seq<bool>, read: string -> Option<string>, i: nat, counter: nat)
    returns (output: Option<seq<Block>>, next: nat)
    requires |chunks| == |canOpen| && i < |chunks|
    ensures output == Output(chunks, canOpen, read, i, counter)
    ensures next == Advance(chunks, canOpen, i, counter)
  {
    next := counter;
    if !canOpen[i] {
      output := None;
    } else if chunks[i] == [] {
      output := Some([Placeholder(i == 4)]);
    } else {
      var blocks;
      blocks, next := WriteFiles(chunks[i], read, counter);
      output := Some(blocks);
    }
  }

  /** The writing loop of the script: five outputs, a counter that never resets. */
  method WriteChunks(chunks: seq<seq<string>>, canOpen: seq<bool>, read: string -> Option<string>)
    returns (outputs: seq<Option<seq<Block>>>, counter: nat)
    requires |chunks| == 5 && |canOpen| == 5
    ensures outputs == OutputsFrom(chunks, canOpen, read, 0, 1)
    ensures counter == 1 + WrittenCount(chunks, canOpen, 0)
  {
    outputs := [];
    counter := 1;
    ghost var goal := OutputsFrom(chunks, canOpen, read, 0, 1);
    ghost var goalCount := 1 + WrittenCount(chunks, canOpen, 0);
    for i := 0 to 5
      invariant outputs + OutputsFrom(chunks, canOpen, read, i, counter) == goal
      invariant counter + WrittenCount(chunks, canOpen, i) == goalCount
    {
      var output, next := WriteOutput(chunks, canOpen, read, i, counter);
      OutputsStep(chunks, canOpen, read, i, counter);
      ghost var rest := OutputsFrom(chunks, canOpen, read, i + 1, next);
      assert (outputs + [output]) + rest == outputs + ([output] + rest);
      outputs, counter := outputs + [output], next;
    }
  }

  /** What the script writes: nothing when no file was found, otherwise the five outputs. */
  function Bundle(walk: seq<Directory>, canOpen: seq<bool>, read: string -> Option<string>): (r: Option<seq<Option<seq<Block>>>>)
    requires |canOpen| == 5
    ensures r.None? <==> Found(walk, Kt) == [] && Found(walk, Kts) == []
  {
    var kt, kts := Found(walk, Kt), Found(walk, Kts);
    if |kt| + |kts| == 0 then None else Some(OutputsFrom(FinalChunks(kt, kts), canOpen, read, 0, 1))
  }

  /**
   * When every output opens, the blocks are numbered 1 to the number of files in the chunks, each
   * file once, in chunk order.
   */
  lemma ChunkNumbering(chunks: seq<seq<string>>, canOpen: seq<bool>, read: string -> Option<string>)
    requires |chunks| == |canOpen| && forall j :: 0 <= j < |canOpen| ==> canOpen[j]
    ensures Numbers(OutputsFrom(chunks, canOpen, read, 0, 1)) == Consecutive(1, |Flatten(chunks)|)
  {
    OutputNumbers(chunks, canOpen, read, 0, 1);
    AllWritten(chunks, canOpen, 0);
    assert chunks[0..] == chunks;
  }

  /**
   * A whole run of the script with every output open: the blocks are numbered from 1 up to the
   * number of files in the five chunks, which by `FinalChunksCover` are the `.kt` files found
   * followed by the `.kts` files found.
   */
  lemma BundleNumbering(walk: seq<Directory>, canOpen: seq<bool>, read: string -> Option<string>)
    requires |canOpen| == 5 && forall j :: 0 <= j < 5 ==> canOpen[j]
    requires Bundle(walk, canOpen, read).Some?
    ensures Numbers(Bundle(walk, canOpen, read).value) == Consecutive(1, |Flatten(FinalChunks(Found(walk, Kt), Found(walk, Kts)))|)
  {
    ChunkNumbering(FinalChunks(Found(walk, Kt), Found(walk, Kts)), canOpen, read);
  }

  /** `collect_and_split_kotlin_files`. */
  method CollectAndSplit(walk: seq<Directory>, canOpen: seq<bool>, read: string -> Option<string>)
    returns (written: Option<seq<Option<seq<Block>>>>)
    requires |canOpen| == 5
    ensures written == Bundle(walk, canOpen, read)
  {
    var ktFiles, ktsFiles := Collect(walk);
    if |ktFiles| + |ktsFiles| == 0 {
      return None;
    }
    var ktChunks := SplitKt(ktFiles);
    var finalChunks := ktChunks + [ktsFiles];
    var outputs, _ := WriteChunks(finalChunks, canOpen, read);
    written := Some(outputs);
  }
}
