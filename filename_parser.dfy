/**
 * The result-file name parser of the Android client: a name such as
 * `user__song__artist__part__result.json` carries its metadata in `__`-separated segments.
 */
module FilenameParser {
  import opened Wrappers
  import opened Strings

  datatype ParsedMetadata = ParsedMetadata(userId: string, songId: string, artist: string, partNumber: string)

  const Separator: string := "__"

  /**
   * The name without its extension (`substringBeforeLast(".")`): only the text from the last dot
   * on is dropped, and a name without a dot is kept whole.
   */
  function Stem(filename: string): (r: string)
    ensures '.' !in filename ==> r == filename
    ensures '.' in filename ==>
      |r| < |filename| && filename == r + "." + filename[|r| + 1..] && '.' !in filename[|r| + 1..]
  {
    var r := SubstringBeforeLast(filename, '.');
    assert '.' in filename ==> filename == r + "." + filename[|r| + 1..];
    r
  }

  /**
   * `parse`: null (None) when the stem has fewer than four segments; otherwise the first four
   * segments, in order, which read back as the beginning of the stem. Nothing in it can throw.
   */
  function Parse(filename: string): (r: Option<ParsedMetadata>)
    ensures r.None? <==> |Split(Stem(filename), Separator)| < 4
    ensures r.Some? ==>
      StartsWith(Stem(filename), Join([r.value.userId, r.value.songId, r.value.artist, r.value.partNumber], Separator))
  {
    var stem := Stem(filename);
    var parts := Split(stem, Separator);
    if |parts| < 4 then None
    else
      FieldsArePrefix(stem);
      assert parts[..4] == [parts[0], parts[1], parts[2], parts[3]];
      Some(ParsedMetadata(parts[0], parts[1], parts[2], parts[3]))
  }

  lemma FieldsArePrefix(stem: string)
    ensures var parts := Split(stem, Separator);
      |parts| >= 4 ==> StartsWith(stem, Join(parts[..4], Separator))
  {
    var parts := Split(stem, Separator);
    if |parts| >= 4 {
      JoinSplit(stem, Separator);
      var front := Join(parts[..4], Separator);
      if |parts| > 4 {
        JoinPrefix(parts, 4, Separator);
      } else {
        assert parts[..4] == parts;
      }
      assert stem[..|front|] == front;
    }
  }

  /** Joining all parts extends the join of the first `k` of them. */
  lemma {:induction false} JoinPrefix(parts: seq<string>, k: nat, d: string)
    requires 1 <= k < |parts|
    ensures Join(parts, d) == Join(parts[..k], d) + d + Join(parts[k..], d)
  {
    assert Join(parts, d) == parts[0] + d + Join(parts[1..], d);
    if k == 1 {
      assert parts[..1] == [parts[0]];
    } else {
      JoinPrefix(parts[1..], k - 1, d);
      assert parts[1..][..k - 1] == parts[..k][1..];
      assert parts[1..][k - 1..] == parts[k..];
      assert Join(parts[..k], d) == parts[0] + d + Join(parts[..k][1..], d);
    }
  }

  /**
   * Segments after the fourth are ignored: a stem made of four or more `_`-free segments, followed
   * by a `.`-free extension, parses to its first four segments.
   */
  lemma ParseIgnoresExtraSegments(segments: seq<string>, ext: string)
    requires |segments| >= 4
    requires forall p :: p in segments ==> '_' !in p
    requires '.' !in ext
    ensures Parse(Join(segments, Separator) + "." + ext)
         == Some(ParsedMetadata(segments[0], segments[1], segments[2], segments[3]))
  {
    StemDropsExtension(Join(segments, Separator), ext);
    SplitJoin(segments, Separator);
  }

  /** Only a `.`-free extension after the last dot is dropped: the text before it is the stem. */
  lemma StemDropsExtension(stem: string, ext: string)
    requires '.' !in ext
    ensures Stem(stem + "." + ext) == stem
  {
    var name := stem + "." + ext;
    assert name[|stem|] == '.' && name[|stem| + 1..] == ext;
    LastIndexOfUnique(name, '.', |stem|);
    assert name[..|stem|] == stem;
  }

  /** Round trip: a name built from four `_`-free fields and an extension parses back to them. */
  lemma ParseRoundTrip(u: string, s: string, a: string, p: string, ext: string)
    requires '_' !in u && '_' !in s && '_' !in a && '_' !in p && '.' !in ext
    ensures Parse(u + "__" + s + "__" + a + "__" + p + "." + ext) == Some(ParsedMetadata(u, s, a, p))
  {
    var segments := [u, s, a, p];
    assert Join(segments, Separator) == u + "__" + s + "__" + a + "__" + p by {
      assert Join([p], Separator) == p;
      assert [a, p][1..] == [p];
      assert Join([a, p], Separator) == a + "__" + p;
      assert [s, a, p][1..] == [a, p];
      assert Join([s, a, p], Separator) == s + "__" + a + "__" + p;
      assert segments[1..] == [s, a, p];
    }
    ParseIgnoresExtraSegments(segments, ext);
  }
}
