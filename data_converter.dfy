/** Conversion of a server frame's raw `[x, y, confidence]` lists into the client's key points. */
module DataConverter {
  import opened SkeletonData
  import opened AnalysisDto

  /** Raw point `index` becomes a key point: it names a body part and carries at least x and y. */
  predicate Kept(raw: seq<seq<real>>, index: nat) {
    index < |raw| && index < PartCount && |raw[index]| >= 2
  }

  /** The key point for raw point `index`: x and y copied, the third number (or 0) as confidence. */
  function PointAt(index: nat, point: seq<real>): KeyPoint
    requires index < PartCount && |point| >= 2
  {
    KeyPoint(Values[index], point[0], point[1], if |point| > 2 then point[2] else 0.0)
  }

  /** The key points produced from the first `n` raw points, in input order. */
  function ConvertedPrefix(raw: seq<seq<real>>, n: nat): seq<KeyPoint>
    requires n <= |raw|
  {
    if n == 0 then []
    else ConvertedPrefix(raw, n - 1) + (if Kept(raw, n - 1) then [PointAt(n - 1, raw[n - 1])] else [])
  }

  function Converted(raw: seq<seq<real>>): seq<KeyPoint> {
    ConvertedPrefix(raw, |raw|)
  }

  /** `convertToKeyPoints`: one pass over the raw points, appending a key point for each kept one. */
  method ConvertToKeyPoints(frame: FrameData) returns (keyPoints: seq<KeyPoint>)
    ensures keyPoints == Converted(frame.keypoints)
  {
    keyPoints := [];
    var parts := Values;
    for index := 0 to |frame.keypoints|
      invariant keyPoints == ConvertedPrefix(frame.keypoints, index)
    {
      var rawPoint := frame.keypoints[index];
      if index < |parts| {
        if |rawPoint| >= 2 {
          var x := rawPoint[0];
          var y := rawPoint[1];
          var conf := if |rawPoint| > 2 then rawPoint[2] else 0.0;
          keyPoints := keyPoints + [KeyPoint(parts[index], x, y, conf)];
        }
      }
    }
  }

  /** What the first `n` raw points give: see `ConvertedMeaning`. */
  lemma {:induction false} ConvertedPrefixMeaning(raw: seq<seq<real>>, n: nat)
    requires n <= |raw|
    ensures var r := ConvertedPrefix(raw, n);
      && |r| <= n && |r| <= PartCount
      && (forall k :: 0 <= k < |r| ==>
            (Ordinal(r[k].bodyPart) < n && Kept(raw, Ordinal(r[k].bodyPart))
             && r[k] == PointAt(Ordinal(r[k].bodyPart), raw[Ordinal(r[k].bodyPart)])))
      && (forall j, k :: 0 <= j < k < |r| ==> Ordinal(r[j].bodyPart) < Ordinal(r[k].bodyPart))
      && (forall i :: 0 <= i < n && Kept(raw, i) ==> exists k :: 0 <= k < |r| && r[k].bodyPart == Values[i])
  {
    ValuesAreOrdinals();
    if n > 0 {
      ConvertedPrefixMeaning(raw, n - 1);
      var r0 := ConvertedPrefix(raw, n - 1);
      var r := ConvertedPrefix(raw, n);
      if Kept(raw, n - 1) {
        assert r == r0 + [PointAt(n - 1, raw[n - 1])];
        assert Ordinal(r[|r0|].bodyPart) == n - 1;
        forall i | 0 <= i < n && Kept(raw, i)
          ensures exists k :: 0 <= k < |r| && r[k].bodyPart == Values[i]
        {
          if i == n - 1 {
            assert r[|r0|].bodyPart == Values[i];
          } else {
            var k :| 0 <= k < |r0| && r0[k].bodyPart == Values[i];
            assert r[k] == r0[k];
          }
        }
      } else {
        assert r == r0;
      }
    }
  }

  /**
   * The converted list has at most min(17, number of raw points) entries; each entry's part is the
   * one whose ordinal is the entry's index in the input, with x and y copied and the third number
   * (or 0) as confidence; raw points with fewer than two numbers or beyond the 17 parts are
   * skipped, every other one appears; and the output keeps input order, so its parts have strictly
   * increasing ordinals and none repeats.
   */
  lemma ConvertedMeaning(raw: seq<seq<real>>)
    ensures var r := Converted(raw);
      && |r| <= |raw| && |r| <= PartCount
      && (forall k :: 0 <= k < |r| ==>
            var i := Ordinal(r[k].bodyPart);
            i < |raw| && |raw[i]| >= 2 && r[k].x == raw[i][0] && r[k].y == raw[i][1]
            && r[k].confidence == (if |raw[i]| > 2 then raw[i][2] else 0.0))
      && (forall j, k :: 0 <= j < k < |r| ==> Ordinal(r[j].bodyPart) < Ordinal(r[k].bodyPart))
      && (forall i: nat :: Kept(raw, i) ==> exists k :: 0 <= k < |r| && r[k].bodyPart == Values[i])
  {
    ConvertedPrefixMeaning(raw, |raw|);
  }
}
