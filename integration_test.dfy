/**
 * The integration-test screen: it loads a part's analysis JSON and video from the app's assets,
 * keeps the frames sorted by time, and while the video plays shows the frame nearest to the
 * playback position, calibrated by user-adjustable scale and offset.
 */
module IntegrationTest {
  import opened Wrappers
  import opened Strings
  import opened SkeletonData
  import opened AnalysisDto
  import opened DataConverter

  function Abs(r: real): real {
    if r < 0.0 then -r else r
  }

  // ----- Asset matching -----

  predicate Matches(f: string, suffix: string, key: string) {
    EndsWith(f, suffix) && Contains(f, key)
  }

  /** `find`: the first file ending with `suffix` and containing `key`, if any. */
  function FirstMatching(files: seq<string>, suffix: string, key: string): Option<string> {
    if files == [] then None
    else if Matches(files[0], suffix, key) then Some(files[0])
    else FirstMatching(files[1..], suffix, key)
  }

  /** Nothing is found exactly when no file matches; what is found is a matching file. */
  lemma {:induction false} FirstMatchingMeaning(files: seq<string>, suffix: string, key: string)
    ensures var r := FirstMatching(files, suffix, key);
      && (r.None? <==> forall f :: f in files ==> !Matches(f, suffix, key))
      && (r.Some? ==> r.value in files && Matches(r.value, suffix, key))
  {
    if files != [] && !Matches(files[0], suffix, key) {
      FirstMatchingMeaning(files[1..], suffix, key);
      assert forall f :: f in files ==> f == files[0] || f in files[1..];
    }
  }

  /** The file found is the first matching one: a match with no match before it is the one returned. */
  lemma {:induction false} FirstMatchingIsFirst(files: seq<string>, suffix: string, key: string, k: nat)
    requires k < |files| && Matches(files[k], suffix, key)
    requires forall j :: 0 <= j < k ==> !Matches(files[j], suffix, key)
    ensures FirstMatching(files, suffix, key) == Some(files[k])
  {
    if k > 0 {
      assert !Matches(files[0], suffix, key);
      FirstMatchingIsFirst(files[1..], suffix, key, k - 1);
    }
  }

  /** The analysis file for a part: a `.json` asset containing `_<part>`. */
  function MatchJson(files: seq<string>, part: nat): Option<string> {
    FirstMatching(files, ".json", "_" + NatToString(part))
  }

  /** The video for a part: an `.mp4` asset containing `_<part>`, else one containing `<part>`. */
  function MatchVideo(files: seq<string>, part: nat): Option<string> {
    var exact := FirstMatching(files, ".mp4", "_" + NatToString(part));
    if exact.Some? then exact else FirstMatching(files, ".mp4", NatToString(part))
  }

  /** The analysis a part's load ends with: none unless both assets match and the JSON is read. */
  function LoadedResponse(files: seq<string>, part: nat, readJson: string -> Option<AnalysisResultResponse>): Option<AnalysisResultResponse> {
    var json := MatchJson(files, part);
    if json.None? || MatchVideo(files, part).None? then None else readJson(json.value)
  }

  // ----- Calibration -----

  /** The video size and the four calibration values the overlay is drawn with. */
  datatype Calibration = Calibration(videoWidth: int, videoHeight: int, scaleX: real, scaleY: real, offsetX: real, offsetY: real)

  /** The automatic horizontal scale: height / width for a portrait video, 1 otherwise. */
  function DefaultScaleX(width: int, height: int): (r: real)
    requires width > 0
    ensures width < height ==> r * width as real == height as real && r > 1.0
    ensures width >= height ==> r == 1.0
  {
    if width < height then height as real / width as real else 1.0
  }

  /**
   * The calibration after a video of `w` by `h` is reported: that size with the automatic scale
   * and no offsets when both sides are positive, otherwise unchanged.
   */
  function Adopt(c: Calibration, w: int, h: int): (r: Calibration)
    ensures w > 0 && h > 0 ==> r.videoWidth > 0 && r.videoHeight > 0 && r.scaleY == 1.0 && r.offsetX == 0.0 && r.offsetY == 0.0
    ensures w > 0 && h > 0 && w < h ==> r.scaleX * w as real == h as real
    ensures !(w > 0 && h > 0) ==> r == c
  {
    if w > 0 && h > 0 then Calibration(w, h, DefaultScaleX(w, h), 1.0, 0.0, 0.0) else c
  }

  /** Centre-based calibration: `(c - 0.5) * scale + 0.5 + offset` on each axis. */
  function Calibrate(kp: KeyPoint, scaleX: real, scaleY: real, offsetX: real, offsetY: real): KeyPoint {
    kp.(x := (kp.x - 0.5) * scaleX + 0.5 + offsetX, y := (kp.y - 0.5) * scaleY + 0.5 + offsetY)
  }

  /** The inverse of `Calibrate` for non-zero scales. */
  function Uncalibrate(kp: KeyPoint, scaleX: real, scaleY: real, offsetX: real, offsetY: real): KeyPoint
    requires scaleX != 0.0 && scaleY != 0.0
  {
    kp.(x := (kp.x - 0.5 - offsetX) / scaleX + 0.5, y := (kp.y - 0.5 - offsetY) / scaleY + 0.5)
  }

  /**
   * Calibration keeps part and confidence, is the identity at scale 1 and offset 0, keeps the
   * centre 0.5 fixed when there is no offset, and is undone by `Uncalibrate` for non-zero scales.
   */
  lemma CalibrateMeaning(kp: KeyPoint, scaleX: real, scaleY: real, offsetX: real, offsetY: real)
    ensures Calibrate(kp, 1.0, 1.0, 0.0, 0.0) == kp
    ensures var c := Calibrate(kp, scaleX, scaleY, offsetX, offsetY);
      c.bodyPart == kp.bodyPart && c.confidence == kp.confidence
    ensures kp.x == 0.5 && kp.y == 0.5 ==> Calibrate(kp, scaleX, scaleY, 0.0, 0.0) == kp
    ensures scaleX != 0.0 && scaleY != 0.0 ==>
      Uncalibrate(Calibrate(kp, scaleX, scaleY, offsetX, offsetY), scaleX, scaleY, offsetX, offsetY) == kp
  {
    if scaleX != 0.0 && scaleY != 0.0 {
      var c := Calibrate(kp, scaleX, scaleY, offsetX, offsetY);
      assert c.x - 0.5 - offsetX == (kp.x - 0.5) * scaleX;
      MulDiv(kp.x - 0.5, scaleX);
      assert c.y - 0.5 - offsetY == (kp.y - 0.5) * scaleY;
      MulDiv(kp.y - 0.5, scaleY);
    }
  }

  lemma MulDiv(a: real, s: real)
    requires s != 0.0
    ensures (a * s) / s == a
  {
  }

  function CalibrateAll(kps: seq<KeyPoint>, scaleX: real, scaleY: real, offsetX: real, offsetY: real): (r: seq<KeyPoint>)
    ensures |r| == |kps| && forall i :: 0 <= i < |r| ==> r[i] == Calibrate(kps[i], scaleX, scaleY, offsetX, offsetY)
  {
    seq(|kps|, i requires 0 <= i < |kps| => Calibrate(kps[i], scaleX, scaleY, offsetX, offsetY))
  }

  // ----- Sorting frames by time (`sortedBy { it.timestamp }`, a stable sort) -----

  predicate SortedByTime(frames: seq<FrameData>) {
    forall i, j :: 0 <= i < j < |frames| ==> frames[i].timestamp <= frames[j].timestamp
  }

  /** Insert before the first frame that is not earlier, so equal timestamps keep their input order. */
  function InsertByTime(f: FrameData, sorted: seq<FrameData>): seq<FrameData> {
    if sorted == [] || f.timestamp <= sorted[0].timestamp then [f] + sorted
    else [sorted[0]] + InsertByTime(f, sorted[1..])
  }

  predicate NotBefore(frames: seq<FrameData>, t: real) {
    forall i :: 0 <= i < |frames| ==> t <= frames[i].timestamp
  }

  lemma {:induction false} InsertByTimeBound(f: FrameData, sorted: seq<FrameData>, t: real)
    requires NotBefore(sorted, t) && t <= f.timestamp
    ensures NotBefore(InsertByTime(f, sorted), t)
  {
    if sorted != [] && f.timestamp > sorted[0].timestamp {
      InsertByTimeBound(f, sorted[1..], t);
    }
  }

  lemma {:induction false} InsertByTimeSorted(f: FrameData, sorted: seq<FrameData>)
    requires SortedByTime(sorted)
    ensures SortedByTime(InsertByTime(f, sorted))
  {
    if sorted != [] && f.timestamp > sorted[0].timestamp {
      var rest := InsertByTime(f, sorted[1..]);
      InsertByTimeSorted(f, sorted[1..]);
      InsertByTimeBound(f, sorted[1..], sorted[0].timestamp);
      var r := [sorted[0]] + rest;
      forall i, j | 0 <= i < j < |r| ensures r[i].timestamp <= r[j].timestamp {
        assert r[j] == rest[j - 1];
        if i > 0 { assert r[i] == rest[i - 1]; }
      }
    }
  }

  lemma {:induction false} InsertByTimePermutes(f: FrameData, sorted: seq<FrameData>)
    ensures multiset(InsertByTime(f, sorted)) == multiset(sorted) + multiset{f}
  {
    if sorted != [] && f.timestamp > sorted[0].timestamp {
      InsertByTimePermutes(f, sorted[1..]);
      assert sorted == [sorted[0]] + sorted[1..];
    }
  }

  function SortByTime(frames: seq<FrameData>): seq<FrameData> {
    if frames == [] then [] else InsertByTime(frames[0], SortByTime(frames[1..]))
  }

  /** The loaded frames are in non-decreasing timestamp order and are a permutation of the input. */
  lemma {:induction false} SortByTimeMeaning(frames: seq<FrameData>)
    ensures SortedByTime(SortByTime(frames)) && multiset(SortByTime(frames)) == multiset(frames)
  {
    if frames != [] {
      SortByTimeMeaning(frames[1..]);
      InsertByTimeSorted(frames[0], SortByTime(frames[1..]));
      InsertByTimePermutes(frames[0], SortByTime(frames[1..]));
      assert frames == [frames[0]] + frames[1..];
    }
  }

  /** The frames stamped `t`, in their order in `frames`. */
  function WithTime(frames: seq<FrameData>, t: real): seq<FrameData> {
    if frames == [] then []
    else (if frames[0].timestamp == t then [frames[0]] else []) + WithTime(frames[1..], t)
  }

  /** Insertion passes only strictly earlier frames, so `f` lands ahead of every frame stamped like it. */
  lemma {:induction false} InsertByTimeWithTime(f: FrameData, sorted: seq<FrameData>, t: real)
    ensures WithTime(InsertByTime(f, sorted), t) == (if f.timestamp == t then [f] else []) + WithTime(sorted, t)
  {
    var head := if f.timestamp == t then [f] else [];
    if sorted == [] || f.timestamp <= sorted[0].timestamp {
      assert ([f] + sorted)[1..] == sorted;
      assert WithTime([f] + sorted, t) == head + WithTime(sorted, t);
    } else {
      var first := sorted[0];
      var rest := InsertByTime(f, sorted[1..]);
      InsertByTimeWithTime(f, sorted[1..], t);
      assert ([first] + rest)[1..] == rest;
      var skipped := if first.timestamp == t then [first] else [];
      assert WithTime([first] + rest, t) == skipped + (head + WithTime(sorted[1..], t));
      assert WithTime(sorted, t) == skipped + WithTime(sorted[1..], t);
      assert head == [] || skipped == [];
    }
  }

  /** `sortedBy` is stable: for every timestamp, the frames carrying it keep their input order. */
  lemma {:induction false} SortByTimeStable(frames: seq<FrameData>, t: real)
    ensures WithTime(SortByTime(frames), t) == WithTime(frames, t)
  {
    if frames != [] {
      SortByTimeStable(frames[1..], t);
      InsertByTimeWithTime(frames[0], SortByTime(frames[1..]), t);
    }
  }

  // ----- Nearest frame (`minByOrNull { |timestamp - now| }`) -----

  /** The first frame among the first `n` whose distance to `now` is smallest. */
  function NearestIn(frames: seq<FrameData>, now: real, n: nat): (r: Option<nat>)
    requires n <= |frames|
    ensures r.Some? ==> r.value < n
  {
    if n == 0 then None
    else
      var best := NearestIn(frames, now, n - 1);
      if best.None? || Abs(frames[n - 1].timestamp - now) < Abs(frames[best.value].timestamp - now)
      then Some(n - 1) else best
  }

  /**
   * The chosen frame exists iff there are frames; it minimises |timestamp - now|, and every frame
   * before it is strictly farther (ties go to the earliest).
   */
  lemma {:induction false} NearestInMeaning(frames: seq<FrameData>, now: real, n: nat)
    requires n <= |frames|
    ensures var r := NearestIn(frames, now, n);
      && (r.None? <==> n == 0)
      && (r.Some? ==> forall j :: 0 <= j < n ==>
            Abs(frames[r.value].timestamp - now) <= Abs(frames[j].timestamp - now))
      && (r.Some? ==> forall j :: 0 <= j < r.value ==>
            Abs(frames[j].timestamp - now) > Abs(frames[r.value].timestamp - now))
  {
    if n > 0 {
      NearestInMeaning(frames, now, n - 1);
    }
  }

  /** The minimum search as the library runs it: one pass, replacing the best only when strictly nearer. */
  method NearestFrame(frames: seq<FrameData>, now: real) returns (r: Option<nat>)
    ensures r == NearestIn(frames, now, |frames|)
  {
    r := None;
    var i := 0;
    while i < |frames|
      invariant 0 <= i <= |frames|
      invariant r == NearestIn(frames, now, i)
    {
      if r.None? || Abs(frames[i].timestamp - now) < Abs(frames[r.value].timestamp - now) {
        r := Some(i);
      }
      i := i + 1;
    }
  }

  // ----- Screen state -----

  class IntegrationTestScreen {
    var selectedPartNumber: nat
    var isDataReady: bool
    var isVideoReady: bool
    var isPlaying: bool
    var allFrames: seq<FrameData>
    var currentKeyPoints: seq<KeyPoint>
    var currentErrors: seq<int>
    var videoWidth: int
    var videoHeight: int
    var scaleX: real
    var scaleY: real
    var offsetX: real
    var offsetY: real

    function Calib(): Calibration
      reads this
    {
      Calibration(videoWidth, videoHeight, scaleX, scaleY, offsetX, offsetY)
    }

    ghost predicate Valid()
      reads this
    {
      videoWidth > 0 && videoHeight > 0 && 1 <= selectedPartNumber <= 4
    }

    constructor ()
      ensures Valid()
      ensures selectedPartNumber == 1 && !isDataReady && !isVideoReady && !isPlaying
      ensures allFrames == [] && currentKeyPoints == [] && currentErrors == []
      ensures videoWidth == 1080 && videoHeight == 1920
      ensures scaleX == 1.0 && scaleY == 1.0 && offsetX == 0.0 && offsetY == 0.0
    {
      selectedPartNumber := 1;
      isDataReady, isVideoReady, isPlaying := false, false, false;
      allFrames, currentKeyPoints, currentErrors := [], [], [];
      videoWidth, videoHeight := 1080, 1920;
      scaleX, scaleY, offsetX, offsetY := 1.0, 1.0, 0.0, 0.0;
    }

    /** A part button: select part `id` (1..4) and drop the loaded data. */
    method SelectPart(id: nat)
      requires Valid() && 1 <= id <= 4
      modifies this
      ensures Valid() && selectedPartNumber == id && !isDataReady
      ensures isVideoReady == old(isVideoReady) && isPlaying == old(isPlaying)
      ensures allFrames == old(allFrames) && currentKeyPoints == old(currentKeyPoints) && currentErrors == old(currentErrors)
      ensures Calib() == old(Calib())
    {
      selectedPartNumber := id;
      isDataReady := false;
    }

    /**
     * Step 1: find the part's JSON and video among `files`, read the JSON (`readJson` gives None
     * when reading or parsing throws), adopt the video size and the automatic scale when the
     * metadata gives a positive size, and keep the frames sorted by time. Playback flags are always
     * cleared; the data is ready only when both assets matched and the JSON was read.
     */
    method LoadAndParseData(files: seq<string>, readJson: string -> Option<AnalysisResultResponse>)
      requires Valid()
      modifies this
      ensures Valid() && !isVideoReady && !isPlaying
      ensures selectedPartNumber == old(selectedPartNumber)
      ensures currentKeyPoints == old(currentKeyPoints) && currentErrors == old(currentErrors)
      ensures var loaded := LoadedResponse(files, selectedPartNumber, readJson);
        if loaded.None? then
          !isDataReady && allFrames == old(allFrames) && Calib() == old(Calib())
        else
          var response := loaded.value;
          && isDataReady && allFrames == SortByTime(response.frames)
          && Calib() == Adopt(old(Calib()), response.metadata.videoWidth, response.metadata.videoHeight)
    {
      isDataReady := false;
      isVideoReady := false;
      isPlaying := false;
      ghost var loaded := LoadedResponse(files, selectedPartNumber, readJson);
      var targetJson := MatchJson(files, selectedPartNumber);
      var targetVideo := MatchVideo(files, selectedPartNumber);
      if targetJson.Some? && targetVideo.Some? {
        var parsed := readJson(targetJson.value);
        assert parsed == loaded;
        if parsed.Some? {
          var response := parsed.value;
          allFrames := SortByTime(response.frames);
          isDataReady := true;
          ApplyVideoSize(response.metadata.videoWidth, response.metadata.videoHeight);
        }
      }
    }

    /** Adopts a reported video size when both sides are positive, resetting the calibration to it. */
    method ApplyVideoSize(w: int, h: int)
      requires Valid()
      modifies this`videoWidth, this`videoHeight, this`scaleX, this`scaleY, this`offsetX, this`offsetY
      ensures Valid()
      ensures Calib() == Adopt(old(Calib()), w, h)
    {
      if w > 0 && h > 0 {
        videoWidth := w;
        videoHeight := h;
        if videoWidth < videoHeight {
          scaleX := videoHeight as real / videoWidth as real;
        } else {
          scaleX := 1.0;
        }
        scaleY := 1.0;
        offsetX := 0.0;
        offsetY := 0.0;
      }
    }

    /** The reset button: the same scale and offsets as loading computes for the current video size. */
    method ResetCalibration()
      requires Valid()
      modifies this`scaleX, this`scaleY, this`offsetX, this`offsetY
      ensures Valid()
      ensures scaleX == DefaultScaleX(videoWidth, videoHeight) && scaleY == 1.0 && offsetX == 0.0 && offsetY == 0.0
    {
      if videoWidth < videoHeight {
        scaleX := videoHeight as real / videoWidth as real;
      } else {
        scaleX := 1.0;
      }
      scaleY := 1.0;
      offsetX := 0.0;
      offsetY := 0.0;
    }

    /**
     * One pass of the playback loop at position `currentMs`: take the frame nearest in time; only
     * when it is under 0.1 s away does the overlay change, to its calibrated key points and errors,
     * or to nothing when the frame has no key points.
     */
    method UpdateOverlay(currentMs: int)
      requires Valid()
      modifies this`currentKeyPoints, this`currentErrors
      ensures Valid()
      ensures var now := currentMs as real / 1000.0;
        var t := NearestIn(allFrames, now, |allFrames|);
        if t.Some? && Abs(allFrames[t.value].timestamp - now) < 0.1 then
          var frame := allFrames[t.value];
          if |frame.keypoints| > 0 then
            currentKeyPoints == CalibrateAll(Converted(frame.keypoints), scaleX, scaleY, offsetX, offsetY)
            && currentErrors == frame.errors
          else
            currentKeyPoints == [] && currentErrors == old(currentErrors)
        else
          currentKeyPoints == old(currentKeyPoints) && currentErrors == old(currentErrors)
    {
      var currentSec := currentMs as real / 1000.0;
      var targetFrame := NearestFrame(allFrames, currentSec);
      if targetFrame.Some? && Abs(allFrames[targetFrame.value].timestamp - currentSec) < 0.1 {
        var frame := allFrames[targetFrame.value];
        if |frame.keypoints| > 0 {
          var rawPoints := ConvertToKeyPoints(frame);
          currentKeyPoints := CalibrateAll(rawPoints, scaleX, scaleY, offsetX, offsetY);
          currentErrors := frame.errors;
        } else {
          currentKeyPoints := [];
        }
      }
    }
  }
}
