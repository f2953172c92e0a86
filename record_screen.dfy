/**
 * The recording screen: the upload file name built from the song and part, the timer text, the
 * record button and timer with the counter reset, the lens toggle and the permission result.
 * Camera, MediaStore and the upload itself are left to their own models or out.
 */
module RecordScreenMobile {
  import opened Strings
  import FilenameParser

  /** The user id the screen uploads under. */
  const UserId := "xooyong"

  /** `songTitle` with every space and underscore removed. */
  function SongId(songTitle: string): (r: string)
    ensures ' ' !in r && '_' !in r
    ensures forall c :: c in r <==> c in songTitle && c != ' ' && c != '_'
  {
    RemoveChar(RemoveChar(songTitle, ' '), '_')
  }

  /** The digits of `part` in order, or "0" when it has none. */
  function PartNum(part: string): (r: string)
    ensures |r| >= 1
    ensures forall i :: 0 <= i < |r| ==> IsDigit(r[i])
    ensures Digits(part) != [] ==> r == Digits(part)
    ensures Digits(part) == [] ==> r == "0"
  {
    var digits := Digits(part);
    if digits == [] then "0" else digits
  }

  /**
   * The text after the last ":" of `part` (all of it when there is none), spaces and underscores
   * removed. The split always has a last piece, so the "None" fallback is never taken.
   */
  function PartName(part: string): (r: string)
    ensures ' ' !in r && '_' !in r
    ensures r == RemoveChar(RemoveChar(AfterLast(part, ':'), ' '), '_')
  {
    var pieces := Split(part, ":");
    var last := pieces[|pieces| - 1];
    assert last == AfterLast(part, ':') by {
      SplitLast(part, ':');
    }
    RemoveChar(RemoveChar(last, ' '), '_')
  }

  /** The upload name without its extension: the five fields joined by "_". */
  function UploadStem(userId: string, songTitle: string, part: string, timestamp: nat): string {
    userId + "_" + SongId(songTitle) + "_" + PartNum(part) + "_" + PartName(part) + "_" + NatToString(timestamp)
  }

  /** The name the recording is uploaded under: five `_`-separated fields and ".mp4". */
  function UploadFileName(userId: string, songTitle: string, part: string, timestamp: nat): string {
    UploadStem(userId, songTitle, part, timestamp) + ".mp4"
  }

  /** Joining five pieces, written out. */
  lemma JoinFive(a: string, b: string, c: string, d: string, e: string, sep: string)
    ensures Join([a, b, c, d, e], sep) == a + sep + b + sep + c + sep + d + sep + e
  {
    var f := [a, b, c, d, e];
    assert f[1..] == [b, c, d, e] && f[2..] == [c, d, e] && f[3..] == [d, e] && f[4..] == [e];
    assert Join([d, e], sep) == d + sep + e by {
      assert [d, e][1..] == [e];
    }
    assert Join([c, d, e], sep) == c + sep + (d + sep + e) by {
      assert [c, d, e][1..] == [d, e];
    }
    assert Join([b, c, d, e], sep) == b + sep + (c + sep + (d + sep + e)) by {
      assert [b, c, d, e][1..] == [c, d, e];
    }
  }

  /** A string of digits holds no separator. */
  lemma DigitsHaveNo(s: string, c: char)
    requires forall i :: 0 <= i < |s| ==> IsDigit(s[i])
    requires !IsDigit(c)
    ensures c !in s
  {
  }

  /**
   * For a `_`-free user id, the stem of the upload name splits on "_" into exactly the five fields,
   * the last of which reads back as the timestamp.
   */
  lemma UploadFileNameFields(userId: string, songTitle: string, part: string, timestamp: nat)
    requires '_' !in userId
    ensures var pieces := Split(FilenameParser.Stem(UploadFileName(userId, songTitle, part, timestamp)), "_");
      && pieces == [userId, SongId(songTitle), PartNum(part), PartName(part), NatToString(timestamp)]
      && DigitsValue(pieces[4]) == timestamp
  {
    var stem := UploadStem(userId, songTitle, part, timestamp);
    DigitsHaveNo(NatToString(timestamp), '_');
    DigitsHaveNo(PartNum(part), '_');
    FiveFieldsSplit(userId, SongId(songTitle), PartNum(part), PartName(part), NatToString(timestamp));
    Mp4Stem(stem);
    NatToStringValue(timestamp);
  }

  /** Five `_`-free fields joined by "_" split back into themselves. */
  lemma FiveFieldsSplit(a: string, b: string, c: string, d: string, e: string)
    requires '_' !in a && '_' !in b && '_' !in c && '_' !in d && '_' !in e
    ensures Split(a + "_" + b + "_" + c + "_" + d + "_" + e, "_") == [a, b, c, d, e]
  {
    var fields := [a, b, c, d, e];
    JoinFive(a, b, c, d, e, "_");
    SplitJoin(fields, "_");
  }

  /** The stem of a ".mp4" name is the name without it. */
  lemma Mp4Stem(stem: string)
    ensures FilenameParser.Stem(stem + ".mp4") == stem
  {
    assert stem + ".mp4" == stem + "." + "mp4";
    FilenameParser.StemDropsExtension(stem, "mp4");
  }

  /** `%02d`: at least two digits, zero-padded. */
  function Pad2(n: nat): (r: string)
    ensures |r| >= 2 && forall i :: 0 <= i < |r| ==> IsDigit(r[i])
    ensures n < 100 ==> |r| == 2
    ensures DigitsValue(r) == n
  {
    NatToStringValue(n);
    if n < 10 then [DigitChar(0), DigitChar(n)] else NatToString(n)
  }

  /** The timer label `mm:ss`, from whole seconds. */
  function TimerText(seconds: nat): string {
    Pad2(seconds / 60) + ":" + Pad2(seconds % 60)
  }

  /**
   * The label reads back as the elapsed time: minutes before the ":" and two-digit seconds below
   * 60 after it; under 100 minutes it is exactly five characters.
   */
  lemma TimerTextReadsBack(seconds: nat)
    ensures var pieces := Split(TimerText(seconds), ":");
      && |pieces| == 2 && |pieces[1]| == 2
      && (forall i :: 0 <= i < |pieces[0]| ==> IsDigit(pieces[0][i]))
      && (forall i :: 0 <= i < |pieces[1]| ==> IsDigit(pieces[1][i]))
      && DigitsValue(pieces[1]) < 60
      && DigitsValue(pieces[0]) * 60 + DigitsValue(pieces[1]) == seconds
    ensures seconds < 6000 ==> |TimerText(seconds)| == 5
  {
    var m, s := Pad2(seconds / 60), Pad2(seconds % 60);
    DigitsHaveNo(m, ':');
    DigitsHaveNo(s, ':');
    assert Join([m, s], ":") == m + ":" + s by {
      assert [m, s][1..] == [s];
    }
    SplitJoin([m, s], ":");
  }

  datatype Lens = Front | Back

  /** The camera-switch button. */
  function Toggled(lens: Lens): (r: Lens)
    ensures r != lens
  {
    if lens == Front then Back else Front
  }

  /** Switching twice returns to the first camera. */
  lemma ToggleTwice(lens: Lens)
    ensures Toggled(Toggled(lens)) == lens
  {
  }

  /** `perms.values.all { it }`. */
  function AllGranted(grants: seq<bool>): (r: bool)
    ensures r <==> forall i :: 0 <= i < |grants| ==> grants[i]
  {
    if grants == [] then true else grants[0] && AllGranted(grants[1..])
  }

  /** What a finished recording hands on: the upload file name and the values polling uses. */
  datatype UploadRequest = UploadRequest(filename: string, pollUserId: string, pollTimestamp: nat)

  /** The screen's mutable state. */
  class RecordScreen {
    var hasPermissions: bool
    var isRecording: bool
    var recordingTime: nat
    var lensFacing: Lens

    /** The timer only counts while recording; otherwise it sits at zero. */
    ghost predicate Valid()
      reads this
    {
      !isRecording ==> recordingTime == 0
    }

    constructor(initiallyGranted: bool)
      ensures Valid()
      ensures hasPermissions == initiallyGranted && !isRecording && recordingTime == 0 && lensFacing == Front
    {
      hasPermissions := initiallyGranted;
      isRecording := false;
      recordingTime := 0;
      lensFacing := Front;
    }

    /** The permission launcher's callback. */
    method OnPermissionsResult(grants: seq<bool>)
      modifies this`hasPermissions
      ensures hasPermissions <==> forall i :: 0 <= i < |grants| ==> grants[i]
    {
      hasPermissions := AllGranted(grants);
    }

    /** One second of the timer loop. */
    method Tick()
      requires Valid()
      modifies this`recordingTime
      ensures Valid()
      ensures recordingTime == if isRecording then old(recordingTime) + 1 else 0
    {
      if isRecording {
        recordingTime := recordingTime + 1;
      } else {
        recordingTime := 0;
      }
    }

    /**
     * The record button: stops a running recording (and the timer falls back to 0), or starts one
     * when the camera is bound.
     */
    method OnRecordClick(cameraReady: bool)
      requires Valid()
      modifies this`isRecording, this`recordingTime
      ensures Valid()
      ensures old(isRecording) ==> !isRecording && recordingTime == 0
      ensures !old(isRecording) ==> isRecording == cameraReady && recordingTime == 0
    {
      if isRecording {
        isRecording := false;
        recordingTime := 0;
      } else if cameraReady {
        isRecording := true;
      }
    }

    /** A recording that finalised with an error ends recording. */
    method OnFinalizeError()
      requires Valid()
      modifies this`isRecording, this`recordingTime
      ensures Valid() && !isRecording && recordingTime == 0
    {
      isRecording := false;
      recordingTime := 0;
    }

    /**
     * A recording that finalised cleanly: one clock reading names the file and is later sent to
     * the status poll, under the same user id.
     */
    method OnFinalizeSuccess(songTitle: string, part: string, now: nat) returns (request: UploadRequest)
      ensures request.filename == UploadFileName(UserId, songTitle, part, now)
      ensures request.pollUserId == UserId && request.pollTimestamp == now
      ensures Split(FilenameParser.Stem(request.filename), "_")
        == [request.pollUserId, SongId(songTitle), PartNum(part), PartName(part), NatToString(request.pollTimestamp)]
    {
      var filename := UploadFileName(UserId, songTitle, part, now);
      assert '_' !in UserId;
      UploadFileNameFields(UserId, songTitle, part, now);
      request := UploadRequest(filename, UserId, now);
    }

    /** The camera-switch button. */
    method ToggleLens()
      modifies this`lensFacing
      ensures lensFacing == Toggled(old(lensFacing))
    {
      lensFacing := if lensFacing == Front then Back else Front;
    }
  }
}
