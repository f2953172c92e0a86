/**
 * The upload/poll/download client. The network is replaced by its answers: the status endpoint's
 * reply to the n-th check is `reply(n)`, and the upload's three fallible steps are given as their
 * outcomes. Callbacks become events in a returned trace, in the order they fire.
 */
module PresignedUrlUploader {
  import opened Wrappers
  import opened Strings

  const MaxAttempts := 60
  /** Seconds between two status checks. */
  const PollIntervalSeconds := 5

  /** The `status` strings the loop tells apart; any other text is kept as it came. */
  datatype Status = Completed | Failed | Processing | Uploaded | OtherStatus(text: string)

  /** Reads the `status` field the way the loop's `when` compares it. */
  function ParseStatus(text: string): (s: Status)
    ensures s.Completed? <==> text == "completed"
    ensures s.Failed? <==> text == "failed"
    ensures s.Processing? <==> text == "processing"
    ensures s.Uploaded? <==> text == "uploaded"
    ensures s.OtherStatus? ==> s.text == text
  {
    if text == "completed" then Completed
    else if text == "failed" then Failed
    else if text == "processing" then Processing
    else if text == "uploaded" then Uploaded
    else OtherStatus(text)
  }

  /** The status endpoint's body, with its `status` field read by `ParseStatus`. */
  datatype AnalysisStatus = AnalysisStatus(status: Status, resultS3Key: Option<string>, errorMessage: Option<string>)

  /** One status check: an HTTP response, or a call that threw before one arrived. */
  datatype Reply = Response(code: int, body: Option<AnalysisStatus>) | Thrown

  predicate IsSuccessful(code: int) {
    200 <= code < 300
  }

  /** Why a poll ended in `onError`. */
  datatype PollError = AnalysisFailed(errorMessage: Option<string>) | ServerError(code: int) | CallFailed | TimedOut

  /** A callback: `onProgress` with the waiting text or with the elapsed seconds, `onComplete`, `onError`. */
  datatype PollEvent = Waiting | Analysing(elapsedSeconds: int) | Complete(resultKey: string) | Error(error: PollError)
  {
    predicate IsTerminal() {
      Complete? || Error?
    }
  }

  /** What a reply does to the loop: report and go on, or end it with a final callback. */
  datatype Step = Continue(progress: Option<PollEvent>) | Stop(last: PollEvent)

  /** The decision the loop body takes on the reply to check number `attempts`. */
  function Decide(reply: Reply, attempts: nat): (s: Step)
    ensures s.Stop? ==> s.last.IsTerminal()
    ensures s.Continue? && s.progress.Some? ==> !s.progress.value.IsTerminal()
    ensures reply.Response? && reply.code == 404 ==> s == Continue(Some(Waiting))
    ensures s.Stop? && s.last.Complete? <==>
      reply.Response? && reply.code != 404 && IsSuccessful(reply.code) && reply.body.Some? && reply.body.value.status.Completed?
    ensures s.Continue? && s.progress.Some? && s.progress.value.Analysing? ==>
      s.progress.value.elapsedSeconds == attempts * PollIntervalSeconds
    ensures s == Continue(None) <==>
      reply.Response? && reply.code != 404 && IsSuccessful(reply.code) && reply.body.Some? && reply.body.value.status.OtherStatus?
  {
    match reply
    case Thrown => Stop(Error(CallFailed))
    case Response(code, body) =>
      if code == 404 then Continue(Some(Waiting))
      else if IsSuccessful(code) && body.Some? then
        var st := body.value;
        match st.status
        case Completed => Stop(Complete(st.resultS3Key.GetOr("")))
        case Failed => Stop(Error(AnalysisFailed(st.errorMessage)))
        case Processing => Continue(Some(Analysing(attempts * PollIntervalSeconds)))
        case Uploaded => Continue(Some(Analysing(attempts * PollIntervalSeconds)))
        case OtherStatus(_) => Continue(None)
      else Stop(Error(ServerError(code)))
  }

  /** The callbacks fired from check number `attempts` on, until the poll ends. */
  function PollFrom(reply: nat -> Reply, attempts: nat): seq<PollEvent>
    decreases MaxAttempts - attempts
  {
    if attempts >= MaxAttempts then [Error(TimedOut)]
    else match Decide(reply(attempts), attempts)
      case Stop(last) => [last]
      case Continue(progress) =>
        (if progress.Some? then [progress.value] else []) + PollFrom(reply, attempts + 1)
  }

  /** How many status checks are made from check number `attempts` on. */
  function ChecksFrom(reply: nat -> Reply, attempts: nat): nat
    decreases MaxAttempts - attempts
  {
    if attempts >= MaxAttempts then 0
    else match Decide(reply(attempts), attempts)
      case Stop(_) => 1
      case Continue(_) => 1 + ChecksFrom(reply, attempts + 1)
  }

  /**
   * Every poll fires exactly one final callback, `onComplete` or `onError`, as its last event;
   * everything before it is progress. There are at most 60 checks, and never more progress
   * reports than checks.
   */
  lemma {:induction false} PollEndsOnce(reply: nat -> Reply, attempts: nat)
    requires attempts <= MaxAttempts
    ensures var trace := PollFrom(reply, attempts);
      && |trace| >= 1
      && trace[|trace| - 1].IsTerminal()
      && (forall i :: 0 <= i < |trace| - 1 ==> !trace[i].IsTerminal())
      && ChecksFrom(reply, attempts) <= MaxAttempts - attempts
      && |trace| - 1 <= ChecksFrom(reply, attempts)
    decreases MaxAttempts - attempts
  {
    if attempts < MaxAttempts {
      match Decide(reply(attempts), attempts)
      case Stop(last) =>
      case Continue(progress) =>
        PollEndsOnce(reply, attempts + 1);
        var rest := PollFrom(reply, attempts + 1);
        var head: seq<PollEvent> := if progress.Some? then [progress.value] else [];
        assert PollFrom(reply, attempts) == head + rest;
    }
  }

  /** A reply that neither ends the poll nor reports an error: a 404, or a 2xx body with a non-final status. */
  predicate KeepsWaiting(r: Reply) {
    && r.Response?
    && (r.code == 404
        || (IsSuccessful(r.code) && r.body.Some? && !r.body.value.status.Completed? && !r.body.value.status.Failed?))
  }

  /** Sixty replies that keep it waiting end the poll in the timeout error. */
  lemma {:induction false} PollTimesOut(reply: nat -> Reply, attempts: nat)
    requires attempts <= MaxAttempts
    requires forall n :: attempts <= n < MaxAttempts ==> KeepsWaiting(reply(n))
    ensures var trace := PollFrom(reply, attempts); |trace| >= 1 && trace[|trace| - 1] == Error(TimedOut)
    ensures ChecksFrom(reply, attempts) == MaxAttempts - attempts
    decreases MaxAttempts - attempts
  {
    if attempts < MaxAttempts {
      assert KeepsWaiting(reply(attempts));
      WaitingGoesOn(reply, attempts);
      PollTimesOut(reply, attempts + 1);
    }
  }

  /** A reply that keeps the poll waiting costs one check and leaves the final callback to later checks. */
  lemma WaitingGoesOn(reply: nat -> Reply, k: nat)
    requires k < MaxAttempts && KeepsWaiting(reply(k))
    ensures var trace := PollFrom(reply, k); var rest := PollFrom(reply, k + 1);
      |rest| >= 1 ==> |trace| >= 1 && trace[|trace| - 1] == rest[|rest| - 1]
    ensures ChecksFrom(reply, k) == 1 + ChecksFrom(reply, k + 1)
  {
    var step := Decide(reply(k), k);
    assert step.Continue?;
    var head: seq<PollEvent> := if step.progress.Some? then [step.progress.value] else [];
    var rest := PollFrom(reply, k + 1);
    PollFromContinue(reply, k, step.progress);
    if |rest| >= 1 {
      assert (head + rest)[|head + rest| - 1] == rest[|rest| - 1];
    }
  }

  /** The progress callbacks fired by checks `0 .. n - 1`, in order. */
  function Fired(reply: nat -> Reply, n: nat): seq<PollEvent> {
    if n == 0 then []
    else match Decide(reply(n - 1), n - 1)
      case Stop(_) => Fired(reply, n - 1)
      case Continue(progress) => Fired(reply, n - 1) + (if progress.Some? then [progress.value] else [])
  }

  /** None of the checks `0 .. n - 1` ended the poll. */
  ghost predicate NoStopBefore(reply: nat -> Reply, n: nat) {
    forall k: nat :: k < n ==> Decide(reply(k), k).Continue?
  }

  /**
   * When the first `n` checks all went on, the poll fires their progress and then whatever
   * follows from check `n`, and makes `n` checks more than from check `n` on.
   */
  lemma {:induction false} PollFromSplit(reply: nat -> Reply, n: nat)
    requires n <= MaxAttempts && NoStopBefore(reply, n)
    ensures PollFrom(reply, 0) == Fired(reply, n) + PollFrom(reply, n)
    ensures ChecksFrom(reply, 0) == n + ChecksFrom(reply, n)
  {
    if n > 0 {
      var k := n - 1;
      var step := Decide(reply(k), k);
      assert step.Continue?;
      var head: seq<PollEvent> := if step.progress.Some? then [step.progress.value] else [];
      var before := Fired(reply, k);
      var rest := PollFrom(reply, n);
      assert PollFrom(reply, 0) == before + PollFrom(reply, k) && ChecksFrom(reply, 0) == k + ChecksFrom(reply, k) by {
        PollFromSplit(reply, k);
      }
      assert PollFrom(reply, k) == head + rest && ChecksFrom(reply, k) == 1 + ChecksFrom(reply, n) by {
        PollFromContinue(reply, k, step.progress);
      }
      assert Fired(reply, n) == before + head;
      AppendAssoc(before, head, rest);
    }
  }

  lemma AppendAssoc(a: seq<PollEvent>, b: seq<PollEvent>, c: seq<PollEvent>)
    ensures a + (b + c) == (a + b) + c
  {
  }

  /** A check that does not end the poll fires its progress, if any, and the poll goes on from the next check. */
  lemma PollFromContinue(reply: nat -> Reply, k: nat, progress: Option<PollEvent>)
    requires k < MaxAttempts && Decide(reply(k), k) == Continue(progress)
    ensures PollFrom(reply, k) == (if progress.Some? then [progress.value] else []) + PollFrom(reply, k + 1)
    ensures ChecksFrom(reply, k) == 1 + ChecksFrom(reply, k + 1)
  {
  }

  /**
   * `pollAnalysisResult`: the loop over at most 60 checks. `trace` holds the callbacks in the
   * order they fire and `checks` counts the status requests.
   */
  method PollAnalysisResult(reply: nat -> Reply) returns (trace: seq<PollEvent>, checks: nat)
    ensures trace == PollFrom(reply, 0)
    ensures checks == ChecksFrom(reply, 0)
  {
    var attempts := 0;
    trace := [];
    checks := 0;
    while attempts < MaxAttempts
      invariant 0 <= attempts <= MaxAttempts
      invariant NoStopBefore(reply, attempts)
      invariant trace == Fired(reply, attempts)
      invariant checks == attempts
      decreases MaxAttempts - attempts
    {
      var step := Decide(reply(attempts), attempts);
      checks := checks + 1;
      if step.Stop? {
        PollFromSplit(reply, attempts);
        trace := trace + [step.last];
        return;
      }
      if step.progress.Some? {
        trace := trace + [step.progress.value];
      }
      attempts := attempts + 1;
    }
    PollFromSplit(reply, attempts);
    trace := trace + [Error(TimedOut)];
  }

  /** What `uploadVideo` does, in order. */
  datatype UploadEvent = TempFileCreated | PutToS3 | TempFileDeleted | UploadComplete(s3Key: string) | UploadError

  /** The presigned-URL endpoint's answer: its body when the call succeeded and had one. */
  datatype UrlGrant = UrlGrant(uploadUrl: string, s3Key: string)

  /**
   * `uploadVideo`: copy to a temp file, get a presigned URL, PUT the file, delete the temp file,
   * report the key. Any step that fails jumps to `onError`.
   */
  function UploadVideo(tempFileOk: bool, grant: Option<UrlGrant>, putOk: bool): (trace: seq<UploadEvent>)
    ensures |trace| >= 1 && (trace[|trace| - 1].UploadComplete? || trace[|trace| - 1] == UploadError)
    ensures TempFileDeleted in trace <==> tempFileOk && grant.Some? && putOk
    ensures TempFileDeleted in trace ==> PutToS3 in trace
    ensures trace[|trace| - 1].UploadComplete? <==> TempFileDeleted in trace
    ensures trace[|trace| - 1].UploadComplete? ==> trace[|trace| - 1].s3Key == grant.value.s3Key
  {
    if !tempFileOk then [UploadError]
    else if grant.None? then [TempFileCreated, UploadError]
    else if !putOk then [TempFileCreated, PutToS3, UploadError]
    else [TempFileCreated, PutToS3, TempFileDeleted, UploadComplete(grant.value.s3Key)]
  }

  /** `resultS3Key.split("/").last()`: the local name of a downloaded result. */
  function ResultFileName(resultS3Key: string): (name: string)
    ensures '/' !in name
    ensures EndsWith(resultS3Key, name)
    ensures |name| < |resultS3Key| ==> resultS3Key[|resultS3Key| - |name| - 1] == '/'
  {
    var parts := Split(resultS3Key, "/");
    var name := parts[|parts| - 1];
    assert name == AfterLast(resultS3Key, '/') by {
      SplitLast(resultS3Key, '/');
    }
    AfterLastSuffix(resultS3Key, '/');
    assert resultS3Key[|resultS3Key| - |name|..] == name;
    name
  }
}
