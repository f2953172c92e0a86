/**
 * The queue bridge: the parser that pulls a bucket name and an object key out of an S3 event
 * notification, with Python's dictionary and list semantics written out (which lookups raise which
 * exception, which exceptions the parser swallows), and the handling of one received batch:
 * dispatch when both values are truthy, delete every message the parser returned for, and stop the
 * batch at the first exception that escapes, from the parser or from a client call. The task queue
 * and the queue client are their per-message replies; a body arrives already decoded, `None` when
 * it is not JSON.
 */
module SqsBridge {
  import opened Wrappers
  import Strings

  /** A decoded JSON value, objects as Python dictionaries. */
  datatype Json =
    | JNull
    | JBool(b: bool)
    | JNumber(n: real)
    | JString(s: string)
    | JArray(items: seq<Json>)
    | JObject(fields: map<string, Json>)

  /** The exceptions a lookup on decoded JSON can raise. */
  datatype PyError = KeyError | IndexError | TypeError

  /** A Python step: a value, or the exception it raises. */
  datatype Outcome<T> = Ok(value: T) | Raise(error: PyError)

  /** Python's truth value of a decoded JSON value. */
  predicate Truthy(v: Json) {
    match v
    case JNull => false
    case JBool(b) => b
    case JNumber(n) => n != 0.0
    case JString(s) => s != []
    case JArray(items) => items != []
    case JObject(fields) => fields != map[]
  }

  /** `name in v`: a key of a dictionary, an element of a list, a substring of a string. */
  function In(name: string, v: Json): (r: Outcome<bool>)
    ensures r.Raise? <==> !(v.JObject? || v.JArray? || v.JString?)
    ensures r.Raise? ==> r.error == TypeError
    ensures v.JObject? ==> r == Ok(name in v.fields)
  {
    match v
    case JObject(fields) => Ok(name in fields)
    case JArray(items) => Ok(JString(name) in items)
    case JString(s) => Ok(Strings.Contains(s, name))
    case _ => Raise(TypeError)
  }

  /** `v[name]`: a dictionary lookup; any other value cannot be indexed by a string. */
  function Get(v: Json, name: string): (r: Outcome<Json>)
    ensures r.Ok? <==> v.JObject? && name in v.fields
    ensures r.Ok? ==> r.value == v.fields[name]
    ensures r == Raise(KeyError) <==> v.JObject? && name !in v.fields
  {
    match v
    case JObject(fields) => if name in fields then Ok(fields[name]) else Raise(KeyError)
    case _ => Raise(TypeError)
  }

  /** `v[0]`: the first element of a list or character of a string; dictionaries have string keys only. */
  function First(v: Json): (r: Outcome<Json>)
    ensures v.JArray? && v.items != [] ==> r == Ok(v.items[0])
    ensures (v.JArray? && v.items == []) || (v.JString? && v.s == []) ==> r == Raise(IndexError)
    ensures v.JObject? ==> r == Raise(KeyError)
  {
    match v
    case JArray(items) => if items == [] then Raise(IndexError) else Ok(items[0])
    case JString(s) => if s == [] then Raise(IndexError) else Ok(JString([s[0]]))
    case JObject(_) => Raise(KeyError)
    case _ => Raise(TypeError)
  }

  /** The pair `parse_s3_event` returns; `None` is Python's `None`. */
  datatype Event = Event(bucket: Option<Json>, key: Option<Json>)

  const Ignored := Event(None, None)

  const TestEvent := JString("s3:TestEvent")

  /** The lookups of a record, in the order the parser makes them. */
  function ReadRecord(body: Json): Outcome<Event> {
    var records := Get(body, "Records");
    if records.Raise? then Raise(records.error) else
    var record := First(records.value);
    if record.Raise? then Raise(record.error) else
    var s3 := Get(record.value, "s3");
    if s3.Raise? then Raise(s3.error) else
    var bucket := Get(s3.value, "bucket");
    if bucket.Raise? then Raise(bucket.error) else
    var name := Get(bucket.value, "name");
    if name.Raise? then Raise(name.error) else
    var obj := Get(s3.value, "object");
    if obj.Raise? then Raise(obj.error) else
    var key := Get(obj.value, "key");
    if key.Raise? then Raise(key.error) else
    Ok(Event(Some(name.value), Some(key.value)))
  }

  /**
   * `parse_s3_event`: a test event and an unknown shape are ignored, a record gives its bucket
   * name and object key; text that is not JSON and a missing key are ignored too. Any other
   * exception leaves the parser.
   */
  function ParseS3Event(body: Option<Json>): (r: Outcome<Event>)
    ensures r.Raise? ==> r.error != KeyError
  {
    if body.None? then Ok(Ignored)
    else
      var b := body.value;
      var hasEvent := In("Event", b);
      if hasEvent.Raise? then Raise(hasEvent.error)
      else
        var isTest :=
          if !hasEvent.value then Ok(false)
          else
            var e := Get(b, "Event");
            if e.Raise? then Raise(e.error) else Ok(e.value == TestEvent);
        if isTest == Raise(KeyError) then Ok(Ignored)
        else if isTest.Raise? then Raise(isTest.error)
        else if isTest.value then Ok(Ignored)
        else
          if !In("Records", b).value then Ok(Ignored)
          else
            var parsed := ReadRecord(b);
            if parsed == Raise(KeyError) then Ok(Ignored) else parsed
  }

  /** An object body, built from its fields. */
  function Obj(fields: map<string, Json>): Json {
    JObject(fields)
  }

  /** The standard shape of an upload notification: one record naming the bucket and the object. */
  function Notification(bucket: Json, key: Json): Json {
    Obj(map["Records" := JArray([Obj(map["s3" := Obj(map["bucket" := Obj(map["name" := bucket]),
                                                         "object" := Obj(map["key" := key])])])])])
  }

  /** A notification's bucket and key come back out; a test event and a non-JSON body are ignored. */
  lemma ParseNotification(bucket: Json, key: Json)
    ensures ParseS3Event(Some(Notification(bucket, key))) == Ok(Event(Some(bucket), Some(key)))
    ensures ParseS3Event(Some(Obj(map["Event" := TestEvent]))) == Ok(Ignored)
    ensures ParseS3Event(None) == Ok(Ignored)
  {
    var body := Notification(bucket, key);
    assert !Strings.Contains("Event", "Records") by {
      assert !Strings.OccursAt("Event", "Records", 0);
    }
    assert In("Event", body) == Ok(false);
  }

  /** An object without "Event" set to the test value nor "Records" is ignored, whatever else it holds. */
  lemma UnknownObjectIgnored(fields: map<string, Json>)
    requires "Event" !in fields || fields["Event"] != TestEvent
    requires "Records" !in fields
    ensures ParseS3Event(Some(JObject(fields))) == Ok(Ignored)
  {
  }

  /** An empty "Records" list raises `IndexError`, which the parser does not catch. */
  lemma EmptyRecordsEscapes(fields: map<string, Json>)
    requires "Records" in fields && fields["Records"] == JArray([])
    requires "Event" !in fields || fields["Event"] != TestEvent
    ensures ParseS3Event(Some(JObject(fields))) == Raise(IndexError)
  {
  }

  /**
   * Any body whose first record reaches a bucket name and an object key gives those two values,
   * whatever other fields the body, the record, "s3", "bucket" and "object" carry (a real
   * notification holds eventVersion, awsRegion, size, eTag and more) and whatever records follow.
   */
  lemma ParseRecord(fields: map<string, Json>, recF: map<string, Json>, rest: seq<Json>,
                    s3F: map<string, Json>, bF: map<string, Json>, oF: map<string, Json>)
    requires "Event" !in fields || fields["Event"] != TestEvent
    requires "Records" in fields && fields["Records"] == JArray([JObject(recF)] + rest)
    requires "s3" in recF && recF["s3"] == JObject(s3F)
    requires "bucket" in s3F && s3F["bucket"] == JObject(bF) && "name" in bF
    requires "object" in s3F && s3F["object"] == JObject(oF) && "key" in oF
    ensures ParseS3Event(Some(JObject(fields))) == Ok(Event(Some(bF["name"]), Some(oF["key"])))
  {
  }

  /**
   * The converse: a parse that yields a bucket came from a dictionary body, not the test event,
   * whose first record holds "s3" with "bucket" and "object" dictionaries, and the pair is that
   * bucket's "name" and that object's "key".
   */
  lemma ParsedBucketComesFromRecord(b: Json)
    requires ParseS3Event(Some(b)).Ok? && ParseS3Event(Some(b)).value.bucket.Some?
    ensures b.JObject? && "Records" in b.fields
    ensures "Event" !in b.fields || b.fields["Event"] != TestEvent
    ensures var records := b.fields["Records"];
      && records.JArray? && records.items != [] && records.items[0].JObject?
      && var rec := records.items[0].fields;
      && "s3" in rec && rec["s3"].JObject?
      && var s3 := rec["s3"].fields;
      && "bucket" in s3 && s3["bucket"].JObject? && "name" in s3["bucket"].fields
      && "object" in s3 && s3["object"].JObject? && "key" in s3["object"].fields
      && ParseS3Event(Some(b)).value == Event(Some(s3["bucket"].fields["name"]), Some(s3["object"].fields["key"]))
  {
  }

  /**
   * The record misses one of the keys the parser reads, looked up in the parser's order: "s3" in
   * the record, then "bucket" in "s3", "name" in "bucket", "object" in "s3" and "key" in "object",
   * each earlier lookup having given a dictionary.
   */
  predicate MissesKey(rec: Json) {
    rec.JObject? &&
    ("s3" !in rec.fields ||
     (rec.fields["s3"].JObject? &&
      var s3 := rec.fields["s3"].fields;
      ("bucket" !in s3 ||
       (s3["bucket"].JObject? &&
        ("name" !in s3["bucket"].fields ||
         ("object" !in s3 ||
          (s3["object"].JObject? && "key" !in s3["object"].fields)))))))
  }

  /** A first record missing any of the five looked-up keys is ignored through the `KeyError` handler. */
  lemma MissingKeyIgnored(fields: map<string, Json>, rec: Json, rest: seq<Json>)
    requires "Event" !in fields || fields["Event"] != TestEvent
    requires "Records" in fields && fields["Records"] == JArray([rec] + rest)
    requires MissesKey(rec)
    ensures ParseS3Event(Some(JObject(fields))) == Ok(Ignored)
  {
    assert ReadRecord(JObject(fields)) == Raise(KeyError);
  }

  /** A "Records" dictionary has no key 0: `body['Records'][0]` raises `KeyError`, and the body is ignored. */
  lemma RecordsDictionaryIgnored(fields: map<string, Json>, recordsF: map<string, Json>)
    requires "Event" !in fields || fields["Event"] != TestEvent
    requires "Records" in fields && fields["Records"] == JObject(recordsF)
    ensures ParseS3Event(Some(JObject(fields))) == Ok(Ignored)
  {
  }

  /** A received message: the handle that deletes it and its decoded body. */
  datatype Message = Message(receiptHandle: string, body: Option<Json>)

  /** `if bucket and key`: both present and truthy. */
  predicate Dispatchable(e: Event) {
    e.bucket.Some? && Truthy(e.bucket.value) && e.key.Some? && Truthy(e.key.value)
  }

  /** What the bridge did with a batch: the tasks sent, the messages deleted, and whether it broke off. */
  datatype BatchResult = BatchResult(tasks: seq<(Json, Json)>, deleted: seq<string>, aborted: bool)

  /**
   * What the two clients answer for one message: whether `download_video_task.delay` returned
   * (when it is called) and whether `sqs.delete_message` returned. An exception from either ends
   * the batch in the outer `except` handlers.
   */
  datatype ClientReplies = ClientReplies(delayOk: bool, deleteOk: bool)

  /** The task a dispatchable event sends. */
  function Task(e: Event): (t: (Json, Json))
    requires Dispatchable(e)
    ensures Truthy(t.0) && Truthy(t.1)
  {
    (e.bucket.value, e.key.value)
  }

  /** What the parser gives for each message of a batch. */
  function Parses(messages: seq<Message>): (r: seq<Outcome<Event>>)
    ensures |r| == |messages|
    ensures forall k :: 0 <= k < |messages| ==> r[k] == ParseS3Event(messages[k].body)
  {
    seq(|messages|, k requires 0 <= k < |messages| => ParseS3Event(messages[k].body))
  }

  /** The batch from message `n` on, given each message's parse and client replies, in the shape of the loop. */
  function BatchAfter(messages: seq<Message>, parsed: seq<Outcome<Event>>, replies: seq<ClientReplies>,
                      n: nat, acc: BatchResult): (r: BatchResult)
    requires n <= |messages| == |parsed| == |replies|
    decreases |messages| - n
  {
    if n == |messages| then acc
    else if parsed[n].Raise? then acc.(aborted := true)
    else
      var e := parsed[n].value;
      if Dispatchable(e) && !replies[n].delayOk then acc.(aborted := true)
      else
        var tasks := if Dispatchable(e) then acc.tasks + [Task(e)] else acc.tasks;
        if !replies[n].deleteOk then BatchResult(tasks, acc.deleted, true)
        else BatchAfter(messages, parsed, replies, n + 1, BatchResult(tasks, acc.deleted + [messages[n].receiptHandle], false))
  }

  function Batch(messages: seq<Message>, replies: seq<ClientReplies>): BatchResult
    requires |replies| == |messages|
  {
    BatchAfter(messages, Parses(messages), replies, 0, BatchResult([], [], false))
  }

  /** A message the bridge finishes: it parsed, its task (if any) was sent, and it was deleted. */
  predicate Completes(p: Outcome<Event>, c: ClientReplies) {
    p.Ok? && (Dispatchable(p.value) ==> c.delayOk) && c.deleteOk
  }

  /** A message whose task went out before its deletion failed. */
  predicate SentThenFailed(p: Outcome<Event>, c: ClientReplies) {
    p.Ok? && Dispatchable(p.value) && c.delayOk && !c.deleteOk
  }

  /** The number of messages from `n` on that the bridge finishes before the first that ends the batch. */
  function HandledFrom(parsed: seq<Outcome<Event>>, replies: seq<ClientReplies>, n: nat): (h: nat)
    requires n <= |parsed| == |replies|
    ensures n + h <= |parsed|
    ensures forall k :: n <= k < n + h ==> Completes(parsed[k], replies[k])
    ensures n + h < |parsed| ==> !Completes(parsed[n + h], replies[n + h])
    decreases |parsed| - n
  {
    if n == |parsed| || !Completes(parsed[n], replies[n]) then 0
    else 1 + HandledFrom(parsed, replies, n + 1)
  }

  /** The tasks of the dispatchable events among some parses, in order: the reference for what a batch sends. */
  function TasksOf(parsed: seq<Outcome<Event>>): (r: seq<(Json, Json)>)
    ensures |r| <= |parsed|
  {
    if parsed == [] then []
    else
      var p := parsed[|parsed| - 1];
      TasksOf(parsed[..|parsed| - 1]) + (if p.Ok? && Dispatchable(p.value) then [Task(p.value)] else [])
  }

  function Receipts(messages: seq<Message>): (r: seq<string>)
    ensures |r| == |messages|
    ensures forall k :: 0 <= k < |messages| ==> r[k] == messages[k].receiptHandle
  {
    seq(|messages|, k requires 0 <= k < |messages| => messages[k].receiptHandle)
  }

  /** The tasks a batch ends with: those of its finished prefix, plus the one sent just before a failed deletion. */
  function TasksUpTo(parsed: seq<Outcome<Event>>, replies: seq<ClientReplies>, h: nat): seq<(Json, Json)>
    requires h <= |parsed| == |replies|
  {
    TasksOf(parsed[..h]) + (if h < |parsed| && SentThenFailed(parsed[h], replies[h]) then [Task(parsed[h].value)] else [])
  }

  /** One more parse adds its task, if it has one, at the end. */
  lemma TasksOfStep(parsed: seq<Outcome<Event>>, n: nat)
    requires n < |parsed|
    ensures TasksOf(parsed[..n + 1]) == TasksOf(parsed[..n])
      + (if parsed[n].Ok? && Dispatchable(parsed[n].value) then [Task(parsed[n].value)] else [])
  {
    assert parsed[..n + 1][..n] == parsed[..n];
  }

  /** One finished message: it is deleted, its task (if any) is added, and the handled count grows by one. */
  lemma FinishedStep(messages: seq<Message>, parsed: seq<Outcome<Event>>, replies: seq<ClientReplies>, n: nat, acc: BatchResult)
    requires n < |messages| == |parsed| == |replies| && Completes(parsed[n], replies[n])
    requires acc.deleted == Receipts(messages[..n]) && acc.tasks == TasksOf(parsed[..n])
    ensures var e := parsed[n].value;
      && acc.deleted + [messages[n].receiptHandle] == Receipts(messages[..n + 1])
      && (if Dispatchable(e) then acc.tasks + [Task(e)] else acc.tasks) == TasksOf(parsed[..n + 1])
      && HandledFrom(parsed, replies, n) == 1 + HandledFrom(parsed, replies, n + 1)
  {
    TasksOfStep(parsed, n);
    assert acc.deleted + [messages[n].receiptHandle] == Receipts(messages[..n + 1]);
  }

  lemma {:induction false} BatchAfterMeaning(messages: seq<Message>, parsed: seq<Outcome<Event>>, replies: seq<ClientReplies>,
                                             n: nat, acc: BatchResult)
    requires n <= |messages| == |parsed| == |replies| && !acc.aborted
    requires acc.deleted == Receipts(messages[..n]) && acc.tasks == TasksOf(parsed[..n])
    ensures var r := BatchAfter(messages, parsed, replies, n, acc);
      var h := HandledFrom(parsed, replies, n);
      && r.deleted == Receipts(messages[..n + h])
      && r.aborted == (n + h < |messages|)
      && r.tasks == TasksUpTo(parsed, replies, n + h)
    decreases |messages| - n
  {
    if n == |messages| {
      assert HandledFrom(parsed, replies, n) == 0;
      assert BatchAfter(messages, parsed, replies, n, acc) == acc;
    } else if Completes(parsed[n], replies[n]) {
      var e := parsed[n].value;
      var tasks := if Dispatchable(e) then acc.tasks + [Task(e)] else acc.tasks;
      var next := BatchResult(tasks, acc.deleted + [messages[n].receiptHandle], false);
      assert BatchAfter(messages, parsed, replies, n, acc) == BatchAfter(messages, parsed, replies, n + 1, next);
      FinishedStep(messages, parsed, replies, n, acc);
      BatchAfterMeaning(messages, parsed, replies, n + 1, next);
    } else {
      assert HandledFrom(parsed, replies, n) == 0;
      StoppedStep(messages, parsed, replies, n, acc);
    }
  }

  /** A message that ends the batch: nothing more is deleted, and only a task sent before a failed deletion is added. */
  lemma StoppedStep(messages: seq<Message>, parsed: seq<Outcome<Event>>, replies: seq<ClientReplies>, n: nat, acc: BatchResult)
    requires n < |messages| == |parsed| == |replies| && !Completes(parsed[n], replies[n])
    ensures var r := BatchAfter(messages, parsed, replies, n, acc);
      && r.deleted == acc.deleted
      && r.aborted
      && r.tasks == acc.tasks + (if SentThenFailed(parsed[n], replies[n]) then [Task(parsed[n].value)] else [])
  {
    if parsed[n].Ok? && Dispatchable(parsed[n].value) && replies[n].delayOk {
      assert !replies[n].deleteOk;
    }
  }

  /**
   * A batch deletes, in order, exactly the messages before the first that raises in the parser or
   * in a client call, and breaks off there. The tasks sent are those of the dispatchable events
   * among the deleted messages, in order, plus the breaking message's task when only its deletion
   * failed.
   */
  lemma BatchDeletesHandledPrefix(messages: seq<Message>, replies: seq<ClientReplies>)
    requires |replies| == |messages|
    ensures var r := Batch(messages, replies);
      var h := HandledFrom(Parses(messages), replies, 0);
      && r.deleted == Receipts(messages[..h])
      && r.aborted == (h < |messages|)
      && r.tasks == TasksUpTo(Parses(messages), replies, h)
  {
    BatchAfterMeaning(messages, Parses(messages), replies, 0, BatchResult([], [], false));
  }

  /** With every client call succeeding, a batch that parses throughout deletes every message and sends every dispatchable event. */
  lemma ReliableBatch(messages: seq<Message>, replies: seq<ClientReplies>)
    requires |replies| == |messages|
    requires forall k :: 0 <= k < |messages| ==> replies[k] == ClientReplies(true, true) && Parses(messages)[k].Ok?
    ensures var r := Batch(messages, replies);
      r == BatchResult(TasksOf(Parses(messages)), Receipts(messages), false)
  {
    var parsed := Parses(messages);
    BatchDeletesHandledPrefix(messages, replies);
    var h := HandledFrom(parsed, replies, 0);
    assert parsed[..h] == parsed;
    assert messages[..h] == messages;
  }

  /** Every task the bridge sends names a truthy bucket and a truthy key. */
  lemma {:induction false} TasksAreTruthy(parsed: seq<Outcome<Event>>)
    ensures forall t :: t in TasksOf(parsed) ==> Truthy(t.0) && Truthy(t.1)
  {
    if parsed != [] {
      TasksAreTruthy(parsed[..|parsed| - 1]);
    }
  }

  /** The `for message in response['Messages']` loop inside its `try`, with the clients' replies as parameters. */
  method HandleBatch(messages: seq<Message>, replies: seq<ClientReplies>) returns (r: BatchResult)
    requires |replies| == |messages|
    ensures r == Batch(messages, replies)
  {
    r := BatchResult([], [], false);
    var n := 0;
    while n < |messages|
      invariant 0 <= n <= |messages|
      invariant !r.aborted
      invariant BatchAfter(messages, Parses(messages), replies, n, r) == Batch(messages, replies)
    {
      var parsed := ParseS3Event(messages[n].body);
      if parsed.Raise? {
        r := r.(aborted := true);
        return;
      }
      var event := parsed.value;
      if Dispatchable(event) {
        if !replies[n].delayOk {
          r := r.(aborted := true);
          return;
        }
        r := r.(tasks := r.tasks + [Task(event)]);
      }
      if !replies[n].deleteOk {
        r := r.(aborted := true);
        return;
      }
      r := r.(deleted := r.deleted + [messages[n].receiptHandle]);
      n := n + 1;
    }
  }
}
