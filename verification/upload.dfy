/**
 * The upload-triggered handler `s3_thumbnail_generator`: read the event,
 * skip generated thumbnails, otherwise fetch, resize, upload and record, and
 * map every failure of those steps to an internal error.
 */
module UploadHandler {
  import opened Wrappers
  import opened ThumbnailKeys
  import opened UploadEvents
  import opened Invocations

  /** The processing steps, in the order the handler runs them. */
  datatype Stage = Fetch | Decode | Resize | Encode | Upload | Record

  /**
   * What the environment does during one invocation: the first processing
   * step that raises (if any), the fresh record id and the two clock readings.
   */
  datatype Services = Services(failsAt: Option<Stage>, recordId: string, createdAt: string, updatedAt: string)

  const PngContentType: string := "image/png"

  /** The part of an object's public address that precedes its key. */
  function BucketAddress(bucket: string): string {
    "https://" + bucket + ".s3.amazonaws.com/"
  }

  /** The public address of an object: the bucket's host, then the key as the path. */
  function ObjectUrl(bucket: string, key: string): (url: string)
    ensures |url| == |BucketAddress(bucket)| + |key|
    ensures url[..|BucketAddress(bucket)|] == BucketAddress(bucket)
    ensures url[|BucketAddress(bucket)|..] == key
  {
    BucketAddress(bucket) + key
  }

  /** Two objects of one bucket never share an address. */
  lemma ObjectUrlInjective(bucket: string, key: string, key': string)
    requires ObjectUrl(bucket, key) == ObjectUrl(bucket, key')
    ensures key == key'
  {
    assert key == ObjectUrl(bucket, key)[|BucketAddress(bucket)|..];
  }

  /** Every call a fully successful processing run makes, in order. */
  function ProcessingCalls(bucket: string, key: string, size: int, env: Services): (calls: seq<Call>)
    ensures |calls| == 3
    ensures calls[0] == GetObject(bucket, key)
    ensures calls[1].PutObject? && calls[1].bucket == bucket && calls[1].contentType == PngContentType
    ensures IsThumbnailKey(calls[1].key)
    ensures calls[2].PutItem? && calls[2].record.url == ObjectUrl(calls[1].bucket, calls[1].key)
    ensures calls[2].record.sourceSize == size && calls[2].record.id == env.recordId
  {
    var thumbnailKey := NewFilename(key);
    [ GetObject(bucket, key),
      PutObject(bucket, thumbnailKey, PngContentType),
      PutItem(ThumbnailRecord(env.recordId, ObjectUrl(bucket, thumbnailKey), size, env.createdAt, env.updatedAt)) ]
  }

  /** How many processing calls the stores have carried out when `stage` raises. */
  function CallsBefore(stage: Stage): (n: nat)
    ensures n < 3
    ensures n == 0 <==> stage == Fetch
    ensures n == 2 <==> stage == Record
  {
    match stage
    case Fetch => 0
    case Decode => 1
    case Resize => 1
    case Encode => 1
    case Upload => 1
    case Record => 2
  }

  /** A successful run writes exactly one metadata record, for the thumbnail's address. */
  lemma ProcessingWritesOneRecord(bucket: string, key: string, size: int, env: Services)
    ensures RecordsWritten(ProcessingCalls(bucket, key, size, env)) ==
      [ThumbnailRecord(env.recordId, ObjectUrl(bucket, NewFilename(key)), size, env.createdAt, env.updatedAt)]
  {
    var calls := ProcessingCalls(bucket, key, size, env);
    assert calls[1..][1..][1..] == [];
  }

  /** The body of the `try` around processing in the upload handler. */
  function Process(bucket: string, key: string, size: int, env: Services): (inv: Invocation)
    ensures inv.reply.Respond?
    ensures inv.reply.statusCode == 200 <==> env.failsAt.None?
    ensures inv.reply.statusCode != 200 ==> inv.reply == Respond(500, Text(InternalServerError))
    ensures inv.reply.statusCode == 200 ==> inv.reply.body == Url(ObjectUrl(bucket, NewFilename(key)))
    ensures inv.calls <= ProcessingCalls(bucket, key, size, env)
    ensures env.failsAt.None? <==> inv.calls == ProcessingCalls(bucket, key, size, env)
    ensures env.failsAt.Some? ==> RecordsWritten(inv.calls) == []
    ensures env.failsAt == Some(Fetch) ==> inv.calls == []
    ensures env.failsAt in {Some(Decode), Some(Resize), Some(Encode), Some(Upload)} ==>
      inv.calls == [GetObject(bucket, key)]
    ensures env.failsAt == Some(Record) ==>
      inv.calls == [GetObject(bucket, key), PutObject(bucket, NewFilename(key), PngContentType)]
  {
    var calls := ProcessingCalls(bucket, key, size, env);
    match env.failsAt
    case None => Invocation(Respond(200, Url(ObjectUrl(bucket, NewFilename(key)))), calls)
    case Some(stage) =>
      var done := calls[..CallsBefore(stage)];
      assert RecordsWritten(done) == [] by {
        if |done| > 0 {
          assert done[1..] == [] || done[1..][1..] == [];
        }
      }
      Invocation(Respond(500, Text(InternalServerError)), done)
  }

  /** `s3_thumbnail_generator`. */
  function HandleUpload(e: UploadEvent, env: Services): (inv: Invocation)
    ensures inv.reply.Raise? <==> e.records == Some([])
    ensures inv.reply.Raise? ==> inv.reply.fault == IndexError && inv.calls == []
    ensures inv.reply.Respond? ==> inv.reply.statusCode in {200, 400, 500}
    ensures inv.reply.Respond? && inv.reply.statusCode == 400 ==>
      inv.reply.body == Text(InvalidEventFormat) && inv.calls == []
  {
    match ParseUpload(e)
    case MissingField => Invocation(Respond(400, Text(InvalidEventFormat)), [])
    case NoRecord => Invocation(Raise(IndexError), [])
    case Fields(bucket, key, size) =>
      if !IsThumbnailKey(key) then Process(bucket, key, size, env)
      else Invocation(Respond(200, Text(NoThumbnailCreated)), [])
  }

  /** An event lacking the bucket name, the object key or the object size is rejected untouched. */
  lemma MalformedEventRejected(e: UploadEvent, env: Services)
    requires e.records.None? ||
      (|e.records.value| > 0 && forall b, k, s :: e.records.value[0] != UploadRecord(b, k, s))
    ensures HandleUpload(e, env) == Invocation(Respond(400, Text(InvalidEventFormat)), [])
  {
    match ParseUpload(e)
    case Fields(b, k, s) =>
      assert false;
    case NoRecord =>
    case MissingField =>
  }

  /** Any event whose first record is complete gets past the parse. */
  lemma WellFormedEventAccepted(e: UploadEvent, env: Services, bucket: string, key: string, size: int)
    requires e.records.Some? && |e.records.value| > 0 && e.records.value[0] == UploadRecord(bucket, key, size)
    ensures HandleUpload(e, env).reply != Respond(400, Text(InvalidEventFormat))
  {
    ParseUploadFields(e, bucket, key, size);
  }

  /** A generated thumbnail's own notification is acknowledged without any work. */
  lemma ThumbnailKeySkipped(e: UploadEvent, env: Services, bucket: string, key: string, size: int)
    requires e.records.Some? && |e.records.value| > 0 && e.records.value[0] == UploadRecord(bucket, key, size)
    requires IsThumbnailKey(key)
    ensures HandleUpload(e, env) == Invocation(Respond(200, Text(NoThumbnailCreated)), [])
  {
    ParseUploadFields(e, bucket, key, size);
  }

  /**
   * Any other image is processed: 200 with the thumbnail's address and one
   * fetch, one upload and one record when every step succeeds, 500 otherwise.
   */
  lemma ImageProcessed(e: UploadEvent, env: Services, bucket: string, key: string, size: int)
    requires e.records.Some? && |e.records.value| > 0 && e.records.value[0] == UploadRecord(bucket, key, size)
    requires !IsThumbnailKey(key)
    ensures var inv := HandleUpload(e, env);
      && inv.reply.Respond?
      && (inv.reply.statusCode == 200 || inv.reply.statusCode == 500)
      && (inv.reply.statusCode == 200 <==> env.failsAt.None?)
      && (env.failsAt.None? ==>
            && inv.reply.body == Url("https://" + bucket + ".s3.amazonaws.com/" + NewFilename(key))
            && inv.calls == [
                 GetObject(bucket, key),
                 PutObject(bucket, NewFilename(key), "image/png"),
                 PutItem(ThumbnailRecord(env.recordId, inv.reply.body.url, size, env.createdAt, env.updatedAt))])
      && (env.failsAt.Some? ==> inv.reply.body == Text("Internal server error"))
  {
    ParseUploadFields(e, bucket, key, size);
  }

  /**
   * Loop prevention: the notification for any object the handler uploads is
   * skipped, whatever its size and whatever the environment does then.
   */
  lemma UploadedThumbnailNotReprocessed(e: UploadEvent, env: Services, c: Call, size: int, env': Services)
    requires c in HandleUpload(e, env).calls && c.PutObject?
    ensures HandleUpload(Notification(c.bucket, c.key, size), env') ==
      Invocation(Respond(200, Text(NoThumbnailCreated)), [])
  {
    var p := ParseUpload(e);
    assert p.Fields? && !IsThumbnailKey(p.key);
    var calls := ProcessingCalls(p.bucket, p.key, p.size, env);
    assert c == calls[1];
    ThumbnailKeySkipped(Notification(c.bucket, c.key, size), env', c.bucket, c.key, size);
  }

  /** The thumbnail is written to the bucket it was read from, never over the source object. */
  lemma ThumbnailBesideSource(e: UploadEvent, env: Services, get: Call, put: Call)
    requires get in HandleUpload(e, env).calls && get.GetObject?
    requires put in HandleUpload(e, env).calls && put.PutObject?
    ensures put.bucket == get.bucket && put.key != get.key
  {
    var p := ParseUpload(e);
    assert p.Fields? && !IsThumbnailKey(p.key);
    NewFilenameDiffersFromSource(p.key);
  }

  /**
   * Redelivering a notification that was processed successfully writes a
   * second record: the two differ only in what the environment supplied.
   */
  lemma RedeliveryWritesTwoRecords(e: UploadEvent, env: Services, env': Services)
    requires HandleUpload(e, env).reply.Respond? && HandleUpload(e, env).reply.body.Url?
    requires env'.failsAt.None?
    ensures var first := RecordsWritten(HandleUpload(e, env).calls);
      var second := RecordsWritten(HandleUpload(e, env').calls);
      var both := RecordsWritten(HandleUpload(e, env).calls + HandleUpload(e, env').calls);
      && |both| == 2
      && both[0].url == both[1].url && both[0].sourceSize == both[1].sourceSize
      && both[0].id == env.recordId && both[1].id == env'.recordId
  {
    var p := ParseUpload(e);
    assert p.Fields? && !IsThumbnailKey(p.key);
    var a := HandleUpload(e, env).calls;
    var b := HandleUpload(e, env').calls;
    RecordsWrittenAppend(a, b);
    ProcessingWritesOneRecord(p.bucket, p.key, p.size, env);
    ProcessingWritesOneRecord(p.bucket, p.key, p.size, env');
  }
}
