/**
 * The object-created notification that triggers thumbnail generation. Every
 * dictionary level the handler indexes into is a record whose fields may be
 * absent; the fields the handler never reads are not modelled.
 */
module UploadEvents {
  import opened Wrappers

  datatype BucketEntity = BucketEntity(name: Option<string>)

  datatype ObjectEntity = ObjectEntity(key: Option<string>, size: Option<int>)

  datatype S3Entity = S3Entity(bucket: Option<BucketEntity>, s3Object: Option<ObjectEntity>)

  datatype EventRecord = EventRecord(s3: Option<S3Entity>)

  datatype UploadEvent = UploadEvent(records: Option<seq<EventRecord>>)

  /** How reading bucket, key and size out of the first record ends. */
  datatype Parsed =
    | Fields(bucket: string, key: string, size: int)
    | MissingField   // a `KeyError`: some dictionary level lacks its entry
    | NoRecord       // an `IndexError`: the record list is empty

  /** The record a store emits for one created object. */
  function UploadRecord(bucket: string, key: string, size: int): EventRecord {
    EventRecord(Some(S3Entity(Some(BucketEntity(Some(bucket))), Some(ObjectEntity(Some(key), Some(size))))))
  }

  /** A notification carrying exactly one created object. */
  function Notification(bucket: string, key: string, size: int): UploadEvent {
    UploadEvent(Some([UploadRecord(bucket, key, size)]))
  }

  /** The three lookups into `Records[0]` that open the upload handler. */
  function ParseUpload(e: UploadEvent): (p: Parsed)
    ensures p.NoRecord? <==> e.records == Some([])
    ensures p.Fields? ==>
      e.records.Some? && |e.records.value| > 0 && e.records.value[0] == UploadRecord(p.bucket, p.key, p.size)
  {
    match e.records
    case None => MissingField
    case Some(rs) =>
      if |rs| == 0 then NoRecord
      else
        var s3 := rs[0].s3;
        if s3.None? || s3.value.bucket.None? || s3.value.bucket.value.name.None? then MissingField
        else if s3.value.s3Object.None? then MissingField
        else
          var obj := s3.value.s3Object.value;
          if obj.key.None? || obj.size.None? then MissingField
          else Fields(s3.value.bucket.value.name.value, obj.key.value, obj.size.value)
  }

  /** Exactly the events whose first record names a bucket, a key and a size parse. */
  lemma ParseUploadFields(e: UploadEvent, bucket: string, key: string, size: int)
    ensures ParseUpload(e) == Fields(bucket, key, size) <==>
      e.records.Some? && |e.records.value| > 0 && e.records.value[0] == UploadRecord(bucket, key, size)
  {
  }

  /** Reading a notification gives back the object it was built from. */
  lemma ParseNotification(bucket: string, key: string, size: int)
    ensures ParseUpload(Notification(bucket, key, size)) == Fields(bucket, key, size)
  {
  }

  /** Only the first record is read: later records never change the outcome. */
  lemma ParseUploadReadsFirstRecordOnly(first: EventRecord, rest: seq<EventRecord>, rest': seq<EventRecord>)
    ensures ParseUpload(UploadEvent(Some([first] + rest))) == ParseUpload(UploadEvent(Some([first] + rest')))
  {
  }
}
