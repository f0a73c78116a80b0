/**
 * What one invocation of a handler produces: the reply it returns (or the
 * Python exception that escapes it) and the calls it makes on the object
 * store and on the metadata table, in order.
 */
module Invocations {
  import opened Wrappers

  /** A metadata item as the table returns it: attribute name to value. */
  type Item = map<string, string>

  /**
   * The record written after a successful upload. `sourceSize` is the byte size
   * from the triggering event, from which the approximate thumbnail size is
   * derived; id and timestamps come from the environment.
   */
  datatype ThumbnailRecord = ThumbnailRecord(
    id: string, url: string, sourceSize: int, createdAt: string, updatedAt: string)

  datatype Call =
    | GetObject(bucket: string, key: string)
    | PutObject(bucket: string, key: string, contentType: string)
    | PutItem(record: ThumbnailRecord)
    | GetItem(id: string)
    | DeleteItem(id: string)
    | Scan(exclusiveStartKey: Option<string>)

  /** The JSON body of a reply. */
  datatype Body =
    | Text(message: string)
    | Url(url: string)
    | One(item: Item)
    | Many(items: seq<Item>)

  /** Exceptions that can escape a handler. */
  datatype Fault = KeyError | IndexError | StoreError

  datatype Reply = Respond(statusCode: int, body: Body) | Raise(fault: Fault)

  datatype Invocation = Invocation(reply: Reply, calls: seq<Call>)

  const InvalidEventFormat: string := "Invalid event format"
  const NoThumbnailCreated: string := "No thumbnail created"
  const InternalServerError: string := "Internal server error"
  const ThumbnailDeleted: string := "Thumbnail deleted successfully"

  /** The records a sequence of calls writes to the metadata table, in order. */
  function RecordsWritten(calls: seq<Call>): (rs: seq<ThumbnailRecord>)
    ensures |rs| <= |calls|
    ensures forall r :: r in rs <==> PutItem(r) in calls
  {
    if |calls| == 0 then []
    else (if calls[0].PutItem? then [calls[0].record] else []) + RecordsWritten(calls[1..])
  }

  /** Records written by consecutive invocations are those of each, in order. */
  lemma {:induction false} RecordsWrittenAppend(a: seq<Call>, b: seq<Call>)
    ensures RecordsWritten(a + b) == RecordsWritten(a) + RecordsWritten(b)
  {
    if |a| == 0 {
      assert a + b == b;
    } else {
      assert (a + b)[1..] == a[1..] + b;
      RecordsWrittenAppend(a[1..], b);
    }
  }
}
