# Serverless thumbnail generator — Dafny model

This project models the decision and string logic of `handler.py`, a set of
AWS Lambda handlers. When an image is uploaded to an S3 bucket, the upload
handler fetches it, crops it to a square thumbnail, stores the thumbnail in the
same bucket under a derived `_thumbnail.png` key, and writes a metadata record
with the thumbnail's public URL to a DynamoDB table. Three more handlers get,
delete and list those records.

The model is purely functional. Each handler returns an `Invocation`, made of:

- the reply: a status code and a body, or the Python exception that escapes the handler;
- the calls the object store and the table carried out, in order.

"No processing happened" is stated as an empty call list. Answers from S3,
DynamoDB and the image library are parameters:

- `Services` gives the first processing step that raises, the fresh record id and the two clock readings;
- `StoreAnswer` is the table's answer to get or delete;
- a sequence of `Page`s is what the table serves to successive scans.

Modules:

- `ThumbnailKeys` (keys.dfy) has the thumbnail suffix, the skip test, Python's `rsplit('.', 1)` and `new_filename`.
- `UploadEvents` (events.dfy) is the notification event. Each dictionary level is a record whose fields are `Option`s. It also has the three lookups that open the upload handler.
- `Invocations` (invocations.dfy) holds replies, bodies, store calls and the metadata record.
- `UploadHandler` (upload.dfy) is `s3_thumbnail_generator` and the URL construction of `upload_to_s3`.
- `RecordHandlers` (records.dfy) is `s3_get_thumbnail` and `s3_delete_thumbnail`.
- `ScanHandler` (scan.dfy) is the pagination loop of `s3_get_thumbnails_urls`, written as a method with loop invariants.

Behaviours of the code that are easy to miss:

- An event whose `Records` list is empty raises `IndexError`. Only `KeyError` is caught, so this escapes the upload handler and is not a 400.
- In the delete handler the id is read outside the `try`. A request without an id therefore escapes with `KeyError` rather than returning 400. The same holds for the get handler.
- An exception raised by the table in get or delete is not a `KeyError`, so it escapes. It is not turned into a 500.
- `createdAt` and `updatedAt` come from two separate clock reads, which may differ.
- Delete returns 400 only when the table's response lacks its metadata or its status code.

## Model

| member | source | states |
|---|---|---|
| ThumbnailKeys.LastIndexOf | handler.py:52 | the last occurrence of the separator: it holds the character and nothing after it does; absent exactly when the character does not occur |
| ThumbnailKeys.RSplitOnce | handler.py:52 | `rsplit(sep, 1)` gives one part, the whole key, exactly when `sep` does not occur; otherwise two parts that rejoin around `sep` to the key, the second free of `sep` |
| ThumbnailKeys.NewFilename | handler.py:51-53 | every derived key ends with `_thumbnail.png`, so it passes the skip test, and it is at most the suffix longer than the key |
| ThumbnailKeys.NewFilenameWithoutDot | handler.py:51-53 | a key without a dot becomes the key followed by `_thumbnail.png` |
| ThumbnailKeys.NewFilenameWithDot | handler.py:51-53 | a key `stem.rest` with no dot in `rest` becomes `stem_thumbnail.png`, whatever `rest` holds |
| ThumbnailKeys.NewFilenameCrossesDirectory | handler.py:51-53 | the dropped part may contain a `/`: `photos.v2/cat` becomes `photos_thumbnail.png` |
| ThumbnailKeys.NewFilenameOfNestedKey | handler.py:51-53 | `foo/bar.jpg` becomes `foo/bar_thumbnail.png` |
| ThumbnailKeys.NewFilenameOfPlainKey | handler.py:51-53 | `nodot` becomes `nodot_thumbnail.png` |
| ThumbnailKeys.NewFilenameDiffersFromSource | handler.py:27-53 | for a key that is not a thumbnail key, the derived key differs from it |
| UploadEvents.ParseUpload | handler.py:17-23 | an empty record list, and only that, is an index fault; a parse that succeeds returns the bucket, key and size of the first record |
| UploadEvents.ParseUploadFields | handler.py:17-23 | the parse yields (bucket, key, size) exactly when the first record carries that bucket name, key and size |
| UploadEvents.ParseNotification | handler.py:18-20 | parsing a one-record notification returns the object it describes |
| UploadEvents.ParseUploadReadsFirstRecordOnly | handler.py:18-20 | records after the first never change the parse |
| Invocations.RecordsWritten | handler.py:78-86 | a record is among those written exactly when a `put_item` of it is among the calls |
| Invocations.RecordsWrittenAppend | handler.py:78-86 | the records written by consecutive invocations are those of the first followed by those of the second |
| UploadHandler.ObjectUrl | handler.py:69 | the URL is `https://<bucket>.s3.amazonaws.com/` followed by exactly the key |
| UploadHandler.ObjectUrlInjective | handler.py:69 | two keys of one bucket never share a URL |
| UploadHandler.ProcessingCalls | handler.py:41-86 | a full run makes three calls: it fetches the source object, puts a PNG under a thumbnail key in the same bucket, and records that object's URL with the event's size and the drawn id |
| UploadHandler.CallsBefore | handler.py:28-37 | a fetch failure leaves no completed call, and a record failure leaves two (fetch and upload); every other step leaves one |
| UploadHandler.ProcessingWritesOneRecord | handler.py:55-86 | a successful run writes exactly one record: the configured id and clock readings, the thumbnail's URL and the event's size |
| UploadHandler.Process | handler.py:28-37 | processing returns 200 exactly when no step raises, with the thumbnail URL; otherwise 500 "Internal server error". The completed calls are a prefix of fetch, upload and record, all of them exactly on success, and a failed run writes no record. A fetch failure leaves no call; a decode, resize, encode or upload failure leaves only the fetch; a record failure leaves the fetch and the PNG upload, an object with no metadata record |
| UploadHandler.HandleUpload | handler.py:14-39 | the handler raises exactly when `Records` is empty, an `IndexError` with no calls; otherwise it answers 200, 400 or 500, and a 400 is "Invalid event format" with no calls |
| UploadHandler.MalformedEventRejected | handler.py:17-23 | an event without records, or whose first record lacks the bucket name, key or size, gets 400 "Invalid event format" and no fetch, upload or record |
| UploadHandler.WellFormedEventAccepted | handler.py:17-27 | an event whose first record is complete is never answered with 400 |
| UploadHandler.ThumbnailKeySkipped | handler.py:27-39 | a key ending in `_thumbnail.png` gets 200 "No thumbnail created" and no store call |
| UploadHandler.ImageProcessed | handler.py:27-37 | any other key gets 200 or 500 only. It gets 200 exactly when no step raises, with the URL built from the same bucket and the derived key, after one fetch of the source, one PNG upload of the thumbnail and one record of that URL and the event's size. Otherwise it gets 500 "Internal server error" |
| UploadHandler.UploadedThumbnailNotReprocessed | handler.py:27-53 | loop prevention: the notification for any object the handler uploaded is skipped, with no work |
| UploadHandler.ThumbnailBesideSource | handler.py:29-33 | the thumbnail goes to the bucket the image came from, and never over the image itself |
| UploadHandler.RedeliveryWritesTwoRecords | handler.py:75-86 | processing the same notification twice writes two records with the same URL and size, carrying the id each invocation drew |
| RecordHandlers.PathId | handler.py:99 | the id is present exactly when both path lookups succeed |
| RecordHandlers.ReportedStatus | handler.py:104 | the status code is present exactly when the response carries metadata with a status code |
| RecordHandlers.HandleGet | handler.py:90-96 | a missing id escapes as `KeyError` with no call, and a table exception escapes. An answered lookup gives 200 with the item, or the empty item when there is none |
| RecordHandlers.GetNeverFailsOnAnswer | handler.py:92-94 | an answered lookup always gives 200; the body is empty exactly when no item, or an empty item, was found |
| RecordHandlers.HandleDelete | handler.py:98-110 | a missing id escapes as `KeyError` with no call, and a table exception escapes. An answered delete makes exactly one delete call for the id and answers 200, 400 or 500 |
| RecordHandlers.DeleteStatusMapping | handler.py:101-110 | 200 "Thumbnail deleted successfully" exactly when the table reported 200; 500 "Internal server error" exactly when it reported another code; 400 "Invalid event format" exactly when the table's response lacks its metadata or status code |
| ScanHandler.LastPage | handler.py:118 | scanning stops at the first page without a continuation key; every earlier page has one |
| ScanHandler.FlattenSnoc | handler.py:120 | extending the scanned pages by one page extends the items by that page's items |
| ScanHandler.FlattenLength | handler.py:116-120 | the accumulated list is as long as the pages' item counts summed |
| ScanHandler.FlattenPosition | handler.py:116-120 | item `k` of page `i` sits right after all items of the pages before it |
| ScanHandler.ListThumbnails | handler.py:113-122 | the reply is 200 with every item of the pages up to the first one without a continuation key, in order. There is one scan per such page: the first without a start key, each later one starting from the previous page's continuation key |
| ScanHandler.ListedItemsInPageOrder | handler.py:115-122 | the listed items are as many as the scanned pages hold, and each page's items appear in page order |

## Left out

- S3 `get_object`/`put_object` and DynamoDB `put_item`/`get_item`/`delete_item`/`scan` are network calls. Their outcomes are parameters: `Services.failsAt`, `StoreAnswer`, the page sequence.
- Image decoding, `ImageOps.fit` with Lanczos resampling and PNG encoding belong to the image library and use floating point. Each is one step that may raise. The square dimensions of the output are not modelled.
- `approxReducedSize`, `str(float(size * 0.53) / 1000) + " KB"`, is Python float arithmetic and float formatting. The record carries the event's size it is computed from instead.
- `uuid.uuid4()` and `datetime.now()` depend on the environment. They are the `Services` fields `recordId`, `createdAt` and `updatedAt`.
- Configuration read at import time (thumbnail size, table name, region) only feeds the left-out calls.
- `print` logging, `json.dumps` encoding of bodies, the get reply's headers and `isBase64Encoded` flag, and the unused `context` argument are presentation only.
- The model gives object keys type `string` and sizes type `int`. So the `AttributeError` a non-string key would raise at handler.py:27 cannot arise, nor the `TypeError` a non-numeric size would raise at handler.py:76.
- ScanHandler.ListThumbnails: the pages are given in the order the table serves them, so how a continuation key selects the next page is not modelled. It requires that some page ends the scan, and a table exception during the scan is not modelled.
