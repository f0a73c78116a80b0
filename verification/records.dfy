/**
 * The two single-record handlers: `s3_get_thumbnail` and
 * `s3_delete_thumbnail`. The metadata table's answer to the one call each
 * makes is a parameter.
 */
module RecordHandlers {
  import opened Wrappers
  import opened Invocations

  datatype PathParameters = PathParameters(id: Option<string>)

  /** An HTTP request event; only its path parameters are read. */
  datatype PathEvent = PathEvent(pathParameters: Option<PathParameters>)

  /** The table's answer to one call: a response, or an exception it raises. */
  datatype StoreAnswer<+T> = Answered(response: T) | Failed

  datatype ResponseMetadata = ResponseMetadata(httpStatusCode: Option<int>)

  /** The response to `delete_item`; only its metadata is read. */
  datatype DeleteResponse = DeleteResponse(responseMetadata: Option<ResponseMetadata>)

  /** `event['pathParameters']['id']`, absent when either lookup fails. */
  function PathId(e: PathEvent): (id: Option<string>)
    ensures id.Some? <==> e.pathParameters.Some? && e.pathParameters.value.id.Some?
    ensures id.Some? ==> e.pathParameters == Some(PathParameters(Some(id.value)))
  {
    if e.pathParameters.None? then None else e.pathParameters.value.id
  }

  /** The status code a delete response reports, absent when a field is missing. */
  function ReportedStatus(r: DeleteResponse): (code: Option<int>)
    ensures code.Some? <==> r.responseMetadata.Some? && r.responseMetadata.value.httpStatusCode.Some?
    ensures code.Some? ==> r.responseMetadata == Some(ResponseMetadata(Some(code.value)))
  {
    if r.responseMetadata.None? then None else r.responseMetadata.value.httpStatusCode
  }

  /**
   * `s3_get_thumbnail`: the stored item, or the empty item when the table
   * has none under that id. `answer` is the table's answer to `get_item`.
   */
  function HandleGet(e: PathEvent, answer: StoreAnswer<Option<Item>>): (inv: Invocation)
    ensures PathId(e).None? ==> inv == Invocation(Raise(KeyError), [])
    ensures PathId(e).Some? && answer.Failed? ==> inv == Invocation(Raise(StoreError), [])
    ensures PathId(e).Some? && answer.Answered? ==>
      inv.calls == [GetItem(PathId(e).value)] && inv.reply.Respond? && inv.reply.statusCode == 200
    ensures inv.reply.Respond? && answer.Answered? && answer.response.Some? ==> inv.reply.body == One(answer.response.value)
    ensures inv.reply.Respond? && answer.Answered? && answer.response.None? ==> inv.reply.body == One(map[])
  {
    match PathId(e)
    case None => Invocation(Raise(KeyError), [])
    case Some(id) =>
      match answer
      case Failed => Invocation(Raise(StoreError), [])
      case Answered(item) => var body := if item.Some? then item.value else map[];
        Invocation(Respond(200, One(body)), [GetItem(id)])
  }

  /**
   * A table answer always gives status 200, and the body is empty exactly
   * when no item was found (or the item found was itself empty).
   */
  lemma GetNeverFailsOnAnswer(e: PathEvent, found: Option<Item>)
    requires PathId(e).Some?
    ensures HandleGet(e, Answered(found)).reply.Respond?
    ensures HandleGet(e, Answered(found)).reply.statusCode == 200
    ensures HandleGet(e, Answered(found)).reply.body == One(map[]) <==> found.None? || found == Some(map[])
  {
  }

  /**
   * `s3_delete_thumbnail`. The id is read outside the `try`, so a missing id
   * escapes as a `KeyError`; an exception from the table other than a
   * `KeyError` escapes too. `answer` is the table's answer to `delete_item`.
   */
  function HandleDelete(e: PathEvent, answer: StoreAnswer<DeleteResponse>): (inv: Invocation)
    ensures PathId(e).None? ==> inv == Invocation(Raise(KeyError), [])
    ensures PathId(e).Some? && answer.Failed? ==> inv == Invocation(Raise(StoreError), [])
    ensures PathId(e).Some? && answer.Answered? ==>
      inv.calls == [DeleteItem(PathId(e).value)] && inv.reply.Respond? && inv.reply.statusCode in {200, 400, 500}
  {
    match PathId(e)
    case None => Invocation(Raise(KeyError), [])
    case Some(id) =>
      match answer
      case Failed => Invocation(Raise(StoreError), [])
      case Answered(response) =>
        var reply :=
          match ReportedStatus(response)
          case None => Respond(400, Text(InvalidEventFormat))
          case Some(code) =>
            if code == 200 then Respond(200, Text(ThumbnailDeleted))
            else Respond(500, Text(InternalServerError));
        Invocation(reply, [DeleteItem(id)])
  }

  /**
   * The status mapping of a delete the table answered: 200 exactly when the
   * table reported 200, 500 exactly when it reported anything else, and 400
   * exactly when the report lacks its metadata or its status code.
   */
  lemma DeleteStatusMapping(e: PathEvent, response: DeleteResponse)
    requires PathId(e).Some?
    ensures var reply := HandleDelete(e, Answered(response)).reply;
      && reply.Respond?
      && (reply.statusCode == 200 <==> response == DeleteResponse(Some(ResponseMetadata(Some(200)))))
      && (reply.statusCode == 500 <==>
            exists code :: code != 200 && response == DeleteResponse(Some(ResponseMetadata(Some(code)))))
      && (reply.statusCode == 400 <==>
            response.responseMetadata.None? || response.responseMetadata.value.httpStatusCode.None?)
      && (reply.statusCode == 200 ==> reply.body == Text("Thumbnail deleted successfully"))
      && (reply.statusCode == 500 ==> reply.body == Text("Internal server error"))
      && (reply.statusCode == 400 ==> reply.body == Text("Invalid event format"))
  {
    var reply := HandleDelete(e, Answered(response)).reply;
    match ReportedStatus(response)
    case None =>
    case Some(code) =>
      if code != 200 {
        assert response == DeleteResponse(Some(ResponseMetadata(Some(code))));
      }
  }
}
