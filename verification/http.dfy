/**
 * The wire contract every service uses: the `{status, data, error,
 * pagination}` envelope and the replies a handler writes.
 */
module Http {
  import opened Wrappers
  import opened Entities

  const StatusOK := 200
  const StatusBadRequest := 400
  const StatusNotFound := 404
  const StatusInternalServerError := 500

  datatype Pagination = Pagination(page: int, pageSize: int, total: int, pageCount: int)

  /**
   * The loosely typed `data` field. `Null` is Go's nil: an omitted field,
   * a JSON `null`, or a nil slice.
   */
  datatype Data =
    | Null
    | Message(text: string)
    | Article(article: News)
    | Articles(articles: seq<News>)
    | CommentItem(comment: Comment)
    | CommentItems(commentList: seq<Comment>)
    | Aggregate(news: Data, comments: Data)

  datatype Envelope = Envelope(status: string, data: Data, error: string, pagination: Option<Pagination>)

  /** A reply body: a JSON envelope, or the plain text `http.Error` writes. */
  datatype Body = Json(envelope: Envelope) | PlainText(message: string)

  datatype Reply = Reply(code: int, body: Body) {
    predicate IsSuccess() {
      code == StatusOK && body.Json? && body.envelope.status == "success"
    }
  }

  /** Go's `http.Error(w, msg, code)`: a plain-text body with the given code. */
  function HttpError(code: int, message: string): (r: Reply)
    ensures r.code == code && r.body.PlainText? && !r.IsSuccess()
  {
    Reply(code, PlainText(message))
  }

  /** A `success` envelope written without an explicit status, hence 200. */
  function Success(data: Data, pagination: Option<Pagination>): (r: Reply)
    ensures r.IsSuccess()
    ensures r.body.envelope.data == data && r.body.envelope.pagination == pagination
  {
    Reply(StatusOK, Json(Envelope("success", data, "", pagination)))
  }
}
