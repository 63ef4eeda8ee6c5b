/**
 * The API gateway: the listing proxy, the article-with-comments read and the
 * moderate-then-persist write. Each downstream HTTP call is an abstract
 * `Fetch` outcome supplied by the caller; a handler returns the calls it
 * issued, in order, together with its reply.
 */
module Gateway {
  import opened Wrappers
  import opened Text
  import opened Strconv
  import opened Entities
  import opened Http

  /** What reading a downstream response body produced. */
  datatype Payload =
    | ReadError
    | Body(raw: string, decoded: Option<Envelope>)  // `decoded` is None when the body is not a JSON envelope

  /** The outcome of one downstream HTTP call. */
  datatype Fetch = TransportError | Answer(code: int, payload: Payload)

  /** A downstream request, with the values the gateway puts on the wire. */
  datatype Call =
    | ListNews(page: string, pageSize: string, search: string)  // GET /news of the news source
    | NewsById(id: string)                                      // GET /news/{id} of the news source
    | CommentsOf(newsId: string)                                // GET /comments?news_id= of the comment store
    | CheckText(text: string)                                   // POST /check of the moderator
    | PostComment(comment: Comment)                             // POST /comments of the comment store

  /** The calls a request issued, in order, and the reply the client gets. */
  datatype Exchange = Exchange(calls: seq<Call>, reply: Reply)

  /** `sendResponse`: a `success` envelope with the given data and pagination. */
  function SendResponse(code: int, data: Data, pagination: Option<Pagination>): (r: Reply)
    ensures r.code == code && r.body.Json?
    ensures r.body.envelope.status == "success" && r.body.envelope.error == ""
    ensures r.body.envelope.data == data && r.body.envelope.pagination == pagination
  {
    Reply(code, Json(Envelope("success", data, "", pagination)))
  }

  /** `sendError`: an `error` envelope carrying only the message. */
  function SendError(code: int, message: string): (r: Reply)
    ensures r.code == code && r.body.Json? && !r.IsSuccess()
    ensures r.body.envelope.status == "error" && r.body.envelope.error == message
    ensures r.body.envelope.data == Null && r.body.envelope.pagination == None
  {
    Reply(code, Json(Envelope("error", Null, message, None)))
  }

  /** A downstream call that answered 200 with a readable, decodable envelope. */
  predicate Delivered(f: Fetch) {
    f.Answer? && f.code == StatusOK && f.payload.Body? && f.payload.decoded.Some?
  }

  /** A downstream envelope, or the reply that aborts the request. */
  datatype Received = Got(envelope: Envelope) | Abort(reply: Reply)

  /**
   * The steps shared by every downstream read: a transport or read failure
   * is a 500 with the step's message, a non-200 status is relayed with the
   * downstream body as the message, an undecodable body is a 500.
   */
  function Receive(f: Fetch, fetchFailed: string, readFailed: string, parseFailed: string): (r: Received)
    ensures r.Got? <==> Delivered(f)
    ensures r.Got? ==> r.envelope == f.payload.decoded.value
    ensures f.TransportError? ==> r == Abort(SendError(StatusInternalServerError, fetchFailed))
    ensures f.Answer? && f.payload.ReadError? ==> r == Abort(SendError(StatusInternalServerError, readFailed))
    ensures f.Answer? && f.payload.Body? && f.code != StatusOK ==> r == Abort(SendError(f.code, f.payload.raw))
    ensures f.Answer? && f.payload.Body? && f.code == StatusOK && f.payload.decoded.None?
            ==> r == Abort(SendError(StatusInternalServerError, parseFailed))
  {
    match f
    case TransportError => Abort(SendError(StatusInternalServerError, fetchFailed))
    case Answer(code, payload) =>
      match payload
      case ReadError => Abort(SendError(StatusInternalServerError, readFailed))
      case Body(raw, decoded) =>
        if code != StatusOK then Abort(SendError(code, raw))
        else match decoded
          case None => Abort(SendError(StatusInternalServerError, parseFailed))
          case Some(e) => Got(e)
  }

  const MaxSearchBytes := 100
  const MaxPageSize := 100
  const FallbackPageSize := 10
  /** The totals the listing reply always reports, whatever the news source said. */
  const FixedTotal := 100
  const FixedPageCount := 10

  /** `page < 1` becomes 1. */
  function ClampPage(page: int): (r: int)
    ensures r >= 1
    ensures page >= 1 ==> r == page
    ensures page < 1 ==> r == 1
  {
    if page < 1 then 1 else page
  }

  /** A page size outside [1, 100] becomes 10; one inside is kept. */
  function ClampPageSize(pageSize: int): (r: int)
    ensures 1 <= r <= MaxPageSize
    ensures 1 <= pageSize <= MaxPageSize ==> r == pageSize
    ensures !(1 <= pageSize <= MaxPageSize) ==> r == FallbackPageSize
  {
    if pageSize < 1 || pageSize > MaxPageSize then FallbackPageSize else pageSize
  }

  /**
   * `GetNews`: clamp page and page_size, reject a search longer than 100
   * bytes, forward the rest to the news source and relay its data with
   * fixed totals. An empty search is not put in the query, which the news
   * source reads as the empty search again, so it is recorded as given.
   */
  function GetNews(pageParam: string, pageSizeParam: string, search: string, news: Fetch): (x: Exchange)
    ensures ByteLen(search) > MaxSearchBytes ==>
      x.calls == [] && x.reply == SendError(StatusBadRequest, "Search query too long")
    ensures ByteLen(search) <= MaxSearchBytes ==>
      var page := ClampPage(AtoiOrZero(pageParam));
      var pageSize := ClampPageSize(AtoiOrZero(pageSizeParam));
      && x.calls == [ListNews(Itoa(page), Itoa(pageSize), search)]
      && (x.reply.IsSuccess() <==> Delivered(news))
      && (Delivered(news) ==>
            && x.reply.body.envelope.data == news.payload.decoded.value.data
            && x.reply.body.envelope.pagination == Some(Pagination(page, pageSize, FixedTotal, FixedPageCount)))
      && (!Delivered(news) ==>
            x.reply == Receive(news, "Failed to fetch news", "Failed to read news response", "Failed to parse news response").reply)
  {
    var page := ClampPage(AtoiOrZero(pageParam));
    var pageSize := ClampPageSize(AtoiOrZero(pageSizeParam));
    if ByteLen(search) > MaxSearchBytes then
      Exchange([], SendError(StatusBadRequest, "Search query too long"))
    else
      var calls := [ListNews(Itoa(page), Itoa(pageSize), search)];
      match Receive(news, "Failed to fetch news", "Failed to read news response", "Failed to parse news response")
      case Abort(r) => Exchange(calls, r)
      case Got(e) =>
        Exchange(calls, SendResponse(StatusOK, e.data, Some(Pagination(page, pageSize, FixedTotal, FixedPageCount))))
  }

  /** The id a path parameter names, if it is a positive integer. */
  function ParseNewsId(idParam: string): (r: Option<int>)
    ensures r.Some? <==> Atoi(idParam).Some? && Atoi(idParam).value >= 1
    ensures r.Some? ==> r.value == Atoi(idParam).value
  {
    match Atoi(idParam)
    case Some(id) => if id < 1 then None else Some(id)
    case None => None
  }

  /**
   * `GetNewsByID`: validate the id, fetch the article, and only once that
   * fully succeeded fetch its comments; the first failure aborts.
   */
  function GetNewsByID(idParam: string, news: Fetch, comments: Fetch): (x: Exchange)
    ensures ParseNewsId(idParam).None? ==>
      x.calls == [] && x.reply == SendError(StatusBadRequest, "Invalid news ID")
    ensures ParseNewsId(idParam).Some? ==>
      var id := Itoa(ParseNewsId(idParam).value);
      && (Delivered(news) ==> x.calls == [NewsById(id), CommentsOf(id)])
      && (!Delivered(news) ==> x.calls == [NewsById(id)])
    ensures x.reply.IsSuccess() <==> ParseNewsId(idParam).Some? && Delivered(news) && Delivered(comments)
    ensures ParseNewsId(idParam).Some? && !Delivered(news) ==>
      x.reply == Receive(news, "Failed to fetch news details", "Failed to read news details", "Failed to parse news details").reply
    ensures ParseNewsId(idParam).Some? && Delivered(news) && !Delivered(comments) ==>
      x.reply == Receive(comments, "Failed to fetch comments", "Failed to read comments", "Failed to parse comments").reply
    ensures x.reply.IsSuccess() ==>
      x.reply.body.envelope.data == Aggregate(news.payload.decoded.value.data, comments.payload.decoded.value.data)
  {
    match ParseNewsId(idParam)
    case None => Exchange([], SendError(StatusBadRequest, "Invalid news ID"))
    case Some(newsId) =>
      var first := [NewsById(Itoa(newsId))];
      match Receive(news, "Failed to fetch news details", "Failed to read news details", "Failed to parse news details")
      case Abort(r) => Exchange(first, r)
      case Got(article) =>
        var both := first + [CommentsOf(Itoa(newsId))];
        match Receive(comments, "Failed to fetch comments", "Failed to read comments", "Failed to parse comments")
        case Abort(r) => Exchange(both, r)
        case Got(list) => Exchange(both, SendResponse(StatusOK, Aggregate(article.data, list.data), None))
  }

  /** Once the article fetch failed, the comments outcome cannot influence the request. */
  lemma ArticleFailureIgnoresComments(idParam: string, news: Fetch, comments1: Fetch, comments2: Fetch)
    requires !Delivered(news)
    ensures GetNewsByID(idParam, news, comments1) == GetNewsByID(idParam, news, comments2)
  {
  }

  /** A failed article fetch: 500 for transport, read or parse failures, the source's status otherwise. */
  lemma ArticleFailureStatus(idParam: string, news: Fetch, comments: Fetch)
    requires ParseNewsId(idParam).Some? && !Delivered(news)
    ensures var r := GetNewsByID(idParam, news, comments).reply;
      && r.body.envelope.status == "error"
      && (if news.Answer? && news.payload.Body? && news.code != StatusOK
          then r.code == news.code && r.body.envelope.error == news.payload.raw
          else r.code == StatusInternalServerError)
  {
  }

  /**
   * `CreateComment`: moderate the text, and only when the moderator answered
   * 200 send the comment, as decoded, to the comment store.
   */
  function CreateComment(body: Option<Comment>, censor: Fetch, store: Fetch): (x: Exchange)
    ensures body.None? ==> x.calls == [] && x.reply == SendError(StatusBadRequest, "Invalid request body")
    ensures body.Some? ==> |x.calls| >= 1 && x.calls[0] == CheckText(body.value.text)
    ensures body.Some? && censor.TransportError? ==>
      x.calls == [CheckText(body.value.text)]
      && x.reply == SendError(StatusInternalServerError, "Failed to check comment for censorship")
    ensures body.Some? && censor.Answer? && censor.code != StatusOK ==>
      x.calls == [CheckText(body.value.text)]
      && x.reply == SendError(StatusBadRequest, "Comment contains forbidden words")
    ensures |x.calls| == 2 <==> body.Some? && censor.Answer? && censor.code == StatusOK
    ensures |x.calls| == 2 ==> x.calls[1] == PostComment(body.value) && x.calls[1].comment.text == x.calls[0].text
    ensures x.reply.IsSuccess() <==> body.Some? && censor.Answer? && censor.code == StatusOK && Delivered(store)
    ensures body.Some? && censor.Answer? && censor.code == StatusOK && !Delivered(store) ==>
      x.reply == Receive(store, "Failed to create comment", "Failed to read comment response", "Failed to parse comment response").reply
    ensures x.reply.IsSuccess() ==> x.reply.body.envelope.data == store.payload.decoded.value.data
  {
    match body
    case None => Exchange([], SendError(StatusBadRequest, "Invalid request body"))
    case Some(comment) =>
      var first := [CheckText(comment.text)];
      match censor
      case TransportError => Exchange(first, SendError(StatusInternalServerError, "Failed to check comment for censorship"))
      case Answer(code, _) =>
        if code != StatusOK then Exchange(first, SendError(StatusBadRequest, "Comment contains forbidden words"))
        else
          var both := first + [PostComment(comment)];
          match Receive(store, "Failed to create comment", "Failed to read comment response", "Failed to parse comment response")
          case Abort(r) => Exchange(both, r)
          case Got(e) => Exchange(both, SendResponse(StatusOK, e.data, None))
  }

  /** Unless the moderator answered 200, the store's outcome cannot influence the request. */
  lemma RejectedCommentIgnoresStore(body: Option<Comment>, censor: Fetch, store1: Fetch, store2: Fetch)
    requires !(censor.Answer? && censor.code == StatusOK)
    ensures CreateComment(body, censor, store1) == CreateComment(body, censor, store2)
    ensures forall k :: 0 <= k < |CreateComment(body, censor, store1).calls| ==>
              !CreateComment(body, censor, store1).calls[k].PostComment?
  {
  }

  /** "Could not check" (500) and "blocked" (400) are told apart by the status code. */
  lemma UnavailableDistinctFromBlocked(c: Comment, blocked: Fetch, store: Fetch)
    requires blocked.Answer? && blocked.code != StatusOK
    ensures CreateComment(Some(c), TransportError, store).reply.code == StatusInternalServerError
    ensures CreateComment(Some(c), blocked, store).reply.code == StatusBadRequest
  {
  }
}
