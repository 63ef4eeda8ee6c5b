/**
 * The services composed: a leaf service's reply, as the gateway receives
 * it, fed into the gateway's handlers.
 */
module EndToEnd {
  import opened Wrappers
  import opened Text
  import opened Strconv
  import opened Paging
  import opened Entities
  import opened Http
  import Censor
  import NewsAggregator
  import CommentStore
  import Gateway

  /**
   * What the gateway reads back from a leaf's reply: its status, its body
   * text and, for a JSON envelope, that envelope. A JSON body's text is
   * `json` (its exact bytes are not modelled); a plain-text `http.Error`
   * body is the message followed by a newline, and does not decode.
   */
  function Wire(r: Reply, json: string): (f: Gateway.Fetch)
    ensures f.Answer? && f.code == r.code && f.payload.Body?
    ensures r.body.Json? ==> f.payload.raw == json
    ensures r.body.PlainText? ==> f.payload.raw == r.body.message + "\n"
    ensures f.payload.decoded.Some? <==> r.body.Json?
    ensures r.body.Json? ==> f.payload.decoded.value == r.body.envelope
  {
    match r.body
    case Json(e) => Gateway.Answer(r.code, Gateway.Body(json, Some(e)))
    case PlainText(message) => Gateway.Answer(r.code, Gateway.Body(message + "\n", None))
  }

  /** A comment whose text the moderator bans never reaches the comment store and is a 400. */
  lemma BannedCommentNeverStored(order: seq<string>, c: Comment, raw: string, store: Gateway.Fetch)
    requires Censor.IsEnumeration(order, Censor.BannedWords)
    requires Censor.IsBanned(Censor.NewCensorService(order), c.text)
    ensures var censor := Wire(Censor.CheckHandler(Censor.NewCensorService(order), Some(Censor.CheckRequest(c.text))), raw);
      var x := Gateway.CreateComment(Some(c), censor, store);
      && x.calls == [Gateway.CheckText(c.text)]
      && x.reply == Gateway.SendError(StatusBadRequest, "Comment contains forbidden words")
  {
  }

  /**
   * A clean, valid comment goes through both stages: the client gets the
   * stored comment, whose id is the store's next id whatever id the client
   * sent, with the submitted article, parent and text.
   */
  lemma CleanCommentStored(order: seq<string>, s: CommentStore.Store, c: Comment, elapsed: nat, raw1: string, raw2: string)
    requires Censor.IsEnumeration(order, Censor.BannedWords)
    requires !Censor.IsBanned(Censor.NewCensorService(order), c.text)
    requires CommentStore.Valid(s)
    requires c.newsId > 0 && 0 < ByteLen(c.text) <= CommentStore.MaxTextBytes
    requires c.parentId.Some? ==> c.parentId.value in s.rows
    ensures var censor := Wire(Censor.CheckHandler(Censor.NewCensorService(order), Some(Censor.CheckRequest(c.text))), raw1);
      var step := CommentStore.CreateComment(s, Some(CommentStore.DecodeCreateRequest(c)), elapsed);
      var x := Gateway.CreateComment(Some(c), censor, Wire(step.reply, raw2));
      && x.calls == [Gateway.CheckText(c.text), Gateway.PostComment(c)]
      && x.reply.IsSuccess()
      && x.reply.body.envelope.data.CommentItem?
      && var stored := x.reply.body.envelope.data.comment;
         && stored.id == s.nextId && stored.id !in s.rows
         && stored.newsId == c.newsId && stored.parentId == c.parentId && stored.text == c.text
         && step.store.rows == s.rows[stored.id := stored]
  {
  }

  /** The news source receives exactly the clamped page and page size the gateway computed. */
  lemma ListingForwardsClampedValues(pageParam: string, pageSizeParam: string, search: string, news: Gateway.Fetch)
    requires ByteLen(search) <= Gateway.MaxSearchBytes
    ensures var x := Gateway.GetNews(pageParam, pageSizeParam, search, news);
      var call := x.calls[0];
      var p := NewsAggregator.GetNewsHandler(call.page, call.pageSize, call.search).body.envelope.pagination.value;
      && p.page == Gateway.ClampPage(AtoiOrZero(pageParam))
      && p.pageSize == Gateway.ClampPageSize(AtoiOrZero(pageSizeParam))
  {
    var page := Gateway.ClampPage(AtoiOrZero(pageParam));
    var pageSize := Gateway.ClampPageSize(AtoiOrZero(pageSizeParam));
    AtoiItoa(page);
    AtoiItoa(pageSize);
  }

  /**
   * The listing reply reports 100 items in 10 pages while the catalogue
   * reports its real total: the two disagree for every search.
   */
  lemma ListingTotalsAreFixed(pageParam: string, pageSizeParam: string, search: string, raw: string)
    requires ByteLen(search) <= Gateway.MaxSearchBytes
    ensures var x := Gateway.GetNews(pageParam, pageSizeParam, search, Gateway.Answer(StatusOK, Gateway.Body(raw, None)));
      x.reply.code == StatusInternalServerError
    ensures var call := Gateway.ListNews(Itoa(Gateway.ClampPage(AtoiOrZero(pageParam))),
                                         Itoa(Gateway.ClampPageSize(AtoiOrZero(pageSizeParam))), search);
      var leaf := NewsAggregator.GetNewsHandler(call.page, call.pageSize, call.search);
      var x := Gateway.GetNews(pageParam, pageSizeParam, search, Wire(leaf, raw));
      && x.reply.IsSuccess()
      && x.reply.body.envelope.pagination.value.total == Gateway.FixedTotal
      && leaf.body.envelope.pagination.value.total <= |NewsAggregator.Catalogue| < Gateway.FixedTotal
  {
    NewsAggregator.CatalogueIds();
  }

  /**
   * The article view asks the comment store without page parameters, so
   * the store answers with its defaults: page 1 of at most 10 comments, and
   * a `null` list for an article without comments.
   */
  lemma ArticleViewShowsFirstTenComments(s: CommentStore.Store, newsId: int)
    requires CommentStore.Valid(s) && newsId >= 1
    ensures var leaf := CommentStore.ListComments(s, Itoa(newsId), "", "");
      && leaf.IsSuccess()
      && leaf.body.envelope.pagination.value.page == 1
      && leaf.body.envelope.pagination.value.pageSize == 10
      && (leaf.body.envelope.data.CommentItems? ==> |leaf.body.envelope.data.commentList| <= 10)
      && (CommentStore.MatchingIds(s, newsId) == {} ==> leaf.body.envelope.data == Null)
  {
    AtoiItoa(newsId);
    var leaf := CommentStore.ListComments(s, Itoa(newsId), "", "");
    CommentStore.MatchingCountsAll(s, newsId);
  }

  /**
   * An article id the catalogue lacks is relayed as the news source's 404:
   * the client gets a JSON error whose message is the news source's
   * plain-text body, newline included.
   */
  lemma MissingArticleRelaysNotFound(newsId: int, raw: string, comments: Gateway.Fetch)
    requires newsId > 5
    ensures var leaf := NewsAggregator.GetNewsByIDHandler(Itoa(newsId));
      var x := Gateway.GetNewsByID(Itoa(newsId), Wire(leaf, raw), comments);
      && x.calls == [Gateway.NewsById(Itoa(newsId))]
      && x.reply == Gateway.SendError(StatusNotFound, NewsAggregator.MsgNotFound + "\n")
  {
    AtoiItoa(newsId);
    NewsAggregator.LookupFindsCatalogueIds(newsId);
  }
}
