/**
 * The comment store: a table of comments keyed by an auto-increment id,
 * with create, paginated listing by news id, and delete. The SQL table is
 * a map from id to comment; `nextId` is the AUTOINCREMENT counter (ids are
 * never reused) and `clock` the last timestamp handed out.
 */
module CommentStore {
  import opened Wrappers
  import opened Text
  import opened Strconv
  import opened Paging
  import opened Entities
  import opened Http

  datatype Store = Store(rows: map<int, Comment>, nextId: int, clock: int)

  /** A freshly created table. */
  const EmptyStore := Store(map[], 1, 0)

  /** The longest accepted comment text, in bytes. */
  const MaxTextBytes := 1000

  /**
   * The invariant every reachable table keeps: each row is stored under its
   * own id, ids lie in [1, nextId), and timestamps never decrease with ids.
   */
  ghost predicate Valid(s: Store) {
    && s.nextId >= 1
    && (forall k :: k in s.rows ==> 1 <= k < s.nextId && s.rows[k].id == k && s.rows[k].createdAt <= s.clock)
    && (forall k1, k2 :: k1 in s.rows && k2 in s.rows && k1 < k2 ==> s.rows[k1].createdAt <= s.rows[k2].createdAt)
  }

  lemma EmptyStoreValid()
    ensures Valid(EmptyStore)
  {
  }

  /** A handler's reply together with the table after it. */
  datatype Step = Step(store: Store, reply: Reply)

  /** The fields the create handler decodes; anything else in the body is ignored. */
  datatype CreateRequest = CreateRequest(newsId: int, parentId: Option<int>, text: string)

  /** Decoding a full comment object keeps only `news_id`, `parent_id` and `text`. */
  function DecodeCreateRequest(payload: Comment): CreateRequest {
    CreateRequest(payload.newsId, payload.parentId, payload.text)
  }

  const MsgBadBody := "Неверный формат тела запроса"
  const MsgBadNewsId := "NewsID должен быть положительным числом"
  const MsgEmptyText := "Текст комментария не может быть пустым"
  const MsgTextTooLong := "Текст комментария слишком длинный"
  const MsgNoParent := "Указанный parent_id не существует"

  /**
   * `CreateCommentHandler`. `request` is the decoded body (`None` when it
   * does not decode); `elapsed` is the time since the previous insert, so
   * the new row's `created_at` is `clock + elapsed`.
   */
  function CreateComment(s: Store, request: Option<CreateRequest>, elapsed: nat): (r: Step)
    ensures Valid(s) ==> Valid(r.store)
    ensures !r.reply.IsSuccess() ==> r.store == s && r.reply.code == StatusBadRequest
    ensures request.None? ==> r.reply == HttpError(StatusBadRequest, MsgBadBody)
    ensures request.Some? ==>
      var req := request.value;
      && (req.newsId <= 0 ==> r.reply == HttpError(StatusBadRequest, MsgBadNewsId))
      && (req.newsId > 0 && |req.text| == 0 ==> r.reply == HttpError(StatusBadRequest, MsgEmptyText))
      && (req.newsId > 0 && ByteLen(req.text) > MaxTextBytes ==> r.reply == HttpError(StatusBadRequest, MsgTextTooLong))
      && ((req.newsId > 0 && 0 < ByteLen(req.text) <= MaxTextBytes && req.parentId.Some? && req.parentId.value !in s.rows)
            ==> r.reply == HttpError(StatusBadRequest, MsgNoParent))
      && (r.reply.IsSuccess() <==>
            req.newsId > 0 && 0 < ByteLen(req.text) <= MaxTextBytes
            && (req.parentId.Some? ==> req.parentId.value in s.rows))
    ensures r.reply.IsSuccess() ==> r.reply.body.envelope.data.CommentItem?
    ensures r.reply.IsSuccess() && r.reply.body.envelope.data.CommentItem? ==>
      var c := r.reply.body.envelope.data.comment;
      && c.newsId == request.value.newsId && c.parentId == request.value.parentId && c.text == request.value.text
      && r.store.rows == s.rows[c.id := c]
      && c.id == s.nextId && r.store.nextId == s.nextId + 1
      && (Valid(s) ==> c.id !in s.rows && forall k :: k in s.rows ==> k < c.id && s.rows[k].createdAt <= c.createdAt)
  {
    match request
    case None => Step(s, HttpError(StatusBadRequest, MsgBadBody))
    case Some(req) =>
      if req.newsId <= 0 then Step(s, HttpError(StatusBadRequest, MsgBadNewsId))
      else if ByteLen(req.text) == 0 then Step(s, HttpError(StatusBadRequest, MsgEmptyText))
      else if ByteLen(req.text) > MaxTextBytes then Step(s, HttpError(StatusBadRequest, MsgTextTooLong))
      else if req.parentId.Some? && req.parentId.value !in s.rows then Step(s, HttpError(StatusBadRequest, MsgNoParent))
      else
        var now := s.clock + elapsed;
        var c := Comment(s.nextId, req.newsId, req.parentId, req.text, now);
        Step(Store(s.rows[c.id := c], s.nextId + 1, now), Success(CommentItem(c), None))
  }

  /**
   * The text limit counts bytes: 1000 ASCII characters are accepted, while
   * 1000 two-byte Cyrillic characters are rejected as too long.
   */
  lemma TextLimitCountsBytes(s: Store, newsId: int, ascii: string, cyrillic: string, elapsed: nat)
    requires newsId > 0
    requires |ascii| == MaxTextBytes && forall i :: 0 <= i < |ascii| ==> ascii[i] as int < 0x80
    requires |cyrillic| == MaxTextBytes && forall i :: 0 <= i < |cyrillic| ==> 0x400 <= cyrillic[i] as int <= 0x4FF
    ensures CreateComment(s, Some(CreateRequest(newsId, None, ascii)), elapsed).reply.IsSuccess()
    ensures CreateComment(s, Some(CreateRequest(newsId, None, cyrillic)), elapsed).reply
         == HttpError(StatusBadRequest, MsgTextTooLong)
  {
    AsciiByteLen(ascii);
    TwoByteLen(cyrillic);
  }

  lemma {:induction false} TwoByteLen(s: string)
    requires forall i :: 0 <= i < |s| ==> 0x80 <= s[i] as int < 0x800
    ensures ByteLen(s) == 2 * |s|
  {
    if |s| > 0 {
      TwoByteLen(s[..|s| - 1]);
    }
  }

  /** The create handler ignores a client-supplied id and created_at. */
  lemma CreateIgnoresClientIdAndTime(s: Store, payload: Comment, id: int, createdAt: int, elapsed: nat)
    ensures CreateComment(s, Some(DecodeCreateRequest(payload)), elapsed)
         == CreateComment(s, Some(DecodeCreateRequest(payload.(id := id, createdAt := createdAt))), elapsed)
  {
  }

  /** Ids of `rows` below `bound` (and at least 1) whose comment belongs to `newsId`, highest first. */
  function MatchingKeys(rows: map<int, Comment>, newsId: int, bound: int): (ks: seq<int>)
    ensures forall i :: 0 <= i < |ks| ==> ks[i] in rows && 1 <= ks[i] < bound && rows[ks[i]].newsId == newsId
    ensures forall k :: k in rows && 1 <= k < bound && rows[k].newsId == newsId ==> k in ks
    ensures forall i, j :: 0 <= i < j < |ks| ==> ks[i] > ks[j]
    decreases bound
  {
    if bound <= 1 then []
    else
      var k := bound - 1;
      (if k in rows && rows[k].newsId == newsId then [k] else []) + MatchingKeys(rows, newsId, k)
  }

  /** The ids `SELECT COUNT(*) ... WHERE news_id = ?` counts. */
  ghost function MatchingIds(s: Store, newsId: int): set<int> {
    set k | k in s.rows && s.rows[k].newsId == newsId
  }

  /** The comments of `newsId`, newest first (`ORDER BY created_at DESC`). */
  function Matching(s: Store, newsId: int): (cs: seq<Comment>)
    ensures Valid(s) ==> forall c :: c in cs <==> c.id in MatchingIds(s, newsId) && s.rows[c.id] == c
    ensures Valid(s) ==> forall i, j :: 0 <= i < j < |cs| ==> cs[i].createdAt >= cs[j].createdAt
    ensures forall i :: 0 <= i < |cs| ==> cs[i].newsId == newsId
  {
    var ks := MatchingKeys(s.rows, newsId, s.nextId);
    var cs := seq(|ks|, i requires 0 <= i < |ks| => s.rows[ks[i]]);
    assert Valid(s) ==> forall c :: c in cs <==> c.id in MatchingIds(s, newsId) && s.rows[c.id] == c by {
      if Valid(s) {
        forall c: Comment | c.id in MatchingIds(s, newsId) && s.rows[c.id] == c ensures c in cs {
          var i :| 0 <= i < |ks| && ks[i] == c.id;
          assert cs[i] == c;
        }
      }
    }
    cs
  }

  /** The matching ids of `rows` in [1, bound). */
  ghost function IdsBelow(rows: map<int, Comment>, newsId: int, bound: int): set<int> {
    set k | k in rows && 1 <= k < bound && rows[k].newsId == newsId
  }

  /** Raising the bound by one adds the id just below it, if that id matches. */
  lemma IdsBelowStep(rows: map<int, Comment>, newsId: int, bound: int)
    requires bound > 1
    ensures var k := bound - 1;
      && k !in IdsBelow(rows, newsId, k)
      && IdsBelow(rows, newsId, bound)
         == IdsBelow(rows, newsId, k) + (if k in rows && rows[k].newsId == newsId then {k} else {})
  {
    var k := bound - 1;
    var below, rest := IdsBelow(rows, newsId, bound), IdsBelow(rows, newsId, k);
    var top: set<int> := if k in rows && rows[k].newsId == newsId then {k} else {};
    assert below == rest + top by {
      forall j | j in below ensures j in rest + top { }
      forall j | j in rest + top ensures j in below { }
    }
  }

  /** The number of keys `MatchingKeys` lists is the number of matching ids below the bound. */
  lemma {:induction false} MatchingKeysCount(rows: map<int, Comment>, newsId: int, bound: int)
    ensures |MatchingKeys(rows, newsId, bound)| == |IdsBelow(rows, newsId, bound)|
    decreases bound
  {
    if bound <= 1 {
      assert IdsBelow(rows, newsId, bound) == {};
    } else {
      var k := bound - 1;
      MatchingKeysCount(rows, newsId, k);
      IdsBelowStep(rows, newsId, bound);
    }
  }

  /** The listed comments are as many as COUNT(*) reports. */
  lemma MatchingCountsAll(s: Store, newsId: int)
    ensures Valid(s) ==> |Matching(s, newsId)| == |MatchingIds(s, newsId)|
  {
    MatchingKeysCount(s.rows, newsId, s.nextId);
    if Valid(s) {
      assert IdsBelow(s.rows, newsId, s.nextId) == MatchingIds(s, newsId);
    }
  }

  const MsgNewsIdRequired := "Параметр news_id обязателен"
  const MsgBadNewsIdParam := "Неверный формат параметра news_id"

  /**
   * The success reply of the listing: page `page` of the comments of
   * `newsId` (`LIMIT page_size OFFSET (page-1)*page_size`) with the
   * pagination block. The data is Go's nil slice, here `Null`, when the page
   * is empty.
   */
  function CommentsPage(s: Store, newsId: int, page: int, pageSize: int): (r: Reply)
    requires page >= 1 && pageSize >= 1
    ensures r.IsSuccess()
    ensures var e := r.body.envelope;
      && e.pagination == Some(Pagination(page, pageSize, |Matching(s, newsId)|, CeilDiv(|Matching(s, newsId)|, pageSize)))
      && (Valid(s) ==> e.pagination.value.total == |MatchingIds(s, newsId)|)
      && (e.data == Null || e.data.CommentItems?)
      && var items := if e.data == Null then [] else e.data.commentList;
         && items == Page(Matching(s, newsId), page, pageSize)
         && items == LimitOffset(Matching(s, newsId), pageSize, (page - 1) * pageSize)
         && |items| <= pageSize
  {
    var all := Matching(s, newsId);
    MatchingCountsAll(s, newsId);
    PageIsLimitOffset(all, page, pageSize);
    var items := LimitOffset(all, pageSize, (page - 1) * pageSize);
    Success(if |items| == 0 then Null else CommentItems(items),
            Some(Pagination(page, pageSize, |all|, CeilDiv(|all|, pageSize))))
  }

  /** `GetCommentsHandler`. Query values arrive as strings, `""` when absent. */
  function ListComments(s: Store, newsIdParam: string, pageParam: string, pageSizeParam: string): (r: Reply)
    ensures newsIdParam == "" ==> r == HttpError(StatusBadRequest, MsgNewsIdRequired)
    ensures newsIdParam != "" && Atoi(newsIdParam).None? ==> r == HttpError(StatusBadRequest, MsgBadNewsIdParam)
    ensures r.IsSuccess() <==> Atoi(newsIdParam).Some?
    ensures Atoi(newsIdParam).Some? ==>
      r == CommentsPage(s, Atoi(newsIdParam).value,
                        DefaultPage(AtoiOrZero(pageParam)), DefaultPageSize(AtoiOrZero(pageSizeParam)))
  {
    if newsIdParam == "" then HttpError(StatusBadRequest, MsgNewsIdRequired)
    else match Atoi(newsIdParam)
      case None => HttpError(StatusBadRequest, MsgBadNewsIdParam)
      case Some(newsId) =>
        CommentsPage(s, newsId, DefaultPage(AtoiOrZero(pageParam)), DefaultPageSize(AtoiOrZero(pageSizeParam)))
  }

  const MsgBadCommentId := "Неверный ID комментария"
  const MsgCommentNotFound := "Комментарий не найден"

  /** The success message naming the deleted id. */
  function DeletedMessage(id: int): string {
    "Комментарий с ID " + Itoa(id) + " удален"
  }

  /** `DeleteCommentHandler`: 400 for a non-numeric id, 404 for an absent one, else removes that row. */
  function DeleteComment(s: Store, idParam: string): (r: Step)
    ensures Valid(s) ==> Valid(r.store)
    ensures Atoi(idParam).None? ==> r == Step(s, HttpError(StatusBadRequest, MsgBadCommentId))
    ensures Atoi(idParam).Some? && Atoi(idParam).value !in s.rows ==> r == Step(s, HttpError(StatusNotFound, MsgCommentNotFound))
    ensures r.reply.IsSuccess() <==> Atoi(idParam).Some? && Atoi(idParam).value in s.rows
    ensures r.reply.IsSuccess() ==>
      var id := Atoi(idParam).value;
      && r.store.rows.Keys == s.rows.Keys - {id}
      && (forall k :: k in r.store.rows ==> r.store.rows[k] == s.rows[k])
      && r.store.nextId == s.nextId
  {
    match Atoi(idParam)
    case None => Step(s, HttpError(StatusBadRequest, MsgBadCommentId))
    case Some(id) =>
      if id !in s.rows then Step(s, HttpError(StatusNotFound, MsgCommentNotFound))
      else Step(s.(rows := s.rows - {id}), Success(Message(DeletedMessage(id)), None))
  }

  /** Deleting a comment leaves its replies in place: their parent id now points at nothing. */
  lemma DeleteKeepsChildren(s: Store, id: int, child: int)
    requires id in s.rows && child in s.rows && child != id && s.rows[child].parentId == Some(id)
    ensures var r := DeleteComment(s, Itoa(id));
      child in r.store.rows && r.store.rows[child].parentId == Some(id) && id !in r.store.rows
  {
    AtoiItoa(id);
  }

  /**
   * A comment created strictly later than every earlier insert is the newest
   * of its article: it heads the listing and every other listed comment is
   * strictly older, so `ORDER BY created_at DESC` puts it first whatever
   * order it gives equal timestamps.
   */
  lemma CreatedCommentListedFirst(s: Store, req: CreateRequest, elapsed: nat)
    requires Valid(s) && elapsed > 0
    requires CreateComment(s, Some(req), elapsed).reply.IsSuccess()
    ensures var r := CreateComment(s, Some(req), elapsed);
      var m := Matching(r.store, req.newsId);
      && |m| > 0 && m[0] == r.reply.body.envelope.data.comment
      && forall i :: 1 <= i < |m| ==> m[i].createdAt < m[0].createdAt
  {
    var r := CreateComment(s, Some(req), elapsed);
    var c := r.reply.body.envelope.data.comment;
    var ks := MatchingKeys(r.store.rows, req.newsId, r.store.nextId);
    var m := Matching(r.store, req.newsId);
    assert r.store.nextId == c.id + 1;
    assert ks[0] == c.id;
    assert c.createdAt == s.clock + elapsed;
    forall i | 1 <= i < |m| ensures m[i].createdAt < m[0].createdAt {
      assert m[i] == r.store.rows[ks[i]];
      assert ks[i] < ks[0];
      assert ks[i] in s.rows;
    }
  }

  /** Deleting a comment right after creating it restores every row; only the counter advanced. */
  lemma CreateThenDeleteRestoresRows(s: Store, req: CreateRequest, elapsed: nat)
    requires Valid(s)
    requires CreateComment(s, Some(req), elapsed).reply.IsSuccess()
    ensures var r := CreateComment(s, Some(req), elapsed);
      var id := r.reply.body.envelope.data.comment.id;
      var d := DeleteComment(r.store, Itoa(id));
      d.reply.IsSuccess() && d.store.rows == s.rows && d.store.nextId == s.nextId + 1
  {
    var r := CreateComment(s, Some(req), elapsed);
    var id := r.reply.body.envelope.data.comment.id;
    AtoiItoa(id);
    assert r.store.rows - {id} == s.rows;
  }
}
