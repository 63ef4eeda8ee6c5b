/**
 * The news source: a fixed catalogue of five articles, listed with
 * case-insensitive search and page/page_size pagination, or looked up by id.
 */
module NewsAggregator {
  import opened Wrappers
  import opened Text
  import opened Strconv
  import opened Paging
  import opened Entities
  import opened Http

  /** The catalogue both handlers serve, in its fixed order. */
  const Catalogue: seq<News> := [
    News(1, "Новость 1", "Это содержание первой новости", DateTime(2023, 1, 15, 10, 30)),
    News(2, "Новость 2", "Это содержание второй новости", DateTime(2023, 1, 16, 14, 45)),
    News(3, "Новость 3", "Это содержание третьей новости", DateTime(2023, 1, 17, 9, 20)),
    News(4, "Новость 4", "Это содержание четвертой новости", DateTime(2023, 1, 18, 16, 10)),
    News(5, "Новость 5", "Это содержание пятой новости", DateTime(2023, 1, 19, 11, 5))
  ]

  /** Ids strictly increase along `items`. */
  predicate IdsIncreasing(items: seq<News>) {
    forall i, j :: 0 <= i < j < |items| ==> items[i].id < items[j].id
  }

  /** The catalogue holds ids 1 to 5, in that order. */
  lemma CatalogueIds()
    ensures |Catalogue| == 5
    ensures forall i :: 0 <= i < |Catalogue| ==> Catalogue[i].id == i + 1
    ensures IdsIncreasing(Catalogue)
  {
  }

  /** The title or the content contains `search`, ignoring case. */
  predicate Matches(n: News, search: string) {
    ContainsIgnoreCase(n.title, search) || ContainsIgnoreCase(n.content, search)
  }

  /** The items `keep` accepts, visited in order (the handler's loop). */
  function FilterBy(items: seq<News>, keep: News -> bool): (r: seq<News>)
    ensures |r| <= |items|
  {
    if |items| == 0 then []
    else FilterBy(items[..|items| - 1], keep) + (if keep(items[|items| - 1]) then [items[|items| - 1]] else [])
  }

  /** The filter keeps exactly the items `keep` accepts. */
  lemma {:induction false} FilterByMembers(items: seq<News>, keep: News -> bool)
    ensures forall n :: n in FilterBy(items, keep) <==> n in items && keep(n)
  {
    if |items| > 0 {
      var init, last := items[..|items| - 1], items[|items| - 1];
      assert items == init + [last];
      FilterByMembers(init, keep);
    }
  }

  /** Filtering keeps the ids increasing. */
  lemma {:induction false} FilterByOrdered(items: seq<News>, keep: News -> bool)
    requires IdsIncreasing(items)
    ensures IdsIncreasing(FilterBy(items, keep))
  {
    if |items| > 0 {
      var init, last := items[..|items| - 1], items[|items| - 1];
      assert IdsIncreasing(init);
      FilterByOrdered(init, keep);
      FilterByMembers(init, keep);
      forall n | n in init ensures n.id < last.id {
        var j :| 0 <= j < |init| && init[j] == n;
        assert items[j] == n;
      }
    }
  }

  /** Filtering distributes over concatenation, so it keeps the order of the input. */
  lemma {:induction false} FilterByAppend(a: seq<News>, b: seq<News>, keep: News -> bool)
    ensures FilterBy(a + b, keep) == FilterBy(a, keep) + FilterBy(b, keep)
    decreases |b|
  {
    if |b| == 0 {
      assert a + b == a;
    } else {
      var ab, b', last := a + b, b[..|b| - 1], b[|b| - 1];
      assert ab[..|ab| - 1] == a + b';
      assert ab[|ab| - 1] == last;
      FilterByAppend(a, b', keep);
    }
  }

  /** A filter that accepts every item keeps the sequence as it is. */
  lemma {:induction false} FilterByKeepsAll(items: seq<News>, keep: News -> bool)
    requires forall i :: 0 <= i < |items| ==> keep(items[i])
    ensures FilterBy(items, keep) == items
  {
    if |items| > 0 {
      var init := items[..|items| - 1];
      FilterByKeepsAll(init, keep);
      assert init + [items[|items| - 1]] == items;
    }
  }

  /** The items whose title or content contains `search`, ignoring case, in their original order. */
  function FilterMatching(items: seq<News>, search: string): (r: seq<News>)
    ensures forall n :: n in r <==> n in items && Matches(n, search)
    ensures IdsIncreasing(items) ==> IdsIncreasing(r)
  {
    FilterByMembers(items, n => Matches(n, search));
    if IdsIncreasing(items) then
      FilterByOrdered(items, n => Matches(n, search));
      FilterBy(items, n => Matches(n, search))
    else
      FilterBy(items, n => Matches(n, search))
  }

  /** Filtering by a search distributes over concatenation, so it keeps the catalogue's order. */
  lemma FilterAppend(a: seq<News>, b: seq<News>, search: string)
    ensures FilterMatching(a + b, search) == FilterMatching(a, search) + FilterMatching(b, search)
  {
    FilterByAppend(a, b, n => Matches(n, search));
  }

  /** Every article contains the empty search. */
  lemma EmptySearchMatches(n: News)
    ensures Matches(n, "")
  {
    assert Lower("") == [];
    ContainsEmpty(Lower(n.title), []);
  }

  /** The empty search matches every item. */
  lemma EmptySearchKeepsAll(items: seq<News>)
    ensures FilterMatching(items, "") == items
  {
    forall i | 0 <= i < |items| ensures Matches(items[i], "") {
      EmptySearchMatches(items[i]);
    }
    FilterByKeepsAll(items, n => Matches(n, ""));
  }

  /** The handler's filter: an empty search skips filtering. */
  function Filter(items: seq<News>, search: string): seq<News> {
    if search == "" then items else FilterMatching(items, search)
  }

  /** The filtered list is exactly the matching items, in catalogue order, for every search. */
  lemma FilterIsMatching(items: seq<News>, search: string)
    ensures Filter(items, search) == FilterMatching(items, search)
    ensures forall n :: n in Filter(items, search) <==> n in items && Matches(n, search)
  {
    if search == "" {
      EmptySearchKeepsAll(items);
    }
  }

  /**
   * `GetNewsHandler`. The query values arrive as strings (`""` when
   * absent). The data is Go's nil slice, here `Null`, exactly when a
   * non-empty search matched nothing.
   */
  function GetNewsHandler(pageParam: string, pageSizeParam: string, search: string): (r: Reply)
    ensures r.IsSuccess() && r.body.envelope.pagination.Some?
    ensures var p := r.body.envelope.pagination.value;
      var filtered := Filter(Catalogue, search);
      && p.page == DefaultPage(AtoiOrZero(pageParam))
      && p.pageSize == DefaultPageSize(AtoiOrZero(pageSizeParam))
      && p.total == |filtered|
      && p.pageCount == CeilDiv(|filtered|, p.pageSize)
      && (r.body.envelope.data == Null <==> search != "" && |filtered| == 0)
      && (r.body.envelope.data != Null ==>
            r.body.envelope.data == Articles(Page(filtered, p.page, p.pageSize)))
  {
    var page := DefaultPage(AtoiOrZero(pageParam));
    var pageSize := DefaultPageSize(AtoiOrZero(pageSizeParam));
    var filtered := Filter(Catalogue, search);
    var b := PageBounds(|filtered|, page, pageSize);
    var data := if search != "" && |filtered| == 0 then Null else Articles(filtered[b.start..b.end]);
    Success(data, Some(Pagination(page, pageSize, |filtered|, CeilDiv(|filtered|, pageSize))))
  }

  /** The articles of one listing reply; `Null` stands for none. */
  function ReplyItems(r: Reply): seq<News> {
    if r.body.Json? && r.body.envelope.data.Articles? then r.body.envelope.data.articles else []
  }

  /** The articles of the reply to page `page`, with `page` and `page_size` printed as decimals. */
  function ServedPage(search: string, page: nat, pageSize: nat): (items: seq<News>)
    requires page >= 1 && pageSize >= 1
    ensures items == Page(Filter(Catalogue, search), page, pageSize)
  {
    AtoiItoa(page);
    AtoiItoa(pageSize);
    var filtered := Filter(Catalogue, search);
    assert search != "" && |filtered| == 0 ==> Page(filtered, page, pageSize) == [];
    ReplyItems(GetNewsHandler(Itoa(page), Itoa(pageSize), search))
  }

  /** The articles served for pages 1..k, requested with `page_size` = `pageSize`, concatenated. */
  function ServedPages(search: string, pageSize: nat, k: nat): seq<News>
    requires pageSize >= 1
  {
    if k == 0 then [] else ServedPages(search, pageSize, k - 1) + ServedPage(search, k, pageSize)
  }

  /** Each served page is the matching slice of the filtered catalogue. */
  lemma {:induction false} ServedPagesArePages(search: string, pageSize: nat, k: nat)
    requires pageSize >= 1
    ensures ServedPages(search, pageSize, k) == Pages(Filter(Catalogue, search), pageSize, k)
  {
    if k > 0 {
      var filtered := Filter(Catalogue, search);
      ServedPagesArePages(search, pageSize, k - 1);
      assert ServedPage(search, k, pageSize) == Page(filtered, k, pageSize);
      assert Pages(filtered, pageSize, k) == Pages(filtered, pageSize, k - 1) + Page(filtered, k, pageSize);
    }
  }

  /** Requesting pages 1..page_count in turn returns every filtered article exactly once, in order. */
  lemma {:induction false} ServedPagesReassemble(search: string, pageSize: nat)
    requires pageSize >= 1
    ensures ServedPages(search, pageSize, CeilDiv(|Filter(Catalogue, search)|, pageSize)) == Filter(Catalogue, search)
  {
    ServedPagesArePages(search, pageSize, CeilDiv(|Filter(Catalogue, search)|, pageSize));
    PagesReassemble(Filter(Catalogue, search), pageSize);
  }

  /** The first item with id `id`. */
  function FindById(items: seq<News>, id: int): (r: Option<News>)
    ensures r.Some? ==> r.value in items && r.value.id == id
    ensures r.None? <==> forall i :: 0 <= i < |items| ==> items[i].id != id
  {
    if |items| == 0 then None
    else if items[0].id == id then Some(items[0])
    else FindById(items[1..], id)
  }

  const MsgBadId := "Неверный ID новости"
  const MsgNotFound := "Новость не найдена"

  /** `GetNewsByIDHandler`: 400 for a non-numeric id, the article if present, else 404. */
  function GetNewsByIDHandler(idParam: string): (r: Reply)
    ensures Atoi(idParam).None? ==> r == HttpError(StatusBadRequest, MsgBadId)
    ensures Atoi(idParam).Some? ==>
      var id := Atoi(idParam).value;
      && (r.IsSuccess() <==> exists i :: 0 <= i < |Catalogue| && Catalogue[i].id == id)
      && (r.IsSuccess() ==> r.body.envelope.data.Article? && r.body.envelope.data.article in Catalogue
                            && r.body.envelope.data.article.id == id)
      && (!r.IsSuccess() ==> r == HttpError(StatusNotFound, MsgNotFound))
  {
    match Atoi(idParam)
    case None => HttpError(StatusBadRequest, MsgBadId)
    case Some(id) =>
      match FindById(Catalogue, id)
      case Some(n) => Success(Article(n), None)
      case None => HttpError(StatusNotFound, MsgNotFound)
  }

  /** Exactly the ids 1..5 are found. */
  lemma LookupFindsCatalogueIds(id: int)
    ensures FindById(Catalogue, id).Some? <==> 1 <= id <= 5
    ensures FindById(Catalogue, id).Some? ==> FindById(Catalogue, id).value == Catalogue[id - 1]
  {
    CatalogueIds();
  }
}
