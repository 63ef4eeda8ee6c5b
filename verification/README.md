# News-with-comments services: a verified model of the request logic

This project models, in Dafny, the request-level decision logic of four
cooperating HTTP services:

- the **API gateway** (`api-gateway/main.go`): the listing proxy, the
  article-with-comments read and the moderate-then-persist comment write;
- the **comment store** (`comment-service/main.go`): create, paginated
  listing by news id, delete, over a table with an auto-increment id;
- the **news source** (`news-aggregator/main.go`): a fixed five-article
  catalogue with case-insensitive search, pagination and lookup by id;
- the **moderator** (`censor-service/main.go`): the banned-word check.

HTTP, JSON and SQLite are abstracted away. Each handler is a pure function.
The comment store is a state machine: a `Store` holds a map from id to
comment, the AUTOINCREMENT counter `nextId` and the last timestamp handed
out. A downstream call of the gateway is an abstract `Fetch` outcome:
a transport error, or an answer with a status code and a body that was
either unreadable or read as raw text plus its decoded envelope (if it
decoded). Each gateway handler returns the calls it issued, in order,
together with its reply. That is how "no downstream call is made" and
"persist only after moderation passed" are stated.

Files: `wrappers.dfy` (Option), `text.dfy` (UTF-8 byte length, lower
case, substring search), `strconv.dfy` (Atoi/Itoa), `paging.dfy`
(defaulting, ceiling division, page slicing, SQL LIMIT/OFFSET),
`entities.dfy`, `http.dfy` (envelope, replies), `censor.dfy`, `news.dfy`,
`comments.dfy`, `gateway.dfy`, and `endtoend.dfy` (leaf replies fed into
the gateway).

Facts about the code that the model makes explicit:

- The article-with-comments read fetches sequentially. The comments are
  requested only after the article fetch fully succeeded
  (api-gateway/main.go:243, then :269).
- The gateway asks for comments without page parameters, so the comment
  store applies its defaults: the article view shows page 1 of at most 10
  comments (`EndToEnd.ArticleViewShowsFirstTenComments`). An article
  without comments gets a `null` comment list.
- The listing reply echoes the clamped page and page size with a fixed
  total of 100 and 10 pages; the news source's own pagination is dropped
  (api-gateway/main.go:224-229, `EndToEnd.ListingTotalsAreFixed`).
- The 1000 limit on comment text counts bytes, not characters
  (comment-service/main.go:198, `CommentStore.TextLimitCountsBytes`).
- `news-aggregator/main.go` calls `strings.Contains`/`strings.ToLower` at
  line 278 without importing `strings` (imports at lines 3-17). The model
  gives `containsIgnoreCase` its evident meaning.

## Model

| member | source | states |
|---|---|---|
| Text.ByteLen | comment-service/main.go:193-201 | Go's `len` of a string is its UTF-8 byte count: between the character count and four times it, and zero exactly for the empty string |
| Text.Index | news-aggregator/main.go:277-279 | the first occurrence of a substring, or -1 exactly when the substring occurs nowhere |
| Text.LowerIdempotent | censor-service/main.go:179 | lower-casing an already lower-cased text changes nothing |
| Strconv.Atoi | api-gateway/main.go:235 | a string is accepted exactly when it is an optional `+` or `-` followed by at least one decimal digit; the value is the digits' decimal value, negated after a `-` |
| Strconv.AtoiItoa | api-gateway/main.go:193-194 | every integer printed in decimal for a downstream query is read back unchanged |
| Strconv.AtoiLeadingZero | comment-service/main.go:253 | a leading zero or a `+` sign does not change the value read |
| Paging.DefaultPage | news-aggregator/main.go:133-136 | a non-positive page becomes 1; a positive page is kept |
| Paging.DefaultPageSize | news-aggregator/main.go:138-141 | a non-positive page size becomes 10; a positive one is kept, with no upper bound |
| Paging.CeilDiv | news-aggregator/main.go:204 | `page_count` pages hold all `total` items and one page fewer would not; it is zero exactly when there are no items |
| Paging.CeilDivIsLeast | comment-service/main.go:297 | no smaller page count holds all items |
| Paging.PageBounds | news-aggregator/main.go:192-200 | `0 <= start <= end <= len`, at most page_size items, empty past the end, otherwise starting at `(page-1)*page_size` |
| Paging.PageIsLimitOffset | comment-service/main.go:278-279 | a page equals SQL's `LIMIT page_size OFFSET (page-1)*page_size` |
| Paging.PagesReassemble | news-aggregator/main.go:192-204 | pages 1..page_count concatenated reproduce the whole list |
| Paging.PastLastPageEmpty | news-aggregator/main.go:193-195 | every page after page_count is empty |
| Censor.NewCensorService | censor-service/main.go:31-56 | whatever the map iteration order, the pattern's alternatives are exactly the banned words |
| Censor.MatchString | censor-service/main.go:42-47 | an alternation of literal words matches exactly when one of the words occurs in the text |
| Censor.BannedWordsWellFormed | censor-service/main.go:33-38 | there are three banned words, each non-empty and already lower case |
| Censor.IsBannedIffWordOccurs | censor-service/main.go:177-183 | a text is banned exactly when some banned word is a substring of its lower-cased form |
| Censor.VerdictIndependentOfOrder | censor-service/main.go:42-47 | the verdict is the same for every order in which the words were joined |
| Censor.IsBannedIgnoresCase | censor-service/main.go:179-182 | a text and its lower-cased form get the same verdict |
| Censor.EmptyTextNotBanned | censor-service/main.go:177-183 | the empty text is never banned |
| Censor.BannedSurvivesWrapping | censor-service/main.go:177-183 | any prefix and suffix around a banned text keep it banned |
| Censor.CheckHandler | censor-service/main.go:155-174 | success exactly for a decodable body whose text is not banned; a malformed body and a banned text both give 400 |
| NewsAggregator.CatalogueIds | news-aggregator/main.go:146-177 | the catalogue holds five articles with ids 1 to 5 in increasing order |
| NewsAggregator.FilterByMembers | news-aggregator/main.go:182-186 | the append loop keeps an item if and only if the predicate accepts it |
| NewsAggregator.FilterByOrdered | news-aggregator/main.go:182-186 | the append loop keeps the input's increasing id order |
| NewsAggregator.FilterByAppend | news-aggregator/main.go:182-186 | the append loop over a concatenation is the concatenation of the two loops' results |
| NewsAggregator.FilterByKeepsAll | news-aggregator/main.go:182-186 | when the predicate accepts every item the loop rebuilds the input unchanged |
| NewsAggregator.EmptySearchKeepsAll | news-aggregator/main.go:181-189 | every article contains the empty search, so filtering with it keeps the whole list |
| NewsAggregator.FilterMatching | news-aggregator/main.go:180-186 | the result holds exactly the articles whose title or content contains the search ignoring case, in increasing id order |
| NewsAggregator.FilterAppend | news-aggregator/main.go:182-186 | filtering distributes over concatenation, so the catalogue order is kept |
| NewsAggregator.FilterIsMatching | news-aggregator/main.go:180-189 | skipping the filter for an empty search gives the same list as filtering, so the list is always exactly the matching articles |
| NewsAggregator.GetNewsHandler | news-aggregator/main.go:132-217 | always success; pagination echoes the defaulted page and size, total is the filtered count, page_count its ceiling; data is that page of the filtered list, or null exactly when a non-empty search matched nothing |
| NewsAggregator.ServedPagesReassemble | news-aggregator/main.go:192-204 | requesting pages 1..page_count in turn returns every filtered article once, in order |
| NewsAggregator.FindById | news-aggregator/main.go:262-271 | returns an article of the list with the requested id, and nothing exactly when no article has that id |
| NewsAggregator.GetNewsByIDHandler | news-aggregator/main.go:220-274 | a non-numeric id gives 400 "invalid id"; success exactly when the catalogue has that id, returning that article; otherwise 404 "not found" |
| NewsAggregator.LookupFindsCatalogueIds | news-aggregator/main.go:229-273 | exactly ids 1..5 are found, each as the article at that position |
| CommentStore.EmptyStoreValid | comment-service/main.go:152-163 | the freshly created table satisfies the store invariant |
| CommentStore.CreateComment | comment-service/main.go:174-241 | checks run in the order body, news_id, empty, too long (over 1000 bytes), parent; every rejection is 400 and leaves the table unchanged; a success inserts exactly one row under the AUTOINCREMENT id `nextId`, which is above every id ever assigned, advances the counter by one, and stores the submitted fields and a timestamp no earlier than any other; the invariant is preserved |
| CommentStore.TextLimitCountsBytes | comment-service/main.go:193-201 | 1000 ASCII characters are accepted, 1000 two-byte Cyrillic characters are rejected as too long |
| CommentStore.CreateIgnoresClientIdAndTime | comment-service/main.go:176-180 | a client-supplied id or created_at has no effect on the outcome |
| CommentStore.MatchingKeys | comment-service/main.go:278 | lists exactly the ids of the article's comments, each once, highest first |
| CommentStore.Matching | comment-service/main.go:278-295 | the listing holds exactly the stored comments of the article, ordered non-increasing by created_at |
| CommentStore.MatchingCountsAll | comment-service/main.go:270-275 | the number of listed comments equals `COUNT(*)` of the article's comments |
| CommentStore.CommentsPage | comment-service/main.go:269-309 | the page has at most page_size comments, is the LIMIT/OFFSET window of the ordered listing, and total and page_count are the count and its ceiling |
| CommentStore.ListComments | comment-service/main.go:245-311 | a missing news_id gives 400, then a non-numeric one gives 400; otherwise the listing of the defaulted page and page size |
| CommentStore.DeleteComment | comment-service/main.go:314-344 | a non-numeric id gives 400 and an unknown id 404, both leaving the table unchanged; otherwise exactly that row is removed, every other row and the id counter are kept |
| CommentStore.DeleteKeepsChildren | comment-service/main.go:331-336 | deleting a comment leaves its replies in place, still naming the deleted parent |
| CommentStore.CreatedCommentListedFirst | comment-service/main.go:214-215 | a comment created later than every earlier insert heads its article's listing, and every other listed comment has a strictly earlier created_at, so `ORDER BY created_at DESC` puts it first |
| CommentStore.CreateThenDeleteRestoresRows | comment-service/main.go:214-240 | deleting the comment just created restores every row, and the id is not reused |
| Gateway.SendResponse | api-gateway/main.go:367-375 | status "success", no error text, the given data and pagination |
| Gateway.SendError | api-gateway/main.go:378-385 | status "error" with the message, no data and no pagination |
| Gateway.Receive | api-gateway/main.go:200-222 | transport and read failures give 500; a non-200 status is relayed with the downstream body; an undecodable body gives 500; only a 200 decodable answer passes |
| Gateway.ClampPage | api-gateway/main.go:170-173 | the forwarded page is at least 1 and a valid page is kept |
| Gateway.ClampPageSize | api-gateway/main.go:174-177 | the forwarded page size lies in [1,100]; an in-range value is kept and any other becomes exactly 10 |
| Gateway.GetNews | api-gateway/main.go:169-230 | a search over 100 bytes gives 400 with no downstream call; otherwise exactly one call with the clamped values, and success exactly when the news source delivered, echoing its data with total 100 and page_count 10; a failed fetch gets the shared failure reply (500, or the downstream status and body) |
| Gateway.ParseNewsId | api-gateway/main.go:234-239 | an id is accepted exactly when it parses and is at least 1 |
| Gateway.GetNewsByID | api-gateway/main.go:233-300 | an invalid id gives 400 with no call; comments are requested only after the article was delivered; success exactly when both were delivered, carrying both data values; a failed article fetch, and a failed comments fetch after a delivered article, get the shared failure reply with that step's messages: 500, or the downstream status and body |
| Gateway.ArticleFailureIgnoresComments | api-gateway/main.go:241-269 | once the article fetch failed, the comments outcome cannot affect the result |
| Gateway.ArticleFailureStatus | api-gateway/main.go:243-265 | a failed article fetch is an error reply: the downstream status and body for a non-200 answer, 500 otherwise |
| Gateway.CreateComment | api-gateway/main.go:303-364 | a bad body gives 400 with no call; the moderator sees the text first; a moderator transport error gives 500 and a non-200 gives 400 "forbidden words", neither reaching the store; the store receives the same comment, and success carries its data; a failed store call gets the shared failure reply: 500, or the store's status and body |
| Gateway.RejectedCommentIgnoresStore | api-gateway/main.go:319-339 | unless the moderator answered 200 the store is never called and its outcome cannot affect the result |
| Gateway.UnavailableDistinctFromBlocked | api-gateway/main.go:319-329 | "could not check" (500) and "blocked" (400) have different status codes |
| EndToEnd.Wire | api-gateway/main.go:352-361 | the gateway sees a leaf's status and body; a plain-text error body is the message plus the newline `http.Error` appends; only a JSON envelope decodes |
| EndToEnd.BannedCommentNeverStored | api-gateway/main.go:319-329 | a comment the moderator bans gets 400 and only the moderator is called |
| EndToEnd.CleanCommentStored | api-gateway/main.go:331-363 | a clean, valid comment is stored and returned with the store's next id, whatever id the client sent, and the submitted fields |
| EndToEnd.ListingForwardsClampedValues | api-gateway/main.go:192-198 | the news source reads exactly the clamped page and page size the gateway computed |
| EndToEnd.ListingTotalsAreFixed | api-gateway/main.go:224-229 | the listing reports total 100 while the catalogue reports at most 5; an undecodable answer gives 500 |
| EndToEnd.ArticleViewShowsFirstTenComments | api-gateway/main.go:268 | the comment store answers the gateway with page 1 of at most 10 comments, and null when the article has none |
| EndToEnd.MissingArticleRelaysNotFound | api-gateway/main.go:256-259 | an article id beyond the catalogue is relayed as the news source's 404 with its "not found" text (newline included) as the error message, without asking for comments |

## Left out

- Process plumbing: `main`, server start and graceful shutdown, signal handling, `getEnv`, `Config`, and the `Home` and health endpoints.
- Middleware (request ids, logging, the 30-second timeout, CORS, panic recovery) and `generateRequestID`: none of them decides anything.
- Real HTTP calls, URL building and `io.ReadAll`: each downstream call is an abstract `Fetch` given as a parameter. Timeouts appear only as a transport error.
- The URL-parse failure in `GetNews` and the `json.Marshal` failures in `CreateComment`: the URL is a configured constant, and these values always marshal.
- JSON encoding and decoding: a body's decode is an `Option`. The gateway decodes `data` into an untyped value; the model passes the typed value through unchanged. A reply's raw body text is an abstract string.
- A leaf's plain-text error reply keeps its message alone; the newline `http.Error` appends is added where the gateway reads the body (`EndToEnd.Wire`).
- SQLite failures (the 500 paths of the comment store) and the foreign-key clause. SQLite does not enforce the clause by default, so nothing cascades.
- Wall-clock time: `created_at` comes from an abstract clock that advances by a caller-supplied `elapsed` per insert.
- CommentStore.Matching: lists equal timestamps by descending id. The SQL query promises no tie order, so the contract claims only a non-increasing `created_at`.
- Strconv.Atoi: does not model Go's 64-bit range error. Integers are unbounded throughout, and so are `(page-1)*page_size` and `total + page_size - 1`.
- Text.LowerChar: maps only ASCII A-Z and Cyrillic U+0400..U+042F to lower case. The rest of Unicode case mapping and invalid UTF-8 are not modelled.
- The Go `regexp` engine: the pattern is an alternation of `QuoteMeta`-escaped literals, so it is modelled as "some word occurs".
- The check-then-insert race on `parent_id`: the model is sequential, and the code has no concurrency.
