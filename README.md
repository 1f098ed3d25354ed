# news-svc posts, modelled in Dafny

The news service keeps blog posts in MongoDB. It serves them through HTML
handlers that answer both full-page requests and htmx fragment requests. This
project models the four layers that make up the post core. It proves what each
layer promises, on its own and to the layer above it.

- **Entity** (`entity.dfy`, module `Entity`) covers the `Post` record and its
  two-step validation. It also covers the stored document: `MarshalBSON`
  builds it as an ordered list of key/value elements, leaving out `_id` for a
  post without an id and rejecting a malformed id. `UnmarshalBSON` copies the
  decoded fields back into the caller's post. ObjectIDs (`objectid.dfy`,
  module `ObjectIds`) are 24 hexadecimal digits. Parsing accepts either case,
  printing writes lower case, and generated ids come from a counter.
- **Service** (`service.dfy`, module `Service`) is a validation gate in front
  of Create and Update, plus page and limit defaults: page 1, limit 10 for
  listings and 5 for the recent list. The repository behind it is a value
  holding the seven operations, the same shape as the test doubles.
- **Repository** (`repo.dfy`, module `Storage`) is a class. It holds the
  `posts` collection as a map from ObjectID to stored post, a clock that
  stands for `time.Now`, and a counter for generated ids. Create, Update and
  Delete change it in place. The listings sort by creation time, newest first.
  They skip `max((page-1)*limit, 0)` posts and apply the driver's limit rule:
  0 means no limit, and a negative limit means its absolute value. Search
  filters with a case-insensitive substring match on the title or the
  content.
- **Handler** (`handler.dfy`, module `Handler`) models each handler as a
  method. It takes the service and a request record, and returns what a
  fresh response recorder holds afterwards: the status, the headers, the
  directly written text and the templates rendered, in order. The query
  parameters are read with the same rules as `strconv.ParseInt` and
  `strings.TrimSpace` (`text.dfy`, module `Text`).

`listing.dfy` (module `Listing`) ties the layers together. For a listing that
is not empty, the page count shown by the list page is exactly the number of
non-empty pages; an empty listing still shows one page, which is empty. The
handler's page and limit reach the repository unchanged. `scenarios.dfy`
(module `Scenarios`) follows the repository's own test runs through the
class model, on a fresh repository each.

## Model

| member | source | states |
|---|---|---|
| Entity.Validate | internal/entity/post/entity.go:32-40 | An empty title always gives `ErrEmptyTitle`. `ErrEmptyContent` comes exactly when the title is set and the content is empty. The post passes if and only if both are non-empty. |
| Entity.Marshal | internal/entity/post/entity.go:42-64 | Without an id the document holds exactly title, content, created_at and updated_at, in that order and with no `_id`. A non-hex id is the parse error. A valid id puts `_id` first, as that ObjectID, followed by the same four elements. |
| Entity.Unmarshal | internal/entity/post/entity.go:66-79 | Fails exactly when decoding fails, with that error. Otherwise the id is the hex of a well-formed ObjectID. |
| Entity.UnmarshalFields | internal/entity/post/entity.go:66-79 | A document is accepted exactly when every `_id` element holds an ObjectID, every title and content element a string, and every time element a datetime; otherwise the error names the key of the first element that does not fit. On success each field is the value of the last element with its key, or the zero value when there is none. The id is the hex of that ObjectID, or of the nil ObjectID. |
| Entity.DecodeFromFields | internal/entity/post/entity.go:67-71 | Decoding leaves each field holding the value of the last element with its key, or the value it started with when there is none. |
| Entity.DecodeFromFails | internal/entity/post/entity.go:67-71 | Decoding fails exactly when some element does not fit its field, and it reports the key of the first such element. |
| Entity.RoundTripWithId | internal/entity/post/entity.go:42-79 | With a valid hex id, unmarshalling the marshalled post gives back the id in lower case and the title and content exactly. Both times come back rounded down to the millisecond. A lower-case id comes back unchanged. |
| Entity.RoundTripWithoutId | internal/entity/post/entity.go:43-50 | Without an id, the document has no `_id`, and reading it back gives the nil ObjectID's hex as id with the rest preserved. |
| Entity.TruncateWithinMillisecond | internal/entity/post/entity.go:47-48 | A stored time is at most one millisecond early, and storing it again changes nothing. |
| Entity.PostRef.UnmarshalBSON | internal/entity/post/entity.go:66-79 | On success, the five fields of the caller's post are replaced by the decoded ones. On a decoding error it returns that error and leaves the post unchanged. |
| ObjectIds.FromHex | internal/entity/post/entity.go:52-55 | Succeeds if and only if the text is 24 hex digits. A wrong length is an invalid-hex error, and otherwise the first bad character is reported. The digits give the ObjectID's nibbles. |
| ObjectIds.FromHexOfHex | internal/entity/post/entity.go:72 | Parsing the hex of an ObjectID gives the same ObjectID. |
| ObjectIds.HexOfFromHex | internal/storage/mongo/post/repo.go:40 | Printing a parsed id gives the text back in lower case, and a lower-case id comes back unchanged. |
| ObjectIds.HexInjective | internal/storage/mongo/post/repo.go:40 | Distinct ObjectIDs have distinct hex ids. |
| Service.Create | internal/service/post/service.go:8-14 | An invalid post gets its validation error whatever the repository would do. A valid one gets exactly the repository's id or error. |
| Service.GetAll | internal/service/post/service.go:16-25 | The repository is asked for page 1 when page ≤ 0 and limit 10 when limit ≤ 0. Positive values are passed unchanged, and its answer is returned as it is. |
| Service.GetByID | internal/service/post/service.go:27-29 | The repository's answer, unchanged. |
| Service.Update | internal/service/post/service.go:31-37 | An invalid post gets its validation error. A valid post gets exactly the repository's outcome for that same post. |
| Service.Delete | internal/service/post/service.go:39-41 | The repository's answer, unchanged. |
| Service.Search | internal/service/post/service.go:43-52 | Same page and limit defaults as GetAll. The query is forwarded unchanged. |
| Service.GetRecent | internal/service/post/service.go:54-60 | A limit ≤ 0 becomes 5. A positive limit is forwarded. |
| Service.NormalizePage | internal/service/post/service.go:17-19 | At least 1. A positive page is kept, and anything else becomes 1. |
| Service.NormalizeLimit | internal/service/post/service.go:20-22 | At least 1. A positive limit is kept, and anything else becomes the call's default. |
| Service.NormalizeIdempotent | internal/service/post/service.go:17-22 | Normalising twice is normalising once. |
| Service.ListingArgumentsPositive | internal/service/post/service.go:17-22 | The repository never sees a page or limit below 1. A positive page reaches it unchanged. |
| Service.New | internal/service/post/service.go:8-60 | Each operation of the service built over a repository is the corresponding function above. |
| Storage.Repository.constructor | internal/storage/mongo/post/repo.go:19-21 | An empty collection satisfying the repository invariant. |
| Storage.Repository.Create | internal/storage/mongo/post/repo.go:23-41 | Stamps the caller's post with one clock reading as both created_at and updated_at. A post without an id gets the next generated ObjectID. A malformed id fails with the parse error and stores nothing. An id already stored fails with a duplicate-key error and stores nothing. Otherwise exactly one post is added under a key not stored before, and its hex is returned. The stored post is the unmarshalled inserted document, and the invariant is kept. |
| Storage.Repository.GetAll | internal/storage/mongo/post/repo.go:43-66 | The total is the size of the whole collection. The posts are the window of the newest-first listing at skip `max((page-1)*limit, 0)` with the driver's limit rule. They are stored posts, newest first, at most `abs(limit)` of them, and none once the skip passes the end. |
| Storage.Repository.GetByID | internal/storage/mongo/post/repo.go:68-86 | A malformed id is its parse error, never `ErrPostNotFound`. A well-formed id that is not stored is `ErrPostNotFound`. A lookup succeeds exactly when the id parses to a stored key, and then returns that stored post, whose id is the requested ObjectID's hex. |
| Storage.Repository.Update | internal/storage/mongo/post/repo.go:88-116 | A malformed id fails with nothing changed. Otherwise the caller's updated_at takes the next clock reading. An absent id is `ErrPostNotFound` with the collection unchanged. A stored one gets the new title, content and updated_at and nothing else: created_at stays and updated_at moves strictly forward. |
| Storage.Repository.Delete | internal/storage/mongo/post/repo.go:118-136 | A malformed id is its parse error. An absent id is `ErrPostNotFound`. Otherwise exactly that post is removed. After any well-formed id, GetByID reports `ErrPostNotFound`. |
| Storage.Repository.Search | internal/storage/mongo/post/repo.go:138-168 | The total is the number of matching posts. The posts are the same window over the matching posts, newest first. Each is a stored post whose title or content contains the query, ignoring case. |
| Storage.Repository.GetRecent | internal/storage/mongo/post/repo.go:170-185 | The newest-first listing with no skip. For a positive limit that is its first `min(limit, n)` posts. |
| Storage.SearchEmptyIsGetAll | internal/storage/mongo/post/repo.go:143-148 | An empty query matches every post, so Search with it is GetAll. |
| Storage.ByRecency | internal/storage/mongo/post/repo.go:51 | Sorting by `{created_at: -1}` lists every stored post exactly once, newest first. |
| Storage.DescendingUnique | internal/storage/mongo/post/repo.go:51 | Two newest-first listings of the same posts are equal, so the sort has one answer. |
| Storage.ByRecencyIs | internal/storage/mongo/post/repo.go:51 | Any newest-first sequence holding exactly the stored posts is the sorted listing. |
| Storage.Latest | internal/storage/mongo/post/repo.go:51 | The key of the post created after all others. |
| Storage.LatestExists | internal/storage/mongo/post/repo.go:51 | A non-empty collection with distinct creation times has a newest post. |
| Storage.Skip | internal/storage/mongo/post/repo.go:46 | `(page-1)*limit` for page ≥ 1 and limit ≥ 0. It is 0 exactly when that product is not positive. |
| Storage.Window | internal/storage/mongo/post/repo.go:48-51 | Empty once the skip passes the end. Otherwise `abs(limit)` posts, or all the rest for limit 0, cut at the end, and each is the listing's post at skip plus its position. |
| Storage.WindowDescending | internal/storage/mongo/post/repo.go:48-51 | A page of a newest-first listing is newest first. |
| Storage.WindowFromStart | internal/storage/mongo/post/repo.go:173-175 | With no skip and a positive limit, the window is the first `min(limit, n)` posts. |
| Storage.WindowIsPage | internal/storage/mongo/post/repo.go:46-51 | Page `p` of limit `l` is the slice from `(p-1)*l` to `p*l`, cut at the end. |
| Storage.EveryPostOnOnePage | internal/storage/mongo/post/repo.go:46-51 | With a positive limit, post `i` appears on page `i/limit + 1` at position `i % limit`, and on no other page. |
| Storage.PageOfIndex | internal/storage/mongo/post/repo.go:46 | Index `i` is in block `q` of `limit` exactly when `q = i/limit + 1`. |
| Storage.ContainsFoldSpec | internal/storage/mongo/post/repo.go:143-148 | The case-insensitive filter holds exactly when the lower-cased query occurs in the lower-cased text. Every literal occurrence matches, and the empty query matches everything. |
| Storage.Matching | internal/storage/mongo/post/repo.go:143-150 | Exactly the stored posts whose title or content matches, unchanged. |
| Storage.MatchingKeepsDistinct | internal/storage/mongo/post/repo.go:155-158 | The filtered posts still sort uniquely. |
| Storage.NewKey | internal/storage/mongo/post/repo.go:30 | A post without an id gets the next generated ObjectID. Otherwise its id is parsed, and it fails exactly when marshalling fails. |
| Storage.Stored | internal/storage/mongo/post/repo.go:40 | The stored post's id is the hex of its key and parses back to it, and its title and content are the post's. |
| Storage.InsertedDecodes | internal/storage/mongo/post/repo.go:30 | Decoding the inserted document gives the post under its key, for times in whole milliseconds. |
| Storage.InsertKeepsConsistent | internal/storage/mongo/post/repo.go:26-30 | Inserting a post stamped with the next clock reading keeps the collection invariant. |
| Storage.SetKeepsConsistent | internal/storage/mongo/post/repo.go:96-106 | Setting title, content and a new updated_at keeps the collection invariant. |
| Storage.LaterKeepsConsistent | internal/storage/mongo/post/repo.go:26 | A later clock keeps the collection invariant. |
| Text.ParseIntValue | internal/controller/web/v1/post/handler.go:18-26 | The value `strconv.ParseInt(s, 10, 64)` returns, always within the int64 range. Empty input and a lone sign read as 0. Digits after an optional sign read as the signed number they spell, clamped to the nearest int64 bound when out of range. |
| Text.ParseIntOfDecimal | internal/controller/web/v1/post/handler.go:18 | Every int64 written in decimal reads back, with a `-` or `+` sign too, including -9223372036854775808. |
| Text.ParseIntOutOfRange | internal/controller/web/v1/post/handler.go:18 | Digits worth more than 2^63 - 1 read as the largest int64, with or without `+`. After `-`, digits worth more than 2^63 read as the smallest int64. |
| Text.ParseIntJunkAfterDigits | internal/controller/web/v1/post/handler.go:18 | At any length, a non-digit after the sign that comes before the digits ahead of it pass 2^64 - 1 makes the value 0. |
| Text.ScanOfDigits | internal/controller/web/v1/post/handler.go:18 | Scanning only digits never gives a syntax error. It ends with their value, and a range error only when that value needs more than 64 bits. |
| Text.ScanStopsAtJunk | internal/controller/web/v1/post/handler.go:18 | A scan that reaches a non-digit while the digits before it fit in 64 bits is a syntax error. |
| Text.ParseIntRejectsJunk | internal/controller/web/v1/post/handler.go:18 | A string of up to 19 characters holding something other than a leading sign and digits reads as 0. |
| Text.ScanDigits | internal/controller/web/v1/post/handler.go:18 | A completed digit scan stays within 64 bits and never decreases. |
| Text.JunkIsSyntax | internal/controller/web/v1/post/handler.go:18 | A scan that meets a non-digit before overflowing is a syntax error. |
| Text.DecimalValue | internal/controller/web/v1/post/handler.go:18 | Reading a number's decimal form gives the number. |
| Text.TrimSpace | internal/controller/web/v1/post/handler.go:34 | The slice of the query between leading and trailing white space, with no white space at either end. |
| Text.TrimSpaceEmpty | internal/controller/web/v1/post/handler.go:34 | The trimmed query is empty exactly when it is all white space. |
| Handler.PageParam | internal/controller/web/v1/post/handler.go:18-21 | The parsed page when it is at least 1, and otherwise 1. |
| Handler.LimitParam | internal/controller/web/v1/post/handler.go:23-26 | The parsed limit when it is at least 1, and otherwise 3, not the service's 10. |
| Handler.ListParams | internal/controller/web/v1/post/handler.go:18-26 | A positive decimal is taken as it is. A missing parameter, zero or a negative number gives page 1 and limit 3. |
| Handler.ListParamsJunk | internal/controller/web/v1/post/handler.go:18-26 | A short parameter that is not a number gives page 1 and limit 3. |
| Handler.UsesSearchSpec | internal/controller/web/v1/post/handler.go:34-38 | The list searches exactly when the query holds a character that is not white space. |
| Handler.CeilDiv | internal/controller/web/v1/post/handler.go:49 | The ceiling of `a / b`: the least `r` with `a ≤ r*b`. |
| Handler.TotalPages | internal/controller/web/v1/post/handler.go:47-59 | At least 1. For positive total and limit, exactly enough pages of `limit` posts to hold `total`, and 1 otherwise. |
| Handler.WriteHeader | internal/controller/web/v1/post/handler.go:160-164 | Only the first call sets the status. Nothing else changes. |
| Handler.HttpError | internal/controller/web/v1/post/handler.go:41 | The status on a fresh response, the message plus a newline as body, plain-text content type, `nosniff`, and no Content-Length. |
| Handler.NotFound | internal/controller/web/v1/post/handler.go:102 | Status 404 and the body "404 page not found". |
| Handler.Index | internal/controller/web/v1/post/handler.go:12-14 | A 303 to `/posts`. GET and HEAD get an HTML content type, GET gets the "See Other" link body, and no template is rendered. |
| Handler.List | internal/controller/web/v1/post/handler.go:16-68 | A failed search or listing is exactly a 422 "server error" with no template. Otherwise status 200 with the listing, the recent posts (none on error), the query, page, limit, total and total pages. htmx requests get "list" then "pagination", and full-page requests get "base". The search is used exactly when the trimmed query is non-empty. |
| Handler.RenderList | internal/controller/web/v1/post/handler.go:62-67 | On a fresh response, status 200 with "list" then "pagination" for htmx requests, or only "base" otherwise, each with the same data. |
| Handler.Create | internal/controller/web/v1/post/handler.go:70-92 | An unparsable form is a 400 "bad form". A refused post renders "form" with the error, status 200, and no `HX-Trigger`. A created post sets `HX-Trigger: postCreated` and renders "item" with the post looked up by the new id. |
| Handler.CreateForm | internal/controller/web/v1/post/handler.go:94-96 | Status 200 and the "create_form" template. |
| Handler.EditForm | internal/controller/web/v1/post/handler.go:98-113 | A 404 exactly when the lookup fails. Otherwise "edit_form" with the post's id, title and content. |
| Handler.Show | internal/controller/web/v1/post/handler.go:115-128 | A 404 exactly when the lookup fails. Otherwise "show" with the post for htmx, or "base" with a one-post list. |
| Handler.Update | internal/controller/web/v1/post/handler.go:130-152 | An unparsable form is a 400 "bad form". A refused update re-renders "edit_form" with the error, status 200. Success renders "item" with the post looked up again. |
| Handler.Delete | internal/controller/web/v1/post/handler.go:154-165 | 200 exactly when the service deletes and 422 exactly when it fails, with no template and no body. |
| Listing.PagesUpToTotalPages | internal/controller/web/v1/post/handler.go:47-59 | With positive page and limit, a page of the listing holds posts exactly when there are posts and the page is at most the total pages shown. |
| Listing.HandlerArgumentsReachRepository | internal/controller/web/v1/post/handler.go:18-38 | The handler's page and limit pass through the service's normalisation unchanged. A missing limit reaches the repository as 3. |
| Listing.RecentCountMatchesServiceDefault | internal/controller/web/v1/post/handler.go:45 | The recent list asks the repository for 5 posts, as the service's default would. |
| Listing.Wrap64 | internal/storage/mongo/post/repo.go:46 | Go int64 arithmetic: the result is in the int64 range and congruent to the exact value modulo 2^64, so it is the exact value when that is in range. |
| Listing.SkipAsWritten | internal/storage/mongo/post/repo.go:46 | The int64 skip equals the mathematical one whenever `(page-1)*limit` fits in int64. |
| Listing.HugeLimitShowsFirstPage | internal/storage/mongo/post/repo.go:46 | For `page=3&limit=9223372036854775807`, the wrapped skip is 0 and page 3 lists every post, although there is one page. The unwrapped skip gives an empty page. |
| Scenarios.AddPost | internal/storage/mongo/post/repo_test.go:125-138 | Creating a post without an id stores it under the next generated key, stamped with the next clock reading. |
| Scenarios.FivePosts | internal/storage/mongo/post/repo_test.go:125-138 | Five posts created in order list as "Title E" down to "Title A". |
| Scenarios.RecentScenario | internal/storage/mongo/post/repo_test.go:322-342 | After five posts, GetRecent(3) gives titles E, D, C and GetRecent(10) gives five posts. |
| Scenarios.PagingScenario | internal/storage/mongo/post/repo_test.go:178-206 | Page sizes 5, 2, 2, 1 and 0 for (1, 10), (1, 2), (2, 2), (3, 2) and (10, 2), with total 5. |
| Scenarios.UpdateScenario | internal/storage/mongo/post/repo_test.go:208-252 | Update changes title and content, keeps created_at and moves updated_at forward. An absent id is `ErrPostNotFound` and "invalid-id" is a parse error. |
| Scenarios.DeleteScenario | internal/storage/mongo/post/repo_test.go:254-275 | Delete succeeds and the post is then not found. An absent id is `ErrPostNotFound` and "invalid-id" is a parse error. |

## Left out

- The MongoDB driver, BSON byte encoding, cursors and the connection code in pkg/mongo/client.go are replaced by the in-memory collection. Driver and network errors cannot happen in the model, so every read succeeds and the repository's reads are functions.
- `EnsureIndexes` (internal/storage/mongo/post/repo.go:187-206) creates indexes only. Indexes change speed, not results, so it is not modelled.
- Storage.Repository.Search: the `$regex` filter is modelled for queries without regular-expression metacharacters, as a literal substring match. Case folding covers ASCII letters only; Unicode case folding is not modelled.
- Storage.Repository.Create: `time.Now` is a clock field that advances one millisecond per reading. So stored times are whole milliseconds, and two posts are never created at the same instant; the model relies on that to make the newest-first order unique. Posts created within the same millisecond are not modelled.
- Storage.Repository.Create: generated ObjectIDs come from a counter, `Generated(n)`. A generated id that collides with a stored one gives the duplicate-key error rather than a fresh id.
- Handler.TotalPages: `math.Ceil` over `float64` is modelled as exact integer ceiling division. The two differ only for totals beyond 2^53.
- The repository's skip is computed on unbounded integers. The int64 wrap-around of the source is modelled separately, under Findings.
- Error texts (`err.Error()`) are represented by the `Error` value that carries them. The `HX-Trigger` and other header names are matched exactly; Go's header-name canonicalisation is not modelled.
- Handler.List: logging (`h.l.Error`) and the request context are not modelled. When the recent list fails, its error is dropped and the model passes an empty list on. The handler passes on whatever slice came back with the error, which the repository makes nil or a partly decoded list; a `Result` cannot carry both, so the partial list is not modelled.
- ObjectIds.FromHex: the length and the reported bad byte are counted in characters, while Go counts UTF-8 bytes. The two agree for ASCII ids. For a non-ASCII id the model can report a different error kind or the character instead of its first byte.
- Entity.DecodeElement: only the value kinds a post document written by `MarshalBSON` holds are modelled. BSON's looser conversions are not: an `_id` given as a hex string, and `null` or other convertible kinds for any field. The model rejects them with a decode error.
- Handler.Render: the `Content-Type` the response recorder sniffs from the first bytes a template writes is not recorded, because the template output is not modelled. Render commits status 200 and leaves the headers as they were.
- Templates (template.go) are recorded by name and data. The HTML they write is not modelled. The HTTP mux, form parsing and URL parsing are replaced by the `Request` record, with `None` for a form that cannot be parsed.
- The service and the handler's service are values, not pointers. The service stub sees the post value the handler built, so the repository's writes to the caller's timestamps are not visible through the service layer.
- internal/app/app.go, main.go, pkg/httpserver/server.go and config/config.go hold the server lifecycle, signal handling and configuration loading. These are not part of this model.
- The Search test run (internal/storage/mongo/post/repo_test.go:277-320) is not followed as a scenario. Search's contract states the matching rule it relies on.

## Findings

| source | as written | input that shows it | evidently intended | confidence | as-written member | corrected member |
|---|---|---|---|---|---|---|
| internal/storage/mongo/post/repo.go:46 | `skip := max((page-1)*limit, 0)` on int64, after the handler accepts any positive int64 page and limit (internal/controller/web/v1/post/handler.go:18-26) | `GET /posts?page=3&limit=9223372036854775807`: `2 * limit` wraps to -2, the skip becomes 0 and page 3 shows every post | a page past the last one is empty | medium; not executed | Listing.SkipAsWritten, Listing.HugeLimitShowsFirstPage | Storage.Skip, Listing.PagesUpToTotalPages |
