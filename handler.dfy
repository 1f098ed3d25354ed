/** The HTML handlers for posts (internal/controller/web/v1/post/handler.go).
    A request is a record of what the handlers read from it; the response is
    what a fresh `httptest.ResponseRecorder` holds after the call: the status,
    the headers the handlers set themselves, the text written directly, and the
    templates rendered with their data, in order. The content type a recorder
    sniffs from a template's output is not part of it. */
module Handler {
  import opened Results
  import opened Entity
  import opened Service
  import opened Text

  // ---------------------------------------------------------------------------
  // Requests
  // ---------------------------------------------------------------------------

  /** What a handler reads from an `*http.Request`: the method (`verb`), the query
      parameters (first value of each), the headers, the parsed form (`None`
      when `ParseForm` fails) and the `{id}` path value. */
  datatype Request = Request(
    verb: string,
    query: map<string, string>,
    header: map<string, string>,
    form: Option<map<string, string>>,
    pathId: string)

  /** `Values.Get` and `Header.Get`: the value, or "" when absent. */
  function Lookup(m: map<string, string>, key: string): (v: string)
    ensures key in m ==> v == m[key]
    ensures key !in m ==> v == ""
  {
    if key in m then m[key] else ""
  }

  /** The request comes from htmx and wants a fragment. */
  predicate IsHtmx(r: Request) {
    Lookup(r.header, "HX-Request") == "true"
  }

  // ---------------------------------------------------------------------------
  // The list page's parameters
  // ---------------------------------------------------------------------------

  const DefaultPage: int := 1
  /** The handler's own default page size, not the service's 10. */
  const DefaultLimit: int := 3
  /** How many recent posts the side list asks for. */
  const RecentCount: int := 5

  /** The `page` parameter: its parsed value, or 1 when that is below 1. */
  function PageParam(s: string): (page: int)
    ensures 1 <= page <= MaxInt64
    ensures ParseIntValue(s) >= 1 ==> page == ParseIntValue(s)
    ensures ParseIntValue(s) < 1 ==> page == DefaultPage
  {
    var v := ParseIntValue(s);
    if v < 1 then DefaultPage else v
  }

  /** The `limit` parameter: its parsed value, or 3 when that is below 1. */
  function LimitParam(s: string): (limit: int)
    ensures 1 <= limit <= MaxInt64
    ensures ParseIntValue(s) >= 1 ==> limit == ParseIntValue(s)
    ensures ParseIntValue(s) < 1 ==> limit == DefaultLimit
  {
    var v := ParseIntValue(s);
    if v < 1 then DefaultLimit else v
  }

  /** A positive number written in decimal is taken as it is; a missing or
      empty parameter, zero, and a negative number give the defaults. */
  lemma ListParams(n: nat)
    requires 1 <= n <= MaxInt64
    ensures PageParam(Decimal(n)) == n && LimitParam(Decimal(n)) == n
    ensures PageParam("") == DefaultPage && LimitParam("") == DefaultLimit
    ensures PageParam("0") == DefaultPage && LimitParam("0") == DefaultLimit
    ensures PageParam("-" + Decimal(n)) == DefaultPage && LimitParam("-" + Decimal(n)) == DefaultLimit
  {
    ParseIntOfDecimal(n);
    ParseIntOfDecimal(0);
    assert Decimal(0) == "0";
  }

  /** A short parameter that is not a number gives the defaults. */
  lemma ListParamsJunk(s: string, i: nat)
    requires |s| <= 19 && i < |s|
    requires !IsDigit(s[i]) && (i > 0 || (s[0] != '+' && s[0] != '-'))
    ensures PageParam(s) == DefaultPage && LimitParam(s) == DefaultLimit
  {
    ParseIntRejectsJunk(s, i);
  }

  /** The list searches when the query holds something besides white space. */
  predicate UsesSearch(q: string) {
    TrimSpace(q) != ""
  }

  lemma UsesSearchSpec(q: string)
    ensures UsesSearch(q) <==> exists k | 0 <= k < |q| :: !IsSpace(q[k])
  {
    TrimSpaceEmpty(q);
  }

  /** `ceil(a / b)` for a positive divisor. */
  function CeilDiv(a: int, b: int): (r: int)
    requires b > 0
    ensures (r - 1) * b < a <= r * b
  {
    -((-a) / b)
  }

  /** `max(ceil(total / limit), 1)`, or 1 when the limit is not positive: at
      least one page, and exactly enough pages of `limit` posts for `total`
      posts. */
  function TotalPages(total: int, limit: int): (r: int)
    ensures r >= 1
    ensures total > 0 && limit > 0 ==> (r - 1) * limit < total <= r * limit
    ensures total <= 0 || limit <= 0 ==> r == 1
  {
    if limit > 0 then
      var pages := CeilDiv(total, limit);
      if pages < 1 then 1 else pages
    else 1
  }

  // ---------------------------------------------------------------------------
  // Responses
  // ---------------------------------------------------------------------------

  /** The data handed to a template (types.go). `PostData` is a `*post.Post`
      passed as it is, which may be nil. */
  datatype View =
    | ListPageData(posts: seq<Post>, recent: seq<Post>, search: string, page: int,
                   limit: int, total: int, totalPages: int)
    | CreateFormData
    | EditFormData(id: string, title: string, content: string)
    | ErrorData(error: Error)
    | PostData(post: Option<Post>)
    | PostsData(posts: seq<Post>)

  datatype Rendered = Rendered(name: string, data: View)

  /** A response recorder: the status (200 until a header is written), whether
      the header was written, the headers, the text written outside templates
      and the templates rendered. */
  datatype Response = Response(
    status: int,
    wroteHeader: bool,
    header: map<string, string>,
    body: string,
    rendered: seq<Rendered>)

  const NewRecorder: Response := Response(200, false, map[], "", [])

  /** `WriteHeader`: only the first call sets the status. */
  function WriteHeader(w: Response, code: int): (w': Response)
    ensures w'.wroteHeader && w'.header == w.header && w'.body == w.body && w'.rendered == w.rendered
    ensures w'.status == if w.wroteHeader then w.status else code
  {
    if w.wroteHeader then w else w.(status := code, wroteHeader := true)
  }

  /** `Write`: writing text commits a 200 status if none was written. */
  function Write(w: Response, text: string): Response
  {
    WriteHeader(w, 200).(body := w.body + text)
  }

  function SetHeader(w: Response, key: string, value: string): Response
  {
    w.(header := w.header[key := value])
  }

  /** `Render`: the template writes to the response, so it commits a 200 status
      if none was written; its output text is not modelled. */
  function Render(w: Response, name: string, data: View): Response
  {
    WriteHeader(w, 200).(rendered := w.rendered + [Rendered(name, data)])
  }

  /** `http.Error`: a plain-text error body with the given status. */
  function HttpError(w: Response, message: string, code: int): (w': Response)
    ensures !w.wroteHeader ==> w'.status == code
    ensures w'.body == w.body + message + "\n" && w'.rendered == w.rendered
    ensures Lookup(w'.header, "Content-Type") == "text/plain; charset=utf-8"
    ensures Lookup(w'.header, "X-Content-Type-Options") == "nosniff"
    ensures "Content-Length" !in w'.header
  {
    var w1 := w.(header := w.header - {"Content-Length"});
    var w2 := SetHeader(w1, "Content-Type", "text/plain; charset=utf-8");
    var w3 := SetHeader(w2, "X-Content-Type-Options", "nosniff");
    Write(WriteHeader(w3, code), message + "\n")
  }

  /** `http.NotFound`. */
  function NotFound(w: Response): (w': Response)
    ensures !w.wroteHeader ==> w'.status == 404
    ensures w'.body == w.body + "404 page not found\n" && w'.rendered == w.rendered
  {
    HttpError(w, "404 page not found", 404)
  }

  /** The response of a handler that fails with `http.Error` before writing
      anything. */
  function ErrorResponse(message: string, code: int): Response {
    HttpError(NewRecorder, message, code)
  }

  /** A post pointer that may be nil: the value of a lookup whose error the
      handler ignores. */
  function PostOrNil(r: Result<Post>): Option<Post> {
    if r.Ok? then Some(r.value) else None
  }

  /** A post list whose error the handler ignores: nil on error. */
  function PostsOrNil(r: Result<seq<Post>>): seq<Post> {
    if r.Ok? then r.value else []
  }

  // ---------------------------------------------------------------------------
  // The handlers
  // ---------------------------------------------------------------------------

  /** `Index`: a 303 redirect to the post list. */
  method Index(r: Request) returns (w: Response)
    ensures w.status == 303 && Lookup(w.header, "Location") == "/posts"
    ensures r.verb == "GET" || r.verb == "HEAD" ==>
              Lookup(w.header, "Content-Type") == "text/html; charset=utf-8"
    ensures w.body == if r.verb == "GET" then "<a href=\"/posts\">See Other</a>.\n\n" else ""
    ensures w.rendered == []
  {
    w := NewRecorder;
    w := SetHeader(w, "Location", "/posts");
    if r.verb == "GET" || r.verb == "HEAD" {
      w := SetHeader(w, "Content-Type", "text/html; charset=utf-8");
    }
    w := WriteHeader(w, 303);
    if r.verb == "GET" {
      w := Write(w, "<a href=\"/posts\">See Other</a>.\n" + "\n");
    }
  }

  /** The `q`, `page` and `limit` a list request asks for. */
  function ListQuery(r: Request): string {
    Lookup(r.query, "q")
  }

  function ListPage(r: Request): int {
    PageParam(Lookup(r.query, "page"))
  }

  function ListLimit(r: Request): int {
    LimitParam(Lookup(r.query, "limit"))
  }

  /** What a list request gets from the service: a search when the trimmed
      query is non-empty, otherwise the plain listing. */
  function Listed(svc: PostOps, r: Request): Result<Page> {
    if UsesSearch(ListQuery(r)) then svc.search(ListQuery(r), ListPage(r), ListLimit(r))
    else svc.getAll(ListPage(r), ListLimit(r))
  }

  /** The data the list templates get for a listing that succeeded. */
  function ListData(svc: PostOps, r: Request, listed: Page): View {
    ListPageData(listed.posts, PostsOrNil(svc.getRecent(RecentCount)), ListQuery(r), ListPage(r),
                 ListLimit(r), listed.total, TotalPages(listed.total, ListLimit(r)))
  }

  /** `List`: reads the query, page and limit; searches when the trimmed query
      is non-empty and lists everything otherwise; a failure there is a 422
      "server error" with no template. Otherwise it asks for the 5 most recent
      posts, ignoring any error, and renders "list" then "pagination" for htmx
      or "base" for a full page, all with the same data. */
  method List(svc: PostOps, r: Request) returns (w: Response)
    ensures Listed(svc, r).Err? <==> w.status == 422
    ensures Listed(svc, r).Err? ==> w == ErrorResponse("server error", 422) && w.rendered == []
    ensures Listed(svc, r).Ok? ==>
              var data := ListData(svc, r, Listed(svc, r).value);
              && w.status == 200
              && (IsHtmx(r) ==> w.rendered == [Rendered("list", data), Rendered("pagination", data)])
              && (!IsHtmx(r) ==> w.rendered == [Rendered("base", data)])
  {
    w := NewRecorder;
    var q := Lookup(r.query, "q");
    var page := ParseIntValue(Lookup(r.query, "page"));
    if page < 1 {
      page := DefaultPage;
    }
    assert page == ListPage(r);
    var limit := ParseIntValue(Lookup(r.query, "limit"));
    if limit < 1 {
      limit := DefaultLimit;
    }
    assert limit == ListLimit(r);
    var listed: Result<Page>;
    if UsesSearch(q) {
      listed := svc.search(q, page, limit);
    } else {
      listed := svc.getAll(page, limit);
    }
    assert listed == Listed(svc, r);
    if listed.Err? {
      w := HttpError(w, "server error", 422);
      return;
    }
    var recent := PostsOrNil(svc.getRecent(RecentCount));
    var totalPages := 1;
    if limit > 0 {
      totalPages := CeilDiv(listed.value.total, limit);
    }
    assert (if totalPages < 1 then 1 else totalPages) == TotalPages(listed.value.total, limit);
    var data := ListPageData(listed.value.posts, recent, q, page, limit, listed.value.total,
                             if totalPages < 1 then 1 else totalPages);
    assert data == ListData(svc, r, listed.value);
    w := RenderList(w, r, data);
  }

  /** The end of `List`: "list" then "pagination" for htmx, "base" for a full
      page, on a response nothing has been written to. */
  method RenderList(w0: Response, r: Request, data: View) returns (w: Response)
    requires w0 == NewRecorder
    ensures w.status == 200
    ensures IsHtmx(r) ==> w.rendered == [Rendered("list", data), Rendered("pagination", data)]
    ensures !IsHtmx(r) ==> w.rendered == [Rendered("base", data)]
  {
    w := w0;
    if Lookup(r.header, "HX-Request") == "true" {
      w := Render(w, "list", data);
      w := Render(w, "pagination", data);
    } else {
      w := Render(w, "base", data);
    }
  }

  /** `Create`: a form that cannot be parsed is a 400 "bad form". Otherwise a
      post is built from the form's title and content; if the service refuses
      it the "form" template is rendered with the error, status 200. If it is
      created the handler looks it up by the new id, sets `HX-Trigger:
      postCreated` and renders "item" with it (nil if the lookup failed). */
  method Create(svc: PostOps, r: Request) returns (w: Response)
    ensures r.form.None? ==> w == ErrorResponse("bad form", 400) && w.status == 400
    ensures r.form.Some? ==>
              var p := Post("", Lookup(r.form.value, "title"), Lookup(r.form.value, "content"), ZeroTime, ZeroTime);
              && w.status == 200
              && (svc.create(p).Err? ==>
                    w.rendered == [Rendered("form", ErrorData(svc.create(p).error))] && "HX-Trigger" !in w.header)
              && (svc.create(p).Ok? ==>
                    && w.rendered == [Rendered("item", PostData(PostOrNil(svc.getByID(svc.create(p).value))))]
                    && Lookup(w.header, "HX-Trigger") == "postCreated")
  {
    w := NewRecorder;
    if r.form.None? {
      w := HttpError(w, "bad form", 400);
      return;
    }
    var form := r.form.value;
    var p := Post("", Lookup(form, "title"), Lookup(form, "content"), ZeroTime, ZeroTime);
    var id := svc.create(p);
    if id.Err? {
      w := Render(w, "form", ErrorData(id.error));
      return;
    }
    var created := svc.getByID(id.value);
    w := SetHeader(w, "HX-Trigger", "postCreated");
    w := Render(w, "item", PostData(PostOrNil(created)));
  }

  /** `CreateForm`: renders the empty creation form. */
  method CreateForm(r: Request) returns (w: Response)
    ensures w.status == 200 && w.rendered == [Rendered("create_form", CreateFormData)]
  {
    w := NewRecorder;
    w := Render(w, "create_form", CreateFormData);
  }

  /** `EditForm`: any lookup error is a 404; otherwise the edit form is
      rendered with the post's id, title and content. */
  method EditForm(svc: PostOps, r: Request) returns (w: Response)
    ensures svc.getByID(r.pathId).Err? <==> w.status == 404
    ensures svc.getByID(r.pathId).Err? ==> w == NotFound(NewRecorder) && w.rendered == []
    ensures svc.getByID(r.pathId).Ok? ==>
              var p := svc.getByID(r.pathId).value;
              w.status == 200 && w.rendered == [Rendered("edit_form", EditFormData(p.id, p.title, p.content))]
  {
    w := NewRecorder;
    var found := svc.getByID(r.pathId);
    if found.Err? {
      w := NotFound(w);
      return;
    }
    var p := found.value;
    w := Render(w, "edit_form", EditFormData(p.id, p.title, p.content));
  }

  /** `Show`: any lookup error is a 404; otherwise "show" with the post for
      htmx, or "base" with a one-post list for a full page. */
  method Show(svc: PostOps, r: Request) returns (w: Response)
    ensures svc.getByID(r.pathId).Err? <==> w.status == 404
    ensures svc.getByID(r.pathId).Err? ==> w == NotFound(NewRecorder) && w.rendered == []
    ensures svc.getByID(r.pathId).Ok? ==>
              var p := svc.getByID(r.pathId).value;
              && w.status == 200
              && (IsHtmx(r) ==> w.rendered == [Rendered("show", PostData(Some(p)))])
              && (!IsHtmx(r) ==> w.rendered == [Rendered("base", PostsData([p]))])
  {
    w := NewRecorder;
    var found := svc.getByID(r.pathId);
    if found.Err? {
      w := NotFound(w);
      return;
    }
    var p := found.value;
    if Lookup(r.header, "HX-Request") == "true" {
      w := Render(w, "show", PostData(Some(p)));
    } else {
      w := Render(w, "base", PostsData([p]));
    }
  }

  /** `Update`: a form that cannot be parsed is a 400 "bad form". Otherwise the
      post with the path's id and the form's title and content goes to the
      service; a refusal re-renders "edit_form" with the error, status 200;
      success renders "item" with the post looked up again (nil if that
      failed). */
  method Update(svc: PostOps, r: Request) returns (w: Response)
    ensures r.form.None? ==> w == ErrorResponse("bad form", 400) && w.status == 400
    ensures r.form.Some? ==>
              var p := Post(r.pathId, Lookup(r.form.value, "title"), Lookup(r.form.value, "content"), ZeroTime, ZeroTime);
              && w.status == 200
              && (svc.update(p).Fail? ==> w.rendered == [Rendered("edit_form", ErrorData(svc.update(p).error))])
              && (svc.update(p).Pass? ==> w.rendered == [Rendered("item", PostData(PostOrNil(svc.getByID(r.pathId))))])
  {
    w := NewRecorder;
    var id := r.pathId;
    if r.form.None? {
      w := HttpError(w, "bad form", 400);
      return;
    }
    var form := r.form.value;
    var p := Post(id, Lookup(form, "title"), Lookup(form, "content"), ZeroTime, ZeroTime);
    var err := svc.update(p);
    if err.Fail? {
      w := Render(w, "edit_form", ErrorData(err.error));
      return;
    }
    var updated := svc.getByID(id);
    w := Render(w, "item", PostData(PostOrNil(updated)));
  }

  /** `Delete`: 200 when the service deletes the post, 422 on any error; no
      template and no body either way. */
  method Delete(svc: PostOps, r: Request) returns (w: Response)
    ensures svc.delete(r.pathId).Pass? <==> w.status == 200
    ensures svc.delete(r.pathId).Fail? <==> w.status == 422
    ensures w.rendered == [] && w.body == ""
  {
    w := NewRecorder;
    var err := svc.delete(r.pathId);
    if err.Fail? {
      w := WriteHeader(w, 422);
      return;
    }
    w := WriteHeader(w, 200);
  }
}
