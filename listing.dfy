/** How the list page's numbers fit the layers below it: for a listing that
    is not empty, the pages the handler offers are exactly the non-empty pages
    the repository returns (an empty listing still shows one page, which is
    empty), and the handler's page and limit reach the repository unchanged
    through the service. */
module Listing {
  import opened Results
  import opened Entity
  import Service
  import opened Storage
  import opened Handler
  import opened Text

  /** With a positive limit, a page (counted from 1) of a listing of `n` posts
      holds posts exactly when there are posts and the page number is at most
      the total number of pages the list page shows. */
  lemma PagesUpToTotalPages(s: seq<Post>, page: int, limit: int)
    requires page >= 1 && limit >= 1
    ensures Window(s, Skip(page, limit), limit) != [] <==> |s| > 0 && page <= TotalPages(|s|, limit)
  {
    var n := |s|;
    var t := TotalPages(n, limit);
    var w := Window(s, Skip(page, limit), limit);
    assert w != [] <==> (page - 1) * limit < n;
    if n > 0 {
      MulLess(page - 1, t, limit);
      MulLess(t - 1, page - 1, limit);
    } else {
      assert (page - 1) * limit >= 0 by {
        MulLess(-1, page - 1, limit);
      }
    }
  }

  /** The page and limit the list handler passes are always positive, so the
      service forwards them to the repository as they are: a missing limit
      reaches the repository as 3, not as the service's default of 10. */
  lemma HandlerArgumentsReachRepository(repo: Service.PostOps, r: Request)
    ensures Service.GetAll(repo, ListPage(r), ListLimit(r)) == repo.getAll(ListPage(r), ListLimit(r))
    ensures Service.Search(repo, ListQuery(r), ListPage(r), ListLimit(r))
         == repo.search(ListQuery(r), ListPage(r), ListLimit(r))
    ensures Lookup(r.query, "limit") == "" ==> Service.GetAll(repo, ListPage(r), ListLimit(r)) == repo.getAll(ListPage(r), 3)
  {
  }

  /** The service asks the repository for 5 recent posts whether the handler
      passes 5, as it does, or nothing at all. */
  lemma RecentCountMatchesServiceDefault(repo: Service.PostOps)
    ensures Service.GetRecent(repo, RecentCount) == Service.GetRecent(repo, 0) == repo.getRecent(5)
  {
  }

  /** Go's int64 arithmetic: the result taken modulo 2^64 into the int64
      range. */
  function Wrap64(x: int): (r: int)
    ensures MinInt64 <= r <= MaxInt64
    ensures (r - x) % (MaxUint64 + 1) == 0
    ensures MinInt64 <= x <= MaxInt64 ==> r == x
  {
    var m := MaxUint64 + 1;
    var q := (x - MinInt64) / m;
    var r := (x - MinInt64) % m + MinInt64;
    assert r - x == -q * m;
    r
  }

  /** The skip of repo.go as written, `max((page-1)*limit, 0)` on int64 values:
      the product wraps around before the maximum is taken. */
  function SkipAsWritten(page: int, limit: int): (r: nat)
    ensures MinInt64 <= (page - 1) * limit <= MaxInt64 ==> r == Skip(page, limit)
  {
    var product := Wrap64((page - 1) * limit);
    if product > 0 then product else 0
  }

  /** The query `page=3&limit=9223372036854775807` reaches the service as
      page 3 and limit 2^63 - 1. */
  lemma HugeLimitParams()
    ensures PageParam(Decimal(3)) == 3 && LimitParam(Decimal(MaxInt64 as nat)) == MaxInt64
  {
    ListParams(3);
    ListParams(MaxInt64 as nat);
  }

  /** `(3 - 1) * (2^63 - 1)` wraps to -2, so the skip is 0. */
  lemma HugeLimitWrapsSkip()
    ensures SkipAsWritten(3, MaxInt64) == 0
  {
    assert Wrap64(2 * MaxInt64) == -2;
  }

  /** `GET /posts?page=3&limit=9223372036854775807`: the handler passes both
      numbers on, `(3-1) * limit` wraps to -2, the skip becomes 0 and page 3
      lists every post from the first one, although there is only one page. With
      the skip computed without wrap-around page 3 is empty. */
  lemma HugeLimitShowsFirstPage(s: seq<Post>)
    requires 1 <= |s| <= MaxInt64
    ensures PageParam(Decimal(3)) == 3 && LimitParam(Decimal(MaxInt64 as nat)) == MaxInt64
    ensures SkipAsWritten(3, MaxInt64) == 0
    ensures Window(s, SkipAsWritten(3, MaxInt64), MaxInt64) == s
    ensures TotalPages(|s|, MaxInt64) == 1
    ensures Window(s, Skip(3, MaxInt64), MaxInt64) == []
  {
    HugeLimitParams();
    HugeLimitWrapsSkip();
  }
}
