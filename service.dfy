/** The post service (internal/service/post/service.go): a validation gate in
    front of Create and Update, default page and limit values for the listing
    calls, and everything else handed to the repository unchanged. The
    repository is a parameter, so the service is a set of pure functions. */
module Service {
  import opened Results
  import opened Entity

  /** The seven post operations. The service's `repository` interface and the
      handler's `service` interface declare the same ones, so a value of this
      type stands for either: the repository behind the service, the service
      behind the handler, or a test double built from functions like the mocks
      of service_test.go and handler_test.go. */
  datatype PostOps = PostOps(
    create: Post -> Result<string>,
    getAll: (int, int) -> Result<Page>,
    getByID: string -> Result<Post>,
    update: Post -> Outcome,
    delete: string -> Outcome,
    search: (string, int, int) -> Result<Page>,
    getRecent: int -> Result<seq<Post>>)

  const DefaultPage: int := 1
  /** The limit GetAll and Search use when none is given. */
  const DefaultListLimit: int := 10
  /** The limit GetRecent uses when none is given. */
  const DefaultRecentLimit: int := 5

  /** A page of 0 or less becomes the first page. */
  function NormalizePage(page: int): (r: int)
    ensures r >= 1
    ensures page > 0 ==> r == page
    ensures page <= 0 ==> r == DefaultPage
  {
    if page <= 0 then DefaultPage else page
  }

  /** A limit of 0 or less becomes the call site's default. */
  function NormalizeLimit(limit: int, default: int): (r: int)
    requires default >= 1
    ensures r >= 1
    ensures limit > 0 ==> r == limit
    ensures limit <= 0 ==> r == default
  {
    if limit <= 0 then default else limit
  }

  /** Normalising twice is normalising once. */
  lemma NormalizeIdempotent(page: int, limit: int, default: int)
    requires default >= 1
    ensures NormalizePage(NormalizePage(page)) == NormalizePage(page)
    ensures NormalizeLimit(NormalizeLimit(limit, default), default) == NormalizeLimit(limit, default)
  {
  }

  /** `service.Create`: an invalid post is refused with its validation error,
      whatever the repository would do (it is never consulted); a valid one is
      created by the repository, whose id and error are returned as they are. */
  function Create(repo: PostOps, p: Post): (r: Result<string>)
    ensures Validate(p).Fail? ==> r == Err(Validate(p).error)
    ensures Validate(p).Pass? ==> r == repo.create(p)
  {
    match Validate(p)
    case Fail(e) => Err(e)
    case Pass => repo.create(p)
  }

  /** `service.GetAll`: the repository is asked for the normalised page and
      limit (page 1 and limit 10 by default) and its answer is returned. */
  function GetAll(repo: PostOps, page: int, limit: int): (r: Result<Page>)
    ensures page <= 0 && limit <= 0 ==> r == repo.getAll(1, 10)
    ensures page > 0 && limit > 0 ==> r == repo.getAll(page, limit)
    ensures r == repo.getAll(NormalizePage(page), NormalizeLimit(limit, DefaultListLimit))
  {
    repo.getAll(NormalizePage(page), NormalizeLimit(limit, DefaultListLimit))
  }

  /** `service.GetByID`: the repository's answer, unchanged. */
  function GetByID(repo: PostOps, id: string): (r: Result<Post>)
    ensures r == repo.getByID(id)
  {
    repo.getByID(id)
  }

  /** `service.Update`: an invalid post is refused with its validation error and
      the repository is never consulted; a valid post is handed over as it is. */
  function Update(repo: PostOps, p: Post): (r: Outcome)
    ensures Validate(p).Fail? ==> r == Validate(p)
    ensures Validate(p).Pass? ==> r == repo.update(p)
  {
    match Validate(p)
    case Fail(e) => Fail(e)
    case Pass => repo.update(p)
  }

  /** `service.Delete`: the repository's answer, unchanged. */
  function Delete(repo: PostOps, id: string): (r: Outcome)
    ensures r == repo.delete(id)
  {
    repo.delete(id)
  }

  /** `service.Search`: the query goes to the repository untouched, with the
      same page and limit defaults as GetAll. */
  function Search(repo: PostOps, query: string, page: int, limit: int): (r: Result<Page>)
    ensures page <= 0 && limit <= 0 ==> r == repo.search(query, 1, 10)
    ensures page > 0 && limit > 0 ==> r == repo.search(query, page, limit)
    ensures r == repo.search(query, NormalizePage(page), NormalizeLimit(limit, DefaultListLimit))
  {
    repo.search(query, NormalizePage(page), NormalizeLimit(limit, DefaultListLimit))
  }

  /** `service.GetRecent`: a limit of 0 or less becomes 5. */
  function GetRecent(repo: PostOps, limit: int): (r: Result<seq<Post>>)
    ensures limit <= 0 ==> r == repo.getRecent(5)
    ensures limit > 0 ==> r == repo.getRecent(limit)
  {
    repo.getRecent(NormalizeLimit(limit, DefaultRecentLimit))
  }

  /** The service over a repository (`post.New`): the value the handler is
      given. Its operations are the ones above. */
  function New(repo: PostOps): (svc: PostOps)
    ensures forall p :: svc.create(p) == Create(repo, p)
    ensures forall page, limit :: svc.getAll(page, limit) == GetAll(repo, page, limit)
    ensures forall id :: svc.getByID(id) == repo.getByID(id)
    ensures forall p :: svc.update(p) == Update(repo, p)
    ensures forall id :: svc.delete(id) == repo.delete(id)
    ensures forall q, page, limit :: svc.search(q, page, limit) == Search(repo, q, page, limit)
    ensures forall limit :: svc.getRecent(limit) == GetRecent(repo, limit)
  {
    PostOps(
      p => Create(repo, p),
      (page, limit) => GetAll(repo, page, limit),
      id => GetByID(repo, id),
      p => Update(repo, p),
      id => Delete(repo, id),
      (q, page, limit) => Search(repo, q, page, limit),
      limit => GetRecent(repo, limit))
  }

  /** Whatever the repository, the service never lets a listing call reach it
      with a page or limit below 1, and positive values reach it unchanged. */
  lemma ListingArgumentsPositive(page: int, limit: int)
    ensures NormalizePage(page) >= 1 && NormalizeLimit(limit, DefaultListLimit) >= 1
    ensures NormalizeLimit(limit, DefaultRecentLimit) >= 1
    ensures page >= 1 ==> NormalizePage(page) == page
  {
  }
}
