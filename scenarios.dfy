/** The repository's documented runs (internal/storage/mongo/post/repo_test.go)
    followed through the model: each method below performs the calls of one
    test on a fresh repository and its contract states what the test expects. */
module Scenarios {
  import opened Results
  import opened ObjectIds
  import opened Entity
  import opened Storage

  /** Creates a post with no id, as `createMultiplePosts` does, and says where
      the repository puts it: under the next generated id, stamped with the
      next clock reading. */
  method AddPost(repo: Repository, title: string, content: string) returns (id: string)
    requires repo.Valid()
    requires repo.issued < 16 && forall k | k in repo.docs :: k[23] as int < repo.issued
    modifies repo
    ensures repo.Valid()
    ensures forall k | k in repo.docs :: k[23] as int < repo.issued
    ensures repo.clock == old(repo.clock) + 1 && repo.issued == old(repo.issued) + 1
    ensures id == Hex(Generated(old(repo.issued)))
    ensures repo.docs == old(repo.docs)[Generated(old(repo.issued)) :=
              Post(id, title, content, repo.clock * Millisecond, repo.clock * Millisecond)]
  {
    GeneratedLast(repo.issued);
    var p := new PostRef(Post("", title, content, ZeroTime, ZeroTime));
    var r := repo.Create(p);
    id := r.value;
  }

  /** The titles of a listing, in its order. */
  function Titles(s: seq<Post>): (t: seq<string>)
    ensures |t| == |s| && forall i | 0 <= i < |s| :: t[i] == s[i].title
  {
    seq(|s|, i requires 0 <= i < |s| => s[i].title)
  }

  /** The last digit of the first sixteen generated ids is their number. */
  lemma GeneratedLast(n: nat)
    requires n < 16
    ensures Generated(n)[23] as int == n
  {
  }

  lemma GeneratedDistinct(i: nat, j: nat)
    requires i < j < 16
    ensures Generated(i) != Generated(j)
  {
    GeneratedLast(i);
    GeneratedLast(j);
  }

  /** One clock reading later is one millisecond later. */
  lemma TickLater(c: int)
    ensures c * Millisecond < (c + 1) * Millisecond
  {
  }

  /** Five posts stored under five distinct keys, created one after the
      other, are listed newest first. */
  lemma ByRecencyOfFive(m: Collection, k0: ObjectId, k1: ObjectId, k2: ObjectId, k3: ObjectId, k4: ObjectId,
                        p0: Post, p1: Post, p2: Post, p3: Post, p4: Post)
    requires m == map[k0 := p0, k1 := p1, k2 := p2, k3 := p3, k4 := p4]
    requires k0[23] == 0 && k1[23] == 1 && k2[23] == 2 && k3[23] == 3 && k4[23] == 4
    requires p0.createdAt < p1.createdAt < p2.createdAt < p3.createdAt < p4.createdAt
    ensures |m| == 5
    ensures ByRecency(m) == [p4, p3, p2, p1, p0]
  {
    var newest := [p4, p3, p2, p1, p0];
    assert m.Keys == {k0, k1, k2, k3, k4};
    forall p ensures p in newest <==> p in m.Values {
      if p in m.Values {
        var k :| k in m && m[k] == p;
      }
      if p in newest {
        if p == p0 { assert m[k0] == p; }
        else if p == p1 { assert m[k1] == p; }
        else if p == p2 { assert m[k2] == p; }
        else if p == p3 { assert m[k3] == p; }
        else { assert m[k4] == p; }
      }
    }
    ByRecencyIs(m, newest);
  }

  lemma TitlesOfFive(s: seq<Post>, p0: Post, p1: Post, p2: Post, p3: Post, p4: Post)
    requires s == [p4, p3, p2, p1, p0]
    ensures Titles(s) == [p4.title, p3.title, p2.title, p1.title, p0.title]
  {
    assert Titles(s)[1] == p3.title;
  }

  /** `createMultiplePosts(ctx, repo, 5)` on an empty repository: posts "Title
      A" to "Title E", with contents "Content A" to "Content E", created in
      that order. */
  method FivePosts(start: int) returns (repo: Repository)
    ensures fresh(repo) && repo.Valid() && |repo.docs| == 5
    ensures |ByRecency(repo.docs)| == 5
    ensures Titles(ByRecency(repo.docs)) == ["Title E", "Title D", "Title C", "Title B", "Title A"]
  {
    repo := new Repository(start);
    var a := AddPost(repo, "Title A", "Content A");
    var b := AddPost(repo, "Title B", "Content B");
    var c := AddPost(repo, "Title C", "Content C");
    var d := AddPost(repo, "Title D", "Content D");
    var e := AddPost(repo, "Title E", "Content E");
    var ms := Millisecond;
    var pa := Post(a, "Title A", "Content A", (start + 1) * ms, (start + 1) * ms);
    var pb := Post(b, "Title B", "Content B", (start + 2) * ms, (start + 2) * ms);
    var pc := Post(c, "Title C", "Content C", (start + 3) * ms, (start + 3) * ms);
    var pd := Post(d, "Title D", "Content D", (start + 4) * ms, (start + 4) * ms);
    var pe := Post(e, "Title E", "Content E", (start + 5) * ms, (start + 5) * ms);
    GeneratedLast(0);
    GeneratedLast(1);
    GeneratedLast(2);
    GeneratedLast(3);
    GeneratedLast(4);
    TickLater(start + 1);
    TickLater(start + 2);
    TickLater(start + 3);
    TickLater(start + 4);
    ByRecencyOfFive(repo.docs, Generated(0), Generated(1), Generated(2), Generated(3), Generated(4),
      pa, pb, pc, pd, pe);
    TitlesOfFive(ByRecency(repo.docs), pa, pb, pc, pd, pe);
  }

  lemma RecentOfFive(s: seq<Post>)
    requires Titles(s) == ["Title E", "Title D", "Title C", "Title B", "Title A"]
    ensures Titles(Window(s, 0, 3)) == ["Title E", "Title D", "Title C"]
    ensures |Window(s, 0, 10)| == 5
  {
    assert Window(s, 0, 3) == s[..3];
    assert Titles(s[..3]) == Titles(s)[..3];
  }

  /** `TestGetRecent`: after posts "Title A" to "Title E" are created in that
      order, the three most recent are E, D and C, newest first, and asking
      for ten gives all five. */
  method RecentScenario(start: int) returns (recent: seq<string>, all: nat)
    ensures recent == ["Title E", "Title D", "Title C"]
    ensures all == 5
  {
    var repo := FivePosts(start);
    RecentOfFive(ByRecency(repo.docs));
    recent := Titles(repo.GetRecent(3));
    all := |repo.GetRecent(10)|;
  }

  lemma PageSizesOfFive(s: seq<Post>)
    requires |s| == 5
    ensures |Window(s, Skip(1, 10), 10)| == 5 && |Window(s, Skip(1, 2), 2)| == 2
    ensures |Window(s, Skip(2, 2), 2)| == 2 && |Window(s, Skip(3, 2), 2)| == 1
    ensures Window(s, Skip(10, 2), 2) == []
  {
  }

  /** `TestGetAll`: over the same five posts, page 1 of ten holds all five,
      pages 1 and 2 of two hold two each, page 3 holds the last one and page
      10 is empty, while the total stays 5. */
  method PagingScenario(start: int) returns (pages: seq<int>, total: int)
    ensures pages == [5, 2, 2, 1, 0] && total == 5
  {
    var repo := FivePosts(start);
    PageSizesOfFive(ByRecency(repo.docs));
    var n1 := |repo.GetAll(1, 10).posts|;
    var n2 := |repo.GetAll(1, 2).posts|;
    var n3 := |repo.GetAll(2, 2).posts|;
    var n4 := |repo.GetAll(3, 2).posts|;
    var last := repo.GetAll(10, 2);
    pages := [n1, n2, n3, n4, |last.posts|];
    total := last.total;
  }

  /** `TestGetByID` and `TestUpdate`: a created post is found by its id;
      updating it changes its title and content, keeps its creation time and
      moves its update time forward; an update naming a well-formed id that
      is not stored fails with `ErrPostNotFound`, and one naming "invalid-id"
      fails with a parse error. */
  method UpdateScenario(start: int) returns (title: string, content: string, keptCreation: bool,
                                              movedUpdate: bool, missing: Outcome, invalid: Outcome)
    ensures title == "Updated Title" && content == "Updated Content"
    ensures keptCreation && movedUpdate
    ensures missing == Fail(PostNotFound)
    ensures invalid == Fail(InvalidHex)
  {
    var repo := new Repository(start);
    var id := AddPost(repo, "Test Title", "Test Content");
    FromHexOfHex(Generated(0));
    var before := repo.GetByID(id).value;
    var p := new PostRef(Post(id, "Updated Title", "Updated Content", ZeroTime, ZeroTime));
    var err := repo.Update(p);
    var after := repo.GetByID(id).value;
    title, content := after.title, after.content;
    keptCreation := after.createdAt == before.createdAt;
    movedUpdate := after.updatedAt > before.updatedAt;
    GeneratedDistinct(0, 1);
    FromHexOfHex(Generated(1));
    var other := new PostRef(Post(Hex(Generated(1)), "Non-existent Post", "This post doesn't exist", ZeroTime, ZeroTime));
    missing := repo.Update(other);
    var bad := new PostRef(Post("invalid-id", "Invalid ID", "This post has an invalid ID", ZeroTime, ZeroTime));
    invalid := repo.Update(bad);
  }

  /** `TestDelete`: a created post can be deleted, after which it is not
      found; deleting a well-formed id that is not stored fails with
      `ErrPostNotFound`, and deleting "invalid-id" fails with a parse error. */
  method DeleteScenario(start: int) returns (deleted: Outcome, lookup: Result<Post>, missing: Outcome, invalid: Outcome)
    ensures deleted == Pass
    ensures lookup == Err(PostNotFound)
    ensures missing == Fail(PostNotFound)
    ensures invalid == Fail(InvalidHex)
  {
    var repo := new Repository(start);
    var id := AddPost(repo, "Test Title", "Test Content");
    FromHexOfHex(Generated(0));
    deleted := repo.Delete(id);
    lookup := repo.GetByID(id);
    FromHexOfHex(Generated(1));
    missing := repo.Delete(Hex(Generated(1)));
    invalid := repo.Delete("invalid-id");
  }
}
