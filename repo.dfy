/** The MongoDB post repository (internal/storage/mongo/post/repo.go), with the
    `posts` collection held in memory: a map from ObjectID to the stored post
    as `FindOne(...).Decode` returns it, and a clock standing for `time.Now`. */
module Storage {
  import opened Results
  import opened ObjectIds
  import opened Entity

  type Collection = map<ObjectId, Post>

  // ---------------------------------------------------------------------------
  // Sorting by `created_at`, descending
  // ---------------------------------------------------------------------------

  /** No two stored posts were created at the same instant, so the sort on
      `created_at` has a single answer. */
  ghost predicate DistinctCreation(m: Collection) {
    forall j, k | j in m && k in m && j != k :: m[j].createdAt != m[k].createdAt
  }

  /** `k` holds the most recently created post of `m`. */
  predicate IsLatest(m: Collection, k: ObjectId) {
    k in m && forall j | j in m && j != k :: m[j].createdAt < m[k].createdAt
  }

  /** Strictly newest first. */
  predicate Descending(s: seq<Post>) {
    forall i, j | 0 <= i < j < |s| :: s[i].createdAt > s[j].createdAt
  }

  lemma {:induction false} LatestExists(m: Collection)
    requires DistinctCreation(m) && |m| > 0
    ensures exists k :: IsLatest(m, k)
    decreases |m|
  {
    var k0 :| k0 in m;
    var rest := m - {k0};
    assert rest.Keys == m.Keys - {k0};
    if |rest| == 0 {
      assert m.Keys - {k0} == {};
      assert IsLatest(m, k0);
    } else {
      LatestExists(rest);
      var k1 :| IsLatest(rest, k1);
      if m[k0].createdAt > m[k1].createdAt {
        forall j | j in m && j != k0 ensures m[j].createdAt < m[k0].createdAt {
          assert j in rest;
        }
        assert IsLatest(m, k0);
      } else {
        assert m[k0].createdAt != m[k1].createdAt;
        forall j | j in m && j != k1 ensures m[j].createdAt < m[k1].createdAt {
          if j != k0 {
            assert j in rest;
          }
        }
        assert IsLatest(m, k1);
      }
    }
  }

  /** The key of the newest post; there is exactly one. */
  function Latest(m: Collection): (k: ObjectId)
    requires DistinctCreation(m) && |m| > 0
    ensures IsLatest(m, k)
  {
    LatestExists(m);
    var k :| IsLatest(m, k);
    k
  }

  /** The collection sorted by `{created_at: -1}`: every stored post exactly
      once, newest first. */
  function ByRecency(m: Collection): (s: seq<Post>)
    requires DistinctCreation(m)
    ensures |s| == |m|
    ensures forall k | k in m :: m[k] in s
    ensures forall i | 0 <= i < |s| :: s[i] in m.Values
    ensures Descending(s)
    decreases m.Keys
  {
    if |m| == 0 then []
    else
      var k := Latest(m);
      var rest := m - {k};
      assert rest.Keys == m.Keys - {k};
      var tail := ByRecency(rest);
      PrependLatest(m, k, tail);
      [m[k]] + tail
  }

  /** The newest post followed by a sorted listing of the others is a sorted
      listing of the whole collection. */
  lemma PrependLatest(m: Collection, k: ObjectId, tail: seq<Post>)
    requires IsLatest(m, k)
    requires |tail| == |m - {k}|
    requires forall j | j in m - {k} :: (m - {k})[j] in tail
    requires forall i | 0 <= i < |tail| :: tail[i] in (m - {k}).Values
    requires Descending(tail)
    ensures |[m[k]] + tail| == |m|
    ensures forall j | j in m :: m[j] in [m[k]] + tail
    ensures forall i | 0 <= i < |[m[k]] + tail| :: ([m[k]] + tail)[i] in m.Values
    ensures Descending([m[k]] + tail)
  {
    assert (m - {k}).Keys == m.Keys - {k};
    OthersOlder(m, k, tail);
    OthersListed(m, k, tail);
  }

  /** Every stored post is the newest or one of the others. */
  lemma OthersListed(m: Collection, k: ObjectId, tail: seq<Post>)
    requires k in m
    requires forall j | j in m - {k} :: (m - {k})[j] in tail
    ensures forall j | j in m :: m[j] in [m[k]] + tail
  {
    var rest := m - {k};
    forall j | j in m ensures m[j] in [m[k]] + tail {
      if j != k {
        assert j in rest && rest[j] == m[j];
      }
    }
  }

  /** Every post of the others is a stored post older than the newest. */
  lemma OthersOlder(m: Collection, k: ObjectId, tail: seq<Post>)
    requires IsLatest(m, k)
    requires forall i | 0 <= i < |tail| :: tail[i] in (m - {k}).Values
    requires Descending(tail)
    ensures forall i | 0 <= i < |tail| :: tail[i].createdAt < m[k].createdAt && tail[i] in m.Values
    ensures Descending([m[k]] + tail)
  {
    var rest := m - {k};
    forall i | 0 <= i < |tail| ensures tail[i].createdAt < m[k].createdAt && tail[i] in m.Values {
      assert tail[i] in rest.Values;
      var j :| j in rest && rest[j] == tail[i];
      assert j in m && j != k && m[j] == tail[i];
    }
  }

  /** Two newest-first sequences holding the same posts are the same sequence:
      the sort has one answer. */
  lemma {:induction false} DescendingUnique(s: seq<Post>, t: seq<Post>)
    requires Descending(s) && Descending(t)
    requires forall p :: p in s <==> p in t
    ensures s == t
    decreases |s|
  {
    if t != [] {
      assert t[0] in t;
    }
    if s != [] {
      assert s[0] in t;
      assert t[0] in s;
      assert s[0] == t[0];
      forall p ensures p in s[1..] <==> p in t[1..] {
        if p in s[1..] {
          var i :| 1 <= i < |s| && s[i] == p;
          assert p != s[0];
          assert p in t;
        }
        if p in t[1..] {
          var i :| 1 <= i < |t| && t[i] == p;
          assert p != t[0];
          assert p in s;
        }
      }
      DescendingUnique(s[1..], t[1..]);
      assert s == [s[0]] + s[1..];
      assert t == [t[0]] + t[1..];
    }
  }

  /** Any newest-first listing of exactly the stored posts is the sorted
      collection. */
  lemma ByRecencyIs(m: Collection, s: seq<Post>)
    requires DistinctCreation(m)
    requires Descending(s)
    requires forall p :: p in s <==> p in m.Values
    ensures ByRecency(m) == s
  {
    var r := ByRecency(m);
    forall p ensures p in r <==> p in s {
      if p in m.Values {
        var k :| k in m && m[k] == p;
      }
    }
    DescendingUnique(r, s);
  }

  // ---------------------------------------------------------------------------
  // Skip and limit
  // ---------------------------------------------------------------------------

  function Abs(x: int): nat {
    if x < 0 then -x else x
  }

  function Min(a: int, b: int): int {
    if a < b then a else b
  }

  /** `max((page-1)*limit, 0)`, the number of documents GetAll and Search pass
      over. */
  function Skip(page: int, limit: int): (r: nat)
    ensures page >= 1 && limit >= 0 ==> r == (page - 1) * limit
    ensures r == 0 <==> (page - 1) * limit <= 0
  {
    if (page - 1) * limit > 0 then (page - 1) * limit else 0
  }

  /** A find with `SetSkip(skip)` and `SetLimit(limit)` over the sorted
      documents: a limit of 0 means no limit, and a negative limit returns at
      most its absolute value. */
  function Window(s: seq<Post>, skip: nat, limit: int): (w: seq<Post>)
    ensures skip >= |s| ==> w == []
    ensures limit != 0 ==> |w| <= Abs(limit)
    ensures skip < |s| ==> |w| == (if limit == 0 then |s| - skip else Min(Abs(limit), |s| - skip))
    ensures forall i | 0 <= i < |w| :: skip + i < |s| && w[i] == s[skip + i]
  {
    var rest := if skip >= |s| then [] else s[skip..];
    if limit == 0 || Abs(limit) >= |rest| then rest else rest[..Abs(limit)]
  }

  /** A window of a newest-first sequence is newest first. */
  lemma WindowDescending(s: seq<Post>, skip: nat, limit: int)
    requires Descending(s)
    ensures Descending(Window(s, skip, limit))
  {
    var w := Window(s, skip, limit);
    forall i, j | 0 <= i < j < |w| ensures w[i].createdAt > w[j].createdAt {
      assert w[i] == s[skip + i] && w[j] == s[skip + j];
    }
  }

  /** With nothing skipped and a positive limit, the window is the first
      `limit` elements, or all of them when there are fewer. */
  lemma WindowFromStart(s: seq<Post>, limit: int)
    requires limit > 0
    ensures Window(s, 0, limit) == s[..Min(limit, |s|)]
  {
  }

  /** With a positive limit, page `page` (counted from 1) is the slice from
      `(page-1)*limit` to `page*limit`, cut at the end of the sequence. */
  lemma WindowIsPage(s: seq<Post>, page: int, limit: int)
    requires page >= 1 && limit >= 1
    ensures Window(s, Skip(page, limit), limit)
         == s[Min((page - 1) * limit, |s|)..Min(page * limit, |s|)]
  {
    var lo := Min((page - 1) * limit, |s|);
    var hi := Min(page * limit, |s|);
    var w := Window(s, Skip(page, limit), limit);
    assert page * limit == (page - 1) * limit + limit;
    assert |w| == hi - lo;
    forall i | 0 <= i < |w| ensures w[i] == s[lo..hi][i] {
    }
  }

  /** With a positive limit every post of a newest-first listing appears on
      exactly one page: the `(i / limit + 1)`-th, at position `i % limit`. */
  lemma EveryPostOnOnePage(s: seq<Post>, i: int, limit: int)
    requires Descending(s)
    requires 0 <= i < |s| && limit >= 1
    ensures var w := Window(s, Skip(i / limit + 1, limit), limit);
            i % limit < |w| && w[i % limit] == s[i]
    ensures forall q | q >= 1 :: s[i] in Window(s, Skip(q, limit), limit) <==> q == i / limit + 1
  {
    var page := i / limit + 1;
    PageOfIndex(i, page, limit);
    var w := Window(s, Skip(page, limit), limit);
    assert i % limit < |w| && w[i % limit] == s[i];
    forall q | q >= 1 && s[i] in Window(s, Skip(q, limit), limit)
      ensures q == page
    {
      var wq := Window(s, Skip(q, limit), limit);
      var k :| 0 <= k < |wq| && wq[k] == s[i];
      var j := Skip(q, limit) + k;
      assert s[j] == s[i];
      assert j == i;
      assert k < limit;
      PageOfIndex(i, q, limit);
    }
  }

  /** Index `i` lies in the `q`-th block of `limit` exactly when `q` is
      `i / limit + 1`. */
  lemma PageOfIndex(i: int, q: int, limit: int)
    requires i >= 0 && limit >= 1 && q >= 1
    ensures (q - 1) * limit <= i < q * limit <==> q == i / limit + 1
    ensures q == i / limit + 1 ==> i - (q - 1) * limit == i % limit
  {
    var d := i / limit;
    assert d * limit <= i < (d + 1) * limit;
    MulLess(d, q, limit);
    MulLess(q - 1, d + 1, limit);
  }

  lemma MulLess(a: int, b: int, c: int)
    requires c > 0
    ensures a < b <==> a * c < b * c
  {
    if a < b {
      assert b * c == a * c + (b - a) * c;
    } else {
      assert a * c == b * c + (a - b) * c;
    }
  }

  // ---------------------------------------------------------------------------
  // The search filter
  // ---------------------------------------------------------------------------

  /** ASCII letters folded to lower case; other characters unchanged. */
  function LowerAscii(c: char): (d: char)
    ensures 'A' <= c <= 'Z' ==> d as int == c as int + 32
    ensures !('A' <= c <= 'Z') ==> d == c
  {
    if 'A' <= c <= 'Z' then (c as int + 32) as char else c
  }

  function Lower(s: string): (t: string)
    ensures |t| == |s| && forall i | 0 <= i < |s| :: t[i] == LowerAscii(s[i])
  {
    seq(|s|, i requires 0 <= i < |s| => LowerAscii(s[i]))
  }

  /** `q` occurs in `text` at position `i`, ignoring case. */
  predicate FoldMatchAt(text: string, q: string, i: int)
    requires 0 <= i && i + |q| <= |text|
  {
    forall j | 0 <= j < |q| :: LowerAscii(text[i + j]) == LowerAscii(q[j])
  }

  /** `{"$regex": q, "$options": "i"}` for a query without metacharacters:
      `q` occurs somewhere in `text`, ignoring case. */
  predicate ContainsFold(text: string, q: string) {
    exists i | 0 <= i && i + |q| <= |text| :: FoldMatchAt(text, q, i)
  }

  /** The `$or` filter of Search: the query occurs in the title or in the
      content. */
  predicate Matches(p: Post, q: string) {
    ContainsFold(p.title, q) || ContainsFold(p.content, q)
  }

  /** `q` occurs literally in `text` at position `i`. */
  predicate OccursAt(text: string, q: string, i: int) {
    0 <= i && i + |q| <= |text| && text[i..i + |q|] == q
  }

  /** The filter ignores case on both sides: it holds exactly when the
      lower-cased query occurs literally in the lower-cased text. Every literal
      occurrence is found, and the empty query matches every text. */
  lemma ContainsFoldSpec(text: string, q: string)
    ensures ContainsFold(text, q) <==> ContainsFold(Lower(text), Lower(q))
    ensures ContainsFold(text, q) <==> exists i :: OccursAt(Lower(text), Lower(q), i)
    ensures (exists i :: OccursAt(text, q, i)) ==> ContainsFold(text, q)
    ensures q == "" ==> ContainsFold(text, q)
  {
    var lt, lq := Lower(text), Lower(q);
    if exists i :: OccursAt(text, q, i) {
      var i :| OccursAt(text, q, i);
      forall j | 0 <= j < |q| ensures LowerAscii(text[i + j]) == LowerAscii(q[j]) {
        assert text[i + j] == text[i..i + |q|][j];
      }
      assert FoldMatchAt(text, q, i);
    }
    if ContainsFold(text, q) {
      var i :| 0 <= i && i + |q| <= |text| && FoldMatchAt(text, q, i);
      LowerIdempotentOn(text, q, i);
      assert FoldMatchAt(lt, lq, i);
      assert lt[i..i + |q|] == lq;
      assert OccursAt(lt, lq, i);
    }
    if ContainsFold(lt, lq) {
      var i :| 0 <= i && i + |q| <= |text| && FoldMatchAt(lt, lq, i);
      LowerIdempotentOn(text, q, i);
      assert FoldMatchAt(text, q, i);
    }
    if exists i :: OccursAt(lt, lq, i) {
      var i :| OccursAt(lt, lq, i);
      forall j | 0 <= j < |q| ensures LowerAscii(text[i + j]) == LowerAscii(q[j]) {
        assert lt[i + j] == lt[i..i + |q|][j];
      }
      assert FoldMatchAt(text, q, i);
    }
    if q == "" {
      assert FoldMatchAt(text, q, 0);
    }
  }

  lemma LowerIdempotentOn(text: string, q: string, i: int)
    requires 0 <= i && i + |q| <= |text|
    ensures FoldMatchAt(text, q, i) <==> FoldMatchAt(Lower(text), Lower(q), i)
  {
    forall c: char ensures LowerAscii(LowerAscii(c)) == LowerAscii(c) {
    }
  }

  /** The posts the filter selects. */
  function Matching(m: Collection, q: string): (r: Collection)
    ensures forall k :: k in r <==> k in m && Matches(m[k], q)
    ensures forall k | k in r :: r[k] == m[k]
  {
    map k | k in m && Matches(m[k], q) :: m[k]
  }

  lemma MatchingKeepsDistinct(m: Collection, q: string)
    requires DistinctCreation(m)
    ensures DistinctCreation(Matching(m, q))
  {
  }

  // ---------------------------------------------------------------------------
  // Ids
  // ---------------------------------------------------------------------------

  /** The `_id` an insert ends up with: the driver generates the `issued`-th
      ObjectID for a post without an id; otherwise the post's id is parsed,
      which is where `MarshalBSON` fails on a malformed one. */
  function NewKey(id: string, issued: nat): (r: Result<ObjectId>)
    ensures id == "" ==> r == Ok(Generated(issued))
    ensures id != "" ==> r == FromHex(id)
    ensures r.Err? <==> Marshal(Post(id, "", "", 0, 0)).Err?
  {
    if id == "" then Ok(Generated(issued)) else FromHex(id)
  }

  /** The document `InsertOne` stores: the marshalled post, with the
      generated `_id` put in front when the post had none. */
  function InsertedDocument(doc: Document, key: ObjectId): Document {
    if |doc| > 0 && doc[0].0 == "_id" then doc else [("_id", Oid(key))] + doc
  }

  /** The stored post `FindOne` returns for a post inserted under `key`. */
  function Stored(key: ObjectId, p: Post): (s: Post)
    ensures s.id == Hex(key) && FromHex(s.id) == Ok(key)
    ensures s.title == p.title && s.content == p.content
  {
    FromHexOfHex(key);
    Post(Hex(key), p.title, p.content, p.createdAt, p.updatedAt)
  }

  /** Decoding the inserted document gives the stored post, when the post's
      times are whole milliseconds as the clock makes them. */
  lemma InsertedDecodes(p: Post, key: ObjectId)
    requires Marshal(p).Ok?
    requires p.id != "" ==> FromHex(p.id) == Ok(key)
    requires p.createdAt % Millisecond == 0 && p.updatedAt % Millisecond == 0
    ensures Unmarshal(InsertedDocument(Marshal(p).value, key)) == Ok(Stored(key, p))
  {
    var q := p.(id := Hex(key));
    FromHexOfHex(key);
    RoundTripWithId(q);
    assert InsertedDocument(Marshal(p).value, key) == Marshal(q).value;
    HexOfFromHex(Hex(key));
  }

  // ---------------------------------------------------------------------------
  // The repository
  // ---------------------------------------------------------------------------

  /** Every stored post carries its key as its id, was updated no earlier
      than it was created and no later than the clock reading `clock`, and no
      two were created at the same instant. */
  ghost predicate Consistent(m: Collection, clock: int) {
    && (forall k | k in m :: m[k].id == Hex(k))
    && (forall k | k in m :: m[k].createdAt <= m[k].updatedAt <= clock * Millisecond)
    && DistinctCreation(m)
  }

  /** Inserting a post stamped with the next clock reading keeps the
      collection consistent: it is newer than every stored post. */
  lemma InsertKeepsConsistent(m: Collection, clock: int, key: ObjectId, p: Post)
    requires Consistent(m, clock) && key !in m
    requires p.id == Hex(key) && p.createdAt == p.updatedAt == (clock + 1) * Millisecond
    ensures Consistent(m[key := p], clock + 1)
  {
    var m' := m[key := p];
    forall j, k | j in m' && k in m' && j != k ensures m'[j].createdAt != m'[k].createdAt {
      if j != key && k != key {
        assert m'[j] == m[j] && m'[k] == m[k];
      }
    }
  }

  /** Setting a stored post's title, content and update time to the next
      clock reading keeps the collection consistent. */
  lemma SetKeepsConsistent(m: Collection, clock: int, key: ObjectId, title: string, content: string)
    requires Consistent(m, clock) && key in m
    ensures Consistent(m[key := m[key].(title := title, content := content, updatedAt := (clock + 1) * Millisecond)], clock + 1)
  {
    var m' := m[key := m[key].(title := title, content := content, updatedAt := (clock + 1) * Millisecond)];
    forall j, k | j in m' && k in m' && j != k ensures m'[j].createdAt != m'[k].createdAt {
      assert m'[j].createdAt == m[j].createdAt && m'[k].createdAt == m[k].createdAt;
    }
  }

  lemma LaterKeepsConsistent(m: Collection, clock: int, later: int)
    requires Consistent(m, clock) && clock <= later
    ensures Consistent(m, later)
  {
  }

  class Repository {
    /** The `posts` collection. */
    var docs: Collection
    /** The last reading of the clock, in whole milliseconds. */
    var clock: int
    /** How many ObjectIDs the driver has generated. */
    var issued: nat

    /** The class invariant: the collection is consistent with the clock. */
    ghost predicate Valid()
      reads this
    {
      Consistent(docs, clock)
    }

    constructor (start: int)
      ensures Valid()
      ensures docs == map[] && clock == start && issued == 0
    {
      docs := map[];
      clock := start;
      issued := 0;
    }

    /** `repo.Create`: stamps the caller's post with the current time, inserts
        it and returns the hex of its `_id`. A malformed id fails the insert;
        an `_id` already stored fails it with a duplicate-key error; either
        way nothing is stored. */
    method Create(p: PostRef) returns (r: Result<string>)
      requires Valid()
      modifies this, p
      ensures Valid()
      ensures clock == old(clock) + 1
      ensures p.value == old(p.value).(createdAt := clock * Millisecond, updatedAt := clock * Millisecond)
      ensures issued == old(issued) + (if old(p.value).id == "" then 1 else 0)
      ensures NewKey(old(p.value).id, old(issued)).Err? ==>
                r == Err(NewKey(old(p.value).id, old(issued)).error) && docs == old(docs)
      ensures NewKey(old(p.value).id, old(issued)).Ok? ==>
                var key := NewKey(old(p.value).id, old(issued)).value;
                && (key in old(docs) ==> r == Err(DuplicateKey) && docs == old(docs))
                && (key !in old(docs) ==> r == Ok(Hex(key)) && docs == old(docs)[key := Stored(key, p.value)])
    {
      clock := clock + 1;
      var now := clock * Millisecond;
      p.value := p.value.(createdAt := now, updatedAt := now);
      var doc := Marshal(p.value);
      if doc.Err? {
        LaterKeepsConsistent(docs, clock - 1, clock);
        return Err(doc.error);
      }
      var key: ObjectId;
      if p.value.id == "" {
        key := Generated(issued);
        issued := issued + 1;
      } else {
        key := FromHex(p.value.id).value;
      }
      if key in docs {
        LaterKeepsConsistent(docs, clock - 1, clock);
        return Err(DuplicateKey);
      }
      InsertedDecodes(p.value, key);
      var stored := Unmarshal(InsertedDocument(doc.value, key));
      InsertKeepsConsistent(docs, clock - 1, key, stored.value);
      docs := docs[key := stored.value];
      r := Ok(Hex(key));
    }

    /** `repo.GetAll`: the page of posts, newest first, and the size of the
        whole collection. */
    function GetAll(page: int, limit: int): (r: Page)
      reads this
      requires Valid()
      ensures r.total == |docs|
      ensures r.posts == Window(ByRecency(docs), Skip(page, limit), limit)
      ensures Descending(r.posts)
      ensures forall i | 0 <= i < |r.posts| :: r.posts[i] in docs.Values
      ensures limit != 0 ==> |r.posts| <= Abs(limit)
      ensures Skip(page, limit) >= |docs| ==> r.posts == []
    {
      var sorted := ByRecency(docs);
      WindowDescending(sorted, Skip(page, limit), limit);
      Page(Window(sorted, Skip(page, limit), limit), |docs|)
    }

    /** `repo.GetByID`: a malformed id is the parse error, a well-formed id
        with no stored post is `ErrPostNotFound`, otherwise the stored post. */
    function GetByID(id: string): (r: Result<Post>)
      reads this
      ensures FromHex(id).Err? ==> r == Err(FromHex(id).error) && r != Err(PostNotFound)
      ensures FromHex(id).Ok? && FromHex(id).value !in docs ==> r == Err(PostNotFound)
      ensures r.Ok? <==> FromHex(id).Ok? && FromHex(id).value in docs
      ensures r.Ok? ==> r.value == docs[FromHex(id).value]
      ensures r.Ok? && Valid() ==> r.value.id == Hex(FromHex(id).value)
    {
      match FromHex(id)
      case Err(e) => Err(e)
      case Ok(key) => if key in docs then Ok(docs[key]) else Err(PostNotFound)
    }

    /** `repo.Update`: a malformed id changes nothing. Otherwise the caller's
        post gets the current time as `UpdatedAt`, and the stored post with
        that id, if any, gets the new title, content and update time, keeping
        its id and creation time; with no such post the result is
        `ErrPostNotFound` and the collection is unchanged. */
    method Update(p: PostRef) returns (err: Outcome)
      requires Valid()
      modifies this, p
      ensures Valid()
      ensures issued == old(issued)
      ensures FromHex(old(p.value).id).Err? ==>
                && err == Fail(FromHex(old(p.value).id).error)
                && docs == old(docs) && clock == old(clock) && p.value == old(p.value)
      ensures FromHex(old(p.value).id).Ok? ==>
                var key := FromHex(old(p.value).id).value;
                && clock == old(clock) + 1
                && p.value == old(p.value).(updatedAt := clock * Millisecond)
                && (key !in old(docs) ==> err == Fail(PostNotFound) && docs == old(docs))
                && (key in old(docs) ==>
                      && err == Pass
                      && docs == old(docs)[key := old(docs)[key].(title := p.value.title,
                                                                 content := p.value.content,
                                                                 updatedAt := clock * Millisecond)]
                      && docs[key].createdAt == old(docs)[key].createdAt
                      && docs[key].updatedAt > old(docs)[key].updatedAt)
    {
      var parsed := FromHex(p.value.id);
      if parsed.Err? {
        return Fail(parsed.error);
      }
      var key := parsed.value;
      clock := clock + 1;
      var now := clock * Millisecond;
      p.value := p.value.(updatedAt := now);
      if key !in docs {
        LaterKeepsConsistent(docs, clock - 1, clock);
        return Fail(PostNotFound);
      }
      SetKeepsConsistent(docs, clock - 1, key, p.value.title, p.value.content);
      docs := docs[key := docs[key].(title := p.value.title, content := p.value.content, updatedAt := now)];
      err := Pass;
    }

    /** `repo.Delete`: a malformed id is the parse error, an id with no stored
        post is `ErrPostNotFound`; otherwise that post is removed. Either way a
        well-formed id names no stored post afterwards. */
    method Delete(id: string) returns (err: Outcome)
      requires Valid()
      modifies this
      ensures Valid()
      ensures clock == old(clock) && issued == old(issued)
      ensures FromHex(id).Err? ==> err == Fail(FromHex(id).error) && docs == old(docs)
      ensures FromHex(id).Ok? && FromHex(id).value !in old(docs) ==>
                err == Fail(PostNotFound) && docs == old(docs)
      ensures FromHex(id).Ok? && FromHex(id).value in old(docs) ==>
                err == Pass && docs == old(docs) - {FromHex(id).value}
      ensures FromHex(id).Ok? ==> GetByID(id) == Err(PostNotFound)
    {
      var parsed := FromHex(id);
      if parsed.Err? {
        return Fail(parsed.error);
      }
      var key := parsed.value;
      if key !in docs {
        return Fail(PostNotFound);
      }
      docs := docs - {key};
      err := Pass;
    }

    /** `repo.Search`: the page of matching posts, newest first, and the number
        of matching posts. */
    function Search(query: string, page: int, limit: int): (r: Page)
      reads this
      requires Valid()
      ensures r.total == |Matching(docs, query)|
      ensures DistinctCreation(Matching(docs, query))
      ensures r.posts == Window(ByRecency(Matching(docs, query)), Skip(page, limit), limit)
      ensures Descending(r.posts)
      ensures forall i | 0 <= i < |r.posts| :: r.posts[i] in docs.Values && Matches(r.posts[i], query)
      ensures limit != 0 ==> |r.posts| <= Abs(limit)
    {
      var found := Matching(docs, query);
      MatchingKeepsDistinct(docs, query);
      var sorted := ByRecency(found);
      WindowDescending(sorted, Skip(page, limit), limit);
      Page(Window(sorted, Skip(page, limit), limit), |found|)
    }

    /** `repo.GetRecent`: the newest posts, at most `limit` of them (all of
        them for a limit of 0), with nothing skipped. */
    function GetRecent(limit: int): (r: seq<Post>)
      reads this
      requires Valid()
      ensures r == Window(ByRecency(docs), 0, limit)
      ensures limit > 0 ==> r == ByRecency(docs)[..Min(limit, |docs|)]
      ensures Descending(r)
    {
      var sorted := ByRecency(docs);
      WindowDescending(sorted, 0, limit);
      if limit > 0 then
        WindowFromStart(sorted, limit);
        Window(sorted, 0, limit)
      else
        Window(sorted, 0, limit)
    }
  }

  /** The empty query matches every post, so searching for it lists the same
      page and total as GetAll. */
  lemma SearchEmptyIsGetAll(r: Repository, page: int, limit: int)
    requires r.Valid()
    ensures r.Search("", page, limit) == r.GetAll(page, limit)
  {
    forall k | k in r.docs ensures Matches(r.docs[k], "") {
      ContainsFoldSpec(r.docs[k].title, "");
    }
    assert Matching(r.docs, "") == r.docs;
  }
}
