/** The post record (internal/entity/post/entity.go): its validation rule and
    its conversion to and from the stored document. A BSON document is
    modelled by its decoded element list (`bson.D`), not by its bytes. */
module Entity {
  import opened Results
  import opened ObjectIds

  /** A `time.Time`, as nanoseconds since the Unix epoch (UTC). */
  type Time = int

  const Millisecond: int := 1_000_000

  /** The zero `time.Time`: January 1 of year 1, UTC. */
  const ZeroTime: Time := -62135596800 * 1_000_000_000

  datatype Post = Post(id: string, title: string, content: string, createdAt: Time, updatedAt: Time)

  /** The `(posts, total)` pair a paged listing returns. */
  datatype Page = Page(posts: seq<Post>, total: int)

  /** `Post.Validate`: the title is checked before the content. */
  function Validate(p: Post): (r: Outcome)
    ensures p.title == "" ==> r == Fail(EmptyTitle)
    ensures r == Fail(EmptyContent) <==> p.title != "" && p.content == ""
    ensures r == Pass <==> p.title != "" && p.content != ""
    ensures r.Fail? ==> r.error == EmptyTitle || r.error == EmptyContent
  {
    if p.title == "" then Fail(EmptyTitle)
    else if p.content == "" then Fail(EmptyContent)
    else Pass
  }

  /** A BSON value of the kinds a post document holds. */
  datatype Value = Str(s: string) | Oid(oid: ObjectId) | DateTime(millis: int)

  /** A `bson.D`: the document's elements in order. */
  type Document = seq<(string, Value)>

  function Keys(doc: Document): seq<string> {
    seq(|doc|, i requires 0 <= i < |doc| => doc[i].0)
  }

  /** A BSON datetime counts whole milliseconds: encoding a time rounds it down
      to the millisecond. */
  function ToDateTime(t: Time): int {
    t / Millisecond
  }

  function FromDateTime(ms: int): Time {
    ms * Millisecond
  }

  function Truncate(t: Time): Time {
    FromDateTime(ToDateTime(t))
  }

  /** A stored time comes back at most one millisecond early, and storing it
      again changes nothing. */
  lemma TruncateWithinMillisecond(t: Time)
    ensures Truncate(t) <= t < Truncate(t) + Millisecond
    ensures Truncate(Truncate(t)) == Truncate(t)
  {
  }

  /** The four elements written for every post, in this order. */
  function Fields(p: Post): Document {
    [ ("title", Str(p.title)),
      ("content", Str(p.content)),
      ("created_at", DateTime(ToDateTime(p.createdAt))),
      ("updated_at", DateTime(ToDateTime(p.updatedAt))) ]
  }

  /** `Post.MarshalBSON`: without an id the `_id` key is left out so that the
      database assigns one; a non-hex id is an error; a valid id is written
      first, as an ObjectID. */
  function Marshal(p: Post): (r: Result<Document>)
    ensures p.id == "" ==> r.Ok? && Keys(r.value) == ["title", "content", "created_at", "updated_at"]
    ensures p.id != "" && FromHex(p.id).Err? ==> r == Err(FromHex(p.id).error)
    ensures p.id != "" && FromHex(p.id).Ok? ==>
              && r.Ok?
              && Keys(r.value) == ["_id", "title", "content", "created_at", "updated_at"]
              && r.value[0].1 == Oid(FromHex(p.id).value)
    ensures r.Ok? ==> r.value[|r.value| - 4..] == Fields(p)
  {
    if p.id == "" then Ok(Fields(p))
    else match FromHex(p.id)
      case Err(e) => Err(e)
      case Ok(oid) => Ok([("_id", Oid(oid))] + Fields(p))
  }

  /** The unexported `mongoPost` struct that `UnmarshalBSON` decodes into. */
  datatype MongoPost = MongoPost(id: ObjectId, title: string, content: string, createdAt: Time, updatedAt: Time)

  const ZeroMongoPost: MongoPost := MongoPost(NilId, "", "", ZeroTime, ZeroTime)

  /** One step of `bson.Unmarshal` into a `mongoPost`: a known key sets its
      field, an unknown key is skipped, and a value of another of the three
      kinds modelled here is an error. */
  function DecodeElement(acc: MongoPost, e: (string, Value)): Result<MongoPost> {
    var key := e.0;
    var v := e.1;
    if key == "_id" then
      (if v.Oid? then Ok(acc.(id := v.oid)) else Err(DecodeMismatch(key)))
    else if key == "title" then
      (if v.Str? then Ok(acc.(title := v.s)) else Err(DecodeMismatch(key)))
    else if key == "content" then
      (if v.Str? then Ok(acc.(content := v.s)) else Err(DecodeMismatch(key)))
    else if key == "created_at" then
      (if v.DateTime? then Ok(acc.(createdAt := FromDateTime(v.millis))) else Err(DecodeMismatch(key)))
    else if key == "updated_at" then
      (if v.DateTime? then Ok(acc.(updatedAt := FromDateTime(v.millis))) else Err(DecodeMismatch(key)))
    else Ok(acc)
  }

  function DecodeFrom(acc: MongoPost, doc: Document): Result<MongoPost>
    decreases |doc|
  {
    if doc == [] then Ok(acc)
    else match DecodeElement(acc, doc[0])
      case Err(e) => Err(e)
      case Ok(next) => DecodeFrom(next, doc[1..])
  }

  /** `bson.Unmarshal(data, &tmp)`: fields missing from the document keep the
      zero value. */
  function Decode(doc: Document): Result<MongoPost> {
    DecodeFrom(ZeroMongoPost, doc)
  }

  /** `Post.UnmarshalBSON` as a function of the document: decode, then copy the
      five fields, the id rendered as hex. */
  function Unmarshal(doc: Document): (r: Result<Post>)
    ensures r.Ok? <==> Decode(doc).Ok?
    ensures r.Err? ==> r == Err(Decode(doc).error)
    ensures r.Ok? ==> FromHex(r.value.id).Ok? && Hex(FromHex(r.value.id).value) == r.value.id
  {
    match Decode(doc)
    case Err(e) => Err(e)
    case Ok(tmp) =>
      FromHexOfHex(tmp.id);
      Ok(Post(Hex(tmp.id), tmp.title, tmp.content, tmp.createdAt, tmp.updatedAt))
  }

  /** The value of the last element of `doc` with key `key`, if there is one. */
  function LastValue(doc: Document, key: string): Option<Value>
    decreases |doc|
  {
    if doc == [] then None
    else if doc[|doc| - 1].0 == key then Some(doc[|doc| - 1].1)
    else LastValue(doc[..|doc| - 1], key)
  }

  /** The last element with a key is in the rest of the document if there is
      one there, and otherwise it is the first element or none. */
  lemma {:induction false} LastValueFront(doc: Document, key: string)
    requires doc != []
    ensures LastValue(doc, key)
         == if LastValue(doc[1..], key).Some? then LastValue(doc[1..], key)
            else if doc[0].0 == key then Some(doc[0].1)
            else None
    decreases |doc|
  {
    var n := |doc|;
    if n > 1 && doc[n - 1].0 != key {
      assert doc[1..][..n - 2] == doc[..n - 1][1..];
      LastValueFront(doc[..n - 1], key);
    }
  }

  /** The kind of value `mongoPost` accepts under each of its keys; any value
      fits under another key. */
  predicate FitsField(e: (string, Value)) {
    && (e.0 == "_id" ==> e.1.Oid?)
    && (e.0 == "title" || e.0 == "content" ==> e.1.Str?)
    && (e.0 == "created_at" || e.0 == "updated_at" ==> e.1.DateTime?)
  }

  /** Decoding fails exactly when some element does not fit its field, and
      then it reports the key of the first such element. */
  lemma {:induction false} DecodeFromFails(acc: MongoPost, doc: Document)
    ensures DecodeFrom(acc, doc).Ok? <==> forall i | 0 <= i < |doc| :: FitsField(doc[i])
    ensures DecodeFrom(acc, doc).Err? ==>
              exists i | 0 <= i < |doc| :: && !FitsField(doc[i])
                                           && (forall j | 0 <= j < i :: FitsField(doc[j]))
                                           && DecodeFrom(acc, doc).error == DecodeMismatch(doc[i].0)
    decreases |doc|
  {
    if doc != [] {
      if DecodeElement(acc, doc[0]).Ok? {
        assert FitsField(doc[0]);
        var next := DecodeElement(acc, doc[0]).value;
        DecodeFromFails(next, doc[1..]);
        if DecodeFrom(acc, doc).Err? {
          var i :| && 0 <= i < |doc[1..]| && !FitsField(doc[1..][i])
                   && (forall j | 0 <= j < i :: FitsField(doc[1..][j]))
                   && DecodeFrom(next, doc[1..]).error == DecodeMismatch(doc[1..][i].0);
          assert forall j | 0 <= j < i + 1 :: FitsField(doc[j]) by {
            forall j | 0 < j < i + 1 ensures FitsField(doc[j]) {
              assert doc[j] == doc[1..][j - 1];
            }
          }
          assert !FitsField(doc[i + 1]) by {
            assert doc[i + 1] == doc[1..][i];
          }
        } else {
          forall j | 0 < j < |doc| ensures FitsField(doc[j]) {
            assert doc[j] == doc[1..][j - 1];
          }
        }
      } else {
        assert !FitsField(doc[0]);
      }
    }
  }

  /** Each field decoding ends with holds the value of the last element with
      its key, or the value it started with when there is no such element. */
  lemma {:induction false} DecodeFromFields(acc: MongoPost, doc: Document)
    requires DecodeFrom(acc, doc).Ok?
    ensures var m := DecodeFrom(acc, doc).value;
      && (LastValue(doc, "_id").None? ==> m.id == acc.id)
      && (LastValue(doc, "_id").Some? ==> LastValue(doc, "_id").value == Oid(m.id))
      && (LastValue(doc, "title").None? ==> m.title == acc.title)
      && (LastValue(doc, "title").Some? ==> LastValue(doc, "title").value == Str(m.title))
      && (LastValue(doc, "content").None? ==> m.content == acc.content)
      && (LastValue(doc, "content").Some? ==> LastValue(doc, "content").value == Str(m.content))
      && (LastValue(doc, "created_at").None? ==> m.createdAt == acc.createdAt)
      && (LastValue(doc, "created_at").Some? ==>
            LastValue(doc, "created_at").value.DateTime?
            && m.createdAt == FromDateTime(LastValue(doc, "created_at").value.millis))
      && (LastValue(doc, "updated_at").None? ==> m.updatedAt == acc.updatedAt)
      && (LastValue(doc, "updated_at").Some? ==>
            LastValue(doc, "updated_at").value.DateTime?
            && m.updatedAt == FromDateTime(LastValue(doc, "updated_at").value.millis))
    decreases |doc|
  {
    if doc != [] {
      var next := DecodeElement(acc, doc[0]).value;
      DecodeFromFields(next, doc[1..]);
      LastValueFront(doc, "_id");
      LastValueFront(doc, "title");
      LastValueFront(doc, "content");
      LastValueFront(doc, "created_at");
      LastValueFront(doc, "updated_at");
    }
  }

  /** What `UnmarshalBSON` takes from a document it accepts: each field is the
      value of the last element with its key, or the zero value when the key
      is absent; the id is the hex of that ObjectID, or of the nil ObjectID.
      It accepts the document exactly when every element fits its field, and
      otherwise reports the first element that does not. */
  lemma UnmarshalFields(doc: Document)
    ensures Unmarshal(doc).Ok? <==> forall i | 0 <= i < |doc| :: FitsField(doc[i])
    ensures Unmarshal(doc).Err? ==>
              exists i | 0 <= i < |doc| :: && !FitsField(doc[i])
                                           && (forall j | 0 <= j < i :: FitsField(doc[j]))
                                           && Unmarshal(doc).error == DecodeMismatch(doc[i].0)
    ensures Unmarshal(doc).Ok? ==> var p := Unmarshal(doc).value;
      && (LastValue(doc, "_id").None? ==> p.id == Hex(NilId))
      && (LastValue(doc, "_id").Some? ==>
            LastValue(doc, "_id").value.Oid? && p.id == Hex(LastValue(doc, "_id").value.oid))
      && (LastValue(doc, "title").None? ==> p.title == "")
      && (LastValue(doc, "title").Some? ==> LastValue(doc, "title").value == Str(p.title))
      && (LastValue(doc, "content").None? ==> p.content == "")
      && (LastValue(doc, "content").Some? ==> LastValue(doc, "content").value == Str(p.content))
      && (LastValue(doc, "created_at").None? ==> p.createdAt == ZeroTime)
      && (LastValue(doc, "created_at").Some? ==>
            LastValue(doc, "created_at").value.DateTime?
            && p.createdAt == FromDateTime(LastValue(doc, "created_at").value.millis))
      && (LastValue(doc, "updated_at").None? ==> p.updatedAt == ZeroTime)
      && (LastValue(doc, "updated_at").Some? ==>
            LastValue(doc, "updated_at").value.DateTime?
            && p.updatedAt == FromDateTime(LastValue(doc, "updated_at").value.millis))
  {
    DecodeFromFails(ZeroMongoPost, doc);
    if Decode(doc).Ok? {
      DecodeFromFields(ZeroMongoPost, doc);
    }
  }

  /** Marshalling a post with a valid hex id and unmarshalling the document
      gives back its id (in lower case), title and content exactly and both
      times to the millisecond. */
  lemma RoundTripWithId(p: Post)
    requires FromHex(p.id).Ok?
    ensures Marshal(p).Ok?
    ensures Unmarshal(Marshal(p).value)
         == Ok(Post(Hex(FromHex(p.id).value), p.title, p.content, Truncate(p.createdAt), Truncate(p.updatedAt)))
    ensures (forall i | 0 <= i < |p.id| :: IsLowerHexDigit(p.id[i])) ==> Unmarshal(Marshal(p).value).value.id == p.id
  {
    var oid := FromHex(p.id).value;
    var doc := Marshal(p).value;
    var m0 := ZeroMongoPost.(id := oid);
    var m1 := m0.(title := p.title);
    var m2 := m1.(content := p.content);
    var m3 := m2.(createdAt := Truncate(p.createdAt));
    var m4 := m3.(updatedAt := Truncate(p.updatedAt));
    assert doc[1..][1..][1..][1..][1..] == [];
    assert DecodeFrom(m3, doc[1..][1..][1..][1..]) == Ok(m4);
    assert DecodeFrom(m2, doc[1..][1..][1..]) == Ok(m4);
    assert DecodeFrom(m1, doc[1..][1..]) == Ok(m4);
    assert DecodeFrom(m0, doc[1..]) == Ok(m4);
    assert Decode(doc) == Ok(m4);
    HexOfFromHex(p.id);
  }

  /** Marshalling a post without an id and unmarshalling the document gives the
      nil ObjectID's hex as id: the document never carried an `_id`. */
  lemma RoundTripWithoutId(p: Post)
    requires p.id == ""
    ensures Marshal(p).Ok? && "_id" !in Keys(Marshal(p).value)
    ensures Unmarshal(Marshal(p).value)
         == Ok(Post(Hex(NilId), p.title, p.content, Truncate(p.createdAt), Truncate(p.updatedAt)))
  {
    var doc := Marshal(p).value;
    var m1 := ZeroMongoPost.(title := p.title);
    var m2 := m1.(content := p.content);
    var m3 := m2.(createdAt := Truncate(p.createdAt));
    var m4 := m3.(updatedAt := Truncate(p.updatedAt));
    assert doc[1..][1..][1..][1..] == [];
    assert DecodeFrom(m3, doc[1..][1..][1..]) == Ok(m4);
    assert DecodeFrom(m2, doc[1..][1..]) == Ok(m4);
    assert DecodeFrom(m1, doc[1..]) == Ok(m4);
    assert Decode(doc) == Ok(m4);
  }

  /** The `*Post` a caller holds. The repository writes its timestamps and
      `UnmarshalBSON` overwrites all five fields through it. */
  class PostRef {
    var value: Post

    constructor (p: Post)
      ensures value == p
    {
      value := p;
    }

    /** `Post.UnmarshalBSON`: on success the five fields are replaced by the
        document's; on a decoding error the post is left as it was. */
    method UnmarshalBSON(doc: Document) returns (err: Outcome)
      modifies this
      ensures Unmarshal(doc).Ok? ==> err == Pass && value == Unmarshal(doc).value
      ensures Unmarshal(doc).Err? ==> err == Fail(Unmarshal(doc).error) && value == old(value)
    {
      var tmp := Decode(doc);
      if tmp.Err? {
        return Fail(tmp.error);
      }
      value := Post(Hex(tmp.value.id), tmp.value.title, tmp.value.content, tmp.value.createdAt, tmp.value.updatedAt);
      err := Pass;
    }
  }
}
