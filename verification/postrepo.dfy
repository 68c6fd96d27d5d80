/** The legacy post coordinator (src/repositories/PostRepository.tsx): post records in the
    "posts" collection. It talks to the upload route with its own form, and retires a post's
    image through a separate delete-image endpoint whose behaviour is an input here. */
module PostRepository {
  import opened Base
  import opened Http
  import opened Models
  import opened Catalog
  import opened MediaRepository
  import opened UploadImageRoute

  const UploadImageFailed := "Failed to upload image"

  /** The form `uploadImage(file)` sends: a single "image" field. */
  function ImageForm(file: MediaFile): (form: seq<FormEntry>)
    ensures FieldNames(form) == ["image"]
    ensures FormGet(form, "file").None? && FormGet(form, "folder").None?
  {
    [FormEntry("image", FileValue(file))]
  }

  /** The request `uploadImage` issues: no "file" and no "folder" field. */
  const ImageUploadReq := UploadFileReq(["image"], None)

  /** The upload route's reply to the form `uploadImage(file)` sends: always 400, and the media
      host is never called. */
  function ImageUploadCall(file: MediaFile, now: nat, host: HostUploadAnswer): (reply: Reply)
    ensures reply == Reply(400, ErrorJson(MissingFileOrFolder), None)
  {
    UploadImageRoute.Post(MultipartForm(ImageForm(file)), now, host)
  }

  /** How `uploadImage` reads the reply: throw unless `response.ok`, else `data.imageUrl`. */
  function ImageUploadOutcome(reply: Reply): (r: Result<Option<string>, string>)
    ensures r.Err? <==> !IsOk(reply.status)
    ensures r.Err? ==> r.error == UploadImageFailed
    // The route never answers with an "imageUrl" field, so even an accepted upload reads as
    // `undefined`.
    ensures reply.body.UrlJson? && r.Ok? ==> r.value.None?
  {
    if !IsOk(reply.status) then Err(UploadImageFailed) else Ok(JsonField(reply.body, "imageUrl"))
  }

  /** `uploadImage(file)` as a step. */
  function UploadImage(db: Db, file: MediaFile, up: UploadAnswer): (s: Step<Option<Url>>)
    ensures FollowsPlan(db.trace, s.db.trace, s.result, [ImageUploadReq])
    ensures s.db == db.(trace := s.db.trace)
    ensures s.result == Err(ImageUploadReq)
  {
    var reply := ImageUploadCall(file, up.now, up.host);
    var out := ImageUploadOutcome(reply);
    Single(db, ImageUploadReq, out.Ok?, reply.hostCall, JsonField(reply.body, "imageUrl"))
  }

  /** The post `addPost` inserts: the caller's, without its `id` when that is truthy. */
  function Stripped(post: Post): (p: Post)
    ensures p.id.None? || p.id == Some("")
    ensures p.(id := post.id) == post
  {
    if Truthy(post.id) then post.(id := None) else post
  }

  function AddPostPlan(image: Option<MediaFile>): seq<Request> {
    (if image.Some? then [ImageUploadReq] else []) + [AddDocReq(Posts)]
  }

  /** `addPost(post, image)`. */
  function AddPost(db: Db, post: Post, image: Option<MediaFile>, up: UploadAnswer, ins: InsertAnswer): (s: Step<Post>)
    ensures FollowsPlan(db.trace, s.db.trace, s.result, AddPostPlan(image))
    ensures OthersUnchanged(db, s.db, Posts) && s.db.live == db.live
    // With an image the upload always fails, so no post is ever created.
    ensures image.Some? ==> s.result == Err(ImageUploadReq) && s.db.posts == db.posts
    ensures image.None? ==> (s.result.Ok? <==> ins.Assigned?)
    ensures s.result.Err? ==> s.db.posts == db.posts
    // Without one the stripped post is stored under the new key, and returned with that key.
    ensures s.result.Ok? ==> && ins.Assigned?
                             && s.result.value == post.(id := Some(ins.key), imageUrl := None)
                             && s.db.posts == db.posts[ins.key := Stripped(post).(imageUrl := None)]
  {
    var p1 := if image.Some? then [ImageUploadReq] else [];
    var s1 := if image.Some? then UploadImage(db, image.value, up) else Done(db, None);
    if s1.result.Err? then
      var s := Rethrow<Option<Url>, Post>(s1);
      AbortFollows(db.trace, s1.db.trace, s1.result, s.result, p1, [AddDocReq(Posts)]);
      s
    else
      var imageUrl := s1.result.value;
      var key := if ins.Assigned? then ins.key else "";
      var stored := Stripped(post).(imageUrl := imageUrl);
      var s2 := Single(s1.db, AddDocReq(Posts), ins.Assigned?, None, stored.(id := Some(key)));
      ThenFollows(db.trace, s1.db.trace, s2.db.trace, s1.result, s2.result, p1, [AddDocReq(Posts)]);
      if ins.Assigned? then s2.(db := s2.db.(posts := db.posts[key := stored])) else s2
  }

  /** The `where("userId", "==", userId)` filter. */
  function ByUser(userId: string): Post -> bool {
    (x: Post) => x.userId == userId
  }

  /** The keyed records the query picks are exactly the stored ones that match it. */
  lemma PostsOfUserFound(posts: map<Id, Post>, userId: string, order: seq<Id>, ks: seq<Id>, found: seq<Post>)
    requires Listing(order, posts) && ks == Select(order, posts, ByUser(userId))
    requires |found| == |ks| && forall j :: 0 <= j < |ks| ==> found[j] == posts[ks[j]].WithDocId(ks[j])
    ensures forall x :: x in found ==> x.userId == userId && exists k :: k in posts && x == posts[k].WithDocId(k)
    ensures forall k :: k in posts && posts[k].userId == userId ==> posts[k].WithDocId(k) in found
  {
    forall x | x in found
      ensures x.userId == userId && exists k :: k in posts && x == posts[k].WithDocId(k)
    {
      var j :| 0 <= j < |found| && found[j] == x;
      assert ks[j] in posts && ByUser(userId)(posts[ks[j]]);
    }
    forall k | k in posts && posts[k].userId == userId
      ensures posts[k].WithDocId(k) in found
    {
      assert k in order && ByUser(userId)(posts[k]);
      var j :| 0 <= j < |ks| && ks[j] == k;
      assert found[j] == posts[k].WithDocId(k);
    }
  }

  /** The stored posts of that user, in listing order, each with its key. */
  function PostsOfUser(posts: map<Id, Post>, userId: string, order: seq<Id>): (found: seq<Post>)
    requires Listing(order, posts)
    ensures forall x :: x in found ==> x.userId == userId && exists k :: k in posts && x == posts[k].WithDocId(k)
    ensures forall k :: k in posts && posts[k].userId == userId ==> posts[k].WithDocId(k) in found
    ensures |found| == |Matching(posts, ByUser(userId))|
  {
    var ks := Select(order, posts, ByUser(userId));
    ListedSelectCount(order, posts, ByUser(userId));
    var found := seq(|ks|, j requires 0 <= j < |ks| => posts[ks[j]].WithDocId(ks[j]));
    PostsOfUserFound(posts, userId, order, ks, found);
    found
  }

  /** `getPostsByUser(userId)`; `order` is the store's listing of the collection. */
  function GetPostsByUser(db: Db, userId: string, order: seq<Id>, ans: StoreAnswer): (s: Step<seq<Post>>)
    requires Listing(order, db.posts)
    ensures FollowsPlan(db.trace, s.db.trace, s.result, [QueryReq(Posts, "userId", userId)])
    ensures s.db == db.(trace := s.db.trace)
    ensures s.result.Ok? <==> ans.Served?
    // Only posts of that user, each a stored record with its key ...
    ensures s.result.Ok? ==> forall x :: x in s.result.value ==>
      x.userId == userId && exists k :: k in db.posts && x == db.posts[k].WithDocId(k)
    // ... and every stored post of that user.
    ensures s.result.Ok? ==> forall k :: k in db.posts && db.posts[k].userId == userId ==>
      db.posts[k].WithDocId(k) in s.result.value
    // Each of them exactly once.
    ensures s.result.Ok? ==> |s.result.value| == |Matching(db.posts, ByUser(userId))|
  {
    var found := PostsOfUser(db.posts, userId, order);
    Single(db, QueryReq(Posts, "userId", userId), ans.Served?, None, found)
  }

  /** The image `deletePost` retires: the stored record's, when it exists and is truthy. */
  function StoredImage(posts: map<Id, Post>, key: Id): (url: Option<Url>)
    ensures url.Some? <==> key in posts && Truthy(posts[key].imageUrl)
    ensures url.Some? ==> url == posts[key].imageUrl
  {
    if key in posts && Truthy(posts[key].imageUrl) then posts[key].imageUrl else None
  }

  function DeletePostPlan(posts: map<Id, Post>, key: Id): seq<Request> {
    [GetDocReq(Posts, key)]
      + (if StoredImage(posts, key).Some? then [DeleteImageReq(StoredImage(posts, key).value)] else [])
      + [DeleteDocReq(Posts, key)]
  }

  /** The read and the image delete of `deletePost`. */
  function ReadAndDeleteImage(db: Db, key: Id, read: StoreAnswer, deleteImage: StoreAnswer): (s: Step<()>)
    ensures FollowsPlan(db.trace, s.db.trace, s.result,
                        [GetDocReq(Posts, key)] + (if StoredImage(db.posts, key).Some? then [DeleteImageReq(StoredImage(db.posts, key).value)] else []))
    ensures s.db == db.(trace := s.db.trace)
    ensures s.result.Ok? <==> read.Served? && (StoredImage(db.posts, key).None? || deleteImage.Served?)
  {
    var p1 := [GetDocReq(Posts, key)];
    var url := StoredImage(db.posts, key);
    var p2 := if url.Some? then [DeleteImageReq(url.value)] else [];
    var s1 := Single(db, GetDocReq(Posts, key), read.Served?, None, ());
    if s1.result.Err? then
      AbortFollows(db.trace, s1.db.trace, s1.result, s1.result, p1, p2);
      s1
    else
      var s2 := if url.Some? then Single(s1.db, DeleteImageReq(url.value), deleteImage.Served?, None, ())
                else Done(s1.db, ());
      ThenFollows(db.trace, s1.db.trace, s2.db.trace, s1.result, s2.result, p1, p2);
      s2
  }

  /** `deletePost(key)`: the image URL comes from the stored record; `deleteImage` is the
      delete-image endpoint's answer. Deleting a missing document succeeds. */
  function DeletePost(db: Db, key: Id, read: StoreAnswer, deleteImage: StoreAnswer, del: StoreAnswer): (s: Step<()>)
    // Read, then the image (only if the record exists and has one), then the record, which is
    // attempted even when no record exists.
    ensures FollowsPlan(db.trace, s.db.trace, s.result, DeletePostPlan(db.posts, key))
    ensures OthersUnchanged(db, s.db, Posts) && s.db.live == db.live
    ensures s.result.Ok? <==> read.Served? && (StoredImage(db.posts, key).None? || deleteImage.Served?) && del.Served?
    ensures s.result.Ok? ==> s.db.posts == db.posts - {key}
    ensures s.result.Err? ==> s.db.posts == db.posts
  {
    var url := StoredImage(db.posts, key);
    var p1 := [GetDocReq(Posts, key)] + (if url.Some? then [DeleteImageReq(url.value)] else []);
    var p2 := [DeleteDocReq(Posts, key)];
    var s1 := ReadAndDeleteImage(db, key, read, deleteImage);
    if s1.result.Err? then
      AbortFollows(db.trace, s1.db.trace, s1.result, s1.result, p1, p2);
      s1
    else
      var s2 := Single(s1.db, DeleteDocReq(Posts, key), del.Served?, None, ());
      ThenFollows(db.trace, s1.db.trace, s2.db.trace, s1.result, s2.result, p1, p2);
      if del.Served? then s2.(db := s2.db.(posts := db.posts - {key})) else s2
  }

  // ---------------------------------------------------------------------------------------------
  // Properties across calls.

  /** A post added without an image is among those its user's query returns, unless it carried
      the empty string as its `id`: that falsy field is stored and wins over the key on read. */
  lemma AddedPostIsListedByUser(db: Db, post: Post, up: UploadAnswer, ins: InsertAnswer, order: seq<Id>)
    requires AddPost(db, post, None, up, ins).result.Ok?
    requires Listing(order, AddPost(db, post, None, up, ins).db.posts)
    ensures var added := AddPost(db, post, None, up, ins);
      var listed := GetPostsByUser(added.db, post.userId, order, Served);
      && listed.result.Ok?
      && (post.id != Some("") ==> added.result.value in listed.result.value)
      && (post.id == Some("") ==> added.result.value.(id := Some("")) in listed.result.value)
  {
    var added := AddPost(db, post, None, up, ins);
    assert added.db.posts[ins.key].WithDocId(ins.key) == added.result.value.(id := if post.id == Some("") then Some("") else Some(ins.key));
  }

  /** Adding a post without an image under a fresh key and then deleting it gives back the posts
      as they were. */
  lemma DeleteUndoesAddPost(db: Db, post: Post, up: UploadAnswer, key: Id, deleteImage: StoreAnswer)
    requires key !in db.posts
    requires AddPost(db, post, None, up, Assigned(key)).result.Ok?
    ensures var added := AddPost(db, post, None, up, Assigned(key));
      var deleted := DeletePost(added.db, key, Served, deleteImage, Served);
      deleted.result.Ok? && deleted.db.posts == db.posts
  {
    var added := AddPost(db, post, None, up, Assigned(key));
    assert added.db.posts == db.posts[key := Stripped(post).(imageUrl := None)];
    assert added.db.posts - {key} == db.posts;
  }

  /** A post without a stored image is deleted with exactly two calls, read and delete, whether
      or not the record exists. */
  lemma DeletePostWithoutImage(db: Db, key: Id, deleteImage: StoreAnswer)
    requires key !in db.posts || !Truthy(db.posts[key].imageUrl)
    ensures var s := DeletePost(db, key, Served, deleteImage, Served);
      && s.result.Ok?
      && s.db.trace == db.trace + [Call(GetDocReq(Posts, key), true, None), Call(DeleteDocReq(Posts, key), true, None)]
  {
    var s := DeletePost(db, key, Served, deleteImage, Served);
    var issued := s.db.trace[|db.trace|..];
    assert DeletePostPlan(db.posts, key) == [GetDocReq(Posts, key), DeleteDocReq(Posts, key)];
    RunsMeaning(issued, DeletePostPlan(db.posts, key), s.result);
    assert s.db.trace == db.trace + issued;
  }
}
