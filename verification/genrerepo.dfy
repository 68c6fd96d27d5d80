/** The genre coordinator (src/repositories/MusicGenreRepository.ts): genre records in the
    "music-genres" collection, each with an optional image uploaded through the media client.
    Its uploads leave the folder argument out. */
module GenreRepository {
  import opened Base
  import opened Http
  import opened Models
  import opened Catalog
  import opened DeleteFileRoute
  import opened PublicIdPattern
  import opened MediaRepository

  /** `uploadFile(image)` is called without its folder argument. */
  const GenreFolder: Option<string> := None

  function AddGenrePlan(image: Option<MediaFile>): seq<Request> {
    UploadPlan(image, GenreFolder) + [AddDocReq(Genres)]
  }

  /** `addGenre(genre, image)`; `now` is `new Date()`. */
  function AddGenre(db: Db, genre: Genre, image: Option<MediaFile>, up: UploadAnswer, now: Time, ins: InsertAnswer): (s: Step<Genre>)
    // Upload first, then insert; a failed upload leaves no record and is rethrown.
    ensures FollowsPlan(db.trace, s.db.trace, s.result, AddGenrePlan(image))
    ensures OthersUnchanged(db, s.db, Genres)
    ensures s.result.Err? ==> s.db.genres == db.genres
    // On success exactly one record is written, under the key the caller gets back.
    ensures s.result.Ok? ==> s.result.value.id.Some?
    // The caller gets its own genre back with the key and the image URL ...
    ensures s.result.Ok? ==> s.result.value == genre.(id := s.result.value.id, imageUrl := s.result.value.imageUrl)
    ensures s.result.Ok? && image.Some? ==> up.host.Stored?
    ensures s.result.Ok? ==> s.result.value.imageUrl == if image.Some? then Some(UploadedUrl(GenreFolder, up)) else None
    // ... while the store holds the same fields under the caller's `id`, with the current time
    // as `createdAt`.
    ensures s.result.Ok? ==> s.db.genres == db.genres[s.result.value.id.value := s.result.value.(id := genre.id, createdAt := now)]
    // An uploaded image stays live, even when the insert then fails.
    ensures s.db.live == db.live + UploadedIf(image, GenreFolder, up)
  {
    var p1 := UploadPlan(image, GenreFolder);
    var s1 := MaybeUpload(db, image, GenreFolder, up);
    if s1.result.Err? then
      var s := Rethrow<Option<Url>, Genre>(s1);
      AbortFollows(db.trace, s1.db.trace, s1.result, s.result, p1, [AddDocReq(Genres)]);
      s
    else
      var imageUrl := s1.result.value;
      var key := if ins.Assigned? then ins.key else "";
      var s2 := Single(s1.db, AddDocReq(Genres), ins.Assigned?, None, genre.(id := Some(key), imageUrl := imageUrl));
      ThenFollows(db.trace, s1.db.trace, s2.db.trace, s1.result, s2.result, p1, [AddDocReq(Genres)]);
      if ins.Assigned? then s2.(db := s2.db.(genres := db.genres[key := genre.(createdAt := now, imageUrl := imageUrl)]))
      else s2
  }

  /** `getGenre(key)`: the stored genre with its key, or `null` when there is none. */
  function GetGenre(db: Db, key: Id, ans: StoreAnswer): (s: Step<Option<Genre>>)
    ensures FollowsPlan(db.trace, s.db.trace, s.result, [GetDocReq(Genres, key)])
    ensures s.db == db.(trace := s.db.trace)
    ensures s.result.Ok? <==> ans.Served?
    ensures s.result.Ok? ==> (s.result.value.None? <==> key !in db.genres)
    ensures s.result.Ok? && key in db.genres ==>
      && s.result.value.value.(id := db.genres[key].id) == db.genres[key]
      && s.result.value.value.id == if db.genres[key].id.Some? then db.genres[key].id else Some(key)
  {
    Single(db, GetDocReq(Genres, key), ans.Served?, None, if key in db.genres then Some(db.genres[key].WithDocId(key)) else None)
  }

  function UpdateGenrePlan(key: Id, patch: GenrePatch, image: Option<MediaFile>): seq<Request> {
    ReplacePlan(image, GenreFolder, patch.imageUrl) + [UpdateDocReq(Genres, key)]
  }

  /** The partial `updateGenre` writes: the caller's, with the new image's URL when one was uploaded. */
  function GenreUpdatePayload(patch: GenrePatch, image: Option<MediaFile>, up: UploadAnswer): GenrePatch {
    if image.Some? && up.host.Stored? then patch.(imageUrl := Some(UploadedUrl(GenreFolder, up))) else patch
  }

  /** `updateGenre(key, patch, image)`. `updateDoc` fails on a missing document. */
  function UpdateGenre(db: Db, key: Id, patch: GenrePatch, image: Option<MediaFile>, up: UploadAnswer,
                       destroy: DestroyAnswer, upd: StoreAnswer): (s: Step<()>)
    // Upload, then retire the partial's old image (only when a new one was given), then update.
    ensures FollowsPlan(db.trace, s.db.trace, s.result, UpdateGenrePlan(key, patch, image))
    ensures OthersUnchanged(db, s.db, Genres)
    ensures s.result.Err? ==> s.db.genres == db.genres
    // On success only this record changes, and it receives the partial and nothing else.
    ensures s.result.Ok? ==> && key in db.genres
                             && s.db.genres == db.genres[key := db.genres[key].Apply(GenreUpdatePayload(patch, image, up))]
    // Only the new image can become live, and only the old one can stop being live.
    ensures s.db.live <= db.live + UploadedIf(image, GenreFolder, up)
    ensures db.live - Retirable(patch.imageUrl) <= s.db.live
  {
    var p1 := ReplacePlan(image, GenreFolder, patch.imageUrl);
    var p2 := [UpdateDocReq(Genres, key)];
    var s1 := ReplaceMedia(db, image, GenreFolder, patch.imageUrl, up, destroy);
    if s1.result.Err? then
      var s := Rethrow<Option<Url>, ()>(s1);
      AbortFollows(db.trace, s1.db.trace, s1.result, s.result, p1, p2);
      s
    else
      var imageUrl := s1.result.value;
      var toUpdate := if Truthy(imageUrl) then patch.(imageUrl := imageUrl) else patch;
      var s2 := UpdateGenreDoc(s1.db, key, toUpdate, upd);
      ThenFollows(db.trace, s1.db.trace, s2.db.trace, s1.result, s2.result, p1, p2);
      s2
  }

  /** `updateDoc` on a genre: fails when the document is missing. */
  function UpdateGenreDoc(db: Db, key: Id, toUpdate: GenrePatch, upd: StoreAnswer): (s: Step<()>)
    ensures FollowsPlan(db.trace, s.db.trace, s.result, [UpdateDocReq(Genres, key)])
    ensures s.result.Ok? <==> upd.Served? && key in db.genres
    ensures s.db == db.(trace := s.db.trace, genres := s.db.genres)
    ensures s.result.Err? ==> s.db.genres == db.genres
    ensures s.result.Ok? ==> s.db.genres == db.genres[key := db.genres[key].Apply(toUpdate)]
  {
    var ok := upd.Served? && key in db.genres;
    var s := Single(db, UpdateDocReq(Genres, key), ok, None, ());
    if ok then s.(db := s.db.(genres := db.genres[key := db.genres[key].Apply(toUpdate)])) else s
  }

  function DeleteGenrePlan(key: Id, imageUrl: Option<Url>): seq<Request> {
    DeletePlan(imageUrl) + [DeleteDocReq(Genres, key)]
  }

  /** `deleteGenre(key, imageUrl)`. Deleting a missing document succeeds. */
  function DeleteGenre(db: Db, key: Id, imageUrl: Option<Url>, destroy: DestroyAnswer, del: StoreAnswer): (s: Step<()>)
    // The image is deleted first; the record goes only if that succeeded.
    ensures FollowsPlan(db.trace, s.db.trace, s.result, DeleteGenrePlan(key, imageUrl))
    ensures OthersUnchanged(db, s.db, Genres)
    ensures s.result.Ok? ==> s.db.genres == db.genres - {key}
    ensures s.result.Err? ==> s.db.genres == db.genres
    // The media client reports success for an image URL the delete route cannot resolve.
    ensures s.result.Ok? <==> del.Served? && (!Truthy(imageUrl) || ExtractPublicId(imageUrl.value).None? || destroy == Destroyed)
    ensures s.db.live == if Truthy(imageUrl) && ExtractPublicId(imageUrl.value).Some? && destroy == Destroyed
                         then db.live - {imageUrl.value} else db.live
  {
    var p1 := DeletePlan(imageUrl);
    var p2 := [DeleteDocReq(Genres, key)];
    var s1 := MaybeDelete(db, imageUrl, destroy);
    if s1.result.Err? then
      AbortFollows(db.trace, s1.db.trace, s1.result, s1.result, p1, p2);
      s1
    else
      var s2 := Single(s1.db, DeleteDocReq(Genres, key), del.Served?, None, ());
      ThenFollows(db.trace, s1.db.trace, s2.db.trace, s1.result, s2.result, p1, p2);
      if del.Served? then s2.(db := s2.db.(genres := db.genres - {key})) else s2
  }

  // ---------------------------------------------------------------------------------------------
  // Properties across calls.

  /** Reading back a genre just added gives the caller's fields with the image URL, but the
      store's `createdAt` (the time of the insert), not the one `addGenre` returned. */
  lemma GetAfterAddGenre(db: Db, genre: Genre, image: Option<MediaFile>, up: UploadAnswer, now: Time, ins: InsertAnswer)
    requires genre.id.None?
    requires AddGenre(db, genre, image, up, now, ins).result.Ok?
    ensures var added := AddGenre(db, genre, image, up, now, ins);
      var key := added.result.value.id.value;
      var read := GetGenre(added.db, key, Served);
      && read.result == Ok(Some(added.result.value.(createdAt := now)))
      && added.result.value.createdAt == genre.createdAt
  {
  }

  /** An image upload that succeeded is orphaned when the insert then fails: its URL is live
      but no genre record refers to it. */
  lemma FailedInsertOrphansImage(db: Db, genre: Genre, file: MediaFile, up: UploadAnswer, now: Time)
    requires up.host.Stored?
    requires forall k :: k in db.genres ==> db.genres[k].imageUrl != Some(UploadedUrl(GenreFolder, up))
    ensures var s := AddGenre(db, genre, Some(file), up, now, InsertFails);
      && s.result == Err(AddDocReq(Genres))
      && UploadedUrl(GenreFolder, up) in s.db.live
      && forall k :: k in s.db.genres ==> s.db.genres[k].imageUrl != Some(UploadedUrl(GenreFolder, up))
  {
  }

  /** A genre added with an image and then deleted with that image's URL loses its record while
      its image stays live: the upload went to "undefined", so no destroy is ever issued. */
  lemma GenreImageOutlivesGenre(db: Db, genre: Genre, file: MediaFile, up: UploadAnswer, now: Time, key: Id,
                                destroy: DestroyAnswer)
    requires up.host.Stored?
    requires FreeOfSegments(up.host.deliveryBase + "/") && AllWordChars(up.host.extension)
    ensures var added := AddGenre(db, genre, Some(file), up, now, Assigned(key));
      var url := added.result.value.imageUrl;
      var deleted := DeleteGenre(added.db, key, url, destroy, Served);
      && deleted.result.Ok?
      && key !in deleted.db.genres
      && url.value in deleted.db.live
      && deleted.db.trace[|added.db.trace|].host.None?
  {
    var added := AddGenre(db, genre, Some(file), up, now, Assigned(key));
    var url := UploadedUrl(GenreFolder, up);
    GenreImageIsNeverDestroyed(file, up.now, up.host.deliveryBase, up.host.extension, destroy);
    assert ExtractPublicId(url).None?;
    var deleted := DeleteGenre(added.db, key, Some(url), destroy, Served);
    assert deleted.db.trace[|added.db.trace|] == MaybeDelete(added.db, Some(url), destroy).db.trace[|added.db.trace|];
  }
}
