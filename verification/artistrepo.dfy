/** The artist coordinator (src/repositories/ArtistRepository.ts): artist records in the
    "artists" collection, each with an optional image uploaded to the "artists" folder. */
module ArtistRepository {
  import opened Base
  import opened Http
  import opened Models
  import opened Catalog
  import opened DeleteFileRoute
  import opened PublicIdPattern
  import opened MediaRepository
  import opened UploadImageRoute

  const ArtistFolder: Option<string> := Some("artists")

  function AddArtistPlan(image: Option<MediaFile>): seq<Request> {
    UploadPlan(image, ArtistFolder) + [AddDocReq(Artists)]
  }

  /** `addArtist(artist, image)`. */
  function AddArtist(db: Db, artist: Artist, image: Option<MediaFile>, up: UploadAnswer, ins: InsertAnswer): (s: Step<Artist>)
    // Upload first, then insert; a failed upload leaves no record and is rethrown.
    ensures FollowsPlan(db.trace, s.db.trace, s.result, AddArtistPlan(image))
    ensures OthersUnchanged(db, s.db, Artists)
    ensures s.result.Err? ==> s.db.artists == db.artists
    // On success exactly one record is written, under the key the caller gets back.
    ensures s.result.Ok? ==> s.result.value.id.Some?
    // The caller gets its own artist back with the key and the image URL; the store holds the
    // same fields under the caller's `id`.
    ensures s.result.Ok? ==> s.result.value == artist.(id := s.result.value.id, imageUrl := s.result.value.imageUrl)
    ensures s.result.Ok? && image.Some? ==> up.host.Stored?
    ensures s.result.Ok? ==> s.result.value.imageUrl == if image.Some? then Some(UploadedUrl(ArtistFolder, up)) else None
    ensures s.result.Ok? ==> s.db.artists == db.artists[s.result.value.id.value := s.result.value.(id := artist.id)]
    // An uploaded image stays live, even when the insert then fails.
    ensures s.db.live == db.live + UploadedIf(image, ArtistFolder, up)
  {
    var p1 := UploadPlan(image, ArtistFolder);
    var s1 := MaybeUpload(db, image, ArtistFolder, up);
    if s1.result.Err? then
      var s := Rethrow<Option<Url>, Artist>(s1);
      AbortFollows(db.trace, s1.db.trace, s1.result, s.result, p1, [AddDocReq(Artists)]);
      s
    else
      var imageUrl := s1.result.value;
      var key := if ins.Assigned? then ins.key else "";
      var s2 := Single(s1.db, AddDocReq(Artists), ins.Assigned?, None, artist.(id := Some(key), imageUrl := imageUrl));
      ThenFollows(db.trace, s1.db.trace, s2.db.trace, s1.result, s2.result, p1, [AddDocReq(Artists)]);
      if ins.Assigned? then s2.(db := s2.db.(artists := db.artists[key := artist.(imageUrl := imageUrl)]))
      else s2
  }

  /** `getArtist(key)`: the stored artist with its key, or `null` when there is none. */
  function GetArtist(db: Db, key: Id, ans: StoreAnswer): (s: Step<Option<Artist>>)
    ensures FollowsPlan(db.trace, s.db.trace, s.result, [GetDocReq(Artists, key)])
    ensures s.db == db.(trace := s.db.trace)
    ensures s.result.Ok? <==> ans.Served?
    ensures s.result.Ok? ==> (s.result.value.None? <==> key !in db.artists)
    ensures s.result.Ok? && key in db.artists ==>
      && s.result.value.value.(id := db.artists[key].id) == db.artists[key]
      && s.result.value.value.id == if db.artists[key].id.Some? then db.artists[key].id else Some(key)
  {
    Single(db, GetDocReq(Artists, key), ans.Served?, None,
           if key in db.artists then Some(db.artists[key].WithDocId(key)) else None)
  }

  /** The `where("genreId", "==", genreId)` filter. */
  function ByGenre(genreId: Id): Artist -> bool {
    (a: Artist) => a.genreId == genreId
  }

  /** The keyed records the query picks are exactly the stored ones that match it. */
  lemma ArtistsOfGenreFound(artists: map<Id, Artist>, genreId: Id, order: seq<Id>, ks: seq<Id>, found: seq<Artist>)
    requires Listing(order, artists) && ks == Select(order, artists, ByGenre(genreId))
    requires |found| == |ks| && forall j :: 0 <= j < |ks| ==> found[j] == artists[ks[j]].WithDocId(ks[j])
    ensures forall a :: a in found ==> a.genreId == genreId && exists k :: k in artists && a == artists[k].WithDocId(k)
    ensures forall k :: k in artists && artists[k].genreId == genreId ==> artists[k].WithDocId(k) in found
  {
    forall a | a in found
      ensures a.genreId == genreId && exists k :: k in artists && a == artists[k].WithDocId(k)
    {
      var j :| 0 <= j < |found| && found[j] == a;
      assert ks[j] in artists && ByGenre(genreId)(artists[ks[j]]);
    }
    forall k | k in artists && artists[k].genreId == genreId
      ensures artists[k].WithDocId(k) in found
    {
      assert k in order && ByGenre(genreId)(artists[k]);
      var j :| 0 <= j < |ks| && ks[j] == k;
      assert found[j] == artists[k].WithDocId(k);
    }
  }

  /** The stored artists of that genre, in listing order, each with its key. */
  function ArtistsOfGenre(artists: map<Id, Artist>, genreId: Id, order: seq<Id>): (found: seq<Artist>)
    requires Listing(order, artists)
    ensures forall a :: a in found ==> a.genreId == genreId && exists k :: k in artists && a == artists[k].WithDocId(k)
    ensures forall k :: k in artists && artists[k].genreId == genreId ==> artists[k].WithDocId(k) in found
    ensures |found| == |Matching(artists, ByGenre(genreId))|
  {
    var ks := Select(order, artists, ByGenre(genreId));
    ListedSelectCount(order, artists, ByGenre(genreId));
    var found := seq(|ks|, j requires 0 <= j < |ks| => artists[ks[j]].WithDocId(ks[j]));
    ArtistsOfGenreFound(artists, genreId, order, ks, found);
    found
  }

  /** `getArtistsByGenre(genreId)`; `order` is the store's listing of the collection. */
  function GetArtistsByGenre(db: Db, genreId: Id, order: seq<Id>, ans: StoreAnswer): (s: Step<seq<Artist>>)
    requires Listing(order, db.artists)
    ensures FollowsPlan(db.trace, s.db.trace, s.result, [QueryReq(Artists, "genreId", genreId)])
    ensures s.db == db.(trace := s.db.trace)
    ensures s.result.Ok? <==> ans.Served?
    // Only artists of that genre, each a stored record with its key ...
    ensures s.result.Ok? ==> forall a :: a in s.result.value ==>
      a.genreId == genreId && exists k :: k in db.artists && a == db.artists[k].WithDocId(k)
    // ... and every stored artist of that genre.
    ensures s.result.Ok? ==> forall k :: k in db.artists && db.artists[k].genreId == genreId ==>
      db.artists[k].WithDocId(k) in s.result.value
    // Each of them exactly once.
    ensures s.result.Ok? ==> |s.result.value| == |Matching(db.artists, ByGenre(genreId))|
  {
    var found := ArtistsOfGenre(db.artists, genreId, order);
    Single(db, QueryReq(Artists, "genreId", genreId), ans.Served?, None, found)
  }

  function UpdateArtistPlan(key: Id, patch: ArtistPatch, image: Option<MediaFile>): seq<Request> {
    ReplacePlan(image, ArtistFolder, patch.imageUrl) + [UpdateDocReq(Artists, key)]
  }

  /** The partial `updateArtist` writes: the caller's, with the new image's URL when one was uploaded. */
  function ArtistUpdatePayload(patch: ArtistPatch, image: Option<MediaFile>, up: UploadAnswer): ArtistPatch {
    if image.Some? && up.host.Stored? then patch.(imageUrl := Some(UploadedUrl(ArtistFolder, up))) else patch
  }

  /** `updateArtist(key, patch, image)`. `updateDoc` fails on a missing document. */
  function UpdateArtist(db: Db, key: Id, patch: ArtistPatch, image: Option<MediaFile>, up: UploadAnswer,
                        destroy: DestroyAnswer, upd: StoreAnswer): (s: Step<()>)
    // Upload, then retire the partial's old image (only when a new one was given), then update.
    ensures FollowsPlan(db.trace, s.db.trace, s.result, UpdateArtistPlan(key, patch, image))
    ensures OthersUnchanged(db, s.db, Artists)
    ensures s.result.Err? ==> s.db.artists == db.artists
    // On success only this record changes, and it receives the partial and nothing else.
    ensures s.result.Ok? ==> && key in db.artists
                             && s.db.artists == db.artists[key := db.artists[key].Apply(ArtistUpdatePayload(patch, image, up))]
    // Only the new image can become live, and only the old one can stop being live.
    ensures s.db.live <= db.live + UploadedIf(image, ArtistFolder, up)
    ensures db.live - Retirable(patch.imageUrl) <= s.db.live
  {
    var p1 := ReplacePlan(image, ArtistFolder, patch.imageUrl);
    var p2 := [UpdateDocReq(Artists, key)];
    var s1 := ReplaceMedia(db, image, ArtistFolder, patch.imageUrl, up, destroy);
    if s1.result.Err? then
      var s := Rethrow<Option<Url>, ()>(s1);
      AbortFollows(db.trace, s1.db.trace, s1.result, s.result, p1, p2);
      s
    else
      var imageUrl := s1.result.value;
      var toUpdate := if Truthy(imageUrl) then patch.(imageUrl := imageUrl) else patch;
      var s2 := UpdateArtistDoc(s1.db, key, toUpdate, upd);
      ThenFollows(db.trace, s1.db.trace, s2.db.trace, s1.result, s2.result, p1, p2);
      s2
  }

  /** `updateDoc` on an artist: fails when the document is missing. */
  function UpdateArtistDoc(db: Db, key: Id, toUpdate: ArtistPatch, upd: StoreAnswer): (s: Step<()>)
    ensures FollowsPlan(db.trace, s.db.trace, s.result, [UpdateDocReq(Artists, key)])
    ensures s.result.Ok? <==> upd.Served? && key in db.artists
    ensures s.db == db.(trace := s.db.trace, artists := s.db.artists)
    ensures s.result.Err? ==> s.db.artists == db.artists
    ensures s.result.Ok? ==> s.db.artists == db.artists[key := db.artists[key].Apply(toUpdate)]
  {
    var ok := upd.Served? && key in db.artists;
    var s := Single(db, UpdateDocReq(Artists, key), ok, None, ());
    if ok then s.(db := s.db.(artists := db.artists[key := db.artists[key].Apply(toUpdate)])) else s
  }

  function DeleteArtistPlan(key: Id, imageUrl: Option<Url>): seq<Request> {
    DeletePlan(imageUrl) + [DeleteDocReq(Artists, key)]
  }

  /** `deleteArtist(key, imageUrl)`. Deleting a missing document succeeds. */
  function DeleteArtist(db: Db, key: Id, imageUrl: Option<Url>, destroy: DestroyAnswer, del: StoreAnswer): (s: Step<()>)
    // The image is deleted first; the record goes only if that succeeded.
    ensures FollowsPlan(db.trace, s.db.trace, s.result, DeleteArtistPlan(key, imageUrl))
    ensures OthersUnchanged(db, s.db, Artists)
    ensures s.result.Ok? ==> s.db.artists == db.artists - {key}
    ensures s.result.Err? ==> s.db.artists == db.artists
    ensures s.result.Ok? <==> del.Served? && (!Truthy(imageUrl) || ExtractPublicId(imageUrl.value).None? || destroy == Destroyed)
    ensures s.db.live == if Truthy(imageUrl) && ExtractPublicId(imageUrl.value).Some? && destroy == Destroyed
                         then db.live - {imageUrl.value} else db.live
  {
    var p1 := DeletePlan(imageUrl);
    var p2 := [DeleteDocReq(Artists, key)];
    var s1 := MaybeDelete(db, imageUrl, destroy);
    if s1.result.Err? then
      AbortFollows(db.trace, s1.db.trace, s1.result, s1.result, p1, p2);
      s1
    else
      var s2 := Single(s1.db, DeleteDocReq(Artists, key), del.Served?, None, ());
      ThenFollows(db.trace, s1.db.trace, s2.db.trace, s1.result, s2.result, p1, p2);
      if del.Served? then s2.(db := s2.db.(artists := db.artists - {key})) else s2
  }

  // ---------------------------------------------------------------------------------------------
  // Properties across calls.

  /** Record and image together: an artist added with an image on a host whose delivery base
      holds no folder segment, then deleted with the URL it was given, loses both its record and
      its live image, and the delete route destroys exactly the public id the upload assigned. */
  lemma AddThenDeleteRetiresImage(db: Db, artist: Artist, file: MediaFile, up: UploadAnswer, key: Id)
    requires up.host.Stored?
    requires FreeOfSegments(up.host.deliveryBase + "/") && |up.host.extension| > 0 && AllWordChars(up.host.extension)
    ensures var added := AddArtist(db, artist, Some(file), up, Assigned(key));
      var url := added.result.value.imageUrl;
      var deleted := DeleteArtist(added.db, key, url, Destroyed, Served);
      && deleted.result.Ok?
      && key !in deleted.db.artists
      && url.value !in deleted.db.live
      && deleted.db.trace[|added.db.trace|].host == Some(HostDestroy(PublicIdFor("artists", up.now), DestroyResourceType(url.value)))
  {
    var added := AddArtist(db, artist, Some(file), up, Assigned(key));
    var url := UploadedUrl(ArtistFolder, up);
    DeleteDestroysUploadedId(file, "artists", up.now, up.host.deliveryBase, up.host.extension, Destroyed);
    var deleted := DeleteArtist(added.db, key, Some(url), Destroyed, Served);
    assert deleted.db.trace[|added.db.trace|] == MaybeDelete(added.db, Some(url), Destroyed).db.trace[|added.db.trace|];
  }

  /** Reading back an artist just added gives exactly the record `addArtist` returned. */
  lemma GetAfterAddArtist(db: Db, artist: Artist, image: Option<MediaFile>, up: UploadAnswer, ins: InsertAnswer)
    requires artist.id.None?
    requires AddArtist(db, artist, image, up, ins).result.Ok?
    ensures var added := AddArtist(db, artist, image, up, ins);
      GetArtist(added.db, added.result.value.id.value, Served).result == Ok(Some(added.result.value))
  {
  }

  /** An artist just added is among those its genre's query returns. */
  lemma AddedArtistIsListedByGenre(db: Db, artist: Artist, image: Option<MediaFile>, up: UploadAnswer, ins: InsertAnswer,
                                   order: seq<Id>)
    requires artist.id.None?
    requires AddArtist(db, artist, image, up, ins).result.Ok?
    requires Listing(order, AddArtist(db, artist, image, up, ins).db.artists)
    ensures var added := AddArtist(db, artist, image, up, ins);
      var listed := GetArtistsByGenre(added.db, artist.genreId, order, Served);
      listed.result.Ok? && added.result.value in listed.result.value
  {
    var added := AddArtist(db, artist, image, up, ins);
    var key := added.result.value.id.value;
    assert added.db.artists[key].WithDocId(key) == added.result.value;
  }
}
