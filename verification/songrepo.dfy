/** The song coordinator (src/repositories/SongRepository.ts): song records in the "songs"
    collection, each with an optional image and an optional audio file, both uploaded to the
    "songs" folder. Every media step of a song runs image first, then audio. */
module SongRepository {
  import opened Base
  import opened Http
  import opened Models
  import opened Catalog
  import opened DeleteFileRoute
  import opened PublicIdPattern
  import opened MediaRepository
  import opened UploadImageRoute

  const SongFolder: Option<string> := Some("songs")

  /** The URLs the media steps of a song produced, image then audio. */
  datatype SongMedia = SongMedia(imageUrl: Option<Url>, audioUrl: Option<Url>)

  /** What a successful `if (file) url = await uploadFile(file, "songs")` leaves in `url`. */
  function UrlIf(file: Option<MediaFile>, up: UploadAnswer): Option<Url>
    requires file.Some? ==> up.host.Stored?
  {
    if file.Some? then Some(UploadedUrl(SongFolder, up)) else None
  }

  function AddSongPlan(image: Option<MediaFile>, audio: Option<MediaFile>): seq<Request> {
    UploadPlan(image, SongFolder) + UploadPlan(audio, SongFolder) + [AddDocReq(Songs)]
  }

  /** The two uploads of `addSong`: the image, and then, only if that succeeded, the audio. */
  function UploadSongMedia(db: Db, image: Option<MediaFile>, audio: Option<MediaFile>,
                           upImage: UploadAnswer, upAudio: UploadAnswer): (s: Step<SongMedia>)
    ensures FollowsPlan(db.trace, s.db.trace, s.result, UploadPlan(image, SongFolder) + UploadPlan(audio, SongFolder))
    ensures StoreUnchanged(db, s.db)
    ensures s.result.Ok? ==> && (image.Some? ==> upImage.host.Stored?)
                             && (audio.Some? ==> upAudio.host.Stored?)
                             && s.result.value == SongMedia(UrlIf(image, upImage), UrlIf(audio, upAudio))
    // A stored image stays live even when the audio upload then fails.
    ensures db.live + UploadedIf(image, SongFolder, upImage) <= s.db.live
    ensures s.db.live <= db.live + UploadedIf(image, SongFolder, upImage) + UploadedIf(audio, SongFolder, upAudio)
    ensures s.result.Ok? ==> s.db.live == db.live + UploadedIf(image, SongFolder, upImage) + UploadedIf(audio, SongFolder, upAudio)
  {
    var p1 := UploadPlan(image, SongFolder);
    var p2 := UploadPlan(audio, SongFolder);
    var s1 := MaybeUpload(db, image, SongFolder, upImage);
    if s1.result.Err? then
      var s := Rethrow<Option<Url>, SongMedia>(s1);
      AbortFollows(db.trace, s1.db.trace, s1.result, s.result, p1, p2);
      s
    else
      var s2 := MaybeUpload(s1.db, audio, SongFolder, upAudio);
      ThenFollows(db.trace, s1.db.trace, s2.db.trace, s1.result, s2.result, p1, p2);
      var r := if s2.result.Ok? then Ok(SongMedia(s1.result.value, s2.result.value)) else Err(s2.result.error);
      MapFollows(db.trace, s2.db.trace, s2.result, r, p1 + p2);
      Step(s2.db, r)
  }

  /** `addSong(song, image, audio)`; `now` is `new Date()`. */
  function AddSong(db: Db, song: Song, image: Option<MediaFile>, audio: Option<MediaFile>,
                   upImage: UploadAnswer, upAudio: UploadAnswer, now: Time, ins: InsertAnswer): (s: Step<Song>)
    // Image upload, audio upload, insert; either upload failing leaves no record.
    ensures FollowsPlan(db.trace, s.db.trace, s.result, AddSongPlan(image, audio))
    ensures OthersUnchanged(db, s.db, Songs)
    ensures s.result.Err? ==> s.db.songs == db.songs
    // On success exactly one record is written, under the key the caller gets back.
    ensures s.result.Ok? ==> s.result.value.id.Some?
    // The caller gets its own song back with the key and both URLs ...
    ensures s.result.Ok? ==> && (image.Some? ==> upImage.host.Stored?)
                             && (audio.Some? ==> upAudio.host.Stored?)
                             && s.result.value == song.(id := s.result.value.id,
                                                        imageUrl := UrlIf(image, upImage),
                                                        audioUrl := UrlIf(audio, upAudio))
    // ... while the store holds the same fields under the caller's `id`, with the current time
    // as `releaseDate`.
    ensures s.result.Ok? ==> s.db.songs == db.songs[s.result.value.id.value := s.result.value.(id := song.id, releaseDate := now)]
    // Uploaded media stay live whatever happens afterwards.
    ensures db.live + UploadedIf(image, SongFolder, upImage) <= s.db.live
    ensures s.db.live <= db.live + UploadedIf(image, SongFolder, upImage) + UploadedIf(audio, SongFolder, upAudio)
  {
    var p1 := UploadPlan(image, SongFolder) + UploadPlan(audio, SongFolder);
    var s1 := UploadSongMedia(db, image, audio, upImage, upAudio);
    if s1.result.Err? then
      var s := Rethrow<SongMedia, Song>(s1);
      AbortFollows(db.trace, s1.db.trace, s1.result, s.result, p1, [AddDocReq(Songs)]);
      s
    else
      var media := s1.result.value;
      var key := if ins.Assigned? then ins.key else "";
      var returned := song.(id := Some(key), imageUrl := media.imageUrl, audioUrl := media.audioUrl);
      var s2 := Single(s1.db, AddDocReq(Songs), ins.Assigned?, None, returned);
      ThenFollows(db.trace, s1.db.trace, s2.db.trace, s1.result, s2.result, p1, [AddDocReq(Songs)]);
      if ins.Assigned? then
        s2.(db := s2.db.(songs := db.songs[key := song.(releaseDate := now, imageUrl := media.imageUrl, audioUrl := media.audioUrl)]))
      else s2
  }

  /** `getSong(key)`: the stored song with its key, or `null` when there is none. */
  function GetSong(db: Db, key: Id, ans: StoreAnswer): (s: Step<Option<Song>>)
    ensures FollowsPlan(db.trace, s.db.trace, s.result, [GetDocReq(Songs, key)])
    ensures s.db == db.(trace := s.db.trace)
    ensures s.result.Ok? <==> ans.Served?
    ensures s.result.Ok? ==> (s.result.value.None? <==> key !in db.songs)
    ensures s.result.Ok? && key in db.songs ==>
      && s.result.value.value.(id := db.songs[key].id) == db.songs[key]
      && s.result.value.value.id == if db.songs[key].id.Some? then db.songs[key].id else Some(key)
  {
    Single(db, GetDocReq(Songs, key), ans.Served?, None,
           if key in db.songs then Some(db.songs[key].WithDocId(key)) else None)
  }

  /** The `where("artistId", "==", artistId)` filter. */
  function ByArtist(artistId: Id): Song -> bool {
    (x: Song) => x.artistId == artistId
  }

  /** The keyed records the query picks are exactly the stored ones that match it. */
  lemma SongsOfArtistFound(songs: map<Id, Song>, artistId: Id, order: seq<Id>, ks: seq<Id>, found: seq<Song>)
    requires Listing(order, songs) && ks == Select(order, songs, ByArtist(artistId))
    requires |found| == |ks| && forall j :: 0 <= j < |ks| ==> found[j] == songs[ks[j]].WithDocId(ks[j])
    ensures forall x :: x in found ==> x.artistId == artistId && exists k :: k in songs && x == songs[k].WithDocId(k)
    ensures forall k :: k in songs && songs[k].artistId == artistId ==> songs[k].WithDocId(k) in found
  {
    forall x | x in found
      ensures x.artistId == artistId && exists k :: k in songs && x == songs[k].WithDocId(k)
    {
      var j :| 0 <= j < |found| && found[j] == x;
      assert ks[j] in songs && ByArtist(artistId)(songs[ks[j]]);
    }
    forall k | k in songs && songs[k].artistId == artistId
      ensures songs[k].WithDocId(k) in found
    {
      assert k in order && ByArtist(artistId)(songs[k]);
      var j :| 0 <= j < |ks| && ks[j] == k;
      assert found[j] == songs[k].WithDocId(k);
    }
  }

  /** The stored songs of that artist, in listing order, each with its key. */
  function SongsOfArtist(songs: map<Id, Song>, artistId: Id, order: seq<Id>): (found: seq<Song>)
    requires Listing(order, songs)
    ensures forall x :: x in found ==> x.artistId == artistId && exists k :: k in songs && x == songs[k].WithDocId(k)
    ensures forall k :: k in songs && songs[k].artistId == artistId ==> songs[k].WithDocId(k) in found
    ensures |found| == |Matching(songs, ByArtist(artistId))|
  {
    var ks := Select(order, songs, ByArtist(artistId));
    ListedSelectCount(order, songs, ByArtist(artistId));
    var found := seq(|ks|, j requires 0 <= j < |ks| => songs[ks[j]].WithDocId(ks[j]));
    SongsOfArtistFound(songs, artistId, order, ks, found);
    found
  }

  /** `getSongsByArtist(artistId)`; `order` is the store's listing of the collection. */
  function GetSongsByArtist(db: Db, artistId: Id, order: seq<Id>, ans: StoreAnswer): (s: Step<seq<Song>>)
    requires Listing(order, db.songs)
    ensures FollowsPlan(db.trace, s.db.trace, s.result, [QueryReq(Songs, "artistId", artistId)])
    ensures s.db == db.(trace := s.db.trace)
    ensures s.result.Ok? <==> ans.Served?
    // Only songs of that artist, each a stored record with its key ...
    ensures s.result.Ok? ==> forall x :: x in s.result.value ==>
      x.artistId == artistId && exists k :: k in db.songs && x == db.songs[k].WithDocId(k)
    // ... and every stored song of that artist.
    ensures s.result.Ok? ==> forall k :: k in db.songs && db.songs[k].artistId == artistId ==>
      db.songs[k].WithDocId(k) in s.result.value
    // Each of them exactly once.
    ensures s.result.Ok? ==> |s.result.value| == |Matching(db.songs, ByArtist(artistId))|
  {
    var found := SongsOfArtist(db.songs, artistId, order);
    Single(db, QueryReq(Songs, "artistId", artistId), ans.Served?, None, found)
  }

  function SongMediaPlan(patch: SongPatch, image: Option<MediaFile>, audio: Option<MediaFile>): seq<Request> {
    ReplacePlan(image, SongFolder, patch.imageUrl) + ReplacePlan(audio, SongFolder, patch.audioUrl)
  }

  function UpdateSongPlan(key: Id, patch: SongPatch, image: Option<MediaFile>, audio: Option<MediaFile>): seq<Request> {
    SongMediaPlan(patch, image, audio) + [UpdateDocReq(Songs, key)]
  }

  /** The media half of `updateSong`: the image branch (upload, retire the partial's image)
      completes before the audio branch (upload, retire the partial's audio) starts. */
  function ReplaceSongMedia(db: Db, patch: SongPatch, image: Option<MediaFile>, audio: Option<MediaFile>,
                            upImage: UploadAnswer, upAudio: UploadAnswer,
                            destroyImage: DestroyAnswer, destroyAudio: DestroyAnswer): (s: Step<SongMedia>)
    ensures FollowsPlan(db.trace, s.db.trace, s.result, SongMediaPlan(patch, image, audio))
    ensures StoreUnchanged(db, s.db)
    ensures s.result.Ok? ==> && (image.Some? ==> upImage.host.Stored?)
                             && (audio.Some? ==> upAudio.host.Stored?)
                             && s.result.value == SongMedia(UrlIf(image, upImage), UrlIf(audio, upAudio))
    ensures s.db.live <= db.live + UploadedIf(image, SongFolder, upImage) + UploadedIf(audio, SongFolder, upAudio)
    ensures db.live - Retirable(patch.imageUrl) - Retirable(patch.audioUrl) <= s.db.live
  {
    var p1 := ReplacePlan(image, SongFolder, patch.imageUrl);
    var p2 := ReplacePlan(audio, SongFolder, patch.audioUrl);
    var s1 := ReplaceMedia(db, image, SongFolder, patch.imageUrl, upImage, destroyImage);
    if s1.result.Err? then
      var s := Rethrow<Option<Url>, SongMedia>(s1);
      AbortFollows(db.trace, s1.db.trace, s1.result, s.result, p1, p2);
      s
    else
      var s2 := ReplaceMedia(s1.db, audio, SongFolder, patch.audioUrl, upAudio, destroyAudio);
      ThenFollows(db.trace, s1.db.trace, s2.db.trace, s1.result, s2.result, p1, p2);
      var r := if s2.result.Ok? then Ok(SongMedia(s1.result.value, s2.result.value)) else Err(s2.result.error);
      MapFollows(db.trace, s2.db.trace, s2.result, r, p1 + p2);
      Step(s2.db, r)
  }

  /** The partial `updateSong` writes: the caller's, with each newly uploaded URL in place of the
      corresponding field. */
  function SongUpdatePayload(patch: SongPatch, image: Option<MediaFile>, audio: Option<MediaFile>,
                             upImage: UploadAnswer, upAudio: UploadAnswer): SongPatch {
    var withImage := if image.Some? && upImage.host.Stored? then patch.(imageUrl := Some(UploadedUrl(SongFolder, upImage))) else patch;
    if audio.Some? && upAudio.host.Stored? then withImage.(audioUrl := Some(UploadedUrl(SongFolder, upAudio))) else withImage
  }

  /** `updateSong(key, patch, image, audio)`. `updateDoc` fails on a missing document. */
  function UpdateSong(db: Db, key: Id, patch: SongPatch, image: Option<MediaFile>, audio: Option<MediaFile>,
                      upImage: UploadAnswer, upAudio: UploadAnswer,
                      destroyImage: DestroyAnswer, destroyAudio: DestroyAnswer, upd: StoreAnswer): (s: Step<()>)
    ensures FollowsPlan(db.trace, s.db.trace, s.result, UpdateSongPlan(key, patch, image, audio))
    ensures OthersUnchanged(db, s.db, Songs)
    ensures s.result.Err? ==> s.db.songs == db.songs
    // On success only this record changes, and it receives the partial and nothing else.
    ensures s.result.Ok? ==> && key in db.songs
                             && s.db.songs == db.songs[key := db.songs[key].Apply(SongUpdatePayload(patch, image, audio, upImage, upAudio))]
    // Only the new media can become live, and only the partial's URLs can stop being live.
    ensures s.db.live <= db.live + UploadedIf(image, SongFolder, upImage) + UploadedIf(audio, SongFolder, upAudio)
    ensures db.live - Retirable(patch.imageUrl) - Retirable(patch.audioUrl) <= s.db.live
  {
    var p1 := SongMediaPlan(patch, image, audio);
    var p2 := [UpdateDocReq(Songs, key)];
    var s1 := ReplaceSongMedia(db, patch, image, audio, upImage, upAudio, destroyImage, destroyAudio);
    if s1.result.Err? then
      var s := Rethrow<SongMedia, ()>(s1);
      AbortFollows(db.trace, s1.db.trace, s1.result, s.result, p1, p2);
      s
    else
      var media := s1.result.value;
      var withImage := if Truthy(media.imageUrl) then patch.(imageUrl := media.imageUrl) else patch;
      var toUpdate := if Truthy(media.audioUrl) then withImage.(audioUrl := media.audioUrl) else withImage;
      var s2 := UpdateSongDoc(s1.db, key, toUpdate, upd);
      ThenFollows(db.trace, s1.db.trace, s2.db.trace, s1.result, s2.result, p1, p2);
      s2
  }

  /** `updateDoc` on a song: fails when the document is missing. */
  function UpdateSongDoc(db: Db, key: Id, toUpdate: SongPatch, upd: StoreAnswer): (s: Step<()>)
    ensures FollowsPlan(db.trace, s.db.trace, s.result, [UpdateDocReq(Songs, key)])
    ensures s.result.Ok? <==> upd.Served? && key in db.songs
    ensures s.db == db.(trace := s.db.trace, songs := s.db.songs)
    ensures s.result.Err? ==> s.db.songs == db.songs
    ensures s.result.Ok? ==> s.db.songs == db.songs[key := db.songs[key].Apply(toUpdate)]
  {
    var ok := upd.Served? && key in db.songs;
    var s := Single(db, UpdateDocReq(Songs, key), ok, None, ());
    if ok then s.(db := s.db.(songs := db.songs[key := db.songs[key].Apply(toUpdate)])) else s
  }

  /** Whether `if (url) await deleteFile(url)` resolves. */
  predicate DeleteSucceeds(url: Option<Url>, destroy: DestroyAnswer) {
    !Truthy(url) || ExtractPublicId(url.value).None? || destroy == Destroyed
  }

  /** The URL `if (url) await deleteFile(url)` retires from the live set, if any. */
  function RetiredBy(url: Option<Url>, destroy: DestroyAnswer): set<Url> {
    if Truthy(url) && ExtractPublicId(url.value).Some? && destroy == Destroyed then {url.value} else {}
  }

  function DeleteSongPlan(key: Id, imageUrl: Option<Url>, audioUrl: Option<Url>): seq<Request> {
    DeletePlan(imageUrl) + DeletePlan(audioUrl) + [DeleteDocReq(Songs, key)]
  }

  /** The media half of `deleteSong`: the image, then the audio. */
  function DeleteSongMedia(db: Db, imageUrl: Option<Url>, audioUrl: Option<Url>,
                           destroyImage: DestroyAnswer, destroyAudio: DestroyAnswer): (s: Step<()>)
    ensures FollowsPlan(db.trace, s.db.trace, s.result, DeletePlan(imageUrl) + DeletePlan(audioUrl))
    ensures StoreUnchanged(db, s.db)
    ensures s.result.Ok? <==> DeleteSucceeds(imageUrl, destroyImage) && DeleteSucceeds(audioUrl, destroyAudio)
    // The audio delete runs only after the image delete succeeded.
    ensures s.db.live == if DeleteSucceeds(imageUrl, destroyImage)
                         then db.live - RetiredBy(imageUrl, destroyImage) - RetiredBy(audioUrl, destroyAudio)
                         else db.live
  {
    var p1 := DeletePlan(imageUrl);
    var p2 := DeletePlan(audioUrl);
    var s1 := MaybeDelete(db, imageUrl, destroyImage);
    if s1.result.Err? then
      AbortFollows(db.trace, s1.db.trace, s1.result, s1.result, p1, p2);
      s1
    else
      var s2 := MaybeDelete(s1.db, audioUrl, destroyAudio);
      ThenFollows(db.trace, s1.db.trace, s2.db.trace, s1.result, s2.result, p1, p2);
      s2
  }

  /** `deleteSong(key, imageUrl, audioUrl)`. Deleting a missing document succeeds. */
  function DeleteSong(db: Db, key: Id, imageUrl: Option<Url>, audioUrl: Option<Url>,
                      destroyImage: DestroyAnswer, destroyAudio: DestroyAnswer, del: StoreAnswer): (s: Step<()>)
    // Image, then audio, then the record; the record goes only if both media deletes succeeded.
    ensures FollowsPlan(db.trace, s.db.trace, s.result, DeleteSongPlan(key, imageUrl, audioUrl))
    ensures OthersUnchanged(db, s.db, Songs)
    ensures s.result.Ok? ==> s.db.songs == db.songs - {key}
    ensures s.result.Err? ==> s.db.songs == db.songs
    ensures s.result.Ok? <==> del.Served? && DeleteSucceeds(imageUrl, destroyImage) && DeleteSucceeds(audioUrl, destroyAudio)
    ensures s.db.live == if DeleteSucceeds(imageUrl, destroyImage)
                         then db.live - RetiredBy(imageUrl, destroyImage) - RetiredBy(audioUrl, destroyAudio)
                         else db.live
  {
    var p1 := DeletePlan(imageUrl) + DeletePlan(audioUrl);
    var p2 := [DeleteDocReq(Songs, key)];
    var s1 := DeleteSongMedia(db, imageUrl, audioUrl, destroyImage, destroyAudio);
    if s1.result.Err? then
      AbortFollows(db.trace, s1.db.trace, s1.result, s1.result, p1, p2);
      s1
    else
      var s2 := Single(s1.db, DeleteDocReq(Songs, key), del.Served?, None, ());
      ThenFollows(db.trace, s1.db.trace, s2.db.trace, s1.result, s2.result, p1, p2);
      if del.Served? then s2.(db := s2.db.(songs := db.songs - {key})) else s2
  }

  // ---------------------------------------------------------------------------------------------
  // Properties across calls.

  /** Reading back a song just added gives the record `addSong` returned, except that the store
      holds the time of the insert as its `releaseDate`. */
  lemma GetAfterAddSong(db: Db, song: Song, image: Option<MediaFile>, audio: Option<MediaFile>,
                        upImage: UploadAnswer, upAudio: UploadAnswer, now: Time, ins: InsertAnswer)
    requires song.id.None?
    requires AddSong(db, song, image, audio, upImage, upAudio, now, ins).result.Ok?
    ensures var added := AddSong(db, song, image, audio, upImage, upAudio, now, ins);
      GetSong(added.db, added.result.value.id.value, Served).result == Ok(Some(added.result.value.(releaseDate := now)))
  {
  }

  /** A song just added is among those its artist's query returns, with the store's
      `releaseDate`. */
  lemma AddedSongIsListedByArtist(db: Db, song: Song, image: Option<MediaFile>, audio: Option<MediaFile>,
                                  upImage: UploadAnswer, upAudio: UploadAnswer, now: Time, ins: InsertAnswer, order: seq<Id>)
    requires song.id.None?
    requires AddSong(db, song, image, audio, upImage, upAudio, now, ins).result.Ok?
    requires Listing(order, AddSong(db, song, image, audio, upImage, upAudio, now, ins).db.songs)
    ensures var added := AddSong(db, song, image, audio, upImage, upAudio, now, ins);
      var listed := GetSongsByArtist(added.db, song.artistId, order, Served);
      listed.result.Ok? && added.result.value.(releaseDate := now) in listed.result.value
  {
    var added := AddSong(db, song, image, audio, upImage, upAudio, now, ins);
    var key := added.result.value.id.value;
    assert added.db.songs[key].WithDocId(key) == added.result.value.(releaseDate := now);
  }

  /** An update whose audio upload fails leaves the record as it was, although the new image
      was already uploaded and the partial's old image already destroyed. */
  lemma AudioFailureLeavesRecordStale(db: Db, key: Id, patch: SongPatch, image: MediaFile, audio: MediaFile,
                                      upImage: UploadAnswer, upAudio: UploadAnswer, destroyAudio: DestroyAnswer,
                                      upd: StoreAnswer)
    requires upImage.host.Stored? && upAudio.host.HostRejected?
    requires Truthy(patch.imageUrl) && ExtractPublicId(patch.imageUrl.value).Some?
    requires patch.imageUrl.value != UploadedUrl(SongFolder, upImage)
    ensures var s := UpdateSong(db, key, patch, Some(image), Some(audio), upImage, upAudio, Destroyed, destroyAudio, upd);
      && s.result == Err(UploadRequestFor(SongFolder))
      && s.db.songs == db.songs
      && UploadedUrl(SongFolder, upImage) in s.db.live
      && patch.imageUrl.value !in s.db.live
      // A stored record that pointed at the partial's image still does, and that image is gone.
      && (key in db.songs && db.songs[key].imageUrl == patch.imageUrl ==>
            key in s.db.songs && s.db.songs[key].imageUrl.value !in s.db.live)
  {
    var previous := patch.imageUrl.value;
    var s1 := UploadMedia(db, image, SongFolder, upImage);
    var s2 := DeleteMedia(s1.db, previous, Destroyed);
    assert s2.result.Ok? && s2.db.live == db.live + {UploadedUrl(SongFolder, upImage)} - {previous};
    var s3 := ReplaceMedia(s2.db, Some(audio), SongFolder, patch.audioUrl, upAudio, destroyAudio);
    assert s3 == UploadMedia(s2.db, audio, SongFolder, upAudio);
  }

  /** A delete whose audio destroy throws after the image was destroyed keeps the record,
      which now refers to an image that is no longer live. */
  lemma AudioDeleteFailureKeepsRecord(db: Db, key: Id, imageUrl: Url, audioUrl: Url, del: StoreAnswer)
    requires imageUrl != "" && ExtractPublicId(imageUrl).Some?
    requires audioUrl != "" && ExtractPublicId(audioUrl).Some?
    ensures var s := DeleteSong(db, key, Some(imageUrl), Some(audioUrl), Destroyed, DestroyThrows, del);
      && s.result == Err(DeleteFileReq(audioUrl))
      && s.db.songs == db.songs
      && imageUrl !in s.db.live
      // A stored record that pointed at that image still does, and the image is gone.
      && (key in db.songs && db.songs[key].imageUrl == Some(imageUrl) ==>
            key in s.db.songs && s.db.songs[key].imageUrl.value !in s.db.live)
  {
    var s1 := DeleteMedia(db, imageUrl, Destroyed);
    var s2 := DeleteMedia(s1.db, audioUrl, DestroyThrows);
    assert s2.result == Err(DeleteFileReq(audioUrl));
  }

  /** Record and media together: a song added with an image and an audio file on a host whose
      delivery base holds no folder segment, then deleted with the URLs it was given, loses its
      record and both live URLs; each destroy names the public id its upload assigned. */
  lemma AddThenDeleteSongRetiresMedia(db: Db, song: Song, image: MediaFile, audio: MediaFile,
                                      upImage: UploadAnswer, upAudio: UploadAnswer, now: Time, key: Id)
    requires upImage.host.Stored? && upAudio.host.Stored?
    requires FreeOfSegments(upImage.host.deliveryBase + "/") && |upImage.host.extension| > 0 && AllWordChars(upImage.host.extension)
    requires FreeOfSegments(upAudio.host.deliveryBase + "/") && |upAudio.host.extension| > 0 && AllWordChars(upAudio.host.extension)
    ensures var added := AddSong(db, song, Some(image), Some(audio), upImage, upAudio, now, Assigned(key));
      var returned := added.result.value;
      var deleted := DeleteSong(added.db, key, returned.imageUrl, returned.audioUrl, Destroyed, Destroyed, Served);
      && deleted.result.Ok?
      && key !in deleted.db.songs
      && returned.imageUrl.value !in deleted.db.live
      && returned.audioUrl.value !in deleted.db.live
      && deleted.db.trace[|added.db.trace|].host == Some(HostDestroy(PublicIdFor("songs", upImage.now), DestroyResourceType(returned.imageUrl.value)))
      && deleted.db.trace[|added.db.trace| + 1].host == Some(HostDestroy(PublicIdFor("songs", upAudio.now), DestroyResourceType(returned.audioUrl.value)))
  {
    var added := AddSong(db, song, Some(image), Some(audio), upImage, upAudio, now, Assigned(key));
    var imageUrl := UploadedUrl(SongFolder, upImage);
    var audioUrl := UploadedUrl(SongFolder, upAudio);
    DeleteDestroysUploadedId(image, "songs", upImage.now, upImage.host.deliveryBase, upImage.host.extension, Destroyed);
    DeleteDestroysUploadedId(audio, "songs", upAudio.now, upAudio.host.deliveryBase, upAudio.host.extension, Destroyed);
    var s1 := DeleteMedia(added.db, imageUrl, Destroyed);
    var s2 := DeleteMedia(s1.db, audioUrl, Destroyed);
    assert s2.db.trace[|added.db.trace|] == s1.db.trace[|added.db.trace|];
    var deleted := DeleteSong(added.db, key, Some(imageUrl), Some(audioUrl), Destroyed, Destroyed, Served);
    assert deleted.db.trace[..|s2.db.trace|] == s2.db.trace;
    assert deleted.db.trace[|added.db.trace|] == s2.db.trace[|added.db.trace|];
    assert deleted.db.trace[|added.db.trace| + 1] == s2.db.trace[|added.db.trace| + 1];
  }
}
