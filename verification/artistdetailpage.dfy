/** The action handlers of an artist's page (src/components/music/ArtistDetailPage.tsx): the
    artist itself and the songs listed under it. Edits read their new values from `prompt`
    dialogs, whose answers are inputs here (`None` when the dialog was cancelled); both edits
    take their files from the song form. */
module ArtistDetailPage {
  import opened Base
  import opened Http
  import opened JsText
  import opened Models
  import opened Catalog
  import opened DeleteFileRoute
  import opened ArtistRepository
  import opened SongRepository
  import opened Pages

  /** The page state the handlers change: the artist shown, its listed songs and the error
      message. */
  datatype ArtistDetailView = ArtistDetailView(artist: Option<Artist>, songs: seq<Song>, error: string)

  /** The song form's fields. `genreId` is the fetched artist's genre, or "" when there was none. */
  datatype SongForm = SongForm(name: string, duration: int, genreId: Id, image: Option<MediaFile>, audio: Option<MediaFile>)

  /** The answers to the three prompts of `handleUpdateArtist`. */
  datatype ArtistAnswers = ArtistAnswers(name: Option<string>, country: Option<string>, bio: Option<string>)

  /** The song `handleAddSong` submits, for the page's artist. */
  function NewSong(form: SongForm, artistId: Id, now: Time): Song {
    Song(None, form.name, form.duration, now, artistId, form.genreId, None, None)
  }

  /** The partial `handleUpdateArtist` submits: each cancelled or empty answer keeps the
      artist's value. */
  function ArtistEdit(answers: ArtistAnswers, artist: Artist): ArtistPatch {
    ArtistPatch(None, Some(OptOrElse(answers.name, artist.name)), Some(OptOrElse(answers.country, artist.country)),
                Some(OptOrElse(answers.bio, artist.bio)), None, None)
  }

  /** `parseInt(answer || "0") || current`: the duration an answer to the duration prompt sets. */
  function PromptedDuration(answer: Option<string>, current: int): (d: int)
    // A cancelled or empty answer keeps the current duration ...
    ensures !Truthy(answer) ==> d == current
    // ... and so does one that does not start with a number, or reads as zero.
    ensures Truthy(answer) && (ParseInt(answer.value).None? || ParseInt(answer.value) == Some(0)) ==> d == current
    ensures Truthy(answer) && ParseInt(answer.value).Some? && ParseInt(answer.value).value != 0 ==> d == ParseInt(answer.value).value
  {
    EmptyAnswerKeepsFallback(current);
    ParseIntOr(OptOrElse(answer, "0"), current)
  }

  /** The partial `handleUpdateSong` submits: name and duration only. */
  function SongEdit(nameAnswer: Option<string>, durationAnswer: Option<string>, song: Song): SongPatch {
    SongPatch(None, Some(OptOrElse(nameAnswer, song.name)), Some(PromptedDuration(durationAnswer, song.duration)),
              None, None, None, None, None)
  }

  /** `handleAddSong`, on the page of the artist keyed `artistId`; `now` is the submission time. */
  function HandleAddSong(db: Db, view: ArtistDetailView, appUser: Option<AppUser>, artistId: Id, form: SongForm,
                         upImage: UploadAnswer, upAudio: UploadAnswer, now: Time, ins: InsertAnswer): (r: Screen<ArtistDetailView>)
    ensures !IsAdmin(appUser) ==> r == Screen(db, view)
    ensures IsAdmin(appUser) ==>
      var s := AddSong(db, NewSong(form, artistId, now), form.image, form.audio, upImage, upAudio, now, ins);
      && r.db == s.db
      && (s.result.Err? ==> r.view == view.(error := AddSongError))
      // On success the page appends what reading the new record back gives: a song of this
      // page's artist, in the form's genre.
      && (s.result.Ok? ==> var k := s.result.value.id.value;
                           && k in r.db.songs
                           && r.db.songs[k].artistId == artistId && r.db.songs[k].genreId == form.genreId
                           && r.view == view.(songs := view.songs + [r.db.songs[k].WithDocId(k)]))
  {
    if !IsAdmin(appUser) then Screen(db, view)
    else
      var s := AddSong(db, NewSong(form, artistId, now), form.image, form.audio, upImage, upAudio, now, ins);
      if s.result.Ok? then Screen(s.db, view.(songs := view.songs + [s.result.value]))
      else Screen(s.db, view.(error := AddSongError))
  }

  /** `handleUpdateArtist(id, artist)`, called with the shown artist's key and record; the new
      image is the song form's image. */
  function HandleUpdateArtist(db: Db, view: ArtistDetailView, appUser: Option<AppUser>, id: Id, artist: Artist,
                              answers: ArtistAnswers, form: SongForm, up: UploadAnswer, destroy: DestroyAnswer,
                              upd: StoreAnswer): (r: Screen<ArtistDetailView>)
    ensures !IsAdmin(appUser) ==> r == Screen(db, view)
    ensures IsAdmin(appUser) ==>
      var s := UpdateArtist(db, id, ArtistEdit(answers, artist), form.image, up, destroy, upd);
      && r.db == s.db
      && (s.result.Err? ==> r.view == view.(error := UpdateArtistError))
      // On success the page shows the artist with the answered fields and its old image URL.
      && (s.result.Ok? ==> r.view == view.(artist := Some(artist.(name := OptOrElse(answers.name, artist.name),
                                                                  country := OptOrElse(answers.country, artist.country),
                                                                  bio := OptOrElse(answers.bio, artist.bio)))))
    // Only the song form's image can become live, uploaded into the artists' folder, and the
    // previous image is never retired.
    ensures db.live <= r.db.live <= db.live + UploadedIf(form.image, ArtistFolder, up)
  {
    if !IsAdmin(appUser) then Screen(db, view)
    else
      var patch := ArtistEdit(answers, artist);
      var s := UpdateArtist(db, id, patch, form.image, up, destroy, upd);
      if s.result.Ok? then Screen(s.db, view.(artist := Some(artist.Apply(patch))))
      else Screen(s.db, view.(error := UpdateArtistError))
  }

  /** `handleDeleteArtist(id, imageUrl)`, called with the shown artist's key and image URL. On
      success the page navigates away, which is outside the model. */
  function HandleDeleteArtist(db: Db, view: ArtistDetailView, appUser: Option<AppUser>, id: Id, imageUrl: Option<Url>,
                              destroy: DestroyAnswer, del: StoreAnswer): (r: Screen<ArtistDetailView>)
    ensures !IsAdmin(appUser) ==> r == Screen(db, view)
    ensures IsAdmin(appUser) ==>
      var s := DeleteArtist(db, id, imageUrl, destroy, del);
      && r.db == s.db
      && r.view == if s.result.Ok? then view else view.(error := DeleteArtistError)
    // The artist's songs, and their media, are left in place.
    ensures r.db.songs == db.songs
  {
    if !IsAdmin(appUser) then Screen(db, view)
    else
      var s := DeleteArtist(db, id, imageUrl, destroy, del);
      Screen(s.db, if s.result.Ok? then view else view.(error := DeleteArtistError))
  }

  /** `songs.map(s => s.id === id ? { ...s, name, duration } : s)`. */
  function Retitled(songs: seq<Song>, id: Id, name: string, duration: int): (ys: seq<Song>)
    ensures |ys| == |songs|
    // Every listed song with that key takes the name and duration and keeps its media URLs;
    // the others are untouched.
    ensures forall i :: 0 <= i < |songs| ==>
      ys[i] == if songs[i].id == Some(id) then songs[i].(name := name, duration := duration) else songs[i]
  {
    MapWhere(songs, (x: Song) => x.id == Some(id), (x: Song) => x.(name := name, duration := duration))
  }

  /** `handleUpdateSong(id, song)`, called with a listed song's key and record; the new files
      are the song form's. */
  function HandleUpdateSong(db: Db, view: ArtistDetailView, appUser: Option<AppUser>, id: Id, song: Song,
                            nameAnswer: Option<string>, durationAnswer: Option<string>, form: SongForm,
                            upImage: UploadAnswer, upAudio: UploadAnswer,
                            destroyImage: DestroyAnswer, destroyAudio: DestroyAnswer, upd: StoreAnswer): (r: Screen<ArtistDetailView>)
    ensures !IsAdmin(appUser) ==> r == Screen(db, view)
    ensures IsAdmin(appUser) ==>
      var s := UpdateSong(db, id, SongEdit(nameAnswer, durationAnswer, song), form.image, form.audio,
                          upImage, upAudio, destroyImage, destroyAudio, upd);
      && r.db == s.db
      && (s.result.Err? ==> r.view == view.(error := UpdateSongError))
      // On success the listed songs with that key take the answered name and duration.
      && (s.result.Ok? ==> r.view == view.(songs := Retitled(view.songs, id, OptOrElse(nameAnswer, song.name),
                                                              PromptedDuration(durationAnswer, song.duration))))
    // Neither previous file is ever retired.
    ensures db.live <= r.db.live
  {
    if !IsAdmin(appUser) then Screen(db, view)
    else
      var patch := SongEdit(nameAnswer, durationAnswer, song);
      var s := UpdateSong(db, id, patch, form.image, form.audio, upImage, upAudio, destroyImage, destroyAudio, upd);
      if s.result.Ok? then Screen(s.db, view.(songs := Retitled(view.songs, id, patch.name.value, patch.duration.value)))
      else Screen(s.db, view.(error := UpdateSongError))
  }

  /** `handleDeleteSong(id, imageUrl, audioUrl)`, called with a listed song's key and URLs. */
  function HandleDeleteSong(db: Db, view: ArtistDetailView, appUser: Option<AppUser>, id: Id,
                            imageUrl: Option<Url>, audioUrl: Option<Url>,
                            destroyImage: DestroyAnswer, destroyAudio: DestroyAnswer, del: StoreAnswer): (r: Screen<ArtistDetailView>)
    ensures !IsAdmin(appUser) ==> r == Screen(db, view)
    ensures IsAdmin(appUser) ==>
      var s := DeleteSong(db, id, imageUrl, audioUrl, destroyImage, destroyAudio, del);
      && r.db == s.db
      && (s.result.Err? ==> r.view == view.(error := DeleteSongError))
      // On success exactly the songs with another key stay listed, each as often as before, in their order.
      && (s.result.Ok? ==> && r.view.error == view.error && r.view.artist == view.artist
                           && (forall x :: x in r.view.songs ==> x in view.songs && x.id != Some(id))
                           && (forall x :: x in view.songs && x.id != Some(id) ==> x in r.view.songs)
                           && (forall x :: multiset(r.view.songs)[x] == if x.id != Some(id) then multiset(view.songs)[x] else 0)
                           && Subsequence(r.view.songs, view.songs))
  {
    if !IsAdmin(appUser) then Screen(db, view)
    else
      var s := DeleteSong(db, id, imageUrl, audioUrl, destroyImage, destroyAudio, del);
      if s.result.Ok? then Screen(s.db, view.(songs := Filter(view.songs, (x: Song) => x.id != Some(id))))
      else Screen(s.db, view.(error := DeleteSongError))
  }

  // ---------------------------------------------------------------------------------------------
  // Properties across calls.

  /** The duration prompt takes any positive whole number typed in decimal, up to the largest
      a double holds exactly ... */
  lemma PromptSetsPositiveDuration(n: nat, current: int)
    requires 0 < n <= ExactIntegerBound
    ensures PromptedDuration(Some(DecimalString(n)), current) == n
  {
    var text := DecimalString(n);
    ParseIntDecimal(n, []);
    assert text + [] == text;
    assert Truthy(Some(text)) && ParseInt(text) == Some(n as int);
  }

  /** ... and negative ones too: the page does not validate the answer. */
  lemma PromptSetsNegativeDuration(n: nat, current: int)
    requires 0 < n <= ExactIntegerBound
    ensures PromptedDuration(Some("-" + DecimalString(n)), current) == -(n as int)
  {
    var text := "-" + DecimalString(n);
    ParseIntNegativeDecimal(n);
    assert Truthy(Some(text)) && ParseInt(text) == Some(-(n as int));
  }

  /** Answering "0" to the duration prompt keeps the old duration, so a song's duration can
      never be set to zero from this page. */
  lemma ZeroAnswerKeepsDuration(current: int)
    ensures PromptedDuration(Some("0"), current) == current
  {
    ParseIntDecimal(0, []);
    assert DecimalString(0) + [] == "0";
  }

  /** Editing the artist with a file in the song form stores that file's URL on the artist
      record, while the page keeps showing the old image URL. */
  lemma ArtistEditTakesSongFormImage(db: Db, view: ArtistDetailView, appUser: Option<AppUser>, id: Id, artist: Artist,
                                     answers: ArtistAnswers, form: SongForm, up: UploadAnswer, destroy: DestroyAnswer)
    requires IsAdmin(appUser) && form.image.Some?
    requires UpdateArtist(db, id, ArtistEdit(answers, artist), form.image, up, destroy, Served).result.Ok?
    ensures var r := HandleUpdateArtist(db, view, appUser, id, artist, answers, form, up, destroy, Served);
      && id in r.db.artists
      && r.db.artists[id].imageUrl == Some(UploadedUrl(ArtistFolder, up))
      && r.view.artist.value.imageUrl == artist.imageUrl
  {
  }
}
