/** The action handlers of a genre's page (src/components/music/GenreDetailPage.tsx): the genre
    itself and the artists listed under it. One dialog state, the artist form, serves both the
    artist dialogs and the genre's edit dialog. */
module GenreDetailPage {
  import opened Base
  import opened Http
  import opened Models
  import opened Catalog
  import opened DeleteFileRoute
  import opened GenreRepository
  import opened ArtistRepository
  import opened Pages

  /** The page state the handlers change: the genre shown, its listed artists and the error
      message. */
  datatype GenreDetailView = GenreDetailView(genre: Option<Genre>, artists: seq<Artist>, error: string)

  /** The artist dialog's fields; the genre's edit dialog reuses `name` and `bio`. */
  datatype ArtistForm = ArtistForm(name: string, country: string, bio: string, image: Option<MediaFile>)

  /** The artist `handleAddArtist` submits, under the page's genre. */
  function NewArtist(form: ArtistForm, genreId: Id): Artist {
    Artist(None, form.name, form.country, form.bio, genreId, None)
  }

  /** The partial `handleUpdateGenre` submits: name and description only, each falling back to
      the selected genre's value. */
  function GenreEdit(form: ArtistForm, selected: Genre): GenrePatch {
    GenrePatch(None, Some(OrElse(form.name, selected.name)), Some(OrElse(form.bio, selected.description)), None, None, None)
  }

  /** The partial `handleUpdateArtist` submits. */
  function ArtistEdit(form: ArtistForm, selected: Artist): ArtistPatch {
    ArtistPatch(None, Some(OrElse(form.name, selected.name)), Some(OrElse(form.country, selected.country)),
                Some(OrElse(form.bio, selected.bio)), None, None)
  }

  /** `handleAddArtist`, on the page of the genre keyed `genreId`. */
  function HandleAddArtist(db: Db, view: GenreDetailView, appUser: Option<AppUser>, genreId: Id, form: ArtistForm,
                           up: UploadAnswer, ins: InsertAnswer): (r: Screen<GenreDetailView>)
    ensures !IsAdmin(appUser) ==> r == Screen(db, view)
    ensures IsAdmin(appUser) ==>
      var s := AddArtist(db, NewArtist(form, genreId), form.image, up, ins);
      && r.db == s.db
      && (s.result.Err? ==> r.view == view.(error := AddArtistError))
      // On success the page appends what reading the new record back gives: an artist of
      // this page's genre.
      && (s.result.Ok? ==> var k := s.result.value.id.value;
                           && k in r.db.artists
                           && r.db.artists[k].genreId == genreId
                           && r.view == view.(artists := view.artists + [r.db.artists[k].WithDocId(k)]))
  {
    if !IsAdmin(appUser) then Screen(db, view)
    else
      var s := AddArtist(db, NewArtist(form, genreId), form.image, up, ins);
      if s.result.Ok? then Screen(s.db, view.(artists := view.artists + [s.result.value]))
      else Screen(s.db, view.(error := AddArtistError))
  }

  /** `handleUpdateGenre`: the selected genre is the page's genre when its edit dialog opened. */
  function HandleUpdateGenre(db: Db, view: GenreDetailView, appUser: Option<AppUser>, selected: Option<Genre>,
                             form: ArtistForm, up: UploadAnswer, destroy: DestroyAnswer, upd: StoreAnswer): (r: Screen<GenreDetailView>)
    requires selected.Some? ==> selected.value.id.Some?
    ensures !IsAdmin(appUser) || selected.None? ==> r == Screen(db, view)
    ensures IsAdmin(appUser) && selected.Some? ==>
      var sel := selected.value;
      var s := UpdateGenre(db, sel.id.value, GenreEdit(form, sel), form.image, up, destroy, upd);
      && r.db == s.db
      && (s.result.Err? ==> r.view == view.(error := UpdateGenreError))
      // On success the page shows the selected genre with the new name and description, and
      // with its old colour and old image URL.
      && (s.result.Ok? ==> r.view == view.(genre := Some(sel.(name := OrElse(form.name, sel.name),
                                                             description := OrElse(form.bio, sel.description)))))
    // The stored colour is never touched, and the previous image is never retired.
    ensures selected.Some? && selected.value.id.value in db.genres ==>
      && selected.value.id.value in r.db.genres
      && r.db.genres[selected.value.id.value].color == db.genres[selected.value.id.value].color
    ensures db.live <= r.db.live
  {
    if !IsAdmin(appUser) || selected.None? then Screen(db, view)
    else
      var sel := selected.value;
      var patch := GenreEdit(form, sel);
      var s := UpdateGenre(db, sel.id.value, patch, form.image, up, destroy, upd);
      if s.result.Ok? then Screen(s.db, view.(genre := Some(sel.Apply(patch))))
      else Screen(s.db, view.(error := UpdateGenreError))
  }

  /** `handleDeleteGenre(id, imageUrl)`, called with the page genre's key and image URL. On
      success the page navigates away, which is outside the model. */
  function HandleDeleteGenre(db: Db, view: GenreDetailView, appUser: Option<AppUser>, id: Id, imageUrl: Option<Url>,
                             destroy: DestroyAnswer, del: StoreAnswer): (r: Screen<GenreDetailView>)
    ensures !IsAdmin(appUser) ==> r == Screen(db, view)
    ensures IsAdmin(appUser) ==>
      var s := DeleteGenre(db, id, imageUrl, destroy, del);
      && r.db == s.db
      && r.view == if s.result.Ok? then view else view.(error := DeleteGenreError)
    // The genre's artists are left in the store.
    ensures r.db.artists == db.artists
  {
    if !IsAdmin(appUser) then Screen(db, view)
    else
      var s := DeleteGenre(db, id, imageUrl, destroy, del);
      Screen(s.db, if s.result.Ok? then view else view.(error := DeleteGenreError))
  }

  /** `artists.map(a => a.id === key ? { ...a, name, country, bio } : a)`. */
  function Edited(artists: seq<Artist>, key: Id, name: string, country: string, bio: string): (ys: seq<Artist>)
    ensures |ys| == |artists|
    // Every listed artist with that key takes the three fields and keeps its own image URL and
    // genre; the others are untouched.
    ensures forall i :: 0 <= i < |artists| ==>
      ys[i] == if artists[i].id == Some(key) then artists[i].(name := name, country := country, bio := bio) else artists[i]
  {
    MapWhere(artists, (a: Artist) => a.id == Some(key), (a: Artist) => a.(name := name, country := country, bio := bio))
  }

  /** `handleUpdateArtist`: the selected artist is the one whose edit dialog is open. */
  function HandleUpdateArtist(db: Db, view: GenreDetailView, appUser: Option<AppUser>, selected: Option<Artist>,
                              form: ArtistForm, up: UploadAnswer, destroy: DestroyAnswer, upd: StoreAnswer): (r: Screen<GenreDetailView>)
    requires selected.Some? ==> selected.value.id.Some?
    ensures !IsAdmin(appUser) || selected.None? ==> r == Screen(db, view)
    ensures IsAdmin(appUser) && selected.Some? ==>
      var sel := selected.value;
      var s := UpdateArtist(db, sel.id.value, ArtistEdit(form, sel), form.image, up, destroy, upd);
      && r.db == s.db
      && (s.result.Err? ==> r.view == view.(error := UpdateArtistError))
      // On success the listed artists with the selected key take the submitted fields.
      && (s.result.Ok? ==> r.view == view.(artists := Edited(view.artists, sel.id.value, OrElse(form.name, sel.name),
                                                             OrElse(form.country, sel.country), OrElse(form.bio, sel.bio))))
    ensures db.live <= r.db.live
  {
    if !IsAdmin(appUser) || selected.None? then Screen(db, view)
    else
      var sel := selected.value;
      var patch := ArtistEdit(form, sel);
      var s := UpdateArtist(db, sel.id.value, patch, form.image, up, destroy, upd);
      if s.result.Ok? then Screen(s.db, view.(artists := Edited(view.artists, sel.id.value, patch.name.value, patch.country.value, patch.bio.value)))
      else Screen(s.db, view.(error := UpdateArtistError))
  }

  /** `handleDeleteArtist(id, imageUrl)`, called with a listed artist's key and image URL. */
  function HandleDeleteArtist(db: Db, view: GenreDetailView, appUser: Option<AppUser>, id: Id, imageUrl: Option<Url>,
                              destroy: DestroyAnswer, del: StoreAnswer): (r: Screen<GenreDetailView>)
    ensures !IsAdmin(appUser) ==> r == Screen(db, view)
    ensures IsAdmin(appUser) ==>
      var s := DeleteArtist(db, id, imageUrl, destroy, del);
      && r.db == s.db
      && (s.result.Err? ==> r.view == view.(error := DeleteArtistError))
      // On success exactly the artists with another key stay listed, each as often as before, in their order.
      && (s.result.Ok? ==> && r.view.error == view.error && r.view.genre == view.genre
                           && (forall a :: a in r.view.artists ==> a in view.artists && a.id != Some(id))
                           && (forall a :: a in view.artists && a.id != Some(id) ==> a in r.view.artists)
                           && (forall a :: multiset(r.view.artists)[a] == if a.id != Some(id) then multiset(view.artists)[a] else 0)
                           && Subsequence(r.view.artists, view.artists))
  {
    if !IsAdmin(appUser) then Screen(db, view)
    else
      var s := DeleteArtist(db, id, imageUrl, destroy, del);
      if s.result.Ok? then Screen(s.db, view.(artists := Filter(view.artists, (a: Artist) => a.id != Some(id))))
      else Screen(s.db, view.(error := DeleteArtistError))
  }

  // ---------------------------------------------------------------------------------------------
  // Properties across calls.

  /** Deleting the page's genre succeeds while its artists stay stored and keep pointing at the
      removed key: every one of them is still what a query by that genre returns. */
  lemma DeletedGenreLeavesArtists(db: Db, view: GenreDetailView, appUser: Option<AppUser>, genreId: Id,
                                  imageUrl: Option<Url>, destroy: DestroyAnswer, order: seq<Id>)
    requires IsAdmin(appUser) && !Truthy(imageUrl)
    requires Listing(order, db.artists)
    ensures var r := HandleDeleteGenre(db, view, appUser, genreId, imageUrl, destroy, Served);
      var q := GetArtistsByGenre(r.db, genreId, order, Served);
      && genreId !in r.db.genres
      && q.result.Ok?
      && forall k :: k in db.artists && db.artists[k].genreId == genreId ==> db.artists[k].WithDocId(k) in q.result.value
  {
  }
}
