/** The action handlers of the genre list page (src/components/music/GenresPage.tsx). The page
    keeps its own copy of the listed genres and updates it after each successful call instead of
    reading the store again. */
module GenresPage {
  import opened Base
  import opened Http
  import opened Models
  import opened Catalog
  import opened DeleteFileRoute
  import opened GenreRepository
  import opened Pages

  /** The page state the handlers change: the listed genres and the error message shown. */
  datatype GenresView = GenresView(genres: seq<Genre>, error: string)

  /** The add/edit dialog's fields. */
  datatype GenreForm = GenreForm(name: string, description: string, color: string, image: Option<MediaFile>)

  const DefaultColor := "#121212"

  /** Every listed genre has a key. Lists read from the store have one, and so has every genre
      `addGenre` returns; the handlers rely on it when they write `selectedGenre.id!`. */
  predicate Keyed(genres: seq<Genre>) {
    forall i :: 0 <= i < |genres| ==> genres[i].id.Some?
  }

  /** The genre `handleAddGenre` submits. */
  function NewGenre(form: GenreForm, now: Time): Genre {
    Genre(None, form.name, form.description, Some(OrElse(form.color, DefaultColor)), now, None)
  }

  /** The partial `handleUpdateGenre` submits: each empty field falls back to the selected
      genre's value. It never carries an image URL. */
  function GenreEdit(form: GenreForm, selected: Genre): GenrePatch {
    GenrePatch(None, Some(OrElse(form.name, selected.name)), Some(OrElse(form.description, selected.description)),
               Some(OrElse(form.color, OptOrElse(selected.color, DefaultColor))), None, None)
  }

  /** `handleAddGenre`; `now` is the time of the submission. */
  function HandleAddGenre(db: Db, view: GenresView, appUser: Option<AppUser>, form: GenreForm,
                          up: UploadAnswer, now: Time, ins: InsertAnswer): (r: Screen<GenresView>)
    ensures !IsAdmin(appUser) ==> r == Screen(db, view)
    ensures IsAdmin(appUser) ==>
      var s := AddGenre(db, NewGenre(form, now), form.image, up, now, ins);
      && r.db == s.db
      // On failure only the error message changes ...
      && (s.result.Err? ==> r.view == view.(error := AddGenreError))
      // ... and on success the page appends exactly what reading the new record back gives.
      && (s.result.Ok? ==> var k := s.result.value.id.value;
                           && k in r.db.genres
                           && r.view == view.(genres := view.genres + [r.db.genres[k].WithDocId(k)]))
    ensures Keyed(view.genres) ==> Keyed(r.view.genres)
  {
    if !IsAdmin(appUser) then Screen(db, view)
    else
      var s := AddGenre(db, NewGenre(form, now), form.image, up, now, ins);
      if s.result.Ok? then Screen(s.db, view.(genres := view.genres + [s.result.value]))
      else Screen(s.db, view.(error := AddGenreError))
  }

  /** `genres.map(g => g.id === key ? { ...g, name, description, color } : g)`. */
  function Edited(genres: seq<Genre>, key: Id, name: string, description: string, color: string): (ys: seq<Genre>)
    ensures |ys| == |genres|
    // Every listed genre with that key takes the three fields and keeps its own image URL;
    // the others are untouched.
    ensures forall i :: 0 <= i < |genres| ==>
      ys[i] == if genres[i].id == Some(key) then genres[i].(name := name, description := description, color := Some(color))
               else genres[i]
  {
    MapWhere(genres, (g: Genre) => g.id == Some(key), (g: Genre) => g.(name := name, description := description, color := Some(color)))
  }

  /** `handleUpdateGenre`: the selected genre is the one whose edit dialog is open. */
  function HandleUpdateGenre(db: Db, view: GenresView, appUser: Option<AppUser>, selected: Option<Genre>,
                             form: GenreForm, up: UploadAnswer, destroy: DestroyAnswer, upd: StoreAnswer): (r: Screen<GenresView>)
    requires selected.Some? ==> selected.value.id.Some?
    ensures !IsAdmin(appUser) || selected.None? ==> r == Screen(db, view)
    ensures IsAdmin(appUser) && selected.Some? ==>
      var key := selected.value.id.value;
      var s := UpdateGenre(db, key, GenreEdit(form, selected.value), form.image, up, destroy, upd);
      && r.db == s.db
      && (s.result.Err? ==> r.view == view.(error := UpdateGenreError))
      // On success the listed genres with the selected key take the submitted name,
      // description and colour.
      && (s.result.Ok? ==> r.view == view.(genres := Edited(view.genres, key, OrElse(form.name, selected.value.name),
                                                           OrElse(form.description, selected.value.description),
                                                           OrElse(form.color, OptOrElse(selected.value.color, DefaultColor)))))
    // The previous image is never retired: the partial carries no image URL.
    ensures db.live <= r.db.live
    ensures Keyed(view.genres) ==> Keyed(r.view.genres)
  {
    if !IsAdmin(appUser) || selected.None? then Screen(db, view)
    else
      var sel := selected.value;
      var patch := GenreEdit(form, sel);
      var s := UpdateGenre(db, sel.id.value, patch, form.image, up, destroy, upd);
      if s.result.Ok? then Screen(s.db, view.(genres := Edited(view.genres, sel.id.value, patch.name.value, patch.description.value, patch.color.value)))
      else Screen(s.db, view.(error := UpdateGenreError))
  }

  /** `handleDeleteGenre(id, imageUrl)`, called with a listed genre's key and image URL. */
  function HandleDeleteGenre(db: Db, view: GenresView, appUser: Option<AppUser>, id: Id, imageUrl: Option<Url>,
                             destroy: DestroyAnswer, del: StoreAnswer): (r: Screen<GenresView>)
    ensures !IsAdmin(appUser) ==> r == Screen(db, view)
    ensures IsAdmin(appUser) ==>
      var s := DeleteGenre(db, id, imageUrl, destroy, del);
      && r.db == s.db
      && (s.result.Err? ==> r.view == view.(error := DeleteGenreError))
      // On success exactly the genres with another key stay listed, each as often as before, in their order.
      && (s.result.Ok? ==> && r.view.error == view.error
                           && (forall g :: g in r.view.genres ==> g in view.genres && g.id != Some(id))
                           && (forall g :: g in view.genres && g.id != Some(id) ==> g in r.view.genres)
                           && (forall g :: multiset(r.view.genres)[g] == if g.id != Some(id) then multiset(view.genres)[g] else 0)
                           && Subsequence(r.view.genres, view.genres))
    ensures Keyed(view.genres) ==> Keyed(r.view.genres)
  {
    if !IsAdmin(appUser) then Screen(db, view)
    else
      var s := DeleteGenre(db, id, imageUrl, destroy, del);
      if s.result.Ok? then Screen(s.db, view.(genres := Filter(view.genres, (g: Genre) => g.id != Some(id))))
      else Screen(s.db, view.(error := DeleteGenreError))
  }

  // ---------------------------------------------------------------------------------------------
  // Properties across calls.

  /** After a successful edit with a new image, a listed genre that agreed with its stored
      record agrees with it again in every field but the image URL: the store holds the new
      URL, while the page keeps showing the old one. */
  lemma EditLeavesListedImageStale(db: Db, view: GenresView, appUser: Option<AppUser>, selected: Genre, form: GenreForm,
                                   up: UploadAnswer, destroy: DestroyAnswer, i: nat)
    requires IsAdmin(appUser) && selected.id.Some?
    requires i < |view.genres| && selected.id.value in db.genres
    requires view.genres[i] == db.genres[selected.id.value].WithDocId(selected.id.value)
    requires view.genres[i].id == selected.id
    requires UpdateGenre(db, selected.id.value, GenreEdit(form, selected), form.image, up, destroy, Served).result.Ok?
    ensures var r := HandleUpdateGenre(db, view, appUser, Some(selected), form, up, destroy, Served);
      var k := selected.id.value;
      && r.view.genres[i].(imageUrl := None) == r.db.genres[k].WithDocId(k).(imageUrl := None)
      && r.view.genres[i].imageUrl == view.genres[i].imageUrl
      && (form.image.Some? ==> r.db.genres[k].imageUrl == Some(UploadedUrl(GenreFolder, up)))
  {
    var k := selected.id.value;
    var r := HandleUpdateGenre(db, view, appUser, Some(selected), form, up, destroy, Served);
    var payload := GenreUpdatePayload(GenreEdit(form, selected), form.image, up);
    assert r.db.genres[k] == db.genres[k].Apply(payload);
  }

  /** Deleting the genre just added gives back the list as it was, when no listed genre shared
      the new key. */
  lemma DeleteUndoesAdd(db: Db, view: GenresView, appUser: Option<AppUser>, form: GenreForm, up: UploadAnswer, now: Time,
                        key: Id, destroy: DestroyAnswer)
    requires IsAdmin(appUser)
    requires forall i :: 0 <= i < |view.genres| ==> view.genres[i].id != Some(key)
    requires AddGenre(db, NewGenre(form, now), form.image, up, now, Assigned(key)).result.Ok?
    ensures var added := HandleAddGenre(db, view, appUser, form, up, now, Assigned(key));
      var url := added.view.genres[|view.genres|].imageUrl;
      var deleted := HandleDeleteGenre(added.db, added.view, appUser, key, url, destroy, Served);
      DeleteGenre(added.db, key, url, destroy, Served).result.Ok? ==> deleted.view == view
  {
    var added := HandleAddGenre(db, view, appUser, form, up, now, Assigned(key));
    var keep := (g: Genre) => g.id != Some(key);
    var g := added.view.genres[|view.genres|];
    assert g.id == Some(key);
    FilterDropsAppended(view.genres, g, keep);
  }
}
