/** The catalog's records (src/models/MusicGenre.ts, src/models/AppUser.ts) and the partial
    records an update sends. Optional fields are `Option`s; `id` is the store key when the record
    came from the store, and whatever the caller put there otherwise. */
module Models {
  import opened Base

  /** A document key in the store. */
  type Id = string

  /** A media URL as the upload route returns it. */
  type Url = string

  /** A point in time, in milliseconds since the epoch. */
  type Time = nat

  datatype Genre = Genre(
    id: Option<Id>,
    name: string,
    description: string,
    color: Option<string>,
    createdAt: Time,
    imageUrl: Option<Url>)
  {
    /** `updateDoc` with a partial genre: every field the partial carries overwrites. */
    function Apply(p: GenrePatch): Genre {
      Genre(
        if p.id.Some? then p.id else id,
        p.name.GetOr(name),
        p.description.GetOr(description),
        if p.color.Some? then p.color else color,
        p.createdAt.GetOr(createdAt),
        if p.imageUrl.Some? then p.imageUrl else imageUrl)
    }

    /** `{ id: key, ...data }`: the record read back from the store under `key`. The key is
        overridden by an `id` field the stored data carries itself. */
    function WithDocId(key: Id): (r: Genre)
      ensures r.id.Some? && r.(id := id) == this
      ensures id.None? ==> r.id == Some(key)
      ensures id.Some? ==> r.id == id
    {
      if id.Some? then this else this.(id := Some(key))
    }
  }

  /** `Partial<MusicGenre>`. */
  datatype GenrePatch = GenrePatch(
    id: Option<Id>,
    name: Option<string>,
    description: Option<string>,
    color: Option<string>,
    createdAt: Option<Time>,
    imageUrl: Option<Url>)

  datatype Artist = Artist(
    id: Option<Id>,
    name: string,
    country: string,
    bio: string,
    genreId: Id,
    imageUrl: Option<Url>)
  {
    function Apply(p: ArtistPatch): Artist {
      Artist(
        if p.id.Some? then p.id else id,
        p.name.GetOr(name),
        p.country.GetOr(country),
        p.bio.GetOr(bio),
        p.genreId.GetOr(genreId),
        if p.imageUrl.Some? then p.imageUrl else imageUrl)
    }

    function WithDocId(key: Id): (r: Artist)
      ensures r.id.Some? && r.(id := id) == this
      ensures id.None? ==> r.id == Some(key)
      ensures id.Some? ==> r.id == id
    {
      if id.Some? then this else this.(id := Some(key))
    }
  }

  /** `Partial<Artist>`. */
  datatype ArtistPatch = ArtistPatch(
    id: Option<Id>,
    name: Option<string>,
    country: Option<string>,
    bio: Option<string>,
    genreId: Option<Id>,
    imageUrl: Option<Url>)

  datatype Song = Song(
    id: Option<Id>,
    name: string,
    duration: int,
    releaseDate: Time,
    artistId: Id,
    genreId: Id,
    imageUrl: Option<Url>,
    audioUrl: Option<Url>)
  {
    function Apply(p: SongPatch): Song {
      Song(
        if p.id.Some? then p.id else id,
        p.name.GetOr(name),
        p.duration.GetOr(duration),
        p.releaseDate.GetOr(releaseDate),
        p.artistId.GetOr(artistId),
        p.genreId.GetOr(genreId),
        if p.imageUrl.Some? then p.imageUrl else imageUrl,
        if p.audioUrl.Some? then p.audioUrl else audioUrl)
    }

    function WithDocId(key: Id): (r: Song)
      ensures r.id.Some? && r.(id := id) == this
      ensures id.None? ==> r.id == Some(key)
      ensures id.Some? ==> r.id == id
    {
      if id.Some? then this else this.(id := Some(key))
    }
  }

  /** `Partial<Song>`. */
  datatype SongPatch = SongPatch(
    id: Option<Id>,
    name: Option<string>,
    duration: Option<int>,
    releaseDate: Option<Time>,
    artistId: Option<Id>,
    genreId: Option<Id>,
    imageUrl: Option<Url>,
    audioUrl: Option<Url>)

  /** A social post; `content` stands for every field the repository does not look at. */
  datatype Post = Post(id: Option<Id>, userId: string, content: string, imageUrl: Option<Url>)
  {
    function WithDocId(key: Id): (r: Post)
      ensures r.id.Some? && r.(id := id) == this
      ensures id.None? ==> r.id == Some(key)
      ensures id.Some? ==> r.id == id
    {
      if id.Some? then this else this.(id := Some(key))
    }
  }

  datatype UserRole = User | AdminUser

  datatype AppUser = AppUser(id: Option<Id>, username: string, userId: string, role: UserRole)
  {
    function WithDocId(key: Id): (r: AppUser)
      ensures r.id.Some? && r.(id := id) == this
      ensures id.None? ==> r.id == Some(key)
      ensures id.Some? ==> r.id == id
    {
      if id.Some? then this else this.(id := Some(key))
    }
  }
}
