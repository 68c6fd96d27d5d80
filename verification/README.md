# Catalog records and their media

A model of how a music web application keeps its catalog records (genres, artists, songs, plus
legacy social posts and user profiles) in a document store, and keeps the media files those
records point to (images and audio) on a media host. Two server routes sit in front of the host:
`POST /api/upload-image` stores a file and answers with its secure URL, and
`DELETE /api/delete-file` derives the host's public id back from such a URL and destroys the
object. The repositories pair every record write with these uploads and deletions. The sign-up
handlers create a user profile only when none exists. The admin pages for genres, a single genre
and a single artist call the repositories and then update their own copy of the listed records.

## How the model is built

- `Catalog.Db` is the whole state the client acts on:
  - one keyed map per collection;
  - `live`, the set of media URLs that were uploaded and whose destroy has not been
    acknowledged;
  - `trace`, the sequence of external calls the client issued, each with whether it succeeded
    and the media-host call the route made for it.
- Every answer from the outside world is an explicit input:
  - `UploadAnswer`: the route's clock and the host's reply;
  - `InsertAnswer`: the key the store assigns, or a failure;
  - `StoreAnswer`: served or failed;
  - `DestroyAnswer`: destroyed or throws;
  - the order the store lists keys in: a `Catalog.Listing` of the collection, which holds each
    stored key exactly once and nothing else.
- Every repository operation returns a `Step`: the new state, and either the value or the
  request whose failure it rethrew. Each operation's contract says its calls follow a request
  plan written separately from the body (`Catalog.FollowsPlan`). That is, the calls are made in
  plan order, the run stops at the first failure, and the operation succeeds exactly when the
  whole plan ran.
- The two routes are pure functions from the request and the host's answer to a `Reply`. The
  public-id pattern `/\/(genres|artists|songs)\/(.+)\.\w+$/` is modelled as JavaScript evaluates
  it: leftmost match, greedy group, `\w` and line terminators.
- A page handler returns a `Pages.Screen`: the state after the repository call, and the page's
  own state (its listed records and its error message).

The model follows the code as written. Several of the proved properties are unintended
consequences of that code. They are stated as lemmas about the as-written behaviour:

- Genre images are uploaded without a folder and are never destroyed.
- The delete route picks the resource type differently from the upload route.
- Legacy post uploads always fail.
- No page handler's update retires the image it replaces.
- A failed later step orphans a file that was already uploaded.

## Model

| member | source | states |
|---|---|---|
| UploadImageRoute.UploadResourceType | src/app/api/upload-image/route.ts:30-32 | audio MIME types are uploaded as "video", everything else as "image" |
| UploadImageRoute.Post | src/app/api/upload-image/route.ts:10-52 | 400 exactly when the body is a form whose file or folder is missing or empty, and then nothing is uploaded; otherwise the validated file is uploaded under `folder_now` in that folder; 200 with the secure URL exactly when the host stores it; 500 "Failed to upload file" for every other failure |
| DeleteFileRoute.DestroyResourceType | src/app/api/delete-file/route.ts:25 | the destroy uses "video" exactly when the URL contains ".mp3" anywhere |
| DeleteFileRoute.Delete | src/app/api/delete-file/route.ts:10-36 | 400 exactly for a missing or empty url; a destroy is issued exactly when the pattern yields a public id; 200 "Deleted" exactly when no destroy was needed or it resolved; 500 exactly for an unreadable body or a throwing destroy |
| DeleteFileRoute.UnresolvableUrlReportedDeleted | src/app/api/delete-file/route.ts:22-29 | a URL the pattern cannot resolve is answered 200 "Deleted" with no destroy issued |
| PublicIdPattern.ExtractPublicId | src/app/api/delete-file/route.ts:22 | no id exactly when the pattern matches nowhere; otherwise the id is group 2 of a match that starts leftmost |
| PublicIdPattern.ExtractsLeftmostGroup | src/app/api/delete-file/route.ts:22 | every leftmost match has the same group 2, and it is the extracted id |
| PublicIdPattern.UploadUrlYieldsName | src/app/api/delete-file/route.ts:22 | a URL `base/folder/name.ext` for a recognised folder yields exactly `name` |
| PublicIdPattern.ForeignFolderYieldsNothing | src/app/api/delete-file/route.ts:22 | a URL whose folder is not genres, artists or songs yields no id |
| PublicIdPattern.SegmentsOfUploadUrl | src/app/api/delete-file/route.ts:22 | in an upload-shaped URL the only folder segment is the URL's own folder |
| JsText.DecimalString | src/app/api/upload-image/route.ts:29 | `Date.now()` renders as a non-empty run of digits without a leading zero |
| JsText.ParseIntOr | src/components/music/ArtistDetailPage.tsx:148-154 | `parseInt(text) \|\| fallback`: NaN and zero give the fallback, any other number is kept |
| JsText.ParseIntDecimal | src/components/music/ArtistDetailPage.tsx:148-154 | parseInt reads back the number `String(n)` wrote, whatever non-digit text follows, for every number up to 2^53 |
| JsText.ParseIntNegativeDecimal | src/components/music/ArtistDetailPage.tsx:148-154 | parseInt reads a minus sign followed by digits as the negative number, for every magnitude up to 2^53 |
| JsText.ParseIntSkipsWhiteSpace | src/components/music/ArtistDetailPage.tsx:148-154 | leading white space never changes what parseInt reads |
| JsText.EmptyAnswerKeepsFallback | src/components/music/ArtistDetailPage.tsx:148-154 | a cancelled or empty prompt answer keeps the current value |
| MediaRepository.FolderText | src/repositories/MediaRepository.ts:5 | an omitted folder argument is sent as the text "undefined" |
| MediaRepository.UploadForm | src/repositories/MediaRepository.ts:3-5 | the upload form has exactly the fields file and folder, holding the file and the folder text |
| MediaRepository.UploadOutcome | src/repositories/MediaRepository.ts:12-17 | a non-ok reply throws "Failed to upload file"; an ok reply gives the body's `url` field |
| MediaRepository.DeleteOutcome | src/repositories/MediaRepository.ts:27-29 | a non-ok reply throws "Failed to delete file"; an ok reply resolves |
| MediaRepository.UploadCall | src/repositories/MediaRepository.ts:2-18 | the route answers ok exactly when a non-empty folder text is sent and the host stores the file; then the body holds the secure URL |
| MediaRepository.DeleteCall | src/repositories/MediaRepository.ts:20-30 | for a non-empty URL, the route destroys exactly when the pattern yields an id, and answers ok when no destroy was needed or it resolved |
| MediaRepository.UploadFileResolvesToSecureUrl | src/repositories/MediaRepository.ts:2-18 | `uploadFile` resolves exactly when a folder text is sent and the host stores the file, and resolves to the secure URL |
| MediaRepository.UnresolvableUrlCountsAsDeleted | src/repositories/MediaRepository.ts:20-30 | `deleteFile` on an unresolvable URL resolves although nothing is destroyed |
| MediaRepository.PublicIdWordChars | src/app/api/upload-image/route.ts:29 | the public id the upload route names a file with is made of word characters |
| MediaRepository.DeleteDestroysUploadedId | src/repositories/MediaRepository.ts:2-30 | round trip: deleting the URL an upload to a recognised folder returned destroys exactly the public id the upload route named the file with |
| MediaRepository.GenreImageIsNeverDestroyed | src/repositories/MusicGenreRepository.ts:24 | a genre image lands under "undefined", so deleting it resolves without destroying anything |
| MediaRepository.AudioDestroyedAsImageUnlessMp3 | src/app/api/delete-file/route.ts:25 | audio stored as "video" is destroyed as "image" when its URL does not contain ".mp3" |
| MediaRepository.WavUploadDestroyedAsImage | src/app/api/delete-file/route.ts:25 | a concrete WAV upload to "songs" is destroyed under the wrong resource type |
| Catalog.RunsMeaning | src/repositories/MusicGenreRepository.ts:20-44 | a run issues a prefix of its plan in order, all calls but the last succeeded, and it fails exactly at its last call, rethrowing it |
| Catalog.UploadMedia | src/repositories/MediaRepository.ts:2-18 | one upload call; it succeeds exactly when the route answers ok, and then the returned URL becomes live |
| Catalog.DeleteMedia | src/repositories/MediaRepository.ts:20-30 | one delete call; the URL stops being live only when a destroy was issued and resolved |
| GenreRepository.AddGenre | src/repositories/MusicGenreRepository.ts:19-45 | upload (if any) then insert; only the genres change; the stored record gets the time and the image URL, and the returned genre has the new key; the upload's URL becomes live even when the insert fails |
| GenreRepository.GetGenre | src/repositories/MusicGenreRepository.ts:47-59 | null exactly when the key is not stored; otherwise the stored record with its key |
| GenreRepository.UpdateGenre | src/repositories/MusicGenreRepository.ts:75-108 | upload, retire the partial's image, then write; succeeds only on a stored key; only the partial's own image URL can stop being live |
| GenreRepository.DeleteGenre | src/repositories/MusicGenreRepository.ts:110-125 | retire the image, then delete; on success exactly that key is gone; the image stops being live only when it was really destroyed |
| GenreRepository.GetAfterAddGenre | src/repositories/MusicGenreRepository.ts:32-40 | reading back a new genre gives the returned record, except that the store holds the insertion time where the returned record keeps the caller's `createdAt` |
| GenreRepository.FailedInsertOrphansImage | src/repositories/MusicGenreRepository.ts:21-44 | when the insert fails after the upload succeeded, the upload's URL stays live and no genre refers to it |
| GenreRepository.GenreImageOutlivesGenre | src/repositories/MusicGenreRepository.ts:110-125 | deleting a genre added with an image removes the record and reports success, but the image stays live |
| ArtistRepository.AddArtist | src/repositories/ArtistRepository.ts:22-47 | upload to "artists" then insert; only the artists change; the returned artist is the caller's with the new key and image URL |
| ArtistRepository.GetArtist | src/repositories/ArtistRepository.ts:49-61 | null exactly when the key is not stored; otherwise the stored record with its key |
| Catalog.ListedSelectCount | src/repositories/ArtistRepository.ts:63-77 | over a listing of the collection, a `where` query picks as many keys as there are matching documents |
| ArtistRepository.GetArtistsByGenre | src/repositories/ArtistRepository.ts:63-77 | all and only the stored artists of that genre, each exactly once, with their keys |
| ArtistRepository.UpdateArtist | src/repositories/ArtistRepository.ts:79-112 | upload, retire the partial's image, then write; succeeds only on a stored key |
| ArtistRepository.DeleteArtist | src/repositories/ArtistRepository.ts:114-129 | retire the image, then delete; on success exactly that key is gone |
| ArtistRepository.AddThenDeleteRetiresImage | src/repositories/ArtistRepository.ts:22-129 | adding an artist with an image and deleting it with the returned URL succeeds, removes the record, retires the image, and destroys exactly the public id the upload assigned |
| ArtistRepository.GetAfterAddArtist | src/repositories/ArtistRepository.ts:22-61 | reading back a new artist by its key gives exactly the record the add returned |
| ArtistRepository.AddedArtistIsListedByGenre | src/repositories/ArtistRepository.ts:22-77 | a newly added artist is returned by its genre's query |
| SongRepository.AddSong | src/repositories/SongRepository.ts:21-63 | image, then audio, then insert; only the songs change; the stored song carries both URLs and the release time; a failed later step leaves earlier uploads live |
| SongRepository.GetSong | src/repositories/SongRepository.ts:65-77 | null exactly when the key is not stored; otherwise the stored record with its key |
| SongRepository.GetSongsByArtist | src/repositories/SongRepository.ts:79-93 | all and only the stored songs of that artist, each exactly once, with their keys |
| SongRepository.GetAfterAddSong | src/repositories/SongRepository.ts:21-77 | reading back a new song by its key gives the record the add returned, with the store's release time |
| SongRepository.AddedSongIsListedByArtist | src/repositories/SongRepository.ts:21-93 | a newly added song, with the store's release time, is returned by its artist's query |
| SongRepository.UpdateSong | src/repositories/SongRepository.ts:95-149 | image branch, audio branch, then write; succeeds only on a stored key; only the partial's own URLs can stop being live |
| SongRepository.DeleteSong | src/repositories/SongRepository.ts:151-177 | retire the image, then the audio, then delete; succeeds exactly when both media deletes and the delete succeed |
| SongRepository.AudioFailureLeavesRecordStale | src/repositories/SongRepository.ts:104-129 | when the audio upload fails after the image was replaced, the record is unchanged; a record that pointed at the partial's image still does, and that image is no longer live |
| SongRepository.AudioDeleteFailureKeepsRecord | src/repositories/SongRepository.ts:151-177 | when the audio destroy throws after the image was destroyed, the record stays; a record that pointed at that image still does, and it is no longer live |
| SongRepository.AddThenDeleteSongRetiresMedia | src/repositories/SongRepository.ts:21-177 | adding a song with both files and deleting it with the returned URLs succeeds, removes the record, retires both files, and destroys exactly the public ids the uploads assigned |
| PostRepository.ImageForm | src/repositories/PostRepository.tsx:30-32 | the post image form has a single "image" field, and no file or folder field |
| PostRepository.ImageUploadCall | src/repositories/PostRepository.tsx:30-37 | the upload route always rejects that form with 400, and nothing is uploaded |
| PostRepository.ImageUploadOutcome | src/repositories/PostRepository.tsx:39-44 | a non-ok reply throws "Failed to upload image"; an ok reply of the route would give no URL, since it sends `url` and not `imageUrl` |
| PostRepository.UploadImage | src/repositories/PostRepository.tsx:30-45 | `uploadImage` always fails, and nothing changes but the trace |
| PostRepository.Stripped | src/repositories/PostRepository.tsx:64-66 | a truthy id is dropped before insertion; every other field is kept |
| PostRepository.AddPost | src/repositories/PostRepository.tsx:47-92 | with an image the call always fails before inserting; without one it succeeds exactly when the insert does, storing the post under the new key |
| PostRepository.GetPostsByUser | src/repositories/PostRepository.tsx:110-126 | all and only the stored posts of that user, each exactly once, with their keys |
| PostRepository.AddedPostIsListedByUser | src/repositories/PostRepository.tsx:47-126 | a post added without an image is returned by its user's query: as returned, or with the empty id it carried when that id was the empty string |
| PostRepository.StoredImage | src/repositories/PostRepository.tsx:131-133 | the image deleted is the stored record's, exactly when it exists and is truthy |
| PostRepository.DeletePost | src/repositories/PostRepository.tsx:128-164 | read, delete the stored image if any, then delete; on success exactly that key is gone |
| PostRepository.DeleteUndoesAddPost | src/repositories/PostRepository.tsx:47-164 | deleting a post just added without an image succeeds and gives back the posts as they were before the add |
| PostRepository.DeletePostWithoutImage | src/repositories/PostRepository.tsx:128-164 | a post without a stored image is deleted with just the read and the delete |
| UserProfileRepository.StrippedProfile | src/repositories/UserProfileRepository.tsx:10-12 | a truthy id is dropped before insertion; every other field is kept |
| UserProfileRepository.AddAppUser | src/repositories/UserProfileRepository.tsx:8-26 | one insert; it succeeds exactly when the store assigns a key, and returns the profile with that key |
| UserProfileRepository.GetAppUser | src/repositories/UserProfileRepository.tsx:28-44 | null exactly when no listed profile has that user id; otherwise the first listed one, with its key |
| UserProfileRepository.GetAppUserNullIffNoProfile | src/repositories/UserProfileRepository.tsx:28-44 | when every profile is listed, null exactly when no stored profile has that user id |
| UserProfileRepository.AddedProfileIsFound | src/repositories/UserProfileRepository.tsx:8-44 | a profile just added is found by its user id when listed first |
| Signup.UidText | src/components/auth/Signup.tsx:23 | the current user's uid, or "" when there is no user |
| Signup.GoogleUsername | src/components/auth/Signup.tsx:47 | the display name when it is non-empty, otherwise "username" |
| Signup.EnsureProfile | src/components/auth/Signup.tsx:22-31 | look up, then insert only when the lookup answered null; an existing profile is never duplicated, and a new one has role USER |
| Signup.HandleSignup | src/components/auth/Signup.tsx:17-35 | the get-or-create step for the current uid and the full name; the error is set exactly when that step fails |
| Signup.HandleGoogleSignup | src/components/auth/Signup.tsx:37-55 | the same with the display name; a throwing login sets the error and touches nothing |
| Signup.SignupNeverDuplicates | src/components/auth/Signup.tsx:22-31 | signing up a user who already has a profile leaves the profiles unchanged and reports no error |
| Signup.SignupTwiceAddsOnce | src/components/auth/Signup.tsx:17-35 | signing up twice creates at most one profile |
| Pages.Filter | src/components/music/GenresPage.tsx:116 | the kept elements remain in their order, each as often as before, and nothing else does |
| Pages.MapWhere | src/components/music/GenresPage.tsx:96 | position by position, matching elements are changed and every other element is kept |
| Pages.FilterAppend | src/components/music/GenresPage.tsx:116 | filtering distributes over concatenation |
| Pages.FilterDropsAppended | src/components/music/GenresPage.tsx:116 | filtering out an element appended to a list that is kept whole gives the list back |
| GenresPage.HandleAddGenre | src/components/music/GenresPage.tsx:45-71 | non-admins change nothing; on failure only the error is set; on success the page appends what reading the new record back gives |
| GenresPage.Edited | src/components/music/GenresPage.tsx:95-99 | listed genres with the key take the new name, description and colour and keep their image URL; the others are untouched |
| GenresPage.HandleUpdateGenre | src/components/music/GenresPage.tsx:73-106 | on success the listed genres with the selected key take the submitted fields; the previous image is never retired |
| GenresPage.HandleDeleteGenre | src/components/music/GenresPage.tsx:108-120 | on success exactly the genres with another key stay listed, each as often as before, in their order |
| GenresPage.EditLeavesListedImageStale | src/components/music/GenresPage.tsx:73-106 | after an edit with a new image the listed genre agrees with the store in every field but the image URL |
| GenresPage.DeleteUndoesAdd | src/components/music/GenresPage.tsx:45-120 | deleting the genre just added gives back the list as it was |
| GenreDetailPage.HandleAddArtist | src/components/music/GenreDetailPage.tsx:60-89 | on success the page appends the stored artist, which belongs to the page's genre |
| GenreDetailPage.HandleUpdateGenre | src/components/music/GenreDetailPage.tsx:91-123 | the artist form's name and bio become the genre's name and description; the stored colour is untouched; the old image is never retired |
| GenreDetailPage.HandleDeleteGenre | src/components/music/GenreDetailPage.tsx:125-137 | deleting the genre leaves its artists in the store |
| GenreDetailPage.Edited | src/components/music/GenreDetailPage.tsx:160-164 | listed artists with the key take the new name, country and bio; the others are untouched |
| GenreDetailPage.HandleUpdateArtist | src/components/music/GenreDetailPage.tsx:139-176 | on success the listed artists with the selected key take the submitted fields; the old image is never retired |
| GenreDetailPage.HandleDeleteArtist | src/components/music/GenreDetailPage.tsx:178-190 | on success exactly the artists with another key stay listed, each as often as before, in their order |
| GenreDetailPage.DeletedGenreLeavesArtists | src/components/music/GenreDetailPage.tsx:125-137 | after the genre is deleted, its query still returns every stored artist of that genre |
| ArtistDetailPage.PromptedDuration | src/components/music/ArtistDetailPage.tsx:148-154 | a cancelled, empty, non-numeric or zero answer keeps the duration; any other number replaces it |
| ArtistDetailPage.HandleAddSong | src/components/music/ArtistDetailPage.tsx:63-97 | on success the page appends the stored song, which belongs to the page's artist and the form's genre |
| ArtistDetailPage.HandleUpdateArtist | src/components/music/ArtistDetailPage.tsx:99-128 | the answered fields replace the artist's; only the song form's image can become live; the old image is never retired |
| ArtistDetailPage.HandleDeleteArtist | src/components/music/ArtistDetailPage.tsx:130-142 | deleting the artist leaves its songs and their media in place |
| ArtistDetailPage.Retitled | src/components/music/ArtistDetailPage.tsx:170-176 | listed songs with the key take the new name and duration and keep their media; the others are untouched |
| ArtistDetailPage.HandleUpdateSong | src/components/music/ArtistDetailPage.tsx:144-180 | on success the listed songs with the key take the answered name and duration; neither old file is retired |
| ArtistDetailPage.HandleDeleteSong | src/components/music/ArtistDetailPage.tsx:182-198 | on success exactly the songs with another key stay listed, each as often as before, in their order |
| ArtistDetailPage.PromptSetsPositiveDuration | src/components/music/ArtistDetailPage.tsx:148-154 | a positive number up to 2^53 typed in decimal becomes the duration |
| ArtistDetailPage.PromptSetsNegativeDuration | src/components/music/ArtistDetailPage.tsx:148-154 | a negative number down to -2^53 is accepted too: the answer is not validated |
| ArtistDetailPage.ZeroAnswerKeepsDuration | src/components/music/ArtistDetailPage.tsx:148-154 | answering "0" keeps the old duration |
| ArtistDetailPage.ArtistEditTakesSongFormImage | src/components/music/ArtistDetailPage.tsx:99-128 | an artist edit stores the song form's image, while the page keeps showing the old image URL |

## Left out

- Network transport, the browser's fetch and JSON encoding: a reply either arrives or it does not. A failing fetch is a failed call.
- The media host's storage: `live` records which uploads have not had a destroy acknowledged. It does not model the physical object.
- `/api/delete-image`, which the post repository calls, is not part of this model. Its outcome is an input.
- The media host's answer is modelled as `Stored(base, ext)`. The upload route builds the secure URL from it in the layout `base/folder/publicId.ext`, so every upload contract assumes that layout. The round-trip lemmas also require a base with no genres, artists or songs segment.
- The document store's handling of `undefined` fields: an absent image URL is simply absent.
- How the store generates keys, and the order queries list documents in: both are inputs.
- `getAllGenres` and `getAllPosts`: they are reads that no modelled handler depends on.
- The pages' data fetching on mount, navigation after a delete, toasts, dialogs and form resets.
- The model shows the list as the handler leaves it, not how it is rendered.
- Authentication: the current user after sign-in is an input. `loginWithGoogle`'s error path is a flag saying whether its handler threw.
- Concurrency between handlers: each handler runs to completion on one state.
- `delete post.id` and `delete profile.id` mutate the caller's object. The model returns a stripped copy and leaves the caller's value alone.
- The page handlers use one submission time both for the page's own timestamp and for the repository's `new Date()`.
- The `Post` model (`src/pages/models/Post`) is not part of this model. A post is reduced to the fields the repository reads.
- JsText.ParseInt: JavaScript numbers are modelled as unbounded integers. `parseInt` returns a double, so beyond 2^53 it rounds, and a long enough run of digits gives Infinity. The model returns the exact integer instead.
- ParseIntDecimal: states the round trip only up to 2^53, where the double `parseInt` returns is exact.
- ParseIntNegativeDecimal: states the round trip only for magnitudes up to 2^53, for the same reason.
- ArtistDetailPage.PromptSetsPositiveDuration and ArtistDetailPage.PromptSetsNegativeDuration: bounded by 2^53 for the same reason. A longer answer would set a rounded duration, or Infinity.
- GenresPage.HandleUpdateGenre and GenreDetailPage.HandleUpdateGenre: require that the selected genre has a key. Genres listed from the store always do, and `GenresPage.Keyed` shows the page keeps that.
- GenreDetailPage.HandleUpdateArtist: requires that the selected artist has a key, for the same reason.
