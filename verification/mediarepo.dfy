/** The media client (src/repositories/MediaRepository.ts): `uploadFile` posts a two-field form to
    the upload route and returns `data.url`; `deleteFile` sends `{url}` to the delete route. A
    non-2xx status is the only failure a caller ever sees. */
module MediaRepository {
  import opened Base
  import opened JsText
  import opened Http
  import opened PublicIdPattern
  import opened UploadImageRoute
  import opened DeleteFileRoute

  const UploadFileFailed := "Failed to upload file"
  const DeleteFileFailed := "Failed to delete file"

  /** What `FormData.append("folder", folder)` stores: the text, or "undefined" when the
      argument was left out. */
  function FolderText(folder: Option<string>): (t: string)
    ensures folder.Some? ==> t == folder.value
    ensures folder.None? ==> t == "undefined"
  {
    folder.GetOr("undefined")
  }

  /** The form `uploadFile(file, folder)` sends. */
  function UploadForm(file: MediaFile, folder: Option<string>): (form: seq<FormEntry>)
    ensures FieldNames(form) == ["file", "folder"]
    ensures FormGet(form, "file") == Some(FileValue(file))
    ensures FormGet(form, "folder") == Some(TextValue(FolderText(folder)))
  {
    [FormEntry("file", FileValue(file)), FormEntry("folder", TextValue(FolderText(folder)))]
  }

  /** `data[name]` for a JSON reply body; `None` is `undefined`. */
  function JsonField(body: Body, name: string): (v: Option<string>)
    ensures body.UrlJson? ==> (v.Some? <==> name == "url")
    ensures body.UrlJson? && name == "url" ==> v == Some(body.url)
  {
    match body
    case UrlJson(u) => if name == "url" then Some(u) else None
    case ErrorJson(e) => if name == "error" then Some(e) else None
    case DeletedJson(m, u) => if name == "message" then Some(m) else if name == "url" then Some(u) else None
  }

  /** How the client reads an upload reply: throw unless `response.ok`, else `data.url`. */
  function UploadOutcome(reply: Reply): (r: Result<Option<string>, string>)
    ensures r.Err? <==> !IsOk(reply.status)
    ensures r.Err? ==> r.error == UploadFileFailed
    ensures r.Ok? ==> r.value == JsonField(reply.body, "url")
  {
    if !IsOk(reply.status) then Err(UploadFileFailed) else Ok(JsonField(reply.body, "url"))
  }

  /** How the client reads a delete reply: throw unless `response.ok`; the body is ignored. */
  function DeleteOutcome(reply: Reply): (r: Result<(), string>)
    ensures r.Err? <==> !IsOk(reply.status)
    ensures r.Err? ==> r.error == DeleteFileFailed
  {
    if !IsOk(reply.status) then Err(DeleteFileFailed) else Ok(())
  }

  /** The upload route's reply to `uploadFile(file, folder)`, with `now` the route's clock and
      `host` the media host's answer. */
  function UploadCall(file: MediaFile, folder: Option<string>, now: nat, host: HostUploadAnswer): (reply: Reply)
    // The only client-side failures are an empty folder and a host rejection.
    ensures IsOk(reply.status) <==> host.Stored? && FolderText(folder) != ""
    ensures reply.status == 400 <==> FolderText(folder) == ""
    ensures FolderText(folder) != "" ==> reply.hostCall == Some(HostUpload(
      FolderText(folder), PublicIdFor(FolderText(folder), now), UploadResourceType(file.mimeType)))
    ensures IsOk(reply.status) ==> reply.body == UrlJson(SecureUrl(
      host.deliveryBase, FolderText(folder), PublicIdFor(FolderText(folder), now), host.extension))
  {
    var form := UploadForm(file, folder);
    var req := MultipartForm(form);
    assert FolderText(folder) != "" ==> Validated(req, FolderText(folder), file);
    Post(req, now, host)
  }

  /** The delete route's reply to `deleteFile(url)`; `destroy` is the host's answer. */
  function DeleteCall(url: string, destroy: DestroyAnswer): (reply: Reply)
    ensures url == "" ==> reply.status == 400 && reply.hostCall.None?
    ensures url != "" ==> (IsOk(reply.status) <==> ExtractPublicId(url).None? || destroy == Destroyed)
    ensures url != "" ==> (reply.hostCall.Some? <==> ExtractPublicId(url).Some?)
    ensures reply.hostCall.Some? ==>
      reply.hostCall.value == HostDestroy(ExtractPublicId(url).value, DestroyResourceType(url))
  {
    Delete(JsonBody(Some(url)), destroy)
  }

  // ---------------------------------------------------------------------------------------------
  // The client and the routes together.

  /** `uploadFile` resolves exactly when a folder text is sent and the host stores the object,
      and then it resolves to the secure URL built from the folder and `${folder}_${now}`. */
  lemma UploadFileResolvesToSecureUrl(file: MediaFile, folder: Option<string>, now: nat, host: HostUploadAnswer)
    ensures UploadOutcome(UploadCall(file, folder, now, host)).Ok? <==> host.Stored? && FolderText(folder) != ""
    ensures UploadOutcome(UploadCall(file, folder, now, host)).Ok? ==>
      UploadOutcome(UploadCall(file, folder, now, host)).value == Some(SecureUrl(
        host.deliveryBase, FolderText(folder), PublicIdFor(FolderText(folder), now), host.extension))
  {
  }

  /** `deleteFile` on a URL the pattern cannot resolve resolves without any destroy call: an
      unresolvable URL counts as deleted. */
  lemma UnresolvableUrlCountsAsDeleted(url: string, destroy: DestroyAnswer)
    requires url != "" && ExtractPublicId(url).None?
    ensures DeleteOutcome(DeleteCall(url, destroy)) == Ok(())
    ensures DeleteCall(url, destroy).hostCall.None?
  {
  }

  /** The public id the upload route names an object with is made of word characters. */
  lemma PublicIdWordChars(folder: string, now: nat)
    requires AllWordChars(folder)
    ensures |PublicIdFor(folder, now)| > 0 && AllWordChars(PublicIdFor(folder, now))
  {
    var d := DecimalString(now);
    var id := PublicIdFor(folder, now);
    assert id == folder + "_" + d;
    forall j | 0 <= j < |id|
      ensures IsWordChar(id[j])
    {
      if j < |folder| {
        assert id[j] == folder[j];
      } else if j == |folder| {
        assert id[j] == '_';
      } else {
        assert id[j] == d[j - |folder| - 1];
      }
    }
  }

  /** Round trip: deleting the URL an upload to a recognised folder returned destroys exactly the
      public id the upload route assigned. */
  lemma DeleteDestroysUploadedId(file: MediaFile, folder: string, now: nat, base: string, ext: string, destroy: DestroyAnswer)
    requires IsFolder(folder)
    requires FreeOfSegments(base + "/")
    requires |ext| > 0 && AllWordChars(ext)
    ensures var up := UploadCall(file, Some(folder), now, Stored(base, ext));
      && up.body.UrlJson?
      && DeleteCall(up.body.url, destroy).hostCall ==
           Some(HostDestroy(up.hostCall.value.publicId, DestroyResourceType(up.body.url)))
  {
    FolderLetters(folder);
    PublicIdWordChars(folder, now);
    UploadUrlYieldsName(base, folder, PublicIdFor(folder, now), ext);
  }

  /** Genre images are uploaded without a folder, so they land under "undefined", which the
      delete route cannot resolve: deleting one reports success and destroys nothing. */
  lemma GenreImageIsNeverDestroyed(file: MediaFile, now: nat, base: string, ext: string, destroy: DestroyAnswer)
    requires FreeOfSegments(base + "/")
    requires AllWordChars(ext)
    ensures var up := UploadCall(file, None, now, Stored(base, ext));
      && UploadOutcome(up).Ok?
      && up.body.UrlJson?
      && DeleteCall(up.body.url, destroy) == Reply(200, DeletedJson(DeletedMessage, up.body.url), None)
  {
    assert AllWordChars("undefined");
    PublicIdWordChars("undefined", now);
    ForeignFolderYieldsNothing(base, "undefined", PublicIdFor("undefined", now), ext);
  }

  /** The two routes choose the resource type differently: an audio file whose URL does not
      contain ".mp3" is uploaded as "video" but destroyed as "image". */
  lemma AudioDestroyedAsImageUnlessMp3(file: MediaFile, folder: string, now: nat, base: string, ext: string, destroy: DestroyAnswer)
    requires StartsWith(file.mimeType, "audio/")
    requires IsFolder(folder)
    requires FreeOfSegments(base + "/")
    requires |ext| > 0 && AllWordChars(ext)
    requires !Includes(SecureUrl(base, folder, PublicIdFor(folder, now), ext), ".mp3")
    ensures var up := UploadCall(file, Some(folder), now, Stored(base, ext));
      && up.hostCall.value.resourceType == Video
      && DeleteCall(up.body.url, destroy).hostCall.Some?
      && DeleteCall(up.body.url, destroy).hostCall.value.resourceType == Image
  {
    DeleteDestroysUploadedId(file, folder, now, base, ext, destroy);
  }

  /** A string without the letter 'm' does not contain ".mp3". */
  lemma {:induction false} NoMpThree(s: string)
    requires forall j :: 0 <= j < |s| ==> s[j] != 'm'
    ensures !Includes(s, ".mp3")
  {
    if |s| > 0 {
      assert !StartsWith(s, ".mp3") by {
        if |s| >= 4 {
          assert s[..4][1] == s[1];
        }
      }
      NoMpThree(s[1..]);
    } else {
      assert !StartsWith(s, ".mp3");
    }
  }

  /** An instance of the mismatch: a WAV file uploaded to "songs". */
  lemma WavUploadDestroyedAsImage(destroy: DestroyAnswer)
    ensures var up := UploadCall(MediaFile("audio/wav"), Some("songs"), 7, Stored("h", "wav"));
      && up.hostCall.value.resourceType == Video
      && DeleteCall(up.body.url, destroy).hostCall.Some?
      && DeleteCall(up.body.url, destroy).hostCall.value.resourceType == Image
  {
    var file := MediaFile("audio/wav");
    assert StartsWith(file.mimeType, "audio/") by {
      assert file.mimeType[..6] == "audio/";
    }
    forall i, f | SegmentAt("h" + "/", i, f)
      ensures false
    {
    }
    assert AllWordChars("wav");
    var url := SecureUrl("h", "songs", PublicIdFor("songs", 7), "wav");
    assert DecimalString(7) == "7";
    assert url == "h/songs/songs_7.wav";
    NoMpThree(url);
    AudioDestroyedAsImageUnlessMp3(file, "songs", 7, "h", "wav", destroy);
  }
}
