/** `POST /api/upload-image` (src/app/api/upload-image/route.ts): validates the multipart form,
    names the object after its folder and the current time, files audio under the host's "video"
    category, and answers with the object's secure URL. */
module UploadImageRoute {
  import opened Base
  import opened JsText
  import opened Http

  /** The request as the route sees it: a multipart form, or a body `request.formData()` rejects. */
  datatype UploadRequest = MultipartForm(entries: seq<FormEntry>) | NotMultipart

  /** What the media host does with the upload stream: it stores the object and reports its
      delivery base and file extension, or it reports an error. */
  datatype HostUploadAnswer = Stored(deliveryBase: string, extension: string) | HostRejected

  const MissingFileOrFolder := "Missing file or folder"
  const UploadFailed := "Failed to upload file"

  /** `!v` for a form value: `null` and "" are falsy; a file never is. */
  predicate Falsy(v: Option<FormValue>) {
    v.None? || v == Some(TextValue(""))
  }

  /** A form value in a template literal: text as is, a file as "[object File]". */
  function AsText(v: FormValue): string {
    match v
    case TextValue(t) => t
    case FileValue(_) => "[object File]"
  }

  /** `${folder}_${Date.now()}`. */
  function PublicIdFor(folder: string, now: nat): string {
    folder + "_" + DecimalString(now)
  }

  /** The host's delivery URL of an object filed under `folder` as `publicId`. */
  function SecureUrl(base: string, folder: string, publicId: string, ext: string): string {
    base + "/" + folder + "/" + publicId + "." + ext
  }

  /** "video" for audio MIME types (the host streams audio as video), "image" for the rest. */
  function UploadResourceType(mimeType: string): (t: ResourceType)
    ensures t == Video <==> StartsWith(mimeType, "audio/")
  {
    if StartsWith(mimeType, "audio/") then Video else Image
  }

  /** The folder text and file of a form that passed validation. */
  ghost predicate Validated(req: UploadRequest, folder: string, file: MediaFile) {
    && req.MultipartForm?
    && FormGet(req.entries, "file") == Some(FileValue(file))
    && FormGet(req.entries, "folder").Some?
    && !Falsy(FormGet(req.entries, "folder"))
    && folder == AsText(FormGet(req.entries, "folder").value)
  }

  /** The route handler. `now` is `Date.now()`, `host` the host's answer to the upload. */
  function Post(req: UploadRequest, now: nat, host: HostUploadAnswer): (r: Reply)
    // A missing or empty file or folder is rejected with 400 and nothing is uploaded.
    ensures r.status == 400 <==>
      req.MultipartForm? && (Falsy(FormGet(req.entries, "file")) || Falsy(FormGet(req.entries, "folder")))
    ensures r.status == 400 ==> r.body == ErrorJson(MissingFileOrFolder) && r.hostCall.None?
    // An upload is issued only for a validated form, under the folder and `${folder}_${now}`.
    ensures r.hostCall.Some? ==> exists folder, file ::
      && Validated(req, folder, file)
      && r.hostCall.value == HostUpload(folder, PublicIdFor(folder, now), UploadResourceType(file.mimeType))
    ensures (exists folder, file :: Validated(req, folder, file)) ==> r.hostCall.Some?
    // Success answers 200 with the secure URL and nothing else; every failure after validation is 500.
    ensures IsOk(r.status) <==> r.hostCall.Some? && host.Stored?
    ensures IsOk(r.status) ==> r.status == 200 && r.body == UrlJson(
      SecureUrl(host.deliveryBase, r.hostCall.value.folder, r.hostCall.value.publicId, host.extension))
    ensures r.status != 400 && !IsOk(r.status) ==> r.status == 500 && r.body == ErrorJson(UploadFailed)
  {
    match req
    case NotMultipart => Reply(500, ErrorJson(UploadFailed), None)
    case MultipartForm(entries) =>
      var file := FormGet(entries, "file");
      var folder := FormGet(entries, "folder");
      if Falsy(file) || Falsy(folder) then Reply(400, ErrorJson(MissingFileOrFolder), None)
      else if file.value.TextValue? then
        // `file.arrayBuffer` is not a function on a text entry: the handler throws.
        Reply(500, ErrorJson(UploadFailed), None)
      else
        var f := AsText(folder.value);
        var mime := file.value.file.mimeType;
        assert Validated(req, f, file.value.file);
        var call := HostUpload(f, PublicIdFor(f, now), UploadResourceType(mime));
        match host
        case Stored(base, ext) => Reply(200, UrlJson(SecureUrl(base, f, call.publicId, ext)), Some(call))
        case HostRejected => Reply(500, ErrorJson(UploadFailed), Some(call))
  }
}

/** `DELETE /api/delete-file` (src/app/api/delete-file/route.ts): derives a public id from the
    URL's path and asks the host to destroy it; answers 200 "Deleted" whether or not an id was
    derived. */
module DeleteFileRoute {
  import opened Base
  import opened JsText
  import opened Http
  import opened PublicIdPattern

  /** The request body: JSON with an optional `url`, or a body `request.json()` rejects. */
  datatype DeleteRequest = JsonBody(url: Option<string>) | MalformedJson

  /** What the host's `destroy` does: resolve, or throw. */
  datatype DestroyAnswer = Destroyed | DestroyThrows

  const MissingUrl := "Missing the file url"
  const ProcessingError := "Error processing the request"
  const DeletedMessage := "Deleted"

  /** "video" when the URL mentions ".mp3" anywhere, "image" otherwise. */
  function DestroyResourceType(url: string): (t: ResourceType)
    ensures t == Video <==> Includes(url, ".mp3")
  {
    if Includes(url, ".mp3") then Video else Image
  }

  /** The route handler; `destroy` is the host's answer to a destroy call, if one is made. */
  function Delete(req: DeleteRequest, destroy: DestroyAnswer): (r: Reply)
    // A missing or empty url is rejected with 400 and nothing is destroyed.
    ensures r.status == 400 <==> req.JsonBody? && !Truthy(req.url)
    ensures r.status == 400 ==> r.body == ErrorJson(MissingUrl) && r.hostCall.None?
    // Destroy is called exactly when a public id was derived, with that id.
    ensures r.hostCall.Some? <==> req.JsonBody? && Truthy(req.url) && ExtractPublicId(req.url.value).Some?
    ensures r.hostCall.Some? ==>
      r.hostCall.value == HostDestroy(ExtractPublicId(req.url.value).value, DestroyResourceType(req.url.value))
    // 200 "Deleted" unless the url was missing or something threw, even if nothing was destroyed.
    ensures IsOk(r.status) <==> req.JsonBody? && Truthy(req.url) && (r.hostCall.None? || destroy == Destroyed)
    ensures IsOk(r.status) ==> r.status == 200 && r.body == DeletedJson(DeletedMessage, req.url.value)
    ensures r.status == 500 <==> req.MalformedJson? || (r.hostCall.Some? && destroy == DestroyThrows)
    ensures r.status == 500 ==> r.body == ErrorJson(ProcessingError)
  {
    match req
    case MalformedJson => Reply(500, ErrorJson(ProcessingError), None)
    case JsonBody(url) =>
      if !Truthy(url) then Reply(400, ErrorJson(MissingUrl), None)
      else
        match ExtractPublicId(url.value)
        case None => Reply(200, DeletedJson(DeletedMessage, url.value), None)
        case Some(id) =>
          var call := HostDestroy(id, DestroyResourceType(url.value));
          match destroy
          case Destroyed => Reply(200, DeletedJson(DeletedMessage, url.value), Some(call))
          case DestroyThrows => Reply(500, ErrorJson(ProcessingError), Some(call))
  }

  /** A URL the pattern cannot resolve is still answered 200 "Deleted", with no destroy issued. */
  lemma UnresolvableUrlReportedDeleted(url: string, destroy: DestroyAnswer)
    requires url != "" && ExtractPublicId(url).None?
    ensures Delete(JsonBody(Some(url)), destroy) == Reply(200, DeletedJson(DeletedMessage, url), None)
  {
  }
}
