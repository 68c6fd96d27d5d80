/** What crosses the HTTP boundary between the media client and the two media routes, and the
    calls the routes make on the media host. */
module Http {
  import opened Base

  /** A browser `File`; only its declared MIME type matters to the routes. */
  datatype MediaFile = MediaFile(mimeType: string)

  /** A multipart form entry's value: a file, or text (FormData turns other values into text). */
  datatype FormValue = FileValue(file: MediaFile) | TextValue(text: string)

  datatype FormEntry = FormEntry(name: string, value: FormValue)

  /** The media host's two resource categories the routes use. */
  datatype ResourceType = Image | Video

  /** A call a route makes on the media host. */
  datatype HostCall =
    | HostUpload(folder: string, publicId: string, resourceType: ResourceType)
    | HostDestroy(publicId: string, resourceType: ResourceType)

  /** The JSON bodies the routes answer with. */
  datatype Body =
    | UrlJson(url: string)
    | ErrorJson(error: string)
    | DeletedJson(message: string, url: string)

  /** A route's answer, together with the host call it made while answering, if any. */
  datatype Reply = Reply(status: int, body: Body, hostCall: Option<HostCall>)

  /** `response.ok` of the Fetch API. */
  predicate IsOk(status: int) {
    200 <= status <= 299
  }

  /** `formData.get(name)`: the first entry with that name, or `null`. */
  function FormGet(entries: seq<FormEntry>, name: string): (v: Option<FormValue>)
    ensures v.None? <==> forall j :: 0 <= j < |entries| ==> entries[j].name != name
    ensures v.Some? ==> exists j :: 0 <= j < |entries| && entries[j].name == name && entries[j].value == v.value
  {
    if |entries| == 0 then None
    else if entries[0].name == name then Some(entries[0].value)
    else
      var v := FormGet(entries[1..], name);
      assert forall j :: 1 <= j < |entries| ==> entries[j] == entries[1..][j - 1];
      v
  }

  /** The names of a form's entries, in order. */
  function FieldNames(entries: seq<FormEntry>): (names: seq<string>)
    ensures |names| == |entries|
    ensures forall j :: 0 <= j < |entries| ==> names[j] == entries[j].name
  {
    seq(|entries|, j requires 0 <= j < |entries| => entries[j].name)
  }
}
