/** Where /send-image and /send-document take their media from: an uploaded file under the
    expected field names, else a URL field fetched over HTTP, else nothing (400). */
module Media {
  import opened Values
  import opened Fields

  datatype MediaKind = Image | Document

  /** Multipart field names accepted for the upload. */
  function FileFieldNames(k: MediaKind): seq<string>
  {
    match k
    case Image => ["image", "file"]
    case Document => ["document", "file"]
  }

  /** Body aliases for the URL to fetch. */
  function UrlAliases(k: MediaKind): seq<string>
  {
    match k
    case Image => ["image", "url", "link"]
    case Document => ["document", "url", "link"]
  }

  const MimeAliases: seq<string> := ["mimetype", "contentType", "tipo"]
  const FilenameAliases: seq<string> := ["filename", "nome", "nome_arquivo"]
  const CaptionAliases: seq<string> := ["caption", "legenda", "descricao"]

  function DefaultMime(k: MediaKind): string
  {
    match k
    case Image => "image/png"
    case Document => "application/pdf"
  }

  function DefaultFilename(k: MediaKind): string
  {
    match k
    case Image => "image.png"
    case Document => "document.pdf"
  }

  /** The `type` the send handler stores in the message-status table. */
  function KindTag(k: MediaKind): string
  {
    match k
    case Image => "image"
    case Document => "document"
  }

  /** `req.files.find(f => names.includes(f.fieldname))`: the first file in upload order
      whose field name is one of `names` (the order of `names` plays no part). */
  function FindFile(files: seq<UploadedFile>, names: seq<string>): (r: Option<UploadedFile>)
    ensures r.None? <==> forall i :: 0 <= i < |files| ==> files[i].fieldname !in names
    ensures forall i :: 0 <= i < |files| ==>
              files[i].fieldname in names && (forall j :: 0 <= j < i ==> files[j].fieldname !in names) ==>
              r == Some(files[i])
    ensures r.Some? ==> r.value in files && r.value.fieldname in names
  {
    if files == [] then None
    else if files[0].fieldname in names then Some(files[0])
    else
      var r := FindFile(files[1..], names);
      assert forall i :: 1 <= i < |files| ==> files[i] == files[1..][i - 1];
      r
  }

  /** The media the session client is asked to send. */
  datatype MediaPayload = MediaPayload(mimeType: string, data: seq<bv8>, filename: string)

  datatype Source = FromFile(file: UploadedFile) | FromUrl(url: string) | NoSource

  /** The file wins; otherwise the first present URL alias, if it is a non-empty string. */
  function SourceOf(k: MediaKind, body: map<string, Value>, files: seq<UploadedFile>): (r: Source)
    ensures r.FromFile? <==> FindFile(files, FileFieldNames(k)).Some?
    ensures r.FromFile? ==> r.file in files && r.file.fieldname in FileFieldNames(k)
    ensures r.FromUrl? ==>
              r.url != "" && exists i :: 0 <= i < |UrlAliases(k)| && Present(body, UrlAliases(k)[i]) && body[UrlAliases(k)[i]].s == r.url
  {
    GetFieldSource(body, UrlAliases(k), None);
    var file := FindFile(files, FileFieldNames(k));
    var url := GetField(body, UrlAliases(k), None);
    if file.Some? then FromFile(file.value)
    else if Truthy(url) then FromUrl(url.value)
    else NoSource
  }

  /** Outcome of media resolution: the payload, no source (400 'file_or_url_required'), or
      a failed fetch (the exception reaches the handler's catch: 500). */
  datatype Resolution = Resolved(media: MediaPayload) | SourceRequired | FetchFailed

  /** A body alias with a kind default; getField with a fallback is never undefined. */
  function FieldOr(body: map<string, Value>, names: seq<string>, d: string): string
  {
    GetFieldSource(body, names, Some(d));
    GetField(body, names, Some(d)).value
  }

  /** The media-building part of both handlers, after the registration check. `fetch` is
      what fetching the URL produced; it is consulted only for a URL source. */
  function ResolveMedia(k: MediaKind, body: map<string, Value>, files: seq<UploadedFile>, fetch: Call<seq<bv8>>): (r: Resolution)
    ensures r == SourceRequired <==> SourceOf(k, body, files).NoSource?
    ensures r == FetchFailed <==> SourceOf(k, body, files).FromUrl? && fetch.Threw?
    ensures r.Resolved? && SourceOf(k, body, files).FromFile? ==> r.media.data == SourceOf(k, body, files).file.bytes
    ensures r.Resolved? && SourceOf(k, body, files).FromUrl? ==> fetch == Returned(r.media.data)
  {
    var mime := FieldOr(body, MimeAliases, DefaultMime(k));
    var filename := FieldOr(body, FilenameAliases, DefaultFilename(k));
    match SourceOf(k, body, files)
    case FromFile(f) =>
      Resolved(MediaPayload(if f.mimetype != "" then f.mimetype else mime, f.bytes,
                            if f.originalname != "" then f.originalname else filename))
    case FromUrl(_) =>
      if fetch.Threw? then FetchFailed
      else if k == Image then
        // the image handler reads filename and mimetype again, with the values so far as fallbacks
        Resolved(MediaPayload(FieldOr(body, MimeAliases, mime), fetch.value, FieldOr(body, FilenameAliases, filename)))
      else Resolved(MediaPayload(mime, fetch.value, filename))
    case NoSource => SourceRequired
  }

  /** An upload under an expected field name is used whatever URL the body names: its
      bytes, and its own mimetype/original name unless empty, else the body alias or the
      kind's default. */
  lemma FileWinsOverUrl(k: MediaKind, body: map<string, Value>, files: seq<UploadedFile>, fetch: Call<seq<bv8>>, i: nat)
    requires i < |files| && files[i].fieldname in FileFieldNames(k)
    requires forall j :: 0 <= j < i ==> files[j].fieldname !in FileFieldNames(k)
    ensures var r := ResolveMedia(k, body, files, fetch);
            && r.Resolved?
            && r.media.data == files[i].bytes
            && r.media.mimeType == (if files[i].mimetype != "" then files[i].mimetype
                                    else FieldOr(body, MimeAliases, DefaultMime(k)))
            && r.media.filename == (if files[i].originalname != "" then files[i].originalname
                                    else FieldOr(body, FilenameAliases, DefaultFilename(k)))
  {
  }

  /** Without a matching upload, a fetched URL's bytes are sent with the body's mimetype
      and filename, or the kind's defaults; for images the second read changes nothing. */
  lemma UrlUsesBodyOrDefaults(k: MediaKind, body: map<string, Value>, files: seq<UploadedFile>, bytes: seq<bv8>)
    requires FindFile(files, FileFieldNames(k)).None?
    requires Truthy(GetField(body, UrlAliases(k), None))
    ensures ResolveMedia(k, body, files, Returned(bytes))
            == Resolved(MediaPayload(FieldOr(body, MimeAliases, DefaultMime(k)), bytes,
                                     FieldOr(body, FilenameAliases, DefaultFilename(k))))
  {
    GetFieldReread(body, MimeAliases, Some(DefaultMime(k)));
    GetFieldReread(body, FilenameAliases, Some(DefaultFilename(k)));
  }

  /** The defaults: image/png + image.png, application/pdf + document.pdf, when the body
      names no mimetype or filename under any alias. */
  lemma DefaultsWithoutBodyFields(k: MediaKind, body: map<string, Value>)
    requires forall n :: n in MimeAliases + FilenameAliases ==> !Present(body, n)
    ensures FieldOr(body, MimeAliases, DefaultMime(k)) == (if k == Image then "image/png" else "application/pdf")
    ensures FieldOr(body, FilenameAliases, DefaultFilename(k)) == (if k == Image then "image.png" else "document.pdf")
  {
    assert forall i :: 0 <= i < |MimeAliases| ==> MimeAliases[i] in MimeAliases + FilenameAliases;
    assert forall i :: 0 <= i < |FilenameAliases| ==> FilenameAliases[i] in MimeAliases + FilenameAliases;
  }

  /** 400 'file_or_url_required' exactly when there is no matching upload and the first
      present URL alias is missing or empty; a failed fetch is the only other failure. */
  lemma SourceRequiredIff(k: MediaKind, body: map<string, Value>, files: seq<UploadedFile>, fetch: Call<seq<bv8>>)
    ensures ResolveMedia(k, body, files, fetch) == SourceRequired <==>
              (forall i :: 0 <= i < |files| ==> files[i].fieldname !in FileFieldNames(k))
              && !Truthy(GetField(body, UrlAliases(k), None))
    ensures ResolveMedia(k, body, files, fetch) == FetchFailed <==>
              SourceOf(k, body, files).FromUrl? && fetch.Threw?
  {
  }

  /** An empty first URL alias hides a later one: `{ image: "", url: u }` has no source. */
  lemma EmptyFirstUrlAliasHidesLater(u: string, fetch: Call<seq<bv8>>)
    ensures ResolveMedia(Image, map["image" := Str(""), "url" := Str(u)], [], fetch) == SourceRequired
  {
    assert GetField(map["image" := Str(""), "url" := Str(u)], UrlAliases(Image), None) == Some("");
  }
}
