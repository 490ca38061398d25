/** Shared value shapes: optional values, the outcome of a call into an external
    collaborator, and the request as the gateway sees it once Express has parsed it. */
module Values {

  datatype Option<+T> = None | Some(value: T)

  /** What a call into code outside the model produced: a value, or an exception
      (which every handler catches and turns into a 500). */
  datatype Call<+T> = Returned(value: T) | Threw

  /** A field of a parsed JSON, url-encoded or multipart body, or of the query string:
      JSON null, or a string. A key absent from the map is `undefined`. */
  datatype Value = Null | Str(s: string)

  /** JavaScript truthiness of a value that is a string, null or undefined. */
  predicate Truthy(v: Option<string>)
  {
    v.Some? && v.value != ""
  }

  /** `m[k]` read as a string: None for an absent key (undefined) and for JSON null. */
  function StringAt(m: map<string, Value>, k: string): Option<string>
  {
    if k in m && m[k].Str? then Some(m[k].s) else None
  }

  /** `m[k]` for a map of strings such as the request headers (names already lower-case)
      or the process environment. */
  function Get(m: map<string, string>, k: string): Option<string>
  {
    if k in m then Some(m[k]) else None
  }

  /** A file that multer's memory storage collected from a multipart body. Its buffer is a
      Buffer object, which is truthy even when empty, so it is always usable. */
  datatype UploadedFile = UploadedFile(fieldname: string, originalname: string, mimetype: string, bytes: seq<bv8>)

  /** The request body: parsed by the JSON or url-encoded parser (an unparsed body is an
      empty `Parsed`), or a multipart form that only multer parses. */
  datatype Payload =
    | Parsed(fields: map<string, Value>)
    | Multipart(formFields: map<string, Value>, files: seq<UploadedFile>)

  datatype Request = Request(headers: map<string, string>, query: map<string, Value>, payload: Payload)

  /** `req.body` before multer has run: the credential gate and /send-message see this.
      Multipart fields are not visible there. */
  function BodyBeforeMulter(req: Request): map<string, Value>
  {
    match req.payload
    case Parsed(fields) => fields
    case Multipart(_, _) => map[]
  }

  /** `req.body` after `upload.any()` has run, as /send-image and /send-document see it. */
  function BodyAfterMulter(req: Request): map<string, Value>
  {
    match req.payload
    case Parsed(fields) => fields
    case Multipart(fields, _) => fields
  }

  /** `req.files` after `upload.any()`: empty unless the body was multipart. */
  function FilesOf(req: Request): seq<UploadedFile>
  {
    match req.payload
    case Parsed(_) => []
    case Multipart(_, files) => files
  }
}
