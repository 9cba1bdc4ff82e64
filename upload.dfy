/** Image uploads: the MIME whitelist and size limit of the upload
    middleware, the name a stored file gets, and the public URL the upload
    route answers with. */
module Upload {
  import opened Common

  /** The accepted MIME types, in the order the middleware lists them. */
  const IMAGE_MIME_TYPES: seq<string> := ["image/jpeg", "image/png", "image/webp", "image/gif"]

  /** The per-file size limit, 5 MB. */
  const MAX_FILE_SIZE: nat := 5 * 1024 * 1024

  /** The path under which stored files are served. */
  const UPLOADS_PATH := "/uploads/"

  /** The character class `[a-zA-Z0-9.\-_]` the file name keeps. */
  predicate Allowed(c: char) {
    ('a' <= c <= 'z') || ('A' <= c <= 'Z') || ('0' <= c <= '9') || c == '.' || c == '-' || c == '_'
  }

  /** `originalname.replace(/[^a-zA-Z0-9.\-\_]/g, '_')`: every character
      outside the class becomes `_`, the others stay where they are. */
  function Sanitize(name: string): (r: string)
    ensures |r| == |name|
    ensures forall i :: 0 <= i < |name| ==> r[i] == (if Allowed(name[i]) then name[i] else '_')
  {
    if name == [] then []
    else [if Allowed(name[0]) then name[0] else '_'] + Sanitize(name[1..])
  }

  /** Only characters of the class survive sanitising. */
  lemma SanitizedIsSafe(name: string)
    ensures forall i :: 0 <= i < |Sanitize(name)| ==> Allowed(Sanitize(name)[i])
  {
  }

  /** A name made of allowed characters only is left as it is. */
  lemma SafeNameUnchanged(name: string)
    requires forall i :: 0 <= i < |name| ==> Allowed(name[i])
    ensures Sanitize(name) == name
  {
    var r := Sanitize(name);
    assert forall i :: 0 <= i < |name| ==> r[i] == name[i];
  }

  /** Sanitising twice is sanitising once. */
  lemma SanitizeIdempotent(name: string)
    ensures Sanitize(Sanitize(name)) == Sanitize(name)
  {
    SanitizedIsSafe(name);
    SafeNameUnchanged(Sanitize(name));
  }

  /** The stored name: the time-and-random prefix (`unique`), a dash, and
      the sanitised original name. */
  function StoredFilename(unique: string, originalName: string): (r: string)
    ensures |r| == |unique| + 1 + |originalName|
    ensures r[..|unique|] == unique && r[|unique|] == '-'
    ensures r[|unique| + 1..] == Sanitize(originalName)
  {
    unique + "-" + Sanitize(originalName)
  }

  /** `IMAGE_MIME_TYPES.includes(file.mimetype)`. */
  predicate AcceptFile(mimetype: string)
    ensures AcceptFile(mimetype) ==> |mimetype| > 6 && mimetype[..6] == "image/"
  {
    mimetype in IMAGE_MIME_TYPES
  }

  /** The filter accepts exactly the four image types. */
  lemma AcceptedTypes(mimetype: string)
    ensures AcceptFile(mimetype) <==>
              mimetype == "image/jpeg" || mimetype == "image/png" || mimetype == "image/webp" || mimetype == "image/gif"
  {
  }

  /** `req.secure || x-forwarded-proto === 'https' ? 'https' : 'http'`. */
  function Protocol(secure: bool, forwardedProto: Option<string>): (r: string)
    ensures r == "https" || r == "http"
    ensures r == "https" <==> secure || forwardedProto == Some("https")
  {
    if secure || forwardedProto == Some("https") then "https" else "http"
  }

  /** The site-relative path of a stored file, `/uploads/<filename>`. */
  function UploadPath(filename: string): (r: string)
    ensures |r| == |UPLOADS_PATH| + |filename|
    ensures r[..|UPLOADS_PATH|] == UPLOADS_PATH && r[|UPLOADS_PATH|..] == filename
  {
    UPLOADS_PATH + filename
  }

  /** The `image_url` stored for a row created together with an upload:
      `/uploads/<filename>`, or null when no file came with the request. */
  function StoredImageUrl(filename: Option<string>): (r: Val)
    ensures filename.None? ==> r == Null
    ensures filename.Some? ==> r.Str? && r.s == UploadPath(filename.value)
  {
    if filename.Some? then Str(UploadPath(filename.value)) else Null
  }

  /** `${protocol}://${host}/uploads/${filename}`. */
  function PublicUrl(protocol: string, host: string, filename: string): (r: string)
    ensures |r| == |protocol| + 3 + |host| + |UPLOADS_PATH| + |filename|
    ensures r[..|protocol|] == protocol && r[|protocol|..|protocol| + 3] == "://"
    ensures r[|protocol| + 3..|protocol| + 3 + |host|] == host
    ensures r[|protocol| + 3 + |host|..] == UploadPath(filename)
  {
    protocol + "://" + host + UploadPath(filename)
  }

  /** A file as the client sends it. */
  datatype IncomingFile = IncomingFile(originalName: string, mimetype: string, size: nat)

  datatype UploadReply = UploadReply(url: string, filename: string)

  datatype UploadOutcome = UploadOutcome(status: Status, reply: Option<UploadReply>)

  /** `POST /api/uploads`: the middleware rejects a file of another type or
      over the limit (the error reaches the default error handler, 500); no
      file at all is 400; otherwise the file is stored and the answer
      carries its public URL and stored name. */
  function UploadImage(file: Option<IncomingFile>, unique: string, secure: bool, forwardedProto: Option<string>, host: string)
    : (r: UploadOutcome)
    ensures file.None? ==> r == UploadOutcome(BadRequest, None)
    ensures r.status == ServerError <==> file.Some? && (!AcceptFile(file.value.mimetype) || file.value.size > MAX_FILE_SIZE)
    ensures r.status == Created <==> file.Some? && AcceptFile(file.value.mimetype) && file.value.size <= MAX_FILE_SIZE
    ensures r.status != Created ==> r.reply.None?
    ensures r.status == Created ==>
              var filename := StoredFilename(unique, file.value.originalName);
              r.reply == Some(UploadReply(PublicUrl(Protocol(secure, forwardedProto), host, filename), filename))
  {
    if file.None? then UploadOutcome(BadRequest, None)
    else if !AcceptFile(file.value.mimetype) || file.value.size > MAX_FILE_SIZE then UploadOutcome(ServerError, None)
    else
      var filename := StoredFilename(unique, file.value.originalName);
      UploadOutcome(Created, Some(UploadReply(PublicUrl(Protocol(secure, forwardedProto), host, filename), filename)))
  }

  /** The URL of an accepted upload ends with the path of the stored file,
      whose last part is the sanitised original name, and that part holds
      only allowed characters. */
  lemma UploadedUrlNamesStoredFile(file: IncomingFile, unique: string, secure: bool, forwardedProto: Option<string>, host: string)
    requires AcceptFile(file.mimetype) && file.size <= MAX_FILE_SIZE
    ensures var r := UploadImage(Some(file), unique, secure, forwardedProto, host);
            var url := r.reply.value.url;
            var filename := r.reply.value.filename;
            |url| >= |filename| && url[|url| - |filename|..] == filename &&
            filename[|unique| + 1..] == Sanitize(file.originalName) &&
            forall i :: |unique| + 1 <= i < |filename| ==> Allowed(filename[i])
  {
    var r := UploadImage(Some(file), unique, secure, forwardedProto, host);
    var filename := StoredFilename(unique, file.originalName);
    var protocol := Protocol(secure, forwardedProto);
    var url := PublicUrl(protocol, host, filename);
    assert r.reply.value.url == url && r.reply.value.filename == filename;
    var start := |protocol| + 3 + |host|;
    assert url[start..] == UploadPath(filename);
    assert url[|url| - |filename|..] == UploadPath(filename)[|UPLOADS_PATH|..];
    SanitizedIsSafe(file.originalName);
    forall i | |unique| + 1 <= i < |filename|
      ensures Allowed(filename[i])
    {
      assert filename[i] == Sanitize(file.originalName)[i - |unique| - 1];
    }
  }
}
