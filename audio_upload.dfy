/** middleware/audioProcessing.js: the multer file filter and the upload
    error middleware, with the allowed types of config/security.js. */
module AudioUpload {
  import opened Common
  import ErrorHandler

  /** `ALLOWED_AUDIO_TYPES`. */
  const AllowedAudioTypes: seq<string> := ["audio/wav", "audio/webm", "audio/mpeg"]

  const InvalidType := "Invalid audio file type"

  /** What `fileFilter` passes to multer's callback: `cb(null, true)` or
      `cb(new Error(...), false)`. */
  datatype FilterOutcome = Accept | Reject(error: ErrorHandler.JsError)

  /** What `handleAudioUploadError` does: answer, or hand the error on with `next(err)`. */
  datatype UploadOutcome = Respond(status: nat, error: string) | Next(err: ErrorHandler.JsError)

  function FileFilter(mimetype: string): (r: FilterOutcome)
    ensures r == Accept <==> mimetype == "audio/wav" || mimetype == "audio/webm" || mimetype == "audio/mpeg"
    ensures r.Reject? ==> r.error.message == InvalidType && !r.error.isMulter && r.error.code.None?
  {
    if mimetype in AllowedAudioTypes then Accept
    else Reject(ErrorHandler.JsError("Error", None, InvalidType, false))
  }

  function HandleAudioUploadError(err: ErrorHandler.JsError): (r: UploadOutcome)
    ensures r == Respond(400, "File too large") <==> err.isMulter && err.code == Some("LIMIT_FILE_SIZE")
    ensures r == Respond(400, InvalidType) <==> !(err.isMulter && err.code == Some("LIMIT_FILE_SIZE")) && err.message == InvalidType
    ensures r.Next? ==> r.err == err
  {
    if err.isMulter && err.code == Some("LIMIT_FILE_SIZE") then Respond(400, "File too large")
    else if err.message == InvalidType then Respond(400, InvalidType)
    else Next(err)
  }

  /** A rejection from the filter comes back as a 400 with the same text. */
  lemma RejectionRoundTrip(mimetype: string)
    requires FileFilter(mimetype).Reject?
    ensures HandleAudioUploadError(FileFilter(mimetype).error) == Respond(400, InvalidType)
  {
  }

  /** An error the upload middleware hands on reaches the general handler
      unchanged; a non-multer error with code `LIMIT_FILE_SIZE` is among them
      and is answered there. */
  lemma PassedOnErrors(err: ErrorHandler.JsError)
    requires !err.isMulter && err.code == Some("LIMIT_FILE_SIZE") && err.message != InvalidType
    ensures HandleAudioUploadError(err) == Next(err)
    ensures err.name != "JsonWebTokenError" && err.name != "TokenExpiredError" ==>
      ErrorHandler.Classify(HandleAudioUploadError(err).err) == ErrorHandler.Response(400, "File too large")
  {
  }
}
