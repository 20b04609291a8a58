/** middleware/errorHandler.js: the status and message chosen for an error
    that reaches the Express error handler. */
module ErrorHandler {
  import opened Common

  /** The parts of a thrown error the middleware reads: `name`, `code` (absent
      on plain errors), `message`, and whether it is a `multer.MulterError`. */
  datatype JsError = JsError(name: string, code: Option<string>, message: string, isMulter: bool)

  /** `res.status(statusCode).json({ error: message })`. */
  datatype Response = Response(status: nat, error: string)

  const InternalError := "Internal server error"

  /** The rules by priority: the last matching `if` of the chain wins, so the
      database code is consulted first and the upload code last. */
  function Classify(err: JsError): (r: Response)
  {
    if err.code == Some("ER_DUP_ENTRY") then Response(409, "Resource already exists")
    else if err.name == "TokenExpiredError" then Response(401, "Token expired")
    else if err.name == "JsonWebTokenError" then Response(401, "Invalid token")
    else if err.code == Some("LIMIT_FILE_SIZE") then Response(400, "File too large")
    else Response(500, InternalError)
  }

  /** `errorHandler`: start from 500, then let each matching check overwrite
      the status and message. */
  method HandleError(err: JsError) returns (response: Response)
    ensures response == Classify(err)
  {
    var statusCode := 500;
    var message := InternalError;
    if err.code == Some("LIMIT_FILE_SIZE") {
      statusCode := 400;
      message := "File too large";
    }
    if err.name == "JsonWebTokenError" {
      statusCode := 401;
      message := "Invalid token";
    }
    if err.name == "TokenExpiredError" {
      statusCode := 401;
      message := "Token expired";
    }
    if err.code == Some("ER_DUP_ENTRY") {
      statusCode := 409;
      message := "Resource already exists";
    }
    response := Response(statusCode, message);
  }

  /** Each rule on its own, the default when none applies, and the fact that
      the response never depends on the error's own message. */
  lemma ClassifyRules(err: JsError, other: JsError)
    ensures err.code != Some("LIMIT_FILE_SIZE") && err.code != Some("ER_DUP_ENTRY") &&
            err.name != "JsonWebTokenError" && err.name != "TokenExpiredError" ==>
            Classify(err) == Response(500, InternalError)
    ensures err.code == Some("LIMIT_FILE_SIZE") && err.name != "JsonWebTokenError" && err.name != "TokenExpiredError" ==>
            Classify(err) == Response(400, "File too large")
    ensures err.name == "JsonWebTokenError" && err.code != Some("ER_DUP_ENTRY") ==> Classify(err) == Response(401, "Invalid token")
    ensures err.name == "TokenExpiredError" && err.code != Some("ER_DUP_ENTRY") ==> Classify(err) == Response(401, "Token expired")
    ensures err.code == Some("ER_DUP_ENTRY") ==> Classify(err) == Response(409, "Resource already exists")
    ensures Classify(err).status in {400, 401, 409, 500}
    ensures err.name == other.name && err.code == other.code ==> Classify(err) == Classify(other)
  {
  }
}
