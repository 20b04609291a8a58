/** controllers/verificationController.js, `verifyUser`: the early returns, the
    fused confidence, the two inserts and the rows they write. The enrolment
    query, feature extraction, `JSON.parse`, the classifier's `predict`, the
    two inserts and `Date.now()` are parameters. */
module Verification {
  import opened Common
  import opened AudioProcessor
  import BrainModel

  /** The one column of a `voice_enrollments` row the handler reads. */
  datatype Enrollment = Enrollment(embedding: string)

  datatype Body = Error(error: string) | Verdict(isMatch: bool, confidence: real, message: string)

  datatype Response = Response(status: nat, body: Body)

  /** The row inserted into `verification_attempts` (the client address is not modelled). */
  datatype LoggedAttempt = LoggedAttempt(userId: string, phrase: string, confidence: real, success: bool)

  const FailurePrefix := "Verification failed: "
  const NoFile := "No audio file provided"
  const NoEnrollment := "No voice enrollment found for this user and phrase"
  const NoFeatures := "No features extracted from audio"

  /** `Math.max(result.confidence, similarity)` and the strict 0.7 threshold. */
  function Decide(modelConfidence: real, similarity: real): (r: (real, bool))
    ensures r.0 >= modelConfidence && r.0 >= similarity
    ensures r.0 == modelConfidence || r.0 == similarity
    ensures r.1 <==> r.0 > BrainModel.MatchThreshold
    ensures r.1 <==> modelConfidence > BrainModel.MatchThreshold || similarity > BrainModel.MatchThreshold
  {
    var confidence := if modelConfidence >= similarity then modelConfidence else similarity;
    (confidence, confidence > 0.7)
  }

  /** The row inserted into `audio_files` (the `audio/wav` type, the 16 kHz
      rate and the `verification` purpose are fixed). */
  datatype AudioFileRow = AudioFileRow(userId: string, fileName: string, mimeType: string,
                                       fileSize: nat, duration: real, sampleRate: nat, purpose: string)

  const FilePrefix := "verification-"

  /** The metadata row for an upload received at `now` milliseconds: the
      duration is the length in seconds of 16-bit samples at 16 kHz. */
  function AudioRow(userId: string, file: seq<byte>, now: nat): (row: AudioFileRow)
    ensures row.userId == userId && row.fileSize == |file|
    ensures row.duration * 32000.0 == |file| as real
    ensures |row.fileName| > |FilePrefix| + |userId| + 1 + 4
    ensures row.fileName[..|FilePrefix|] == FilePrefix
    ensures row.fileName[|FilePrefix|..|FilePrefix| + |userId|] == userId
    ensures row.fileName[|row.fileName| - 4..] == ".wav"
  {
    var name := FilePrefix + userId + "-" + NatToString(now) + ".wav";
    assert name[..|FilePrefix|] == FilePrefix;
    assert name[|FilePrefix|..|FilePrefix| + |userId|] == userId;
    assert name[|name| - 4..] == ".wav";
    AudioFileRow(userId, name, "audio/wav", |file|, |file| as real / (16000.0 * 2.0), 16000, "verification")
  }

  /** The handler gets as far as the decision: a row was found, the upload
      gave numeric features, the first row's embedding parsed, and the two
      embeddings have the same length. */
  predicate Compares(file: Option<seq<byte>>, rows: Result<seq<Enrollment>>,
                     extract: seq<byte> -> Result<seq<JsObject>>, parse: string -> Result<seq<real>>)
  {
    file.Some? && rows.Ok? && |rows.value| > 0 &&
    extract(file.value).Ok? && |extract(file.value).value| > 0 && AllNumeric(extract(file.value).value) &&
    parse(rows.value[0].embedding).Ok? &&
    |Flatten(extract(file.value).value)| == |parse(rows.value[0].embedding).value|
  }

  /** The attempt decided from the new embedding and the first row's: the
      larger of the model's confidence and the cosine similarity. */
  function Assessed(userId: string, phrase: string, file: Option<seq<byte>>, rows: Result<seq<Enrollment>>,
                    extract: seq<byte> -> Result<seq<JsObject>>, parse: string -> Result<seq<real>>,
                    predict: (string, seq<real>) -> BrainModel.Prediction, sqrt: real -> real): (a: LoggedAttempt)
    requires Compares(file, rows, extract, parse)
    ensures a.userId == userId && a.phrase == phrase
    ensures a.success <==> a.confidence > BrainModel.MatchThreshold
    ensures var embedding := Flatten(extract(file.value).value);
      a.confidence >= predict(userId, embedding).confidence &&
      a.confidence >= Cosine(embedding, parse(rows.value[0].embedding).value, sqrt)
  {
    var embedding := Flatten(extract(file.value).value);
    var decision := Decide(predict(userId, embedding).confidence,
                           Cosine(embedding, parse(rows.value[0].embedding).value, sqrt));
    LoggedAttempt(userId, phrase, decision.0, decision.1)
  }

  /** `verifyUser`, returning the response, the attempt row it inserted and
      the audio metadata row it inserted, if any. Each insert may fail, which
      answers 500; the metadata insert comes after the attempt is logged. */
  method VerifyUser(userId: string, phrase: string, file: Option<seq<byte>>, now: nat,
                    lookup: (string, string) -> Result<seq<Enrollment>>,
                    extract: seq<byte> -> Result<seq<JsObject>>,
                    parse: string -> Result<seq<real>>,
                    predict: (string, seq<real>) -> BrainModel.Prediction,
                    sqrt: real -> real,
                    insertAttempt: LoggedAttempt -> Result<()>,
                    insertAudio: AudioFileRow -> Result<()>)
    returns (response: Response, logged: Option<LoggedAttempt>, stored: Option<AudioFileRow>)
    requires forall b :: extract(b).Ok? ==> AllNumeric(extract(b).value)
    ensures response.status in {200, 400, 404, 500}
    ensures file.None? ==> response == Response(400, Error(NoFile))
    ensures file.Some? && lookup(userId, phrase) == Ok([]) ==> response == Response(404, Error(NoEnrollment))
    ensures file.Some? && lookup(userId, phrase).Ok? && |lookup(userId, phrase).value| > 0 && extract(file.value) == Ok([]) ==>
      response == Response(400, Error(NoFeatures))
    ensures response.status == 500 ==> response.body.Error? && FailurePrefix <= response.body.error
    ensures response.status == 404 ==> file.Some? && lookup(userId, phrase) == Ok([])
    ensures file.Some? && lookup(userId, phrase).Err? ==>
      response == Response(500, Error(FailurePrefix + lookup(userId, phrase).message))
    ensures file.Some? && lookup(userId, phrase).Ok? && |lookup(userId, phrase).value| > 0 && extract(file.value).Err? ==>
      response == Response(500, Error(FailurePrefix + extract(file.value).message))
    ensures file.Some? && lookup(userId, phrase).Ok? && |lookup(userId, phrase).value| > 0 &&
            extract(file.value).Ok? && |extract(file.value).value| > 0 &&
            parse(lookup(userId, phrase).value[0].embedding).Err? ==>
      response == Response(500, Error(FailurePrefix + parse(lookup(userId, phrase).value[0].embedding).message))
    ensures (file.Some? && lookup(userId, phrase).Ok? && |lookup(userId, phrase).value| > 0 &&
             extract(file.value).Ok? && |extract(file.value).value| > 0 &&
             parse(lookup(userId, phrase).value[0].embedding).Ok? &&
             |Flatten(extract(file.value).value)| != |parse(lookup(userId, phrase).value[0].embedding).value|) ==>
      response == Response(500, Error(FailurePrefix + "Embeddings must have the same length"))
    ensures var rows := lookup(userId, phrase);
      logged.Some? <==> Compares(file, rows, extract, parse) &&
                        insertAttempt(Assessed(userId, phrase, file, rows, extract, parse, predict, sqrt)).Ok?
    ensures var rows := lookup(userId, phrase);
      logged.Some? ==> Compares(file, rows, extract, parse) &&
                       logged.value == Assessed(userId, phrase, file, rows, extract, parse, predict, sqrt)
    ensures var rows := lookup(userId, phrase);
      Compares(file, rows, extract, parse) &&
      insertAttempt(Assessed(userId, phrase, file, rows, extract, parse, predict, sqrt)).Err? ==>
        response == Response(500, Error(FailurePrefix +
                                        insertAttempt(Assessed(userId, phrase, file, rows, extract, parse, predict, sqrt)).message))
    ensures stored.Some? ==> logged.Some? && file.Some? && stored.value == AudioRow(userId, file.value, now)
    ensures logged.Some? && file.Some? ==> (stored.Some? <==> insertAudio(AudioRow(userId, file.value, now)).Ok?)
    ensures logged.Some? && file.Some? && stored.None? ==>
      response == Response(500, Error(FailurePrefix + insertAudio(AudioRow(userId, file.value, now)).message))
    ensures response.status == 200 <==> stored.Some?
    ensures response.status == 200 ==>
      logged.Some? &&
      response.body == Verdict(logged.value.success, logged.value.confidence,
                               if logged.value.success then "Voice verified successfully" else "Voice verification failed")
  {
    logged, stored := None, None;
    if file.None? {
      return Response(400, Error(NoFile)), None, None;
    }
    var enrollments := lookup(userId, phrase);
    if enrollments.Err? {
      return Response(500, Error(FailurePrefix + enrollments.message)), None, None;
    }
    if |enrollments.value| == 0 {
      return Response(404, Error(NoEnrollment)), None, None;
    }
    var enrollment := enrollments.value[0];
    var features := extract(file.value);
    if features.Err? {
      return Response(500, Error(FailurePrefix + features.message)), None, None;
    }
    if |features.value| == 0 {
      return Response(400, Error(NoFeatures)), None, None;
    }
    var embedding := CreateEmbedding(features.value);
    var storedEmbedding := parse(enrollment.embedding);
    if storedEmbedding.Err? {
      return Response(500, Error(FailurePrefix + storedEmbedding.message)), None, None;
    }
    var result := predict(userId, embedding);
    var similarity := CalculateSimilarity(embedding, storedEmbedding.value, sqrt);
    if similarity.Err? {
      return Response(500, Error(FailurePrefix + similarity.message)), None, None;
    }
    var (confidence, isMatch) := Decide(result.confidence, similarity.value);
    var attempt := LoggedAttempt(userId, phrase, confidence, isMatch);
    var inserted := insertAttempt(attempt);
    if inserted.Err? {
      return Response(500, Error(FailurePrefix + inserted.message)), None, None;
    }
    logged := Some(attempt);
    var audioRow := AudioRow(userId, file.value, now);
    var saved := insertAudio(audioRow);
    if saved.Err? {
      return Response(500, Error(FailurePrefix + saved.message)), logged, None;
    }
    stored := Some(audioRow);
    response := Response(200, Verdict(isMatch, confidence,
                                      if isMatch then "Voice verified successfully" else "Voice verification failed"));
  }

  /** `verifyUser` fed by the static `extractFeatures` as written: it reads no
      frame size, so every upload gives no features, and a user with an
      enrolment row is always refused with 400. */
  method VerifyUserWithStaticRead(userId: string, phrase: string, file: Option<seq<byte>>, now: nat,
                                  lookup: (string, string) -> Result<seq<Enrollment>>,
                                  toSamples: seq<byte> -> seq<real>,
                                  meyda: seq<real> -> Option<JsObject>,
                                  parse: string -> Result<seq<real>>,
                                  predict: (string, seq<real>) -> BrainModel.Prediction,
                                  sqrt: real -> real,
                                  insertAttempt: LoggedAttempt -> Result<()>,
                                  insertAudio: AudioFileRow -> Result<()>)
    returns (response: Response, logged: Option<LoggedAttempt>, stored: Option<AudioFileRow>)
    ensures response.status != 200 && logged.None? && stored.None?
    ensures file.Some? && lookup(userId, phrase).Ok? && |lookup(userId, phrase).value| > 0 ==>
      response == Response(400, Error(NoFeatures))
  {
    var extract := (b: seq<byte>) => Ok(FeaturesFromFields(toSamples(b), None, None, meyda));
    forall b | extract(b).Ok?
      ensures AllNumeric(extract(b).value) && extract(b).value == []
    {
      assert extract(b) == Ok(FeaturesFromFields(toSamples(b), None, None, meyda));
    }
    response, logged, stored := VerifyUser(userId, phrase, file, now, lookup, extract, parse, predict, sqrt,
                                           insertAttempt, insertAudio);
  }

  const ReadLength := "Cannot read properties of undefined (reading 'length')"
  const ReadEmbedding := "Cannot read properties of undefined (reading 'embedding')"

  /** `verifyUser` with the enrolment query read as written: `db.execute`
      already returns the rows, and `const [enrollments] = ...` destructures
      them once more, binding the first row or `undefined`. With no row,
      `enrollments.length` throws; with a row (which has no column named
      `length` or `0`) the emptiness test is false and `enrollments[0]` is
      undefined, so reading its `embedding` throws. The handler never
      answers 200 or 404. */
  method VerifyUserAsWritten(userId: string, phrase: string, file: Option<seq<byte>>,
                             lookup: (string, string) -> Result<seq<Enrollment>>,
                             extract: seq<byte> -> Result<seq<JsObject>>)
    returns (response: Response)
    requires forall b :: extract(b).Ok? ==> AllNumeric(extract(b).value)
    ensures response.status in {400, 500}
    ensures response.status == 500 ==> response.body.Error? && FailurePrefix <= response.body.error
    ensures file.None? ==> response == Response(400, Error(NoFile))
    ensures file.Some? && lookup(userId, phrase).Err? ==>
      response == Response(500, Error(FailurePrefix + lookup(userId, phrase).message))
    ensures file.Some? && lookup(userId, phrase) == Ok([]) ==>
      response == Response(500, Error(FailurePrefix + ReadLength))
    ensures file.Some? && lookup(userId, phrase).Ok? && |lookup(userId, phrase).value| > 0 && extract(file.value).Err? ==>
      response == Response(500, Error(FailurePrefix + extract(file.value).message))
    ensures file.Some? && lookup(userId, phrase).Ok? && |lookup(userId, phrase).value| > 0 && extract(file.value) == Ok([]) ==>
      response == Response(400, Error(NoFeatures))
    ensures file.Some? && lookup(userId, phrase).Ok? && |lookup(userId, phrase).value| > 0 &&
            extract(file.value).Ok? && |extract(file.value).value| > 0 ==>
      response == Response(500, Error(FailurePrefix + ReadEmbedding))
  {
    if file.None? {
      return Response(400, Error(NoFile));
    }
    var rows := lookup(userId, phrase);
    if rows.Err? {
      return Response(500, Error(FailurePrefix + rows.message));
    }
    if |rows.value| == 0 {
      // `enrollments` is undefined
      return Response(500, Error(FailurePrefix + ReadLength));
    }
    // `enrollments` is the first row: its `length` is undefined, not 0, and
    // `enrollment = enrollments[0]` is undefined
    var features := extract(file.value);
    if features.Err? {
      return Response(500, Error(FailurePrefix + features.message));
    }
    if |features.value| == 0 {
      return Response(400, Error(NoFeatures));
    }
    var embedding := CreateEmbedding(features.value);
    // `JSON.parse(enrollment.embedding)` reads a property of undefined
    response := Response(500, Error(FailurePrefix + ReadEmbedding));
  }
}
