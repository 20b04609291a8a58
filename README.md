# Voice biometrics back end: a Dafny model of its core

The system is a Node.js/Express service. A user enrols by recording a
phrase. Later recordings are then verified against that user, or identified
among all users who enrolled the phrase. This project models the logic of
that service in Dafny and proves what it does. The HTTP, SQL and library
plumbing around that logic is left out.

- **Audio front end** (`wav_header.dfy`, `audio_utils.dfy`,
  `voice_features.dfy`, from services/voiceService.js and
  services/audioUtils.js):
  - the RIFF check and the 44-byte RIFF WAVE header written through a
    DataView;
  - 16-bit little-endian PCM decoding and peak normalisation;
  - 512/256 framing;
  - the per-frame DFT magnitudes, 13-bin "MFCC", spectral centroid, RMS and
    zero-crossing rate;
  - the flattening of frame records into the classifier input.
- **Embedding and similarity** (`audio_processor.dfy`, from
  services/audioProcessor.js):
  - the affine normalisation `(v + 100) / 200` of every numeric feature;
  - the concatenating `createEmbedding`;
  - cosine similarity, proved symmetric and within [-1, 1] by a
    Cauchy–Schwarz lemma;
  - the frame arithmetic of `extractFeatures`.
- **Classifier decisions** (`brain_model.dfy` for
  services/brainModelService.js, `voice_service.dfy` for the training and
  decision part of services/voiceService.js):
  - the `isTrained` state machine and training-set construction;
  - `output[id] || 0` confidences and the strict 0.7 threshold;
  - the arg-max with a strict `>` starting from 0.
- **In-memory store** (`database.dfy`, services/databaseService.js): a class
  whose maps and arrays the methods update in place.
  - Map iteration order is kept as a separate sequence of owners, in
    insertion order.
- **Controllers** (`verification.dfy`, `identification.dfy`):
  - `verifyUser`'s early returns, its `Math.max` fusion, the attempt and
    audio-file inserts, and the handler as written with its double
    destructuring of the enrolment query;
  - `identifyVoice`'s validation order, its match list and an in-place
    stable insertion sort by descending confidence.
- **Validators and middleware** (`helpers.dfy`, `error_handler.dfy`,
  `audio_upload.dfy`):
  - the e-mail and password regular expressions, each proved equal to a
    direct reading of its pattern;
  - the phrase picker;
  - the error-to-status chain and the upload filter and error mapping.

`common.dfy` holds the shared pieces: `Option`/`Result`, JS objects as
ordered key/value entries, decimal rendering of numbers, sums, and
real-arithmetic lemmas.

## How the model handles JavaScript

**Numbers and arithmetic**
- JavaScript numbers are reals; the model does not reproduce floating-point
  rounding.
- Where the code divides 0 by 0, the model states the precondition that
  avoids it (see "Left out").

**Foreign code is passed in as parameters**
- `Math.sqrt`, `Math.cos`, `Math.sin` (a `MathLib` value).
- `wav.decode`, `meyda.extract` and `JSON.parse`.
- brain.js `train`/`run`/`toJSON`.
- Database queries, `verifyVoice`, the clock and the random draw.
- Lemmas that need square roots assume only `IsSqrt(sqrt)`: non-negative
  and squaring back.

**Errors**
- A thrown error is an `Err(message)`, carrying the message the code builds.

**Objects**
- A JS object is a sequence of entries in `Object.entries` order.

**What the code computes, in places where it is easy to assume otherwise**
- *Embedding.* The embedding is not a fixed-size summary. It concatenates
  every frame's values (16 per frame in services/voiceService.js). Two
  recordings with different frame counts therefore give embeddings of
  different lengths, and `calculateSimilarity` then throws.
- *Frame count.*
  - services/voiceService.js gives ⌈(len − 512)/256⌉ frames for len > 512,
    because its loop bound is `i < len - 512`. This is not
    ⌊(len − 512)/256⌋ + 1: the last whole frame is dropped when
    len − 512 is a multiple of 256.
  - services/audioProcessor.js gives ⌊(len − frameSize)/hopSize⌋ frames.
- *Verification confidence.* `verifyUser` takes `Math.max` of the model's
  confidence and the raw cosine, which can be negative. The cosine is not
  rescaled to [0, 1].
- *Training.* brain.js `train` (services/voiceService.js:271,
  services/brainModelService.js:27) updates the weights of the same network
  object in place, and the service then sets `isTrained`. The classes here
  represent the network as a value: a successful `train` returns the
  updated network, which is assigned to the `model` or `net` field.

## Model

| member | source | states |
|---|---|---|
| Common.NatToStringRoundTrip | services/databaseService.js:20 | the decimal text of the clock value that becomes a user id reads back as that value |
| Common.NatToStringInjective | services/databaseService.js:20 | distinct clock values give distinct user ids, so only the same millisecond collides |
| Common.Lookup | services/brainModelService.js:93 | reading a key of an entry list gives the first entry with that key, and nothing exactly when no entry has it |
| AudioUtils.Int16At | services/audioUtils.js:6 | a little-endian byte pair read as two's complement lies in [-32768, 32767] |
| AudioUtils.Int16RoundTrip | services/audioUtils.js:6 | reading is the inverse of 16-bit little-endian writing, in both directions |
| AudioUtils.Samples | services/audioUtils.js:4-7 | an even-length buffer decodes to half as many samples |
| AudioUtils.BufferToInt16Array | services/audioUtils.js:3-9 | fails exactly on odd length, where the last `readInt16LE` is out of range; otherwise n/2 samples, sample k decoded from bytes 2k and 2k+1 |
| AudioUtils.MaxAbsIsMaximum | services/audioUtils.js:15-19 | the running `maxVal` is non-negative, bounds every \|x\| and is attained unless it is 0 |
| AudioUtils.NormalizeAudio | services/audioUtils.js:11-30 | the two loops compute the normalised signal: same length, input returned when empty or all zero, else every sample in [-1, 1] |
| AudioUtils.NormalizedInUnitRange | services/audioUtils.js:24-27 | every normalised sample lies in [-1, 1] and is positive (negative) exactly when its input is |
| AudioUtils.NormalizedReachesFullScale | services/audioUtils.js:15-27 | a signal with a non-zero sample has a normalised sample of absolute value exactly 1 |
| AudioUtils.NormalizeIdempotent | services/audioUtils.js:11-30 | normalising twice is normalising once |
| WavHeader.U32RoundTrip | services/voiceService.js:73 | the four bytes `setUint32(..., true)` writes read back as the value |
| WavHeader.U16RoundTrip | services/voiceService.js:77 | the two bytes `setUint16(..., true)` writes read back as the value |
| WavHeader.AsciiBytes | services/voiceService.js:93-97 | `writeString` stores one byte per character |
| WavHeader.AsciiText | services/voiceService.js:40 | 'ascii' decoding gives one character per byte |
| WavHeader.Header | services/voiceService.js:68-84 | the synthesised header is 44 bytes |
| WavHeader.RiffChunkHeader | services/voiceService.js:72-74 | "RIFF", 36 + n modulo 2^32, "WAVE": 12 bytes |
| WavHeader.FmtChunk | services/voiceService.js:75-82 | the `fmt ` chunk is 24 bytes |
| WavHeader.DataChunkHeader | services/voiceService.js:83-84 | "data" and n modulo 2^32: 8 bytes |
| WavHeader.ParseHeader | services/voiceService.js:66-91 | a reader of the fixed 44-byte layout `addWavHeaders` writes (it specifies that layout; it is not node-wav's decoder): accepts only a buffer of at least 44 bytes whose first four bytes read "RIFF" and whose chunk tags sit at 8, 12 and 36 |
| WavHeader.ParseHeaderOfSynthesised | services/voiceService.js:68-90 | a synthesised buffer reads as RIFF size 36 + n, fmt size 16, PCM, mono, 16000 Hz, 32000 bytes/s, block align 2, 16 bits, data size n (both sizes modulo 2^32) |
| WavHeader.RiffFields | services/voiceService.js:73 | the RIFF size field reads 36 + n modulo 2^32 |
| WavHeader.FmtFields | services/voiceService.js:76-82 | the fmt fields read 16, 1, 1, 16000, 32000, 2, 16 |
| WavHeader.DataFields | services/voiceService.js:84 | the data size field reads n modulo 2^32 |
| WavHeader.U32Read | services/voiceService.js:73 | a u32 written at an offset reads back there |
| WavHeader.StartsWithRiff | services/voiceService.js:40-43 | the header test compares the 'ascii' text of the first four bytes with "RIFF" |
| WavHeader.StartsWithRiffBytes | services/voiceService.js:40-43 | that test holds exactly when there are at least 4 bytes and they are R, I, F, F with the high bit ignored; shorter buffers always get a header |
| WavHeader.WithHeaderStartsWithRiff | services/voiceService.js:40-45 | the decoder always sees "RIFF"; a header is prepended exactly when the test fails, and the input is the suffix |
| WavHeader.WithHeaderIdempotent | services/voiceService.js:40-45 | a buffer that passed the check once passes it unchanged |
| WavHeader.WriteString | services/voiceService.js:93-97 | the characters' bytes land at the offset; the bytes before and after them are untouched |
| WavHeader.SetUint32 | services/voiceService.js:73 | little-endian u32 written at the offset; the bytes before and after it are untouched |
| WavHeader.SetUint16 | services/voiceService.js:77 | little-endian u16 written at the offset; the bytes before and after it are untouched |
| WavHeader.WriteRiffChunk | services/voiceService.js:72-74 | the first three writes leave "RIFF", the size 36 + n modulo 2^32 and "WAVE" in bytes 0-11 and do not touch any later byte |
| WavHeader.WriteFmtChunk | services/voiceService.js:75-82 | the next eight writes leave the fmt chunk in bytes 12-35 and touch no byte outside 12-35 |
| WavHeader.WriteFmtHead | services/voiceService.js:75-78 | the first four fmt writes leave "fmt ", 16, 1, 1 in bytes 12-23 and touch no byte outside 12-23 |
| WavHeader.WriteFmtRates | services/voiceService.js:79-82 | the last four fmt writes leave 16000, 32000, 2, 16 in bytes 24-35 and touch no byte outside 24-35 |
| WavHeader.WriteDataChunk | services/voiceService.js:83-84 | the last two writes leave "data" and n modulo 2^32 in bytes 36-43 and touch no byte outside 36-43 |
| WavHeader.WriteHeader | services/voiceService.js:72-84 | the thirteen header writes leave exactly the 44 header bytes and leave every byte after them as it was |
| WavHeader.AddWavHeaders | services/voiceService.js:66-91 | the result is the header followed by the unchanged input, of length 44 + n, and parses to the canonical fields |
| AudioProcessor.MinMaxNormalize | services/audioProcessor.js:97-99 | the result r satisfies r·(max − min) + min = value |
| AudioProcessor.FixedDomainNormalize | services/audioProcessor.js:97-99 | with domain [-100, 100]: (v + 100)/200, -100 ↦ 0, 0 ↦ 0.5, 100 ↦ 1, strictly increasing, not clamped (300 ↦ 2) |
| AudioProcessor.NormalizeValue | services/audioProcessor.js:85-92 | arrays keep their length and map element by element, numbers map, anything else is dropped |
| AudioProcessor.NormalizeFeatures | services/audioProcessor.js:82-95 | the result holds only numeric entries, no more than the input, and only keys of the input; services/voiceService.js:235-248 is the same code and shares this definition |
| AudioProcessor.NormalizeFeaturesLookup | services/audioProcessor.js:82-95 | for distinct keys: a key is kept exactly when its value is a number or an array, and its value becomes the normalised one |
| AudioProcessor.ObjectItems | services/audioProcessor.js:105-111 | the values one object pushes number the object's size |
| AudioProcessor.Flatten | services/audioProcessor.js:101-116 | the embedding has the summed size of the objects |
| AudioProcessor.FlattenAppend | services/audioProcessor.js:101-116 | flattening distributes over concatenation of frame lists |
| AudioProcessor.CreateEmbedding | services/audioProcessor.js:101-116 | the push loops produce the order-preserving concatenation; no frames give an empty embedding |
| AudioProcessor.CalculateSimilarity | services/audioProcessor.js:118-142 | fails with "Embeddings must have the same length" exactly on a length mismatch; otherwise the loop's value is the cosine |
| AudioProcessor.DotSymmetric | services/audioProcessor.js:127-131 | the dot product is symmetric |
| AudioProcessor.DotSelfNonNegative | services/audioProcessor.js:129-130 | a squared norm is non-negative |
| AudioProcessor.DotSelfZero | services/audioProcessor.js:129-139 | a squared norm is 0 exactly for the zero vector |
| AudioProcessor.CosineSymmetric | services/audioProcessor.js:124-141 | similarity is symmetric |
| AudioProcessor.CosineOfZeroVector | services/audioProcessor.js:134-139 | a zero vector on either side, the empty vector included, gives 0 |
| AudioProcessor.CosineSelf | services/audioProcessor.js:124-141 | a non-zero vector has similarity 1 with itself |
| AudioProcessor.CauchySchwarz | services/audioProcessor.js:127-131 | (a·b)² ≤ (a·a)(b·b) |
| AudioProcessor.CosineBounded | services/audioProcessor.js:124-141 | similarity lies in [-1, 1] |
| AudioProcessor.FrameFits | services/audioProcessor.js:55-62 | every frame the loop reaches ends at or before the end of the input |
| AudioProcessor.Frames | services/audioProcessor.js:55-62 | ⌊(len − frameSize)/hopSize⌋ frames (none if negative), each a whole frameSize slice |
| AudioProcessor.FrameAt | services/audioProcessor.js:59-62 | a frame is a whole frameSize slice |
| AudioProcessor.KeptFeatures | services/audioProcessor.js:64-71 | at most one object per frame, every kept object normalised |
| AudioProcessor.ExtractFeatures | services/audioProcessor.js:46-80 | with the frame and hop sizes given, the loop keeps the normalised features of the frames that yield any, in frame order |
| AudioProcessor.JsFrameCount | services/audioProcessor.js:55-57 | the frame count is NaN exactly when a size is undefined, and is the floor quotient otherwise |
| AudioProcessor.FeaturesFromFields | services/audioProcessor.js:54-75 | the loop's result when the sizes may be absent: empty when either is; otherwise no more objects than frames, all numeric |
| AudioProcessor.ExtractFeaturesFromFields | services/audioProcessor.js:46-80 | with an undefined size the loop never runs and the result is empty; with both sizes it is the parameterised extraction; either way it is `FeaturesFromFields` |
| AudioProcessor.StaticReadLosesFrames | services/audioProcessor.js:5-10 | with the constructor's 512/256, a 1024-sample buffer whose frames all yield features gives 2 objects, where the static read (both sizes absent) gives none |
| AudioProcessor.KeptFeaturesTotal | services/audioProcessor.js:64-71 | when every frame yields features, every frame is kept |
| VoiceFeatures.FrameStarts | services/voiceService.js:104 | frame k exists exactly when k·256 < len − 512, and then it ends strictly before the end: a frame ending at the end is never made |
| VoiceFeatures.FramesOf | services/voiceService.js:99-119 | ⌈(len − 512)/256⌉ frame records for len > 512 (none otherwise), each with 13 MFCC values |
| VoiceFeatures.FrameAt | services/voiceService.js:105-113 | each frame record has 13 MFCC values |
| VoiceFeatures.ExtractAudioFeatures | services/voiceService.js:99-119 | the hop loop produces exactly those records, in order |
| VoiceFeatures.ComputeFrameFeatures | services/voiceService.js:108-113 | the four calls on a 512-sample frame give its record |
| VoiceFeatures.FeaturesOf | services/voiceService.js:108-113 | a frame record has 13 MFCC values |
| VoiceFeatures.Magnitudes | services/voiceService.js:147-149 | n/2 magnitudes |
| VoiceFeatures.SimpleFFT | services/voiceService.js:144-163 | odd length fails (`new Array(n / 2)` throws); otherwise the nested loops give the n/2 magnitudes of the DFT sums |
| VoiceFeatures.MagnitudesNonNegative | services/voiceService.js:159 | every magnitude is non-negative |
| VoiceFeatures.BinMonotone | services/voiceService.js:130-131 | bin starts do not decrease |
| VoiceFeatures.BinBounds | services/voiceService.js:129-139 | bin 0 starts at 0, bin 13 at m, starts are ordered, and with m ≥ 13 every bin is non-empty, so no division by zero |
| VoiceFeatures.BinsPartition | services/voiceService.js:129-139 | every magnitude index lies in exactly one of the 13 bins |
| VoiceFeatures.BinOf | services/voiceService.js:129-139 | the bin of an index, found below a given bin |
| VoiceFeatures.MfccOf | services/voiceService.js:126-141 | 13 values |
| VoiceFeatures.ExtractMfcc | services/voiceService.js:121-142 | odd frames fail in the transform; otherwise the bin loop gives the 13 bin means of the magnitudes |
| VoiceFeatures.MfccNonNegative | services/voiceService.js:132-138 | non-negative magnitudes give non-negative bin means |
| VoiceFeatures.CalculateSpectralCentroid | services/voiceService.js:165-177 | odd frames fail in the transform; otherwise the loop gives the centroid of the magnitudes |
| VoiceFeatures.WeightedSumBounds | services/voiceService.js:171-174 | 0 ≤ Σ i·mᵢ ≤ (m − 1)·Σ mᵢ for non-negative magnitudes |
| VoiceFeatures.CentroidBounds | services/voiceService.js:176 | 0 when the total is 0; otherwise in [0, m − 1] |
| VoiceFeatures.CalculateRms | services/voiceService.js:179-185 | the loop computes √(Σx²/len) |
| VoiceFeatures.RmsProperties | services/voiceService.js:179-185 | RMS is non-negative, squares back to the mean square, and is 0 exactly for a silent frame |
| VoiceFeatures.CalculateZcr | services/voiceService.js:187-198 | the loop computes crossings / len |
| VoiceFeatures.CrossingsBound | services/voiceService.js:189-196 | at most len − 1 crossings |
| VoiceFeatures.ZcrBounds | services/voiceService.js:197 | ZCR lies in [0, (len − 1)/len] |
| VoiceFeatures.SameSignNoCrossings | services/voiceService.js:190-193 | a frame of one sign (0 counted as non-negative) has no crossings |
| VoiceFeatures.CrossingsSignInvariant | services/voiceService.js:190-193 | crossings depend only on which samples are negative |
| VoiceFeatures.ZcrUnchangedByNormalization | services/voiceService.js:187-198 | peak normalisation does not change the ZCR |
| VoiceFeatures.AsObject | services/voiceService.js:108-113 | a frame record is a four-key numeric object |
| VoiceFeatures.AsObjects | services/voiceService.js:108-115 | one numeric object per frame, in order |
| VoiceFeatures.FlattenFeatures | services/voiceService.js:290-305 | the push loops give the concatenation of the frame objects |
| VoiceFeatures.FrameItems | services/voiceService.js:294-301 | a frame contributes mfcc, then centroid, rms, zcr |
| VoiceFeatures.FlattenFeaturesLayout | services/voiceService.js:290-305 | 16 values per frame; frame k occupies [16k, 16k + 16) as mfcc ++ [centroid, rms, zcr] |
| VoiceFeatures.FlattenFeaturesAppend | services/voiceService.js:290-305 | flatten(a ++ b) = flatten(a) ++ flatten(b) |
| VoiceFeatures.ExtractFeatures | services/voiceService.js:37-64 | the decoder sees the checked buffer; its error, or no channel, fails with the "Feature extraction failed: " prefix; otherwise the frames of channel 0 |
| Database.UserExamples | services/databaseService.js:41-43 | one (userId, features) pair per stored record, in append order |
| Database.DatabaseService.constructor | services/databaseService.js:3-9 | empty maps, no attempts, no model |
| Database.DatabaseService.StoreSession | services/databaseService.js:11-13 | the session now holds the phrase and time; other sessions and all else unchanged |
| Database.DatabaseService.GetSession | services/databaseService.js:15-17 | the stored session, present exactly when stored: the last store wins |
| Database.DatabaseService.CreateUser | services/databaseService.js:19-23 | the id is the decimal clock value; that user (overwriting any with the same id) is stored, others unchanged |
| Database.DatabaseService.GetUser | services/databaseService.js:25-27 | the stored user, present exactly when the id is stored |
| Database.DatabaseService.StoreVoiceFeatures | services/databaseService.js:29-36 | a new user gets a list and joins the iteration order; one record is appended; other users and earlier records unchanged |
| Database.DatabaseService.GetTrainingData | services/databaseService.js:38-46 | the nested loops give the grouped training pairs |
| Database.DatabaseService.GetUsersByPhrase | services/databaseService.js:48-56 | the loop gives the users holding the phrase, in insertion order |
| Database.DatabaseService.LogVerificationAttempt | services/databaseService.js:58-66 | exactly one entry appended, earlier entries untouched |
| Database.DatabaseService.SaveModel | services/databaseService.js:68-70 | the model data is replaced, nothing else changes |
| Database.DatabaseService.LoadModel | services/databaseService.js:72-74 | the last saved value, or null before any save |
| Database.TrainingDataAppend | services/databaseService.js:38-46 | training data distributes over the owner order |
| Database.TrainingDataFrame | services/databaseService.js:38-46 | records of a user not in the owner list do not affect training data |
| Database.StoreNewUserTrainingData | services/databaseService.js:29-46 | after storing for a new user, the training data gains exactly that pair at the end |
| Database.StoreKnownUserTrainingData | services/databaseService.js:29-46 | after storing for a known user, the pair is inserted after that user's earlier pairs and everything else stays put |
| Database.UsersWithPhraseExact | services/databaseService.js:48-56 | a user is returned exactly when it holds a record with the phrase; no duplicates; no more than the users |
| BrainModel.Confidence | services/brainModelService.js:93 | `output[userId] \|\| 0`: the value when present, 0 otherwise |
| BrainModel.ArgMaxIsFirstMaximum | services/brainModelService.js:119-127 | the best confidence is ≥ 0 and bounds all; no match exactly when none is positive, and then 0; otherwise the first candidate with the strictly greatest positive confidence |
| BrainModel.BestMatch | services/brainModelService.js:119-127 | the loop with strict `>` from (null, 0) computes that arg-max |
| BrainModel.ExamplesOfRows | services/brainModelService.js:60-75 | at most one example per row; all parse ⇒ one per row; none parse ⇒ none; membership exactly the parsed rows with output {user_id: 1} |
| BrainModel.ExamplesOutputs | services/brainModelService.js:64-71 | every example's output is the single entry (user_id, 1) |
| BrainModel.PrepareTrainingData | services/brainModelService.js:44-82 | a failed query gives []; otherwise the loop gives the examples of the parsed rows in row order |
| BrainModel.PredictFrom | services/brainModelService.js:89-107 | confidence is `output[userId] \|\| 0`, a match exactly above 0.7; a failed run gives 0 and no match |
| BrainModel.IdentifyFrom | services/brainModelService.js:115-141 | a match exactly above 0.7; confidence ≥ 0 and ≥ every output; no user ⇒ 0; a failed run gives (null, 0, false) |
| BrainModel.TrainStepMonotone | services/brainModelService.js:14-42 | training succeeds exactly with examples and a successful train; success sets `isTrained`; failure leaves net and flag as they were; trained stays trained |
| BrainModel.BrainModelService.constructor | services/brainModelService.js:5-12 | a fresh net, not trained |
| BrainModel.BrainModelService.TrainModel | services/brainModelService.js:14-42 | the new state and result are the training step on the prepared examples |
| BrainModel.BrainModelService.Predict | services/brainModelService.js:84-108 | trains first exactly when not trained, then returns the prediction of the resulting net |
| BrainModel.BrainModelService.IdentifySpeaker | services/brainModelService.js:110-142 | trains first exactly when not trained, then returns the arg-max over the output entries |
| VoiceService.FormattedData | services/voiceService.js:265-268 | one example per stored sample |
| VoiceService.Candidates | services/voiceService.js:330-331 | each enrolled user paired with `output[userId] \|\| 0` |
| VoiceService.IdentifyPicksFirstBest | services/voiceService.js:316-353 | no users ⇔ the "No users found" answer; an identification names the first user with the strictly greatest confidence, which is positive and bounds all, and is a match exactly above 0.7; no positive confidence throws "Identification failed: ..." |
| VoiceService.FormatTrainingData | services/voiceService.js:265-268 | the `map` gives flattened inputs with output {userId: 1} |
| VoiceService.VoiceService.constructor | services/voiceService.js:12-17 | a fresh, empty store and an untrained model |
| VoiceService.VoiceService.TrainModel | services/voiceService.js:254-288 | no samples ⇒ false and nothing changes; a failed train ⇒ false, unchanged; success sets `isTrained` before saving, so a failed `toJSON` returns false with `isTrained` true; the store changes only in its model data |
| VoiceService.VoiceService.IdentifySpeaker | services/voiceService.js:307-354 | trains first exactly when untrained: when already trained the model, flag and saved model are unchanged; otherwise model and flag are the training step's on the stored samples, and the model is saved only when training and `toJSON` succeed; the result is the identification over the phrase's users with the resulting model's output; the store's samples, users and sessions are unchanged |
| VoiceService.VoiceService.VerifySpeaker | services/voiceService.js:356-387 | trains first exactly when untrained, with the same before/after state as `IdentifySpeaker`; a failed run gives "Verification failed: " + message and logs nothing; otherwise confidence `output[userId] \|\| 0`, match exactly above 0.7, and one attempt logged with those same values |
| Verification.Decide | controllers/verificationController.js:51-52 | the confidence is the larger of the two signals, never below either; a match exactly above 0.7, i.e. exactly when either signal is above 0.7 |
| Verification.AudioRow | controllers/verificationController.js:63-76 | the metadata row: the user, the upload's size, a duration that is the size over 32000 bytes per second, and a file name `verification-<user>-<time>.wav` |
| Verification.Assessed | controllers/verificationController.js:38-52 | the attempt's confidence is at least the model's confidence and at least the cosine of the two embeddings; a match exactly above 0.7 |
| Verification.VerifyUser | controllers/verificationController.js:6-91 | no file ⇒ 400 before any lookup; 404 exactly when the query returns no rows; no features ⇒ 400; a failing query, extraction or `JSON.parse` ⇒ 500 "Verification failed: " + its message; every 500 carries "Verification failed: "; a length mismatch ⇒ 500 with the similarity message; an attempt is logged exactly when the handler reaches the decision and its insert succeeds, and it holds the fused confidence and decision; a failing attempt insert ⇒ 500 with its message; after the attempt, the metadata row is stored exactly when its insert succeeds, else 500 with its message; 200 exactly when the metadata row is stored, answering the logged confidence and decision |
| Verification.VerifyUserWithStaticRead | controllers/verificationController.js:29-35 | fed by the static `extractFeatures` as written, the handler never answers 200 and logs nothing; with a file and an enrolment row it answers 400 "No features extracted from audio" |
| Verification.VerifyUserAsWritten | controllers/verificationController.js:15-39 | with the double destructuring of the query result the handler answers only 400 or 500: a failing query or extraction ⇒ 500 with its message; no rows ⇒ 500 reading `length` of undefined; a row and features ⇒ 500 reading `embedding` of undefined; a row and no features ⇒ 400 |
| Identification.MatchOf | controllers/identificationController.js:25-44 | a match carries the user's id and name and exactly the confidence of a successful comparison against the user's stored print; no print, no match |
| Identification.MatchListExact | controllers/identificationController.js:24-45 | after a completed loop the matches are exactly the users with a print whose comparison succeeded, no more than the users |
| Identification.MatchListDistinct | controllers/identificationController.js:24-45 | with distinct user ids each user is matched at most once |
| Identification.MatchListErrStays | controllers/identificationController.js:24-45 | an error in any iteration fails the whole loop |
| Identification.SortByConfidence | controllers/identificationController.js:48 | the array ends in non-increasing confidence and is a permutation of its contents |
| Identification.InsertAt | controllers/identificationController.js:48 | one insertion step makes `a[..i+1]` sorted and a permutation of what it held, leaves `a[i+1..]` as it was, and permutes the array |
| Identification.SinkLeft | controllers/identificationController.js:48 | the swapping loop sorts `a[..i+1]`, permutes the array and leaves every later element as it was |
| Identification.Swap | controllers/identificationController.js:48 | one exchange of neighbours moves exactly those two elements and permutes the array |
| Identification.IdentifyVoice | controllers/identificationController.js:5-63 | a missing or empty phrase ⇒ 400 "Phrase is required" before the file check ⇒ 400 "No voice sample provided"; a failing user query or a failing loop iteration ⇒ 500 "Identification failed"; 400 only for a missing phrase or file; 200 exactly when the loop completes, with a descending permutation of the matches and their number in the message |
| Helpers.ValidateEmailIsPattern | utils/helpers.js:1-4 | the field check accepts exactly the strings `^[^\s@]+@[^\s@]+\.[^\s@]+$` matches |
| Helpers.ValidEmailSplits | utils/helpers.js:2 | an accepted address splits as the pattern's three runs |
| Helpers.SplitIsValid | utils/helpers.js:2 | a split as the pattern's three runs is accepted |
| Helpers.ValidEmailShape | utils/helpers.js:2 | an accepted address has no `\s` character, exactly one '@' with something before it, and a '.' in the domain neither first nor last |
| Helpers.FirstIndex | utils/helpers.js:2 | the first position of a character, or the length when absent |
| Helpers.Utf16Length | utils/helpers.js:8 | JavaScript length counts between 1 and 2 units per character |
| Helpers.ValidatePasswordIsPattern | utils/helpers.js:6-10 | the direct check accepts exactly the strings `^(?=.*[a-z])(?=.*[A-Z])(?=.*\d).{8,}$` matches: ≥ 8 UTF-16 units, no \n, \r, U+2028 or U+2029, an ASCII lower-case letter, upper-case letter and digit |
| Helpers.LookaheadIsContains | utils/helpers.js:8 | without line terminators, a lookahead `(?=.*X)` is containment |
| Helpers.PasswordConsequences | utils/helpers.js:8 | an accepted password has at least 4 characters; any line terminator rejects |
| Helpers.GenerateRandomPhrase | utils/helpers.js:12-25 | any draw in [0, 1) picks one of the eight phrases |
| Helpers.EveryPhraseReachable | utils/helpers.js:13-24 | every phrase is picked by some draw |
| ErrorHandler.HandleError | middleware/errorHandler.js:3-34 | the overwriting chain equals the priority order duplicate entry > token expired > invalid token > file too large > 500 |
| ErrorHandler.ClassifyRules | middleware/errorHandler.js:7-33 | each rule alone, the 500 default, `ER_DUP_ENTRY` beating a JWT name, only 400/401/409/500, and a response independent of `err.message` |
| AudioUpload.FileFilter | middleware/audioProcessing.js:6-12 | accepts exactly audio/wav, audio/webm and audio/mpeg; a rejection is a plain Error "Invalid audio file type" |
| AudioUpload.HandleAudioUploadError | middleware/audioProcessing.js:22-34 | a Multer `LIMIT_FILE_SIZE` ⇒ 400 "File too large"; otherwise that message ⇒ 400 with it; everything else passes on unchanged |
| AudioUpload.RejectionRoundTrip | middleware/audioProcessing.js:10-31 | the filter's rejection comes back as 400 "Invalid audio file type" |
| AudioUpload.PassedOnErrors | middleware/audioProcessing.js:22-34 | a non-Multer error with code `LIMIT_FILE_SIZE` is passed on unchanged and answered 400 "File too large" by the general handler |

## Left out

**Foreign libraries and the runtime**
- `wav.decode` is a parameter, and so are `meyda.extract`, `JSON.parse` and brain.js `train`/`run`/`toJSON`/`fromJSON`. They are foreign code.
- `AudioProcessor.KeptFeatures`, `AudioProcessor.ExtractFeatures`: `meyda.extract` is a function to `Option`, so a `meyda.extract` that throws (which `extractFeatures` rethrows, services/audioProcessor.js:76-79) is not expressible; the model only covers a frame that yields features or nothing.
- `initMeyda` (services/audioProcessor.js:12-40) is not modelled. It builds an analyser that the frame loop never uses. If it throws (in the static call its `this.sampleRate` and `this.frameSize` are undefined too), `extractFeatures` rethrows that error instead of returning `[]`; the model assumes it returns.
- `Math.cos`, `Math.sin` and `Math.sqrt` are parameters. Floating-point rounding is not modelled, and values are reals.
- The `Float32Array` view over the Node buffer's backing store (services/audioProcessor.js:49) is not modelled, because it reinterprets raw memory. `AudioProcessor.ExtractFeatures` takes samples.
- `Date.now`, `Math.random` and `req.ip` are parameters or dropped: the clock is `now`, and the draw is `random`.

**Asynchronous behaviour and timing**
- The fire-and-forget `init()`/`loadModel` of the VoiceService constructor (services/voiceService.js:19-35) is not modelled, since it is asynchronous. The model starts untrained, as `init` leaves it when no model was saved.
- Concurrency between requests is not modelled. Each method runs to completion.

**Database and HTTP plumbing**
- SQL queries are `Result` values or functions. This covers the enrolment and voice-print lookups, `User.findAll` and the enrolment training query in the controllers, and the attempt and audio-file metadata inserts of `verifyUser`. A query function returns the rows; the double destructuring of `verifyUser`'s enrolment query is a finding below, modelled by `Verification.VerifyUserAsWritten`.
- `Identification.IdentifyVoice`: models/User.js and models/VoicePrint.js are not part of this model. `User.findAll` is not defined in models/User.js, so the call at controllers/identificationController.js:21 throws; `findAll` is a `Result` whose `Err` gives the same 500. `VoicePrint.findByUserAndPhrase` also destructures the rows twice (models/VoicePrint.js:21-25); `findPrint` is a parameter that returns the print or nothing.
- `Verification.VerifyUser`: `predict` is a pure parameter. The `BrainModelService.predict` it calls trains lazily when untrained and turns a failed run into confidence 0 (modelled by `BrainModel.BrainModelService.Predict`); the handler does not see that state change.
- `Verification.VerifyUser`: the attempt row's `ip_address` (`req.ip`) is not modelled, and the metadata row's `file_size` is the buffer length (the two agree for in-memory uploads).
- Logging, `console` output and response plumbing beyond status and body are not modelled.
- `BrainModel.BrainModelService.TrainModel`, `VoiceService.VoiceService.TrainModel`: a `train` that throws leaves the net as it was. brain.js may have partly updated its weights by then.

**Contracts that exclude inputs the code accepts**
- `VoiceFeatures.ExtractMfcc`: requires at least 26 samples. Below that some bins are empty and the code divides 0 by 0 (NaN), which reals cannot express. Every frame the code passes has 512 samples.
- `VoiceFeatures.FeaturesOf` has the same restriction, for the same reason.
- `VoiceFeatures.CalculateRms`: requires a non-empty frame, because the code's `0 / 0` is NaN.
- `VoiceFeatures.CalculateZcr`: requires a non-empty frame, for the same reason.

**Contracts weaker than the code**
- `Identification.SortByConfidence` is a stable insertion sort, like `Array.prototype.sort`. Its contract states the order and the permutation, not the stability.
- `Identification.IdentifyVoice`: `phrase` is a string or absent. Other falsy JSON values such as `0` or `false` are not modelled.
- `Helpers.ValidateEmail` and `Helpers.ValidatePassword` are predicates over whole strings. Coercion of non-string arguments by `RegExp.prototype.test` is not modelled.

## Findings

| source | as written | input that shows it | evidently intended | confidence | as-written member | corrected member |
|---|---|---|---|---|---|---|
| services/audioProcessor.js:55-57 | the static `extractFeatures` reads `this.frameSize` and `this.hopSize`. In a static method `this` is the class, which has neither field (they are set per instance at lines 5-10), so the frame count is NaN, the loop never runs, and the result is always `[]` | any buffer, e.g. 1024 samples whose frames all yield features: 2 feature objects are intended, none are returned, and `verifyUser` then answers 400 "No features extracted from audio" whenever an enrolment row exists (with no row, the destructuring in the next row answers 500 first) | frame size 512 and hop 256, as the constructor sets them | high (not executed) | AudioProcessor.ExtractFeaturesFromFields (with both sizes absent), AudioProcessor.StaticReadLosesFrames, Verification.VerifyUserWithStaticRead | AudioProcessor.ExtractFeatures |
| controllers/verificationController.js:15-39 | `db.execute` (config/database.js:31-39) already returns the rows, and `const [enrollments] = await db.execute(...)` destructures them again, so `enrollments` is the first row or `undefined`. With no row, `enrollments.length` throws. With a row, `enrollments.length` is undefined (a row has no `length` column), the 404 test is false, `enrollments[0]` is undefined (no column `0`), and `enrollment.embedding` throws | a user with no enrolment for the phrase: 500 "Verification failed: Cannot read properties of undefined (reading 'length')" instead of 404; a user with an enrolment and a recording that gives features: 500 "... (reading 'embedding')" instead of a verdict | `const enrollments = await db.execute(...)`, as services/brainModelService.js:47 writes it | high (not executed) | Verification.VerifyUserAsWritten | Verification.VerifyUser |
