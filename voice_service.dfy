/** services/voiceService.js, the decisions: `trainModel`, `identifySpeaker`
    and `verifySpeaker` over the in-memory store, with the brain.js network a
    value of the opaque type `N` whose `train`, `run` and `toJSON` are
    parameters. */
module VoiceService {
  import opened Common
  import opened Database
  import opened BrainModel
  import opened VoiceFeatures
  import AudioProcessor

  /** What `extractFeatures` gives and the store keeps: one record per frame. */
  type Features = seq<FrameFeatures>

  /** The object `identifySpeaker` resolves with: `{ success: false, message }`
      when nobody enrolled the phrase, otherwise the best user. */
  datatype Identification = NoUsers | Identified(user: User, confidence: real, isMatch: bool)

  /** The object `verifySpeaker` resolves with (`success` is always true). */
  datatype Verification = Verification(isMatch: bool, confidence: real, message: string)

  const NoUsersMessage := "No users found for this phrase"
  /** The TypeError of `user.id` when `getUser` gives undefined. */
  const UndefinedUser := "Cannot read properties of undefined (reading 'id')"

  /** `trainingData.map(item => ({ input: flatten(item.features), output: { [item.userId]: 1 } }))`. */
  function FormattedData(trainingData: seq<(string, Features)>): (r: seq<Example>)
    ensures |r| == |trainingData|
  {
    seq(|trainingData|, i requires 0 <= i < |trainingData| =>
      Example(AudioProcessor.Flatten(AsObjects(trainingData[i].1)), [(trainingData[i].0, 1.0)]))
  }

  /** The confidence of every enrolled user: `output[userId] || 0`. */
  function Candidates(users: seq<string>, output: Entries<real>): (r: seq<(string, real)>)
    ensures |r| == |users|
    ensures forall i :: 0 <= i < |users| ==> r[i] == (users[i], Confidence(output, users[i]))
  {
    seq(|users|, i requires 0 <= i < |users| => (users[i], Confidence(output, users[i])))
  }

  /** What `identifySpeaker` resolves with or throws, given the users enrolled
      for the phrase, what `run` did, and the users table. */
  function Identify(users: seq<string>, output: Result<Entries<real>>, table: map<string, User>): Result<Identification>
  {
    if |users| == 0 then Ok(NoUsers)
    else match output
      case Err(m) => Err("Identification failed: " + m)
      case Ok(out) =>
        var (best, highest) := ArgMax(Candidates(users, out));
        if best.None? || best.value !in table then Err("Identification failed: " + UndefinedUser)
        else Ok(Identified(table[best.value], highest, IsMatch(highest)))
  }

  /** An identification names the enrolled user whose confidence is greatest,
      the first such in enrolment order, with that confidence, which is above
      0; it is a match exactly above 0.7. If nobody's confidence is above 0,
      `getUser(null)` is undefined and the call throws. */
  lemma IdentifyPicksFirstBest(users: seq<string>, output: Result<Entries<real>>, table: map<string, User>)
    ensures Identify(users, output, table) == Ok(NoUsers) <==> |users| == 0
    ensures Identify(users, output, table).Ok? && Identify(users, output, table).value.Identified? ==>
      var r := Identify(users, output, table).value;
      (r.isMatch <==> r.confidence > MatchThreshold) && r.confidence > 0.0 && output.Ok? &&
      exists i :: (0 <= i < |users| && users[i] in table && table[users[i]] == r.user &&
        Confidence(output.value, users[i]) == r.confidence &&
        (forall j :: 0 <= j < |users| ==> Confidence(output.value, users[j]) <= r.confidence) &&
        (forall j :: 0 <= j < i ==> Confidence(output.value, users[j]) < r.confidence))
    ensures |users| > 0 && output.Ok? && (forall j :: 0 <= j < |users| ==> Confidence(output.value, users[j]) <= 0.0) ==>
      Identify(users, output, table) == Err("Identification failed: " + UndefinedUser)
  {
    if |users| > 0 && output.Ok? {
      var candidates := Candidates(users, output.value);
      ArgMaxIsFirstMaximum(candidates);
    }
  }

  /** The `map` of `trainModel` that turns every stored sample into a
      training example for its owner. */
  method FormatTrainingData(trainingData: seq<(string, Features)>) returns (formattedData: seq<Example>)
    ensures formattedData == FormattedData(trainingData)
  {
    formattedData := [];
    for i := 0 to |trainingData|
      invariant formattedData == FormattedData(trainingData)[..i]
    {
      var input := FlattenFeatures(trainingData[i].1);
      formattedData := formattedData + [Example(input, [(trainingData[i].0, 1.0)])];
    }
  }

  class VoiceService<N, M> {
    const db: DatabaseService<Features, M>
    var model: N
    var isTrained: bool

    ghost predicate Valid()
      reads this, db
    {
      db.Valid()
    }

    /** The constructor's synchronous part; the asynchronous `init()` that tries
        to load a saved model is not part of this model. */
    constructor (initial: N)
      ensures Valid() && fresh(db)
      ensures model == initial && !isTrained
      ensures db.featureOwners == [] && db.modelData == None
    {
      db := new DatabaseService();
      model := initial;
      isTrained := false;
    }

    /** `trainModel`: with no stored samples nothing changes; otherwise the
        network trains, `isTrained` is set, and only then is the model saved,
        so a failing `toJSON` returns false with `isTrained` already true. */
    method TrainModel(train: (N, seq<Example>) -> Result<N>, toJSON: N -> Result<M>) returns (ok: bool)
      modifies this, db
      requires Valid()
      ensures Valid()
      ensures var step := TrainStep(old(model), old(isTrained),
                                    FormattedData(TrainingData(old(db.featureOwners), old(db.voiceFeatures))), train);
        model == step.1 && isTrained == step.2 &&
        ok == (step.0 && toJSON(step.1).Ok?) &&
        db.modelData == (if ok then Some(toJSON(step.1).value) else old(db.modelData))
      ensures TrainingData(old(db.featureOwners), old(db.voiceFeatures)) == [] ==>
        !ok && model == old(model) && isTrained == old(isTrained)
      ensures db.users == old(db.users) && db.sessions == old(db.sessions) && db.verificationAttempts == old(db.verificationAttempts)
      ensures db.featureOwners == old(db.featureOwners) && db.voiceFeatures == old(db.voiceFeatures)
    {
      var trainingData := db.GetTrainingData();
      if |trainingData| == 0 {
        return false;
      }
      var formattedData := FormatTrainingData(trainingData);
      var trained := train(model, formattedData);
      if trained.Err? {
        return false;
      }
      model := trained.value;
      isTrained := true;
      var modelData := toJSON(model);
      if modelData.Err? {
        return false;
      }
      db.SaveModel(modelData.value);
      return true;
    }

    /** `identifySpeaker`: trains first exactly when not yet trained, then takes
        the best of the enrolled users' confidences. */
    method IdentifySpeaker(features: Features, phrase: string,
                           train: (N, seq<Example>) -> Result<N>, toJSON: N -> Result<M>,
                           run: (N, seq<real>) -> Result<Entries<real>>)
      returns (r: Result<Identification>)
      modifies this, db
      requires Valid()
      ensures Valid()
      ensures old(isTrained) ==> model == old(model) && isTrained && db.modelData == old(db.modelData)
      ensures !old(isTrained) ==>
        var step := TrainStep(old(model), false,
                              FormattedData(TrainingData(old(db.featureOwners), old(db.voiceFeatures))), train);
        model == step.1 && isTrained == step.2 &&
        db.modelData == (if step.0 && toJSON(step.1).Ok? then Some(toJSON(step.1).value) else old(db.modelData))
      ensures r == Identify(UsersWithPhrase(db.featureOwners, db.voiceFeatures, phrase),
                            run(model, AudioProcessor.Flatten(AsObjects(features))), db.users)
      ensures db.users == old(db.users) && db.sessions == old(db.sessions) && db.verificationAttempts == old(db.verificationAttempts)
      ensures db.featureOwners == old(db.featureOwners) && db.voiceFeatures == old(db.voiceFeatures)
    {
      if !isTrained {
        var _ := TrainModel(train, toJSON);
      }
      var users := db.GetUsersByPhrase(phrase);
      if |users| == 0 {
        return Ok(NoUsers);
      }
      var flattenedFeatures := FlattenFeatures(features);
      var output := run(model, flattenedFeatures);
      if output.Err? {
        return Err("Identification failed: " + output.message);
      }
      var bestMatch, highestConfidence := BestMatch(Candidates(users, output.value));
      if bestMatch.None? {
        return Err("Identification failed: " + UndefinedUser);
      }
      var user := db.GetUser(bestMatch.value);
      if user.None? {
        return Err("Identification failed: " + UndefinedUser);
      }
      r := Ok(Identified(user.value, highestConfidence, highestConfidence > MatchThreshold));
    }

    /** `verifySpeaker`: trains first exactly when not yet trained, reads the
        user's confidence, and logs the attempt with the confidence and
        decision it returns. */
    method VerifySpeaker(userId: string, features: Features, phrase: string, now: int,
                         train: (N, seq<Example>) -> Result<N>, toJSON: N -> Result<M>,
                         run: (N, seq<real>) -> Result<Entries<real>>)
      returns (r: Result<Verification>)
      modifies this, db
      requires Valid()
      ensures Valid()
      ensures old(isTrained) ==> model == old(model) && isTrained && db.modelData == old(db.modelData)
      ensures !old(isTrained) ==>
        var step := TrainStep(old(model), false,
                              FormattedData(TrainingData(old(db.featureOwners), old(db.voiceFeatures))), train);
        model == step.1 && isTrained == step.2 &&
        db.modelData == (if step.0 && toJSON(step.1).Ok? then Some(toJSON(step.1).value) else old(db.modelData))
      ensures var output := run(model, AudioProcessor.Flatten(AsObjects(features)));
        match output
        case Err(m) => r == Err("Verification failed: " + m) && db.verificationAttempts == old(db.verificationAttempts)
        case Ok(out) =>
          var confidence := Confidence(out, userId);
          r == Ok(Verification(IsMatch(confidence), confidence,
                               if IsMatch(confidence) then "Verification successful" else "Verification failed")) &&
          db.verificationAttempts
            == old(db.verificationAttempts) + [Attempt(userId, phrase, confidence, IsMatch(confidence), now)]
      ensures db.users == old(db.users) && db.sessions == old(db.sessions)
      ensures db.featureOwners == old(db.featureOwners) && db.voiceFeatures == old(db.voiceFeatures)
    {
      if !isTrained {
        var _ := TrainModel(train, toJSON);
      }
      var flattenedFeatures := FlattenFeatures(features);
      var output := run(model, flattenedFeatures);
      if output.Err? {
        return Err("Verification failed: " + output.message);
      }
      var confidence := Confidence(output.value, userId);
      var isMatch := confidence > MatchThreshold;
      db.LogVerificationAttempt(userId, phrase, confidence, isMatch, now);
      r := Ok(Verification(isMatch, confidence, if isMatch then "Verification successful" else "Verification failed"));
    }
  }
}
