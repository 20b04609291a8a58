/** services/databaseService.js: the in-memory store. Its Maps become Dafny
    maps; the insertion order of the `voiceFeatures` Map, which its two queries
    iterate in, is kept in `featureOwners`. `Date.now()` is a parameter. */
module Database {
  import opened Common

  datatype Session = Session(phrase: string, timestamp: int)

  datatype User = User(id: string, name: string, email: string)

  /** One enrolment sample: `{ phrase, features, timestamp }`. */
  datatype FeatureRecord<F> = FeatureRecord(phrase: string, features: F, timestamp: int)

  datatype Attempt = Attempt(userId: string, phrase: string, confidence: real, isMatch: bool, timestamp: int)

  predicate NoDuplicates(s: seq<string>) {
    forall i, j :: 0 <= i < j < |s| ==> s[i] != s[j]
  }

  // ---------------------------------------------------------------- the queries, as functions

  /** The training examples of one user: one (userId, features) pair per
      record, in append order. */
  function UserExamples<F>(userId: string, records: seq<FeatureRecord<F>>): (r: seq<(string, F)>)
    ensures |r| == |records|
    ensures forall i :: 0 <= i < |records| ==> r[i] == (userId, records[i].features)
  {
    seq(|records|, i requires 0 <= i < |records| => (userId, records[i].features))
  }

  /** `getTrainingData`: every user's examples, users in Map insertion order. */
  function TrainingData<F>(owners: seq<string>, store: map<string, seq<FeatureRecord<F>>>): seq<(string, F)>
    requires forall u :: u in owners ==> u in store
  {
    if |owners| == 0 then []
    else TrainingData(owners[..|owners| - 1], store) + UserExamples(owners[|owners| - 1], store[owners[|owners| - 1]])
  }

  /** `featuresArray.some(item => item.phrase === phrase)`. */
  predicate HasPhrase<F>(records: seq<FeatureRecord<F>>, phrase: string) {
    exists i :: 0 <= i < |records| && records[i].phrase == phrase
  }

  /** `getUsersByPhrase`: the users, in insertion order, with a record for the phrase. */
  function UsersWithPhrase<F>(owners: seq<string>, store: map<string, seq<FeatureRecord<F>>>, phrase: string): seq<string>
    requires forall u :: u in owners ==> u in store
  {
    if |owners| == 0 then []
    else
      var u := owners[|owners| - 1];
      UsersWithPhrase(owners[..|owners| - 1], store, phrase) + (if HasPhrase(store[u], phrase) then [u] else [])
  }

  class DatabaseService<F, M> {
    var users: map<string, User>
    var sessions: map<string, Session>
    /** The `voiceFeatures` Map: its keys in insertion order, and its entries. */
    var featureOwners: seq<string>
    var voiceFeatures: map<string, seq<FeatureRecord<F>>>
    var verificationAttempts: seq<Attempt>
    var modelData: Option<M>

    /** The keys of `voiceFeatures` are exactly `featureOwners`, each once. */
    ghost predicate Valid()
      reads this
    {
      (forall u :: u in voiceFeatures <==> u in featureOwners) && NoDuplicates(featureOwners)
    }

    constructor ()
      ensures Valid()
      ensures users == map[] && sessions == map[] && voiceFeatures == map[] && featureOwners == []
      ensures verificationAttempts == [] && modelData == None
    {
      users := map[];
      sessions := map[];
      featureOwners := [];
      voiceFeatures := map[];
      verificationAttempts := [];
      modelData := None;
    }

    /** What `sessions.get(id)` returns. */
    function SessionOf(sessionId: string): Option<Session>
      reads this
    {
      if sessionId in sessions then Some(sessions[sessionId]) else None
    }

    /** `storeSession`: a later store for the same id overwrites the earlier one. */
    method StoreSession(sessionId: string, phrase: string, now: int)
      modifies this
      requires Valid()
      ensures Valid()
      ensures SessionOf(sessionId) == Some(Session(phrase, now))
      ensures forall id :: id != sessionId ==> SessionOf(id) == old(SessionOf(id))
      ensures sessions == old(sessions)[sessionId := Session(phrase, now)]
      ensures users == old(users) && featureOwners == old(featureOwners) && voiceFeatures == old(voiceFeatures)
      ensures verificationAttempts == old(verificationAttempts) && modelData == old(modelData)
    {
      sessions := sessions[sessionId := Session(phrase, now)];
    }

    method GetSession(sessionId: string) returns (r: Option<Session>)
      ensures r == SessionOf(sessionId)
      ensures r.Some? <==> sessionId in sessions
    {
      r := if sessionId in sessions then Some(sessions[sessionId]) else None;
    }

    function UserOf(userId: string): Option<User>
      reads this
    {
      if userId in users then Some(users[userId]) else None
    }

    /** `createUser`: the id is the decimal text of the clock reading, so two
        users created at the same millisecond share an id and the later one
        replaces the earlier. */
    method CreateUser(name: string, email: string, now: nat) returns (userId: string)
      modifies this
      requires Valid()
      ensures Valid()
      ensures userId == NatToString(now)
      ensures UserOf(userId) == Some(User(userId, name, email))
      ensures forall id :: id != userId ==> UserOf(id) == old(UserOf(id))
      ensures users == old(users)[userId := User(userId, name, email)]
      ensures sessions == old(sessions) && featureOwners == old(featureOwners) && voiceFeatures == old(voiceFeatures)
      ensures verificationAttempts == old(verificationAttempts) && modelData == old(modelData)
    {
      userId := NatToString(now);
      users := users[userId := User(userId, name, email)];
    }

    method GetUser(userId: string) returns (r: Option<User>)
      ensures r == UserOf(userId)
      ensures r.Some? <==> userId in users
    {
      r := if userId in users then Some(users[userId]) else None;
    }

    /** `storeVoiceFeatures`: a new user gets an empty list (and the last place
        in the Map's order), then one record is appended to the user's list. */
    method StoreVoiceFeatures(userId: string, phrase: string, features: F, now: int)
      modifies this
      requires Valid()
      ensures Valid()
      ensures voiceFeatures == old(voiceFeatures)[userId :=
        (if userId in old(voiceFeatures) then old(voiceFeatures)[userId] else []) + [FeatureRecord(phrase, features, now)]]
      ensures featureOwners == if userId in old(voiceFeatures) then old(featureOwners) else old(featureOwners) + [userId]
      ensures users == old(users) && sessions == old(sessions)
      ensures verificationAttempts == old(verificationAttempts) && modelData == old(modelData)
    {
      if userId !in voiceFeatures {
        voiceFeatures := voiceFeatures[userId := []];
        featureOwners := featureOwners + [userId];
      }
      voiceFeatures := voiceFeatures[userId := voiceFeatures[userId] + [FeatureRecord(phrase, features, now)]];
    }

    /** `getTrainingData`: two nested loops pushing `{ userId, features }`. */
    method GetTrainingData() returns (trainingData: seq<(string, F)>)
      requires Valid()
      ensures trainingData == TrainingData(featureOwners, voiceFeatures)
    {
      trainingData := [];
      for k := 0 to |featureOwners|
        invariant trainingData == TrainingData(featureOwners[..k], voiceFeatures)
      {
        assert featureOwners[..k + 1][..k] == featureOwners[..k];
        var userId := featureOwners[k];
        var featuresArray := voiceFeatures[userId];
        ghost var before := trainingData;
        for i := 0 to |featuresArray|
          invariant trainingData == before + UserExamples(userId, featuresArray[..i])
        {
          trainingData := trainingData + [(userId, featuresArray[i].features)];
        }
        assert featuresArray[..|featuresArray|] == featuresArray;
      }
      assert featureOwners[..|featureOwners|] == featureOwners;
    }

    /** `getUsersByPhrase`. */
    method GetUsersByPhrase(phrase: string) returns (result: seq<string>)
      requires Valid()
      ensures result == UsersWithPhrase(featureOwners, voiceFeatures, phrase)
    {
      result := [];
      for k := 0 to |featureOwners|
        invariant result == UsersWithPhrase(featureOwners[..k], voiceFeatures, phrase)
      {
        assert featureOwners[..k + 1][..k] == featureOwners[..k];
        var userId := featureOwners[k];
        if HasPhrase(voiceFeatures[userId], phrase) {
          result := result + [userId];
        }
      }
      assert featureOwners[..|featureOwners|] == featureOwners;
    }

    /** `logVerificationAttempt`: appends exactly one entry. */
    method LogVerificationAttempt(userId: string, phrase: string, confidence: real, isMatch: bool, now: int)
      modifies this
      requires Valid()
      ensures Valid()
      ensures verificationAttempts == old(verificationAttempts) + [Attempt(userId, phrase, confidence, isMatch, now)]
      ensures users == old(users) && sessions == old(sessions)
      ensures featureOwners == old(featureOwners) && voiceFeatures == old(voiceFeatures) && modelData == old(modelData)
    {
      verificationAttempts := verificationAttempts + [Attempt(userId, phrase, confidence, isMatch, now)];
    }

    /** `saveModel`: `loadModel` returns this value until the next save. */
    method SaveModel(data: M)
      modifies this
      requires Valid()
      ensures Valid()
      ensures modelData == Some(data)
      ensures users == old(users) && sessions == old(sessions) && verificationAttempts == old(verificationAttempts)
      ensures featureOwners == old(featureOwners) && voiceFeatures == old(voiceFeatures)
    {
      modelData := Some(data);
    }

    /** `loadModel`: null (None) before any save. */
    method LoadModel() returns (r: Option<M>)
      ensures r == modelData
    {
      r := modelData;
    }
  }

  // ---------------------------------------------------------------- properties of the queries

  /** The examples of a list of users are the examples of its parts. */
  lemma {:induction false} TrainingDataAppend<F>(a: seq<string>, b: seq<string>, store: map<string, seq<FeatureRecord<F>>>)
    requires forall u :: u in a + b ==> u in store
    ensures TrainingData(a + b, store) == TrainingData(a, store) + TrainingData(b, store)
    decreases |b|
  {
    if |b| == 0 {
      assert a + b == a;
    } else {
      var front, u := b[..|b| - 1], b[|b| - 1];
      assert b == front + [u];
      assert (a + b)[..|a + b| - 1] == a + front;
      assert (a + b)[|a + b| - 1] == u;
      forall x | x in a + front ensures x in store {
        assert x in a + b;
      }
      TrainingDataAppend(a, front, store);
      assert TrainingData(b, store) == TrainingData(front, store) + UserExamples(u, store[u]);
      assert TrainingData(a + b, store) == TrainingData(a + front, store) + UserExamples(u, store[u]);
    }
  }

  /** Changing the records of a user not in the list changes nothing. */
  lemma {:induction false} TrainingDataFrame<F>(owners: seq<string>, store: map<string, seq<FeatureRecord<F>>>,
                                                 userId: string, records: seq<FeatureRecord<F>>)
    requires forall u :: u in owners ==> u in store
    requires userId !in owners
    ensures TrainingData(owners, store[userId := records]) == TrainingData(owners, store)
    decreases |owners|
  {
    if |owners| > 0 {
      TrainingDataFrame(owners[..|owners| - 1], store, userId, records);
    }
  }

  /** Storing a sample for a new user adds one example at the very end. */
  lemma StoreNewUserTrainingData<F>(owners: seq<string>, store: map<string, seq<FeatureRecord<F>>>,
                                    userId: string, record: FeatureRecord<F>)
    requires forall u :: u in owners ==> u in store
    requires userId !in owners
    ensures TrainingData(owners + [userId], store[userId := [record]])
         == TrainingData(owners, store) + [(userId, record.features)]
  {
    TrainingDataFrame(owners, store, userId, [record]);
    assert (owners + [userId])[..|owners|] == owners;
  }

  /** Storing a sample for a known user, at position k of the order, adds one
      example at the end of that user's group; every other example keeps its
      place. */
  lemma StoreKnownUserTrainingData<F>(owners: seq<string>, store: map<string, seq<FeatureRecord<F>>>,
                                      k: nat, record: FeatureRecord<F>)
    requires forall u :: u in owners ==> u in store
    requires NoDuplicates(owners) && k < |owners|
    ensures var u := owners[k];
      TrainingData(owners, store) == TrainingData(owners[..k], store) + UserExamples(u, store[u]) + TrainingData(owners[k + 1..], store)
    ensures var u := owners[k];
      TrainingData(owners, store[u := store[u] + [record]])
        == TrainingData(owners[..k], store) + UserExamples(u, store[u]) + [(u, record.features)]
           + TrainingData(owners[k + 1..], store)
  {
    var u := owners[k];
    var store' := store[u := store[u] + [record]];
    var a, b := owners[..k], owners[k + 1..];
    assert owners == a + [u] + b;
    assert u !in a && u !in b by {
      forall i | 0 <= i < |a| ensures a[i] != u { assert a[i] == owners[i]; }
      forall i | 0 <= i < |b| ensures b[i] != u { assert b[i] == owners[k + 1 + i]; }
    }
    TrainingDataAppend(a + [u], b, store);
    TrainingDataAppend(a + [u], b, store');
    assert (a + [u])[..|a|] == a;
    TrainingDataFrame(a, store, u, store[u] + [record]);
    TrainingDataFrame(b, store, u, store[u] + [record]);
    assert UserExamples(u, store[u] + [record]) == UserExamples(u, store[u]) + [(u, record.features)];
  }

  /** A user is listed for a phrase exactly when they are in the store and
      have a record for it; with distinct keys, nobody is listed twice. */
  lemma {:induction false} UsersWithPhraseExact<F>(owners: seq<string>, store: map<string, seq<FeatureRecord<F>>>, phrase: string)
    requires forall u :: u in owners ==> u in store
    requires NoDuplicates(owners)
    ensures forall u :: u in UsersWithPhrase(owners, store, phrase) <==> u in owners && HasPhrase(store[u], phrase)
    ensures NoDuplicates(UsersWithPhrase(owners, store, phrase))
    ensures |UsersWithPhrase(owners, store, phrase)| <= |owners|
    decreases |owners|
  {
    if |owners| > 0 {
      var init := owners[..|owners| - 1];
      var last := owners[|owners| - 1];
      assert forall i :: 0 <= i < |init| ==> init[i] == owners[i];
      UsersWithPhraseExact(init, store, phrase);
      assert last !in init by {
        forall i | 0 <= i < |init| ensures init[i] != last { assert init[i] == owners[i]; }
      }
      assert owners == init + [last];
      var rest := UsersWithPhrase(init, store, phrase);
      var tail := if HasPhrase(store[last], phrase) then [last] else [];
      assert UsersWithPhrase(owners, store, phrase) == rest + tail;
      assert last !in rest;
      NoDuplicatesAppend(rest, tail);
    }
  }

  /** Appending a list without repeats whose elements are new keeps a list
      without repeats. */
  lemma NoDuplicatesAppend(a: seq<string>, b: seq<string>)
    requires NoDuplicates(a) && NoDuplicates(b)
    requires forall x :: x in b ==> x !in a
    ensures NoDuplicates(a + b)
  {
    forall i, j | 0 <= i < j < |a + b| ensures (a + b)[i] != (a + b)[j] {
      if j >= |a| && i < |a| {
        assert (a + b)[j] in b;
      }
    }
  }
}
