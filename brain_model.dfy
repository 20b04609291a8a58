/** services/brainModelService.js: the `isTrained` state machine around a
    brain.js network, the training examples built from stored embeddings, and
    the match decisions. The network is a value of an opaque type `N`; its
    `train` and `run` are parameters. `run` gives the output object as its
    entries in `Object.entries` order, or the message of what it threw. */
module BrainModel {
  import opened Common

  /** A confidence strictly above this is a match. */
  const MatchThreshold: real := 0.7

  /** A row of the enrolment query: the user id and the stored JSON embedding. */
  datatype Row = Row(userId: string, embedding: string)

  /** A brain.js training example `{ input, output }`. */
  datatype Example = Example(input: seq<real>, output: Entries<real>)

  /** `{ userId, confidence, isMatch }`; `userId` is null (None) when nobody matched. */
  datatype Prediction = Prediction(userId: Option<string>, confidence: real, isMatch: bool)

  // ---------------------------------------------------------------- confidence and the threshold

  /** `output[userId] || 0`: a missing key counts as 0. */
  function Confidence(output: Entries<real>, userId: string): (c: real)
    ensures Lookup(output, userId).None? ==> c == 0.0
    ensures Lookup(output, userId).Some? ==> c == Lookup(output, userId).value
  {
    match Lookup(output, userId)
    case None => 0.0
    case Some(v) => v
  }

  predicate IsMatch(confidence: real) {
    confidence > MatchThreshold
  }

  // ---------------------------------------------------------------- arg-max

  /** The (bestMatch, highestConfidence) pair the loop `if (confidence >
      highestConfidence) { ... }` leaves after scanning `candidates`, starting
      from (null, 0). */
  function ArgMax(candidates: seq<(string, real)>): (Option<string>, real)
  {
    if |candidates| == 0 then (None, 0.0)
    else
      var (best, highest) := ArgMax(candidates[..|candidates| - 1]);
      var (id, confidence) := candidates[|candidates| - 1];
      if confidence > highest then (Some(id), confidence) else (best, highest)
  }

  /** The arg-max picks the first candidate, in order, with the greatest
      confidence, provided that confidence is above 0; when no confidence is
      above 0 it picks nobody and reports 0. */
  lemma {:induction false} ArgMaxIsFirstMaximum(candidates: seq<(string, real)>)
    ensures ArgMax(candidates).1 >= 0.0
    ensures forall j :: 0 <= j < |candidates| ==> candidates[j].1 <= ArgMax(candidates).1
    ensures ArgMax(candidates).0.None? <==> forall j :: 0 <= j < |candidates| ==> candidates[j].1 <= 0.0
    ensures ArgMax(candidates).0.None? ==> ArgMax(candidates).1 == 0.0
    ensures ArgMax(candidates).0.Some? ==>
      exists i :: (0 <= i < |candidates| &&
        candidates[i] == (ArgMax(candidates).0.value, ArgMax(candidates).1) &&
        ArgMax(candidates).1 > 0.0 &&
        forall j :: 0 <= j < i ==> candidates[j].1 < ArgMax(candidates).1)
    decreases |candidates|
  {
    if |candidates| > 0 {
      var init := candidates[..|candidates| - 1];
      ArgMaxIsFirstMaximum(init);
      assert forall j :: 0 <= j < |init| ==> init[j] == candidates[j];
      var (best, highest) := ArgMax(init);
      var (id, confidence) := candidates[|candidates| - 1];
      if confidence > highest {
        assert candidates[|candidates| - 1] == (id, confidence);
      } else if best.Some? {
        var i :| 0 <= i < |init| && init[i] == (best.value, highest) && highest > 0.0 &&
          forall j :: 0 <= j < i ==> init[j].1 < highest;
        assert candidates[i] == (best.value, highest);
      }
    }
  }

  /** The loop itself: `for (const [userId, confidence] of ...)`. */
  method BestMatch(candidates: seq<(string, real)>) returns (bestMatch: Option<string>, highestConfidence: real)
    ensures (bestMatch, highestConfidence) == ArgMax(candidates)
  {
    bestMatch, highestConfidence := None, 0.0;
    for i := 0 to |candidates|
      invariant (bestMatch, highestConfidence) == ArgMax(candidates[..i])
    {
      assert candidates[..i + 1][..i] == candidates[..i];
      var (userId, confidence) := candidates[i];
      if confidence > highestConfidence {
        highestConfidence := confidence;
        bestMatch := Some(userId);
      }
    }
    assert candidates[..|candidates|] == candidates;
  }

  // ---------------------------------------------------------------- training data

  /** The example of one row, or None when `JSON.parse` throws. */
  function ExampleOf(row: Row, parse: string -> Result<seq<real>>): Option<Example>
  {
    match parse(row.embedding)
    case Err(_) => None
    case Ok(embedding) => Some(Example(embedding, [(row.userId, 1.0)]))
  }

  /** The examples of the rows that parse, in row order. */
  function ExamplesOf(rows: seq<Row>, parse: string -> Result<seq<real>>): seq<Example>
  {
    if |rows| == 0 then []
    else
      var init := ExamplesOf(rows[..|rows| - 1], parse);
      match ExampleOf(rows[|rows| - 1], parse)
      case None => init
      case Some(e) => init + [e]
  }

  /** `prepareTrainingData`'s result: [] when the query throws. */
  function TrainingExamples(query: Result<seq<Row>>, parse: string -> Result<seq<real>>): seq<Example>
  {
    match query
    case Err(_) => []
    case Ok(rows) => ExamplesOf(rows, parse)
  }

  /** One example per row that parses, never more than one per row, each with
      the row's embedding as input and `{ [user_id]: 1 }` as output. */
  lemma {:induction false} ExamplesOfRows(rows: seq<Row>, parse: string -> Result<seq<real>>)
    ensures |ExamplesOf(rows, parse)| <= |rows|
    ensures (forall i :: 0 <= i < |rows| ==> parse(rows[i].embedding).Ok?) ==> |ExamplesOf(rows, parse)| == |rows|
    ensures (forall i :: 0 <= i < |rows| ==> parse(rows[i].embedding).Err?) ==> ExamplesOf(rows, parse) == []
    ensures forall e :: e in ExamplesOf(rows, parse) <==>
      exists i :: 0 <= i < |rows| && ExampleOf(rows[i], parse) == Some(e)
    decreases |rows|
  {
    if |rows| > 0 {
      var init := rows[..|rows| - 1];
      ExamplesOfRows(init, parse);
      assert forall i :: 0 <= i < |init| ==> init[i] == rows[i];
      forall e | exists i :: 0 <= i < |rows| && ExampleOf(rows[i], parse) == Some(e)
        ensures e in ExamplesOf(rows, parse)
      {
        var i :| 0 <= i < |rows| && ExampleOf(rows[i], parse) == Some(e);
        if i < |init| {
          assert ExampleOf(init[i], parse) == Some(e);
        }
      }
    }
  }

  /** Every example teaches the network exactly one user with target 1. */
  lemma ExamplesOutputs(query: Result<seq<Row>>, parse: string -> Result<seq<real>>)
    ensures forall e :: e in TrainingExamples(query, parse) ==>
      query.Ok? && exists i :: 0 <= i < |query.value| && e.output == [(query.value[i].userId, 1.0)]
  {
    if query.Ok? {
      ExamplesOfRows(query.value, parse);
    }
  }

  /** `prepareTrainingData`: `JSON.parse` each row, skipping rows it throws on. */
  method PrepareTrainingData(query: Result<seq<Row>>, parse: string -> Result<seq<real>>)
    returns (trainingData: seq<Example>)
    ensures trainingData == TrainingExamples(query, parse)
  {
    if query.Err? {
      return [];
    }
    var enrollments := query.value;
    if |enrollments| == 0 {
      return [];
    }
    trainingData := [];
    for k := 0 to |enrollments|
      invariant trainingData == ExamplesOf(enrollments[..k], parse)
    {
      assert enrollments[..k + 1][..k] == enrollments[..k];
      var embedding := parse(enrollments[k].embedding);
      if embedding.Ok? {
        trainingData := trainingData + [Example(embedding.value, [(enrollments[k].userId, 1.0)])];
      }
    }
    assert enrollments[..|enrollments|] == enrollments;
  }

  // ---------------------------------------------------------------- the decisions

  /** `predict` after the network has run: the user's confidence, or 0 and no
      match when `run` threw. */
  function PredictFrom(output: Result<Entries<real>>, userId: string): (p: Prediction)
    ensures p.userId == Some(userId)
    ensures p.isMatch <==> IsMatch(p.confidence)
    ensures output.Err? ==> p.confidence == 0.0 && !p.isMatch
    ensures output.Ok? ==> p.confidence == Confidence(output.value, userId)
  {
    match output
    case Err(_) => Prediction(Some(userId), 0.0, false)
    case Ok(out) =>
      var confidence := Confidence(out, userId);
      Prediction(Some(userId), confidence, IsMatch(confidence))
  }

  /** `identifySpeaker` after the network has run: the arg-max over the
      output, or a null user with 0 when `run` threw. */
  function IdentifyFrom(output: Result<Entries<real>>): (p: Prediction)
    ensures p.isMatch <==> IsMatch(p.confidence)
    ensures p.confidence >= 0.0
    ensures p.userId.None? ==> p.confidence == 0.0 && !p.isMatch
    ensures output.Err? ==> p == Prediction(None, 0.0, false)
    ensures output.Ok? ==> forall j :: 0 <= j < |output.value| ==> output.value[j].1 <= p.confidence
  {
    match output
    case Err(_) => Prediction(None, 0.0, false)
    case Ok(out) =>
      ArgMaxIsFirstMaximum(out);
      var (best, highest) := ArgMax(out);
      Prediction(best, highest, IsMatch(highest))
  }

  /** The state `trainModel` leaves: (returned, net, isTrained). With no
      examples, or when `train` throws, nothing changes and it returns false. */
  function TrainStep<N>(net: N, isTrained: bool, examples: seq<Example>,
                        train: (N, seq<Example>) -> Result<N>): (bool, N, bool)
  {
    if |examples| == 0 then (false, net, isTrained)
    else match train(net, examples)
      case Err(_) => (false, net, isTrained)
      case Ok(trained) => (true, trained, true)
  }

  /** Training can only switch `isTrained` on, and it reports success exactly
      when it did so with a non-empty example set. */
  lemma TrainStepMonotone<N>(net: N, isTrained: bool, examples: seq<Example>, train: (N, seq<Example>) -> Result<N>)
    ensures isTrained ==> TrainStep(net, isTrained, examples, train).2
    ensures TrainStep(net, isTrained, examples, train).0 <==> |examples| > 0 && train(net, examples).Ok?
    ensures TrainStep(net, isTrained, examples, train).0 ==> TrainStep(net, isTrained, examples, train).2
    ensures !TrainStep(net, isTrained, examples, train).0 ==>
      TrainStep(net, isTrained, examples, train).1 == net && TrainStep(net, isTrained, examples, train).2 == isTrained
  {
  }

  class BrainModelService<N> {
    var net: N
    var isTrained: bool

    constructor (initial: N)
      ensures net == initial && !isTrained
    {
      net := initial;
      isTrained := false;
    }

    /** `trainModel`. */
    method TrainModel(query: Result<seq<Row>>, parse: string -> Result<seq<real>>,
                      train: (N, seq<Example>) -> Result<N>) returns (ok: bool)
      modifies this
      ensures (ok, net, isTrained) == TrainStep(old(net), old(isTrained), TrainingExamples(query, parse), train)
    {
      var trainingData := PrepareTrainingData(query, parse);
      if |trainingData| == 0 {
        return false;
      }
      var result := train(net, trainingData);
      if result.Err? {
        return false;
      }
      net := result.value;
      isTrained := true;
      return true;
    }

    /** `predict`: trains first exactly when not yet trained. */
    method Predict(userId: string, embedding: seq<real>,
                   query: Result<seq<Row>>, parse: string -> Result<seq<real>>,
                   train: (N, seq<Example>) -> Result<N>,
                   run: (N, seq<real>) -> Result<Entries<real>>) returns (p: Prediction)
      modifies this
      ensures old(isTrained) ==> net == old(net) && isTrained
      ensures !old(isTrained) ==>
        (net, isTrained) == (TrainStep(old(net), false, TrainingExamples(query, parse), train).1,
                             TrainStep(old(net), false, TrainingExamples(query, parse), train).2)
      ensures p == PredictFrom(run(net, embedding), userId)
    {
      if !isTrained {
        var _ := TrainModel(query, parse, train);
      }
      var output := run(net, embedding);
      if output.Err? {
        return Prediction(Some(userId), 0.0, false);
      }
      var confidence := Confidence(output.value, userId);
      p := Prediction(Some(userId), confidence, confidence > MatchThreshold);
    }

    /** `identifySpeaker`: trains first exactly when not yet trained, then takes
        the arg-max over the network's output. */
    method IdentifySpeaker(embedding: seq<real>,
                           query: Result<seq<Row>>, parse: string -> Result<seq<real>>,
                           train: (N, seq<Example>) -> Result<N>,
                           run: (N, seq<real>) -> Result<Entries<real>>) returns (p: Prediction)
      modifies this
      ensures old(isTrained) ==> net == old(net) && isTrained
      ensures !old(isTrained) ==>
        (net, isTrained) == (TrainStep(old(net), false, TrainingExamples(query, parse), train).1,
                             TrainStep(old(net), false, TrainingExamples(query, parse), train).2)
      ensures p == IdentifyFrom(run(net, embedding))
    {
      if !isTrained {
        var _ := TrainModel(query, parse, train);
      }
      var output := run(net, embedding);
      if output.Err? {
        return Prediction(None, 0.0, false);
      }
      var bestMatch, highestConfidence := BestMatch(output.value);
      p := Prediction(bestMatch, highestConfidence, highestConfidence > MatchThreshold);
    }
  }
}
