/** services/audioProcessor.js: feature normalisation, the embedding as the
    concatenation of every frame's values, cosine similarity, and the frame
    arithmetic of `extractFeatures`. */
module AudioProcessor {
  import opened Common

  /** A property value of a JavaScript feature object, as far as the code looks
      at it: a number, an array of numbers, or anything else. */
  datatype JsValue = Num(x: real) | Arr(xs: seq<real>) | Other

  /** A feature object, as its entries in `Object.entries` order. */
  type JsObject = Entries<JsValue>

  const DomainMin: real := -100.0
  const DomainMax: real := 100.0

  // ---------------------------------------------------------------- min-max normalisation

  /** `minMaxNormalize(value, min, max)`. The result is the position of `value`
      on the line through min (0) and max (1): mapping it back gives `value`. */
  function MinMaxNormalize(value: real, min: real, max: real): (r: real)
    requires min != max
    ensures r * (max - min) + min == value
  {
    (value - min) / (max - min)
  }

  /** On the fixed domain [-100, 100] the map is (v + 100) / 200: -100, 0 and 100
      go to 0, 0.5 and 1, it is strictly increasing, and it does not clamp. */
  lemma FixedDomainNormalize(v: real, w: real)
    ensures MinMaxNormalize(v, DomainMin, DomainMax) == (v + 100.0) / 200.0
    ensures MinMaxNormalize(-100.0, DomainMin, DomainMax) == 0.0
    ensures MinMaxNormalize(0.0, DomainMin, DomainMax) == 0.5
    ensures MinMaxNormalize(100.0, DomainMin, DomainMax) == 1.0
    ensures v < w ==> MinMaxNormalize(v, DomainMin, DomainMax) < MinMaxNormalize(w, DomainMin, DomainMax)
    ensures MinMaxNormalize(300.0, DomainMin, DomainMax) == 2.0
    ensures MinMaxNormalize(-300.0, DomainMin, DomainMax) == -1.0
  {
  }

  function NormalizeReal(v: real): real {
    MinMaxNormalize(v, DomainMin, DomainMax)
  }

  /** What `normalizeFeatures` does with one property value: numbers and arrays
      are normalised element by element, anything else is dropped. */
  function NormalizeValue(v: JsValue): (r: Option<JsValue>)
    ensures r.Some? <==> !v.Other?
    ensures v.Num? ==> r == Some(Num(NormalizeReal(v.x)))
    ensures v.Arr? ==> r.Some? && r.value.Arr? && |r.value.xs| == |v.xs|
    ensures v.Arr? ==> forall i :: 0 <= i < |v.xs| ==> r.value.xs[i] == NormalizeReal(v.xs[i])
  {
    match v
    case Num(x) => Some(Num(NormalizeReal(x)))
    case Arr(xs) => Some(Arr(seq(|xs|, i requires 0 <= i < |xs| => NormalizeReal(xs[i]))))
    case Other => None
  }

  /** Every value is a number or an array of numbers. */
  predicate Numeric(o: JsObject) {
    forall i :: 0 <= i < |o| ==> !o[i].1.Other?
  }

  /** `normalizeFeatures`: keeps, in order, the number- and array-valued keys. */
  function NormalizeFeatures(o: JsObject): (r: JsObject)
    ensures Numeric(r)
    ensures |r| <= |o|
    ensures forall i :: 0 <= i < |r| ==> exists j :: 0 <= j < |o| && o[j].0 == r[i].0
  {
    if |o| == 0 then []
    else
      var rest := NormalizeFeatures(o[1..]);
      match NormalizeValue(o[0].1)
      case None => rest
      case Some(v) => [(o[0].0, v)] + rest
  }

  /** Key by key, the normalised object holds exactly the normalised numbers and
      arrays of the input and nothing else. */
  lemma {:induction false} NormalizeFeaturesLookup(o: JsObject, key: string)
    requires UniqueKeys(o)
    ensures UniqueKeys(NormalizeFeatures(o))
    ensures Lookup(NormalizeFeatures(o), key)
         == if Lookup(o, key).Some? then NormalizeValue(Lookup(o, key).value) else None
  {
    if |o| > 0 {
      var tail := o[1..];
      assert UniqueKeys(tail) by {
        forall i, j | 0 <= i < j < |tail| ensures tail[i].0 != tail[j].0 {
          assert tail[i] == o[i + 1] && tail[j] == o[j + 1];
        }
      }
      NormalizeFeaturesLookup(tail, key);
      NormalizeFeaturesLookup(tail, o[0].0);
      forall j | 0 <= j < |tail| ensures tail[j].0 != o[0].0 {
        assert tail[j] == o[j + 1];
      }
    }
  }

  // ---------------------------------------------------------------- the embedding

  /** The numbers one property contributes: its elements or itself. */
  function ValueItems(v: JsValue): seq<real>
    requires !v.Other?
  {
    if v.Arr? then v.xs else [v.x]
  }

  /** The values of one object, in `Object.values` order, arrays spread. */
  function ObjectItems(o: JsObject): (r: seq<real>)
    requires Numeric(o)
    ensures |r| == ObjectSize(o)
  {
    if |o| == 0 then []
    else ObjectItems(o[..|o| - 1]) + ValueItems(o[|o| - 1].1)
  }

  function ObjectSize(o: JsObject): nat
    requires Numeric(o)
  {
    if |o| == 0 then 0
    else ObjectSize(o[..|o| - 1]) + (if o[|o| - 1].1.Arr? then |o[|o| - 1].1.xs| else 1)
  }

  predicate AllNumeric(objs: seq<JsObject>) {
    forall i :: 0 <= i < |objs| ==> Numeric(objs[i])
  }

  function TotalSize(objs: seq<JsObject>): nat
    requires AllNumeric(objs)
  {
    if |objs| == 0 then 0 else TotalSize(objs[..|objs| - 1]) + ObjectSize(objs[|objs| - 1])
  }

  /** The concatenation, frame after frame, of every frame's values. Its length
      is the total size of the frames, so it grows with the number of frames. */
  function Flatten(objs: seq<JsObject>): (r: seq<real>)
    requires AllNumeric(objs)
    ensures |r| == TotalSize(objs)
  {
    if |objs| == 0 then [] else Flatten(objs[..|objs| - 1]) + ObjectItems(objs[|objs| - 1])
  }

  /** Flattening distributes over concatenation of frame lists. */
  lemma {:induction false} FlattenAppend(a: seq<JsObject>, b: seq<JsObject>)
    requires AllNumeric(a) && AllNumeric(b)
    ensures AllNumeric(a + b)
    ensures Flatten(a + b) == Flatten(a) + Flatten(b)
    decreases |b|
  {
    assert AllNumeric(a + b) by {
      forall i | 0 <= i < |a + b| ensures Numeric((a + b)[i]) {
        if i < |a| { assert (a + b)[i] == a[i]; } else { assert (a + b)[i] == b[i - |a|]; }
      }
    }
    if |b| == 0 {
      assert a + b == a;
    } else {
      var b' := b[..|b| - 1];
      assert (a + b)[..|a + b| - 1] == a + b';
      FlattenAppend(a, b');
    }
  }

  /** `createEmbedding`: push every value of every feature object, spreading arrays. */
  method CreateEmbedding(features: seq<JsObject>) returns (embedding: seq<real>)
    requires AllNumeric(features)
    ensures embedding == Flatten(features)
    ensures |embedding| == TotalSize(features)
    ensures features == [] ==> embedding == []
  {
    embedding := [];
    for f := 0 to |features|
      invariant embedding == Flatten(features[..f])
    {
      var feature := features[f];
      ghost var before := embedding;
      for k := 0 to |feature|
        invariant embedding == before + ObjectItems(feature[..k])
      {
        var value := feature[k].1;
        if value.Arr? {
          embedding := embedding + value.xs;
        } else {
          embedding := embedding + [value.x];
        }
        assert feature[..k + 1][..k] == feature[..k];
      }
      assert feature[..|feature|] == feature;
      assert features[..f + 1][..f] == features[..f];
    }
    assert features[..|features|] == features;
  }

  // ---------------------------------------------------------------- cosine similarity

  /** The `dotProduct` (and, with a == b, the squared norm) the loop accumulates. */
  function Dot(a: seq<real>, b: seq<real>): real
    requires |a| == |b|
  {
    if |a| == 0 then 0.0 else Dot(a[..|a| - 1], b[..|b| - 1]) + a[|a| - 1] * b[|b| - 1]
  }

  /** The value `calculateSimilarity` returns for two vectors of equal length. */
  function Cosine(a: seq<real>, b: seq<real>, sqrt: real -> real): real
    requires |a| == |b|
  {
    var norm1 := sqrt(Dot(a, a));
    var norm2 := sqrt(Dot(b, b));
    if norm1 == 0.0 || norm2 == 0.0 then 0.0 else Dot(a, b) / (norm1 * norm2)
  }

  /** `calculateSimilarity`: throws on a length mismatch, otherwise accumulates
      the dot product and both squared norms in one loop. */
  method CalculateSimilarity(a: seq<real>, b: seq<real>, sqrt: real -> real) returns (r: Result<real>)
    ensures r.Err? <==> |a| != |b|
    ensures r.Err? ==> r.message == "Embeddings must have the same length"
    ensures r.Ok? ==> r.value == Cosine(a, b, sqrt)
  {
    if |a| != |b| {
      return Err("Embeddings must have the same length");
    }
    var dotProduct, norm1, norm2 := 0.0, 0.0, 0.0;
    for i := 0 to |a|
      invariant dotProduct == Dot(a[..i], b[..i])
      invariant norm1 == Dot(a[..i], a[..i]) && norm2 == Dot(b[..i], b[..i])
    {
      assert a[..i + 1][..i] == a[..i] && b[..i + 1][..i] == b[..i];
      dotProduct := dotProduct + a[i] * b[i];
      norm1 := norm1 + a[i] * a[i];
      norm2 := norm2 + b[i] * b[i];
    }
    assert a[..|a|] == a && b[..|b|] == b;
    norm1 := sqrt(norm1);
    norm2 := sqrt(norm2);
    if norm1 == 0.0 || norm2 == 0.0 {
      return Ok(0.0);
    }
    r := Ok(dotProduct / (norm1 * norm2));
  }

  lemma {:induction false} DotSymmetric(a: seq<real>, b: seq<real>)
    requires |a| == |b|
    ensures Dot(a, b) == Dot(b, a)
    decreases |a|
  {
    if |a| > 0 {
      DotSymmetric(a[..|a| - 1], b[..|b| - 1]);
    }
  }

  lemma {:induction false} DotSelfNonNegative(a: seq<real>)
    ensures Dot(a, a) >= 0.0
    decreases |a|
  {
    if |a| > 0 {
      DotSelfNonNegative(a[..|a| - 1]);
    }
  }

  /** Dot(a, a) is 0 exactly for the all-zero vectors (the empty one included). */
  lemma {:induction false} DotSelfZero(a: seq<real>)
    ensures Dot(a, a) == 0.0 <==> forall i :: 0 <= i < |a| ==> a[i] == 0.0
    decreases |a|
  {
    if |a| > 0 {
      var init := a[..|a| - 1];
      DotSelfZero(init);
      DotSelfNonNegative(init);
      assert forall i :: 0 <= i < |init| ==> a[i] == init[i];
      Square(a[|a| - 1]);
      assert Dot(a, a) == Dot(init, init) + a[|a| - 1] * a[|a| - 1];
    }
  }

  /** Similarity does not depend on the order of its arguments. */
  lemma CosineSymmetric(a: seq<real>, b: seq<real>, sqrt: real -> real)
    requires |a| == |b|
    ensures Cosine(a, b, sqrt) == Cosine(b, a, sqrt)
  {
    DotSymmetric(a, b);
    var n1, n2 := sqrt(Dot(a, a)), sqrt(Dot(b, b));
    assert n1 * n2 == n2 * n1;
  }

  /** Similarity with an all-zero vector, the empty one included, is 0. */
  lemma CosineOfZeroVector(a: seq<real>, b: seq<real>, sqrt: real -> real)
    requires |a| == |b| && IsSqrt(sqrt)
    requires (forall i :: 0 <= i < |a| ==> a[i] == 0.0) || (forall i :: 0 <= i < |b| ==> b[i] == 0.0)
    ensures Cosine(a, b, sqrt) == 0.0
  {
    DotSelfZero(a);
    DotSelfZero(b);
    SqrtZero(sqrt);
  }

  /** A vector with a non-zero norm is perfectly similar to itself. */
  lemma CosineSelf(a: seq<real>, sqrt: real -> real)
    requires IsSqrt(sqrt) && exists i :: 0 <= i < |a| && a[i] != 0.0
    ensures Cosine(a, a, sqrt) == 1.0
  {
    DotSelfZero(a);
    DotSelfNonNegative(a);
    var n := sqrt(Dot(a, a));
    assert Dot(a, a) > 0.0;
    var d := Dot(a, a);
    assert n * n == d;
    assert d / d == 1.0;
    assert Cosine(a, a, sqrt) == d / (n * n);
  }

  /** Cauchy-Schwarz: Dot(a, b)^2 <= Dot(a, a) * Dot(b, b). */
  lemma {:induction false} CauchySchwarz(a: seq<real>, b: seq<real>)
    requires |a| == |b|
    ensures Dot(a, b) * Dot(a, b) <= Dot(a, a) * Dot(b, b)
    decreases |a|
  {
    if |a| > 0 {
      var a', b' := a[..|a| - 1], b[..|b| - 1];
      CauchySchwarz(a', b');
      DotSelfNonNegative(a');
      DotSelfNonNegative(b');
      var x, y := a[|a| - 1], b[|b| - 1];
      var A, B, D := Dot(a', a'), Dot(b', b'), Dot(a', b');
      QuadraticFormNonNegative(A, B, D, x, y);
      assert (D + x * y) * (D + x * y) == D * D + 2.0 * D * x * y + x * x * y * y;
      assert (A + x * x) * (B + y * y) == A * B + A * y * y + B * x * x + x * x * y * y;
    }
  }

  /** A * y^2 + B * x^2 - 2 * D * x * y >= 0 when A, B >= 0 and D^2 <= A * B. */
  lemma QuadraticFormNonNegative(A: real, B: real, D: real, x: real, y: real)
    requires A >= 0.0 && B >= 0.0 && D * D <= A * B
    ensures A * y * y + B * x * x - 2.0 * D * x * y >= 0.0
  {
    var q := A * y * y + B * x * x - 2.0 * D * x * y;
    Square(D);
    Square(x);
    if A == 0.0 {
      assert D == 0.0;
      ProductNonNegative(B, x * x);
      assert q == B * (x * x);
    } else {
      var e := A * y - D * x;
      Square(e);
      ProductNonNegative(A * B - D * D, x * x);
      QuadraticIdentity(A, B, D, x, y);
      FactorNonNegative(A, q);
    }
  }

  /** A times the quadratic form is a square plus (A * B - D^2) * x^2. */
  lemma QuadraticIdentity(A: real, B: real, D: real, x: real, y: real)
    ensures A * (A * y * y + B * x * x - 2.0 * D * x * y)
         == (A * y - D * x) * (A * y - D * x) + (A * B - D * D) * (x * x)
  {
    var ay, dx := A * y, D * x;
    assert A * (A * y * y) == ay * ay;
    assert A * (B * x * x) == (A * B) * (x * x);
    assert A * (2.0 * D * x * y) == 2.0 * ay * dx;
    assert (ay - dx) * (ay - dx) == ay * ay - 2.0 * ay * dx + dx * dx;
    assert dx * dx == (D * D) * (x * x);
    assert (A * B - D * D) * (x * x) == (A * B) * (x * x) - (D * D) * (x * x);
  }

  /** Similarity lies in [-1, 1]. */
  lemma CosineBounded(a: seq<real>, b: seq<real>, sqrt: real -> real)
    requires |a| == |b| && IsSqrt(sqrt)
    ensures -1.0 <= Cosine(a, b, sqrt) <= 1.0
  {
    DotSelfNonNegative(a);
    DotSelfNonNegative(b);
    var n1, n2 := sqrt(Dot(a, a)), sqrt(Dot(b, b));
    if n1 != 0.0 && n2 != 0.0 {
      assert n1 > 0.0 && n1 * n1 == Dot(a, a);
      assert n2 > 0.0 && n2 * n2 == Dot(b, b);
      CauchySchwarz(a, b);
      RatioBounded(Dot(a, b), n1, n2, Dot(a, a), Dot(b, b));
      assert Cosine(a, b, sqrt) == Dot(a, b) / (n1 * n2);
    }
  }

  lemma RatioBounded(d: real, n1: real, n2: real, s1: real, s2: real)
    requires n1 > 0.0 && n2 > 0.0 && n1 * n1 == s1 && n2 * n2 == s2 && d * d <= s1 * s2
    ensures -1.0 <= d / (n1 * n2) <= 1.0
  {
    var p := n1 * n2;
    ProductNonNegative(n1, n2);
    ProductZero(n1, n2);
    assert p * p == s1 * s2;
    AbsBound(d, p);
    assert d / p * p == d;
  }

  /** d^2 <= p^2 with p > 0 puts d in [-p, p]. */
  lemma AbsBound(d: real, p: real)
    requires p > 0.0 && d * d <= p * p
    ensures -p <= d <= p
  {
    if d > p {
      ProductNonNegative(d - p, d + p);
      assert (d - p) * (d + p) == d * d - p * p;
      ProductZero(d - p, d + p);
    } else if d < -p {
      ProductNonNegative(-d - p, p - d);
      assert (-d - p) * (p - d) == d * d - p * p;
      ProductZero(-d - p, p - d);
    }
  }

  // ---------------------------------------------------------------- frames

  /** `Math.floor((audioData.length - frameSize) / hopSize)`; negative when the
      input is shorter than a frame, and then the loop makes no frame. */
  function FrameCount(len: nat, frameSize: nat, hopSize: nat): int
    requires hopSize > 0
  {
    (len - frameSize) / hopSize
  }

  /** Frame i starts at i * hopSize and, for every i the loop reaches, a whole
      frame fits before the end of the input. */
  lemma FrameFits(len: nat, frameSize: nat, hopSize: nat, i: nat)
    requires hopSize > 0 && i < FrameCount(len, frameSize, hopSize)
    ensures i * hopSize + frameSize + hopSize <= len
  {
    var c := FrameCount(len, frameSize, hopSize);
    assert c * hopSize <= len - frameSize;
    assert (i + 1) * hopSize <= c * hopSize by {
      assert i + 1 <= c;
      MultiplyMonotone(i + 1, c, hopSize);
    }
  }

  lemma MultiplyMonotone(a: int, b: int, k: nat)
    requires a <= b
    ensures a * k <= b * k
  {
  }

  /** The frames the loop slices: FrameCount of them when positive, each the
      whole slice [i * hopSize, i * hopSize + frameSize). */
  function Frames(audio: seq<real>, frameSize: nat, hopSize: nat): (frames: seq<seq<real>>)
    requires hopSize > 0
    ensures |frames| == if FrameCount(|audio|, frameSize, hopSize) > 0 then FrameCount(|audio|, frameSize, hopSize) else 0
    ensures forall i :: 0 <= i < |frames| ==> |frames[i]| == frameSize
  {
    var c := FrameCount(|audio|, frameSize, hopSize);
    var n := if c > 0 then c else 0;
    seq(n, i requires 0 <= i < n => FrameAt(audio, frameSize, hopSize, i))
  }

  /** `audioData.slice(start, end)` for frame i: a whole frame. */
  function FrameAt(audio: seq<real>, frameSize: nat, hopSize: nat, i: nat): (frame: seq<real>)
    requires hopSize > 0 && i < FrameCount(|audio|, frameSize, hopSize)
    ensures |frame| == frameSize
  {
    FrameFits(|audio|, frameSize, hopSize, i);
    audio[i * hopSize .. i * hopSize + frameSize]
  }

  /** The features kept from the frames: `meyda.extract` may give nothing for a
      frame, and what it gives is normalised. */
  function KeptFeatures(frames: seq<seq<real>>, extract: seq<real> -> Option<JsObject>): (r: seq<JsObject>)
    ensures |r| <= |frames|
    ensures AllNumeric(r)
  {
    if |frames| == 0 then []
    else
      var init := KeptFeatures(frames[..|frames| - 1], extract);
      match extract(frames[|frames| - 1])
      case None => init
      case Some(f) => init + [NormalizeFeatures(f)]
  }

  /** One more frame adds its normalised features, if it has any. */
  lemma KeptFeaturesStep(frames: seq<seq<real>>, extract: seq<real> -> Option<JsObject>, i: nat)
    requires i < |frames|
    ensures extract(frames[i]).None? ==> KeptFeatures(frames[..i + 1], extract) == KeptFeatures(frames[..i], extract)
    ensures extract(frames[i]).Some? ==>
      KeptFeatures(frames[..i + 1], extract) == KeptFeatures(frames[..i], extract) + [NormalizeFeatures(extract(frames[i]).value)]
  {
    var p := frames[..i + 1];
    assert p[..|p| - 1] == frames[..i];
    assert p[|p| - 1] == frames[i];
  }

  /** The frame loop of `extractFeatures`, with the frame and hop sizes that the
      static method means to read (see README) passed in. */
  method ExtractFeatures(audio: seq<real>, frameSize: nat, hopSize: nat,
                         extract: seq<real> -> Option<JsObject>)
    returns (features: seq<JsObject>)
    requires hopSize > 0
    ensures features == KeptFeatures(Frames(audio, frameSize, hopSize), extract)
    ensures |features| <= if FrameCount(|audio|, frameSize, hopSize) > 0 then FrameCount(|audio|, frameSize, hopSize) else 0
    ensures AllNumeric(features)
  {
    features := [];
    var frameCount := (|audio| - frameSize) / hopSize;
    ghost var frames := Frames(audio, frameSize, hopSize);
    var i := 0;
    while i < frameCount
      invariant |frames| == if frameCount > 0 then frameCount else 0
      invariant 0 <= i <= |frames|
      invariant features == KeptFeatures(frames[..i], extract)
    {
      var start := i * hopSize;
      var end := start + frameSize;
      FrameFits(|audio|, frameSize, hopSize, i);
      var frame := audio[start..end];
      assert frame == frames[i];
      KeptFeaturesStep(frames, extract, i);
      var frameFeatures := extract(frame);
      if frameFeatures.Some? {
        features := features + [NormalizeFeatures(frameFeatures.value)];
      }
      i := i + 1;
    }
    assert frames[..i] == frames;
  }

  // ---------------------------------------------------------------- the static field read

  /** The frame size and hop size the constructor gives an instance. */
  const InstanceFrameSize: nat := 512
  const InstanceHopSize: nat := 256

  /** `Math.floor((audioData.length - this.frameSize) / this.hopSize)` when the
      fields may be absent (`None`): arithmetic on `undefined` is NaN, shown as
      `None`. */
  function JsFrameCount(len: nat, frameSize: Option<nat>, hopSize: Option<nat>): (r: Option<int>)
    requires hopSize != Some(0)
    ensures r.None? <==> frameSize.None? || hopSize.None?
    ensures r.Some? ==> r.value == FrameCount(len, frameSize.value, hopSize.value)
  {
    if frameSize.None? || hopSize.None? then None
    else Some(FrameCount(len, frameSize.value, hopSize.value))
  }

  /** What the frame loop returns when the sizes it reads may be absent:
      nothing when either is, otherwise the kept features of the whole
      frames. */
  function FeaturesFromFields(audio: seq<real>, frameSize: Option<nat>, hopSize: Option<nat>,
                              extract: seq<real> -> Option<JsObject>): (r: seq<JsObject>)
    requires hopSize != Some(0)
    ensures AllNumeric(r)
    ensures frameSize.None? || hopSize.None? ==> r == []
    ensures |r| <= if JsFrameCount(|audio|, frameSize, hopSize).Some? && JsFrameCount(|audio|, frameSize, hopSize).value > 0
                   then JsFrameCount(|audio|, frameSize, hopSize).value else 0
  {
    match JsFrameCount(|audio|, frameSize, hopSize)
    case None => []
    case Some(_) => KeptFeatures(Frames(audio, frameSize.value, hopSize.value), extract)
  }

  /** The frame loop of `extractFeatures` with the fields it reads from `this`.
      The method is static, so `this` is the class, which has neither field:
      as written it runs with `None` for both. A NaN frame count makes `i <
      frameCount` false at once. */
  method ExtractFeaturesFromFields(audio: seq<real>, frameSize: Option<nat>, hopSize: Option<nat>,
                                   extract: seq<real> -> Option<JsObject>)
    returns (features: seq<JsObject>)
    requires hopSize != Some(0)
    ensures frameSize.None? || hopSize.None? ==> features == []
    ensures frameSize.Some? && hopSize.Some? ==>
      features == KeptFeatures(Frames(audio, frameSize.value, hopSize.value), extract)
    ensures features == FeaturesFromFields(audio, frameSize, hopSize, extract)
  {
    var frameCount := JsFrameCount(|audio|, frameSize, hopSize);
    if frameCount.None? {
      return [];
    }
    features := ExtractFeatures(audio, frameSize.value, hopSize.value, extract);
  }

  /** What the static read loses: with the instance's sizes, a buffer of 1024
      samples whose frames all yield features gives two feature objects,
      where the static read gives none. */
  lemma StaticReadLosesFrames(audio: seq<real>, extract: seq<real> -> Option<JsObject>)
    requires |audio| == 1024
    requires forall frame :: extract(frame).Some?
    ensures |KeptFeatures(Frames(audio, InstanceFrameSize, InstanceHopSize), extract)| == 2
    ensures |FeaturesFromFields(audio, Some(InstanceFrameSize), Some(InstanceHopSize), extract)| == 2
    ensures FeaturesFromFields(audio, None, None, extract) == []
  {
    var frames := Frames(audio, InstanceFrameSize, InstanceHopSize);
    assert |frames| == 2;
    KeptFeaturesTotal(frames, extract);
  }

  /** When `meyda.extract` always yields features, every frame is kept. */
  lemma {:induction false} KeptFeaturesTotal(frames: seq<seq<real>>, extract: seq<real> -> Option<JsObject>)
    requires forall frame :: extract(frame).Some?
    ensures |KeptFeatures(frames, extract)| == |frames|
  {
    if |frames| > 0 {
      KeptFeaturesTotal(frames[..|frames| - 1], extract);
      assert extract(frames[|frames| - 1]).Some?;
    }
  }
}
