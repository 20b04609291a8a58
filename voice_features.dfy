/** services/voiceService.js, the feature front end: framing, the direct DFT
    behind `simpleFFT`, the 13-bin "MFCC", spectral centroid, RMS, zero
    crossing rate, and `flattenFeatures`. Math.cos, Math.sin and Math.sqrt are
    parameters; everything else is computed over the reals. */
module VoiceFeatures {
  import opened Common
  import opened AudioProcessor
  import AudioUtils
  import WavHeader

  const FrameSize: nat := 512
  const HopSize: nat := 256
  const NumFilters: nat := 13
  /** `Math.PI`. */
  const Pi: real := 3.141592653589793

  /** The functions of JavaScript's `Math` that the features call. */
  datatype MathLib = MathLib(sqrt: real -> real, cos: real -> real, sin: real -> real)

  /** The features `extractAudioFeatures` computes for one frame. */
  datatype FrameFeatures = FrameFeatures(mfcc: seq<real>, spectralCentroid: real, rms: real, zcr: real)

  // ---------------------------------------------------------------- framing

  /** The number of iterations of `for (i = 0; i < len - 512; i += 256)`:
      the ceiling of (len - 512) / 256 when len > 512, otherwise none. */
  function VoiceFrameCount(len: nat): nat
  {
    if len > FrameSize then (len - FrameSize + HopSize - 1) / HopSize else 0
  }

  /** Frame k exists exactly when its start k * 256 is strictly below len - 512,
      so every frame is a whole 512-sample slice that ends strictly before the
      end of the input: a frame that would end exactly at the end is not made. */
  lemma FrameStarts(len: nat, k: nat)
    ensures k < VoiceFrameCount(len) <==> k * HopSize < len - FrameSize
    ensures k < VoiceFrameCount(len) ==> k * HopSize + FrameSize < len
  {
  }

  /** The frame-by-frame features `extractAudioFeatures` returns: one entry
      per window start k * 256, each for the whole 512-sample window. */
  function FramesOf(audio: seq<real>, math: MathLib): (r: seq<FrameFeatures>)
    ensures |r| == VoiceFrameCount(|audio|)
    ensures forall k :: 0 <= k < |r| ==> |r[k].mfcc| == NumFilters
  {
    seq(VoiceFrameCount(|audio|), k requires 0 <= k < VoiceFrameCount(|audio|) => FrameAt(audio, k, math))
  }

  /** The features of window k. */
  function FrameAt(audio: seq<real>, k: nat, math: MathLib): (f: FrameFeatures)
    requires k < VoiceFrameCount(|audio|)
    ensures |f.mfcc| == NumFilters
  {
    FrameStarts(|audio|, k);
    FeaturesOf(audio[k * HopSize .. k * HopSize + FrameSize], math)
  }

  /** `extractAudioFeatures`: slides a 512-sample window by 256 samples while
      the start is below len - 512 and computes the four features of each. */
  method ExtractAudioFeatures(audio: seq<real>, math: MathLib) returns (features: seq<FrameFeatures>)
    ensures features == FramesOf(audio, math)
  {
    ghost var all := FramesOf(audio, math);
    features := [];
    var i := 0;
    while i < |audio| - FrameSize
      invariant i == |features| * HopSize && |features| <= |all|
      invariant features == all[..|features|]
      decreases |audio| - i
    {
      FrameStarts(|audio|, |features|);
      var frame := audio[i .. i + FrameSize];
      var f := ComputeFrameFeatures(frame, math);
      FrameIsNext(audio, math, |features|, frame);
      assert all[..|features| + 1] == all[..|features|] + [f];
      features := features + [f];
      i := i + HopSize;
    }
    FrameStarts(|audio|, |features|);
    assert features == all;
  }

  /** The window the loop cuts at start k * 256 gives the k-th frame record. */
  lemma FrameIsNext(audio: seq<real>, math: MathLib, k: nat, frame: seq<real>)
    requires k < VoiceFrameCount(|audio|) && k * HopSize + FrameSize <= |audio|
    requires frame == audio[k * HopSize .. k * HopSize + FrameSize]
    ensures FeaturesOf(frame, math) == FramesOf(audio, math)[k]
  {
  }

  /** The object literal of one loop iteration. */
  method ComputeFrameFeatures(frame: seq<real>, math: MathLib) returns (f: FrameFeatures)
    requires |frame| == FrameSize
    ensures f == FeaturesOf(frame, math)
  {
    var mfcc := ExtractMfcc(frame, math);
    var centroid := CalculateSpectralCentroid(frame, math);
    var rms := CalculateRms(frame, math.sqrt);
    var zcr := CalculateZcr(frame);
    f := FrameFeatures(mfcc.value, centroid.value, rms, zcr);
  }

  /** What one frame contributes. */
  function FeaturesOf(frame: seq<real>, math: MathLib): (f: FrameFeatures)
    requires |frame| % 2 == 0 && |frame| >= 2 * NumFilters
    ensures |f.mfcc| == NumFilters
  {
    var magnitudes := Magnitudes(frame, math);
    FrameFeatures(MfccOf(magnitudes), Centroid(magnitudes), Rms(frame, math.sqrt), Zcr(frame))
  }

  // ---------------------------------------------------------------- the DFT

  /** `(2 * Math.PI * i * j) / n`. */
  function Angle(i: nat, j: nat, n: nat): real
    requires n > 0
  {
    2.0 * Pi * (i as real) * (j as real) / (n as real)
  }

  /** `real` after the first k terms of the inner loop for bin i. */
  function DftRe(signal: seq<real>, i: nat, k: nat, math: MathLib): real
    requires k <= |signal|
  {
    if k == 0 then 0.0
    else DftRe(signal, i, k - 1, math) + signal[k - 1] * math.cos(Angle(i, k - 1, |signal|))
  }

  /** `imag` after the first k terms of the inner loop for bin i. */
  function DftIm(signal: seq<real>, i: nat, k: nat, math: MathLib): real
    requires k <= |signal|
  {
    if k == 0 then 0.0
    else DftIm(signal, i, k - 1, math) - signal[k - 1] * math.sin(Angle(i, k - 1, |signal|))
  }

  /** `real * real + imag * imag`. */
  function Power(re: real, im: real): real
  {
    re * re + im * im
  }

  /** The magnitude of bin i: the root of its power. */
  function Magnitude(signal: seq<real>, i: nat, math: MathLib): real
  {
    math.sqrt(Power(DftRe(signal, i, |signal|, math), DftIm(signal, i, |signal|, math)))
  }

  /** The n / 2 magnitudes `simpleFFT` returns for a signal of even length n. */
  function Magnitudes(signal: seq<real>, math: MathLib): (m: seq<real>)
    ensures |m| == |signal| / 2
  {
    seq(|signal| / 2, i requires 0 <= i < |signal| / 2 => Magnitude(signal, i, math))
  }

  /** `simpleFFT`: the direct DFT, bin by bin. For an odd length `new Array(n / 2)`
      gets a fractional length and throws a RangeError. */
  method SimpleFFT(signal: seq<real>, math: MathLib) returns (r: Result<seq<real>>)
    ensures r.Err? <==> |signal| % 2 == 1
    ensures r.Ok? ==> r.value == Magnitudes(signal, math) && |r.value| == |signal| / 2
  {
    var n := |signal|;
    if n % 2 == 1 {
      return Err("Invalid array length");
    }
    var magnitudes := new real[n / 2];
    for i := 0 to n / 2
      invariant forall k :: 0 <= k < i ==> magnitudes[k] == Magnitude(signal, k, math)
    {
      var re, im := 0.0, 0.0;
      for j := 0 to n
        invariant re == DftRe(signal, i, j, math) && im == DftIm(signal, i, j, math)
      {
        var angle := Angle(i, j, n);
        re := re + signal[j] * math.cos(angle);
        im := im - signal[j] * math.sin(angle);
      }
      magnitudes[i] := math.sqrt(Power(re, im));
    }
    return Ok(magnitudes[..]);
  }

  /** With a square root, every magnitude is non-negative. */
  lemma MagnitudesNonNegative(signal: seq<real>, math: MathLib)
    requires IsSqrt(math.sqrt)
    ensures forall i :: 0 <= i < |Magnitudes(signal, math)| ==> Magnitudes(signal, math)[i] >= 0.0
  {
    forall i | 0 <= i < |signal| / 2
      ensures Magnitude(signal, i, math) >= 0.0
    {
      var re := DftRe(signal, i, |signal|, math);
      var im := DftIm(signal, i, |signal|, math);
      Square(re);
      Square(im);
    }
  }

  // ---------------------------------------------------------------- the 13 bins

  /** `Math.floor((i * m) / 13)`: bin i covers [BinStart(i), BinStart(i + 1)). */
  function BinStart(i: nat, m: nat): nat
  {
    (i * m) / NumFilters
  }

  /** Bin starts never decrease with i. */
  lemma BinMonotone(i: nat, k: nat, m: nat)
    requires i <= k
    ensures BinStart(i, m) <= BinStart(k, m)
  {
    assert i * m <= k * m by {
      assert k * m == i * m + (k - i) * m;
    }
  }

  /** The bins run from 0 to m, each ends where the next starts, and with at
      least 13 magnitudes none of them is empty. */
  lemma BinBounds(i: nat, m: nat)
    requires i < NumFilters
    ensures BinStart(0, m) == 0 && BinStart(NumFilters, m) == m
    ensures BinStart(i, m) <= BinStart(i + 1, m) <= m
    ensures m >= NumFilters ==> BinStart(i, m) < BinStart(i + 1, m)
  {
    BinMonotone(i, i + 1, m);
    BinMonotone(i + 1, NumFilters, m);
    assert (i + 1) * m == i * m + m;
  }

  /** The bins partition [0, m): every index lies in exactly one of them. */
  lemma BinsPartition(m: nat, j: nat)
    requires j < m
    ensures exists i :: 0 <= i < NumFilters && InBin(i, m, j)
    ensures forall i, k :: 0 <= i < k < NumFilters ==>
      !(InBin(i, m, j) && InBin(k, m, j))
  {
    BinBounds(0, m);
    var i := BinOf(m, j, NumFilters - 1);
    assert InBin(i, m, j);
    forall i, k | 0 <= i < k < NumFilters
      ensures !(InBin(i, m, j) && InBin(k, m, j))
    {
      BinMonotone(i + 1, k, m);
    }
  }

  predicate InBin(i: nat, m: nat, j: nat) {
    BinStart(i, m) <= j < BinStart(i + 1, m)
  }

  /** The last bin, at or below `top`, that starts at or before j. */
  ghost function BinOf(m: nat, j: nat, top: nat): (i: nat)
    requires j < m && top < NumFilters
    requires j < BinStart(top + 1, m)
    ensures i <= top && BinStart(i, m) <= j < BinStart(i + 1, m)
    decreases top
  {
    if BinStart(top, m) <= j || top == 0 then top else BinOf(m, j, top - 1)
  }

  /** The mean of bin i: `sum / (end - start)`. */
  function BinMean(magnitudes: seq<real>, i: nat): real
    requires i < NumFilters && |magnitudes| >= NumFilters
  {
    BinBounds(i, |magnitudes|);
    var start, end := BinStart(i, |magnitudes|), BinStart(i + 1, |magnitudes|);
    Sum(magnitudes[start..end]) / ((end - start) as real)
  }

  /** The 13 values `extractMFCC` returns. */
  function MfccOf(magnitudes: seq<real>): (r: seq<real>)
    requires |magnitudes| >= NumFilters
    ensures |r| == NumFilters
  {
    seq(NumFilters, i requires 0 <= i < NumFilters => BinMean(magnitudes, i))
  }

  /** The inner loop of `extractMFCC`: the sum of the magnitudes of one bin. */
  method SumRange(magnitudes: seq<real>, start: nat, end: nat) returns (sum: real)
    requires start <= end <= |magnitudes|
    ensures sum == Sum(magnitudes[start..end])
  {
    sum := 0.0;
    for j := start to end
      invariant sum == Sum(magnitudes[start..j])
    {
      assert magnitudes[start..j + 1][..j - start] == magnitudes[start..j];
      sum := sum + magnitudes[j];
    }
  }

  /** `extractMFCC`: averages the magnitudes of each of the 13 bins. */
  method ExtractMfcc(frame: seq<real>, math: MathLib) returns (r: Result<seq<real>>)
    requires |frame| >= 2 * NumFilters
    ensures r.Err? <==> |frame| % 2 == 1
    ensures r.Ok? ==> r.value == MfccOf(Magnitudes(frame, math)) && |r.value| == NumFilters
  {
    var fft := SimpleFFT(frame, math);
    if fft.Err? {
      return Err(fft.message);
    }
    var magnitudes := fft.value;
    var mfccs := [];
    for i := 0 to NumFilters
      invariant mfccs == MfccOf(magnitudes)[..i]
    {
      BinBounds(i, |magnitudes|);
      var start := BinStart(i, |magnitudes|);
      var end := BinStart(i + 1, |magnitudes|);
      var sum := SumRange(magnitudes, start, end);
      assert sum / ((end - start) as real) == BinMean(magnitudes, i);
      mfccs := mfccs + [sum / ((end - start) as real)];
    }
    assert mfccs == MfccOf(magnitudes);
    return Ok(mfccs);
  }

  /** Non-negative magnitudes give non-negative MFCC values. */
  lemma MfccNonNegative(magnitudes: seq<real>)
    requires |magnitudes| >= NumFilters
    requires forall j :: 0 <= j < |magnitudes| ==> magnitudes[j] >= 0.0
    ensures forall i :: 0 <= i < NumFilters ==> MfccOf(magnitudes)[i] >= 0.0
  {
    forall i | 0 <= i < NumFilters
      ensures BinMean(magnitudes, i) >= 0.0
    {
      BinBounds(i, |magnitudes|);
      var start, end := BinStart(i, |magnitudes|), BinStart(i + 1, |magnitudes|);
      SumNonNegative(magnitudes[start..end]);
    }
  }

  // ---------------------------------------------------------------- spectral centroid

  /** `weightedSum`: the sum of i * magnitudes[i]. */
  function WeightedSum(magnitudes: seq<real>): real
  {
    if |magnitudes| == 0 then 0.0
    else WeightedSum(magnitudes[..|magnitudes| - 1])
         + ((|magnitudes| - 1) as real) * magnitudes[|magnitudes| - 1]
  }

  /** The value `calculateSpectralCentroid` returns for these magnitudes. */
  function Centroid(magnitudes: seq<real>): real
  {
    if Sum(magnitudes) == 0.0 then 0.0 else WeightedSum(magnitudes) / Sum(magnitudes)
  }

  /** `calculateSpectralCentroid`: one loop accumulating both sums. */
  method CalculateSpectralCentroid(frame: seq<real>, math: MathLib) returns (r: Result<real>)
    ensures r.Err? <==> |frame| % 2 == 1
    ensures r.Ok? ==> r.value == Centroid(Magnitudes(frame, math))
  {
    var fft := SimpleFFT(frame, math);
    if fft.Err? {
      return Err(fft.message);
    }
    var magnitudes := fft.value;
    var weightedSum, sum := 0.0, 0.0;
    for i := 0 to |magnitudes|
      invariant weightedSum == WeightedSum(magnitudes[..i]) && sum == Sum(magnitudes[..i])
    {
      PrefixSumsStep(magnitudes, i);
      weightedSum := weightedSum + (i as real) * magnitudes[i];
      sum := sum + magnitudes[i];
    }
    assert magnitudes[..|magnitudes|] == magnitudes;
    return Ok(if sum == 0.0 then 0.0 else weightedSum / sum);
  }

  /** Extending the prefix by `m[i]` adds `i * m[i]` to the weighted sum and
      `m[i]` to the sum. */
  lemma PrefixSumsStep(m: seq<real>, i: nat)
    requires i < |m|
    ensures WeightedSum(m[..i + 1]) == WeightedSum(m[..i]) + (i as real) * m[i]
    ensures Sum(m[..i + 1]) == Sum(m[..i]) + m[i]
  {
    var p := m[..i + 1];
    assert p[..|p| - 1] == m[..i];
    assert |p| - 1 == i && p[|p| - 1] == m[i];
  }

  /** For non-negative magnitudes the weighted sum lies between 0 and
      (m - 1) times the plain sum. */
  lemma {:induction false} WeightedSumBounds(magnitudes: seq<real>)
    requires forall j :: 0 <= j < |magnitudes| ==> magnitudes[j] >= 0.0
    ensures 0.0 <= WeightedSum(magnitudes)
    ensures WeightedSum(magnitudes) <= ((|magnitudes| as real) - 1.0) * Sum(magnitudes)
    decreases |magnitudes|
  {
    if |magnitudes| > 0 {
      var init := magnitudes[..|magnitudes| - 1];
      var x := magnitudes[|magnitudes| - 1];
      var k := (|magnitudes| - 1) as real;
      WeightedSumBounds(init);
      SumNonNegative(init);
      ProductNonNegative(k, x);
      assert (k - 1.0) * Sum(init) == k * Sum(init) - Sum(init);
      assert k * (Sum(init) + x) == k * Sum(init) + k * x;
    }
  }

  /** The centroid is 0 when the spectrum is silent and otherwise, for
      non-negative magnitudes, a position in [0, m - 1]. */
  lemma CentroidBounds(magnitudes: seq<real>)
    requires forall j :: 0 <= j < |magnitudes| ==> magnitudes[j] >= 0.0
    ensures Sum(magnitudes) == 0.0 ==> Centroid(magnitudes) == 0.0
    ensures 0.0 <= Centroid(magnitudes)
    ensures |magnitudes| > 0 ==> Centroid(magnitudes) <= (|magnitudes| - 1) as real
  {
    WeightedSumBounds(magnitudes);
    SumNonNegative(magnitudes);
    var s, w := Sum(magnitudes), WeightedSum(magnitudes);
    if s != 0.0 {
      var k := (|magnitudes| as real) - 1.0;
      var c := w / s;
      assert c * s == w;
      FactorNonNegative(s, c);
      assert s * (k - c) == k * s - w;
      FactorNonNegative(s, k - c);
    }
  }

  // ---------------------------------------------------------------- RMS

  /** The value `calculateRMS` returns: the root of the mean square. */
  function Rms(frame: seq<real>, sqrt: real -> real): real
    requires |frame| > 0
  {
    sqrt(Dot(frame, frame) / (|frame| as real))
  }

  /** `calculateRMS`. An empty frame would give the square root of 0 / 0 (NaN);
      every frame voiceService makes has 512 samples. */
  method CalculateRms(frame: seq<real>, sqrt: real -> real) returns (r: real)
    requires |frame| > 0
    ensures r == Rms(frame, sqrt)
  {
    var sum := 0.0;
    for i := 0 to |frame|
      invariant sum == Dot(frame[..i], frame[..i])
    {
      assert frame[..i + 1][..i] == frame[..i];
      sum := sum + frame[i] * frame[i];
    }
    assert frame[..|frame|] == frame;
    r := sqrt(sum / (|frame| as real));
  }

  /** The RMS is non-negative, its square is the mean square, and it is 0
      exactly for a silent frame. */
  lemma RmsProperties(frame: seq<real>, sqrt: real -> real)
    requires |frame| > 0 && IsSqrt(sqrt)
    ensures Rms(frame, sqrt) >= 0.0
    ensures Rms(frame, sqrt) * Rms(frame, sqrt) * (|frame| as real) == Dot(frame, frame)
    ensures Rms(frame, sqrt) == 0.0 <==> forall i :: 0 <= i < |frame| ==> frame[i] == 0.0
  {
    DotSelfNonNegative(frame);
    DotSelfZero(frame);
    var n := |frame| as real;
    var mean := Dot(frame, frame) / n;
    assert mean * n == Dot(frame, frame);
    FactorNonNegative(n, mean);
    var r := sqrt(mean);
    assert r * r == mean;
    Square(r);
    if mean == 0.0 {
      SqrtZero(sqrt);
    }
  }

  // ---------------------------------------------------------------- zero crossing rate

  /** The test in `calculateZCR`: one sample is negative and the other is not. */
  predicate SignChange(previous: real, current: real) {
    (current >= 0.0 && previous < 0.0) || (current < 0.0 && previous >= 0.0)
  }

  /** The number of adjacent pairs whose signs differ. */
  function Crossings(frame: seq<real>): nat
  {
    if |frame| < 2 then 0
    else Crossings(frame[..|frame| - 1]) + (if SignChange(frame[|frame| - 2], frame[|frame| - 1]) then 1 else 0)
  }

  /** The value `calculateZCR` returns. */
  function Zcr(frame: seq<real>): real
    requires |frame| > 0
  {
    (Crossings(frame) as real) / (|frame| as real)
  }

  /** `calculateZCR`: counts sign changes and divides by the frame length. An
      empty frame would give 0 / 0 (NaN); voiceService's frames have 512. */
  method CalculateZcr(frame: seq<real>) returns (r: real)
    requires |frame| > 0
    ensures r == Zcr(frame)
  {
    var zcr := 0;
    for i := 1 to |frame|
      invariant zcr == Crossings(frame[..i])
    {
      assert frame[..i + 1][..i] == frame[..i];
      if (frame[i] >= 0.0 && frame[i - 1] < 0.0) || (frame[i] < 0.0 && frame[i - 1] >= 0.0) {
        zcr := zcr + 1;
      }
    }
    assert frame[..|frame|] == frame;
    r := (zcr as real) / (|frame| as real);
  }

  /** At most one crossing per adjacent pair. */
  lemma {:induction false} CrossingsBound(frame: seq<real>)
    requires |frame| > 0
    ensures Crossings(frame) <= |frame| - 1
    decreases |frame|
  {
    if |frame| >= 2 {
      CrossingsBound(frame[..|frame| - 1]);
    }
  }

  /** The rate lies in [0, (len - 1) / len]. */
  lemma ZcrBounds(frame: seq<real>)
    requires |frame| > 0
    ensures 0.0 <= Zcr(frame) <= ((|frame| - 1) as real) / (|frame| as real)
  {
    CrossingsBound(frame);
    var n := |frame| as real;
    DivideMonotone(0.0, Crossings(frame) as real, n);
    DivideMonotone(Crossings(frame) as real, (|frame| - 1) as real, n);
  }

  /** A frame whose samples all have the same sign has no crossing. */
  lemma {:induction false} SameSignNoCrossings(frame: seq<real>)
    requires (forall i :: 0 <= i < |frame| ==> frame[i] >= 0.0) || (forall i :: 0 <= i < |frame| ==> frame[i] < 0.0)
    ensures Crossings(frame) == 0
    decreases |frame|
  {
    if |frame| >= 2 {
      var init := frame[..|frame| - 1];
      assert forall i :: 0 <= i < |init| ==> init[i] == frame[i];
      SameSignNoCrossings(init);
    }
  }

  /** The count depends only on which samples are negative. */
  lemma {:induction false} CrossingsSignInvariant(a: seq<real>, b: seq<real>)
    requires |a| == |b|
    requires forall i :: 0 <= i < |a| ==> (a[i] < 0.0 <==> b[i] < 0.0)
    ensures Crossings(a) == Crossings(b)
    decreases |a|
  {
    if |a| >= 2 {
      var a', b' := a[..|a| - 1], b[..|b| - 1];
      assert forall i :: 0 <= i < |a'| ==> a'[i] == a[i] && b'[i] == b[i];
      CrossingsSignInvariant(a', b');
    }
  }

  /** Peak normalisation (audioUtils) keeps every sign, so it does not change
      the zero crossing rate. */
  lemma ZcrUnchangedByNormalization(xs: seq<real>)
    requires |xs| > 0
    ensures |AudioUtils.Normalized(xs)| == |xs|
    ensures Zcr(AudioUtils.Normalized(xs)) == Zcr(xs)
  {
    AudioUtils.NormalizedInUnitRange(xs);
    CrossingsSignInvariant(AudioUtils.Normalized(xs), xs);
  }

  // ---------------------------------------------------------------- flattenFeatures

  /** A frame's features as the object literal `{mfcc, spectralCentroid, rms, zcr}`. */
  function AsObject(f: FrameFeatures): (o: JsObject)
    ensures Numeric(o) && |o| == 4
  {
    [("mfcc", Arr(f.mfcc)), ("spectralCentroid", Num(f.spectralCentroid)), ("rms", Num(f.rms)), ("zcr", Num(f.zcr))]
  }

  function AsObjects(features: seq<FrameFeatures>): (objs: seq<JsObject>)
    ensures |objs| == |features| && AllNumeric(objs)
    ensures forall k :: 0 <= k < |features| ==> objs[k] == AsObject(features[k])
  {
    seq(|features|, k requires 0 <= k < |features| => AsObject(features[k]))
  }

  /** `flattenFeatures`: the same push loop as `createEmbedding`, over the frame
      objects. */
  method FlattenFeatures(features: seq<FrameFeatures>) returns (flattened: seq<real>)
    ensures flattened == Flatten(AsObjects(features))
  {
    flattened := CreateEmbedding(AsObjects(features));
  }

  /** One frame flattens to its 13 MFCC values, then centroid, RMS and ZCR. */
  lemma FrameItems(f: FrameFeatures)
    ensures ObjectItems(AsObject(f)) == f.mfcc + [f.spectralCentroid, f.rms, f.zcr]
  {
    var o := AsObject(f);
    assert o[..3][..2] == o[..2] && o[..2][..1] == o[..1] && o[..1][..0] == [];
    assert ObjectItems(o[..1]) == f.mfcc;
    assert ObjectItems(o[..2]) == f.mfcc + [f.spectralCentroid];
    assert ObjectItems(o[..3]) == f.mfcc + [f.spectralCentroid, f.rms];
    assert o[..4] == o;
  }

  /** With 13 MFCC values per frame, the flattened vector has 16 numbers per
      frame, frame k occupying [16k, 16k + 16) in field order. */
  lemma {:induction false} FlattenFeaturesLayout(features: seq<FrameFeatures>)
    requires forall k :: 0 <= k < |features| ==> |features[k].mfcc| == NumFilters
    ensures |Flatten(AsObjects(features))| == 16 * |features|
    ensures forall k :: 0 <= k < |features| ==>
      Flatten(AsObjects(features))[16 * k .. 16 * k + 16]
        == features[k].mfcc + [features[k].spectralCentroid, features[k].rms, features[k].zcr]
    decreases |features|
  {
    if |features| > 0 {
      var n := |features|;
      var init := features[..n - 1];
      FlattenFeaturesLayout(init);
      assert AsObjects(features)[..n - 1] == AsObjects(init);
      var prefix := Flatten(AsObjects(init));
      var last := features[n - 1];
      FrameItems(last);
      var whole := Flatten(AsObjects(features));
      assert whole == prefix + (last.mfcc + [last.spectralCentroid, last.rms, last.zcr]);
      forall k | 0 <= k < n
        ensures whole[16 * k .. 16 * k + 16]
          == features[k].mfcc + [features[k].spectralCentroid, features[k].rms, features[k].zcr]
      {
        BlockOfAppend(prefix, last.mfcc + [last.spectralCentroid, last.rms, last.zcr], k);
        if k < n - 1 {
          assert init[k] == features[k];
        }
      }
    }
  }

  /** Block k of 16 in a concatenation whose front is k' whole blocks lies in
      the front when k < k', and is the back when k == k'. */
  lemma BlockOfAppend(front: seq<real>, back: seq<real>, k: nat)
    requires |front| % 16 == 0 && |back| == 16 && 16 * k <= |front|
    ensures (front + back)[16 * k .. 16 * k + 16]
      == if 16 * k < |front| then front[16 * k .. 16 * k + 16] else back
  {
  }

  /** Flattening the features of two recordings one after the other is
      flattening each and concatenating. */
  lemma FlattenFeaturesAppend(a: seq<FrameFeatures>, b: seq<FrameFeatures>)
    ensures Flatten(AsObjects(a + b)) == Flatten(AsObjects(a)) + Flatten(AsObjects(b))
  {
    assert AsObjects(a + b) == AsObjects(a) + AsObjects(b);
    FlattenAppend(AsObjects(a), AsObjects(b));
  }

  // ---------------------------------------------------------------- extractFeatures

  const DecodeFailure := "Failed to decode WAV file"

  /** `extractFeatures`: adds a WAV header unless the buffer starts with "RIFF",
      decodes it (`decode` stands for node-wav and gives the channels or throws),
      and extracts the features of the first channel. Every error is rethrown
      with the prefix "Feature extraction failed: ". */
  method ExtractFeatures(audioBuffer: seq<byte>, decode: seq<byte> -> Result<seq<seq<real>>>, math: MathLib)
    returns (r: Result<seq<FrameFeatures>>)
    ensures r == match decode(WavHeader.WithHeader(audioBuffer))
      case Err(m) => Err("Feature extraction failed: " + m)
      case Ok(channels) =>
        if |channels| == 0 then Err("Feature extraction failed: " + DecodeFailure)
        else Ok(FramesOf(channels[0], math))
  {
    var buffer := audioBuffer;
    if !WavHeader.StartsWithRiff(buffer) {
      buffer := WavHeader.AddWavHeaders(buffer);
    }
    assert buffer == WavHeader.WithHeader(audioBuffer);
    var result := decode(buffer);
    if result.Err? {
      return Err("Feature extraction failed: " + result.message);
    }
    if |result.value| == 0 {
      return Err("Feature extraction failed: " + DecodeFailure);
    }
    var features := ExtractAudioFeatures(result.value[0], math);
    r := Ok(features);
  }
}
