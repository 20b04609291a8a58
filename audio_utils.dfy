/** services/audioUtils.js: decoding 16-bit PCM and peak normalisation. */
module AudioUtils {
  import opened Common

  /** `Buffer.readInt16LE`: two bytes, low byte first, read as a two's-complement
      16-bit integer. */
  function Int16At(lo: byte, hi: byte): (v: int)
    ensures -32768 <= v <= 32767
  {
    var u := lo + 256 * hi;
    if u >= 32768 then u - 65536 else u
  }

  /** The two bytes that `Buffer.writeInt16LE` would store for a 16-bit value. */
  function Int16LE(v: int): (bytes: (byte, byte))
    requires -32768 <= v <= 32767
  {
    var u := if v < 0 then v + 65536 else v;
    (u % 256, u / 256)
  }

  /** Reading is the inverse of writing, in both directions: every byte pair is
      the encoding of exactly one 16-bit value. */
  lemma Int16RoundTrip(lo: byte, hi: byte, v: int)
    requires -32768 <= v <= 32767
    ensures Int16At(Int16LE(v).0, Int16LE(v).1) == v
    ensures Int16LE(Int16At(lo, hi)) == (lo, hi)
  {
  }

  /** The samples a buffer of even length decodes to. */
  function Samples(buffer: seq<byte>): (s: seq<int>)
    requires |buffer| % 2 == 0
    ensures |s| == |buffer| / 2
  {
    seq(|buffer| / 2, k requires 0 <= k < |buffer| / 2 => Int16At(buffer[2 * k], buffer[2 * k + 1]))
  }

  /** `bufferToInt16Array`: fills an Int16Array of length n/2 by index. For an
      odd length the last `readInt16LE(n - 1)` reads past the end and throws. */
  method BufferToInt16Array(buffer: seq<byte>) returns (r: Result<seq<int>>)
    ensures r.Err? <==> |buffer| % 2 == 1
    ensures r.Ok? ==> |r.value| == |buffer| / 2
    ensures r.Ok? ==> forall k :: 0 <= k < |r.value| ==>
      r.value[k] == Int16At(buffer[2 * k], buffer[2 * k + 1]) && -32768 <= r.value[k] <= 32767
  {
    var a := new int[|buffer| / 2];
    var i := 0;
    while i < |buffer|
      invariant 0 <= i <= |buffer| && i % 2 == 0
      invariant forall k :: 0 <= k < i / 2 ==> a[k] == Int16At(buffer[2 * k], buffer[2 * k + 1])
    {
      if i + 1 >= |buffer| {
        return Err("The value of \"offset\" is out of range.");
      }
      a[i / 2] := Int16At(buffer[i], buffer[i + 1]);
      i := i + 2;
    }
    r := Ok(a[..]);
  }

  // ---------------------------------------------------------------- normalisation

  function Abs(x: real): real {
    if x < 0.0 then -x else x
  }

  /** The running `maxVal` after scanning all of `xs`, starting from 0. */
  function MaxAbs(xs: seq<real>): real
  {
    if |xs| == 0 then 0.0
    else
      var m := MaxAbs(xs[..|xs| - 1]);
      if Abs(xs[|xs| - 1]) > m then Abs(xs[|xs| - 1]) else m
  }

  /** The largest absolute value bounds every sample and, unless it is 0, is
      the absolute value of one of them. */
  lemma {:induction false} MaxAbsIsMaximum(xs: seq<real>)
    ensures MaxAbs(xs) >= 0.0
    ensures forall i :: 0 <= i < |xs| ==> Abs(xs[i]) <= MaxAbs(xs)
    ensures MaxAbs(xs) == 0.0 || exists i :: 0 <= i < |xs| && Abs(xs[i]) == MaxAbs(xs)
    decreases |xs|
  {
    if |xs| > 0 {
      var init := xs[..|xs| - 1];
      MaxAbsIsMaximum(init);
      assert forall i :: 0 <= i < |init| ==> xs[i] == init[i];
    }
  }

  /** The result of `normalizeAudio`: the input itself when it is empty or all
      zero, otherwise every sample divided by the largest absolute value. */
  function Normalized(xs: seq<real>): seq<real>
  {
    if |xs| == 0 || MaxAbs(xs) == 0.0 then xs
    else seq(|xs|, i requires 0 <= i < |xs| => xs[i] / MaxAbs(xs))
  }

  /** `normalizeAudio`: a first loop keeps the running maximum of |x|, a second
      writes x / max element by element. */
  method NormalizeAudio(xs: seq<real>) returns (r: seq<real>)
    ensures r == Normalized(xs)
    ensures |r| == |xs|
    ensures (forall i :: 0 <= i < |xs| ==> xs[i] == 0.0) ==> r == xs
    ensures forall i :: 0 <= i < |r| ==> -1.0 <= r[i] <= 1.0 || r == xs
  {
    if |xs| == 0 {
      return xs;
    }
    var maxVal := 0.0;
    var i := 0;
    while i < |xs|
      invariant 0 <= i <= |xs|
      invariant maxVal == MaxAbs(xs[..i])
    {
      assert xs[..i + 1][..i] == xs[..i];
      var absVal := Abs(xs[i]);
      if absVal > maxVal {
        maxVal := absVal;
      }
      i := i + 1;
    }
    assert xs[..|xs|] == xs;
    MaxAbsIsMaximum(xs);
    if maxVal == 0.0 {
      return xs;
    }
    var normalized := new real[|xs|];
    i := 0;
    while i < |xs|
      invariant 0 <= i <= |xs|
      invariant forall k :: 0 <= k < i ==> normalized[k] == xs[k] / maxVal
    {
      normalized[i] := xs[i] / maxVal;
      i := i + 1;
    }
    r := normalized[..];
    NormalizedInUnitRange(xs);
  }

  /** Every normalised sample lies in [-1, 1] and keeps the sign of its input. */
  lemma NormalizedInUnitRange(xs: seq<real>)
    ensures |Normalized(xs)| == |xs|
    ensures forall i :: 0 <= i < |xs| ==> -1.0 <= Normalized(xs)[i] <= 1.0 || Normalized(xs) == xs
    ensures forall i :: 0 <= i < |xs| ==>
      (Normalized(xs)[i] > 0.0 <==> xs[i] > 0.0) && (Normalized(xs)[i] < 0.0 <==> xs[i] < 0.0)
  {
    MaxAbsIsMaximum(xs);
    if |xs| > 0 && MaxAbs(xs) != 0.0 {
      var m := MaxAbs(xs);
      forall i | 0 <= i < |xs|
        ensures -1.0 <= xs[i] / m <= 1.0
        ensures (xs[i] / m > 0.0 <==> xs[i] > 0.0) && (xs[i] / m < 0.0 <==> xs[i] < 0.0)
      {
        assert Abs(xs[i]) <= m;
        DivBounds(xs[i], m);
      }
    }
  }

  lemma DivBounds(x: real, m: real)
    requires m > 0.0 && -m <= x <= m
    ensures -1.0 <= x / m <= 1.0
    ensures (x / m > 0.0 <==> x > 0.0) && (x / m < 0.0 <==> x < 0.0)
  {
    assert x / m * m == x;
  }

  /** A normalised non-zero signal reaches full scale: some sample is exactly
      1 or -1. */
  lemma NormalizedReachesFullScale(xs: seq<real>)
    requires exists i :: 0 <= i < |xs| && xs[i] != 0.0
    ensures exists i :: 0 <= i < |xs| && Abs(Normalized(xs)[i]) == 1.0
  {
    MaxAbsIsMaximum(xs);
    var m := MaxAbs(xs);
    var j :| 0 <= j < |xs| && xs[j] != 0.0;
    assert 0.0 < Abs(xs[j]) <= m;
    var i :| 0 <= i < |xs| && Abs(xs[i]) == m;
    FullScaleAt(xs[i], m);
    assert Normalized(xs)[i] == xs[i] / m;
  }

  lemma FullScaleAt(x: real, m: real)
    requires m > 0.0 && Abs(x) == m
    ensures Abs(x / m) == 1.0
  {
    if x < 0.0 {
      assert x / m == -1.0;
    } else {
      assert x / m == 1.0;
    }
  }

  /** Normalising twice is normalising once. */
  lemma NormalizeIdempotent(xs: seq<real>)
    ensures Normalized(Normalized(xs)) == Normalized(xs)
  {
    var n := Normalized(xs);
    if |xs| > 0 && MaxAbs(xs) != 0.0 {
      MaxAbsIsMaximum(xs);
      var j :| 0 <= j < |xs| && Abs(xs[j]) == MaxAbs(xs);
      assert xs[j] != 0.0;
      NormalizedInUnitRange(xs);
      NormalizedReachesFullScale(xs);
      MaxAbsIsMaximum(n);
      var i :| 0 <= i < |n| && Abs(n[i]) == 1.0;
      assert MaxAbs(n) == 1.0;
      assert Normalized(n) == n;
    }
  }
}
